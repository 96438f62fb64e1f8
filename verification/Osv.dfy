/** How the records of one vulnerable package become findings
    (backend/src/agents/scanner.rs:1387-1699). */
module Osv {
  import opened Text

  datatype Severity = Unknown | Low | Medium | High | Critical

  /** An affected package: per range, the fixed version of each event. */
  datatype Affected = Affected(name: string, ranges: seq<seq<Option<string>>>)

  datatype Vuln = Vuln(id: string, aliases: seq<string>, severity: Option<Severity>, affected: seq<Affected>)

  datatype Package = Package(name: string, version: string, ecosystem: string)

  datatype PackageResult = PackageResult(package: Package, vulns: seq<Vuln>, groups: seq<seq<string>>)

  datatype Finding = Finding(primary: string, aliases: seq<string>, severity: Severity, fixed: seq<string>, payload: string)

  // ---- text in order -------------------------------------------------------------------------

  predicate Less(a: string, b: string) {
    b != "" && (a == "" || a[0] < b[0] || (a[0] == b[0] && Less(a[1..], b[1..])))
  }

  predicate Ascending(s: seq<string>) { forall i, j :: 0 <= i < j < |s| ==> Less(s[i], s[j]) }

  lemma {:induction false} LessIsTotal(a: string, b: string)
    ensures Less(a, b) || a == b || Less(b, a)
    ensures !(Less(a, b) && Less(b, a)) && !Less(a, a)
  {
    if a != "" && b != "" {
      LessIsTotal(a[1..], b[1..]);
      assert a == [a[0]] + a[1..] && b == [b[0]] + b[1..];
    }
    if a != "" {
      LessIsTotal(a[1..], a[1..]);
    }
  }

  lemma {:induction false} LessIsTransitive(a: string, b: string, c: string)
    requires Less(a, b) && Less(b, c)
    ensures Less(a, c)
  {
    if a != "" && a[0] == b[0] && b[0] == c[0] {
      LessIsTransitive(a[1..], b[1..], c[1..]);
    }
  }

  /** One text comes before another when it is a proper beginning of it, or has the
      smaller letter at the first place where they differ. */
  lemma {:induction false} LessExactly(a: string, b: string)
    ensures Less(a, b) <==>
              exists k: nat :: k < |b| && k <= |a| && a[..k] == b[..k] && (k == |a| || a[k] < b[k])
  {
    if a != "" && b != "" && a[0] == b[0] {
      LessExactly(a[1..], b[1..]);
      if k: nat :| k < |b| && k <= |a| && a[..k] == b[..k] && (k == |a| || a[k] < b[k]) {
        assert k > 0;
        assert a[1..][..k - 1] == a[..k][1..] && b[1..][..k - 1] == b[..k][1..];
      }
      if k: nat :| k < |b[1..]| && k <= |a[1..]| && a[1..][..k] == b[1..][..k] && (k == |a[1..]| || a[1..][k] < b[1..][k]) {
        assert a[..k + 1] == [a[0]] + a[1..][..k] && b[..k + 1] == [b[0]] + b[1..][..k];
      }
    } else if b != "" {
      assert a[..0] == b[..0];
      forall k: nat | 0 < k < |b| && k <= |a| && a[..k] == b[..k]
        ensures a[0] == b[0]
      {
        FirstAlike(a, b, k);
      }
    }
  }

  lemma FirstAlike(a: string, b: string, k: nat)
    requires 0 < k <= |a| && k <= |b| && a[..k] == b[..k]
    ensures a[0] == b[0]
  {
    assert a[..k][0] == a[0] && b[..k][0] == b[0];
  }

  /** A value put in its place, once. */
  function Insert(x: string, s: seq<string>): seq<string> {
    if s == [] then [x]
    else if Less(x, s[0]) then [x] + s
    else if x == s[0] then s
    else [s[0]] + Insert(x, s[1..])
  }

  /** Sorted and without repetitions, as `sort` and `dedup` leave a vector. */
  function SortedSet(s: seq<string>): seq<string> {
    if s == [] then [] else Insert(s[0], SortedSet(s[1..]))
  }

  function Elements(s: seq<string>): set<string> { set x | x in s }

  lemma {:induction false} InsertAdds(x: string, s: seq<string>)
    ensures Elements(Insert(x, s)) == Elements(s) + {x}
  {
    if s != [] && !Less(x, s[0]) && x != s[0] {
      InsertAdds(x, s[1..]);
      HeadAndRest(s);
      HeadAndRest([s[0]] + Insert(x, s[1..]));
    }
  }

  lemma HeadAndRest(s: seq<string>)
    requires s != []
    ensures Elements(s) == {s[0]} + Elements(s[1..])
  {
    assert s == [s[0]] + s[1..];
  }

  lemma LessThanAll(x: string, s: seq<string>)
    requires Ascending(s) && (s != [] ==> Less(x, s[0]))
    ensures Ascending([x] + s)
  {
    forall j | 0 <= j < |s|
      ensures Less(x, s[j])
    {
      if j > 0 {
        LessIsTransitive(x, s[0], s[j]);
      }
    }
  }

  lemma {:induction false} InsertKeepsOrder(x: string, s: seq<string>)
    requires Ascending(s)
    ensures Ascending(Insert(x, s))
    ensures s != [] && Less(s[0], x) ==> Insert(x, s)[0] == s[0]
  {
    if s == [] {
    } else if Less(x, s[0]) {
      LessIsTotal(x, s[0]);
      LessThanAll(x, s);
    } else if x != s[0] {
      LessIsTotal(x, s[0]);
      InsertKeepsOrder(x, s[1..]);
      var rest := Insert(x, s[1..]);
      assert rest[0] == x || rest[0] == s[1];
      LessThanAll(s[0], rest);
    }
  }

  lemma {:induction false} SortedSetIsSorted(s: seq<string>)
    ensures Ascending(SortedSet(s)) && Elements(SortedSet(s)) == Elements(s)
  {
    if s != [] {
      SortedSetIsSorted(s[1..]);
      InsertKeepsOrder(s[0], SortedSet(s[1..]));
      InsertAdds(s[0], SortedSet(s[1..]));
      HeadAndRest(s);
    }
  }

  /** There is one ascending list of a set. */
  lemma {:induction false} AscendingIsUnique(s: seq<string>, t: seq<string>)
    requires Ascending(s) && Ascending(t) && Elements(s) == Elements(t)
    ensures s == t
  {
    NoElements(s);
    NoElements(t);
    if s != [] && t != [] {
      FirstIsLeast(s, t[0]);
      FirstIsLeast(t, s[0]);
      LessIsTotal(s[0], t[0]);
      assert s[0] in Elements(s) && t[0] in Elements(t);
      RestOfAscending(s);
      RestOfAscending(t);
      AscendingIsUnique(s[1..], t[1..]);
      assert s == [s[0]] + s[1..] && t == [t[0]] + t[1..];
    }
  }

  lemma NoElements(s: seq<string>)
    ensures Elements(s) == {} <==> s == []
  {
    if s != [] {
      HeadAndRest(s);
    }
  }

  lemma FirstIsLeast(s: seq<string>, x: string)
    requires Ascending(s) && s != [] && x in Elements(s)
    ensures s[0] == x || Less(s[0], x)
  {
  }

  lemma RestOfAscending(s: seq<string>)
    requires Ascending(s) && s != []
    ensures Ascending(s[1..]) && Elements(s[1..]) == Elements(s) - {s[0]}
  {
    LessIsTotal(s[0], s[0]);
    forall x | x in Elements(s) && x != s[0]
      ensures x in Elements(s[1..])
    {
      var i :| 0 <= i < |s| && s[i] == x;
      assert s[1..][i - 1] == x;
    }
  }

  // ---- what a group says -----------------------------------------------------------------------

  predicate Concerns(entry: Affected, pkg: Package) { entry.name == "" || entry.name == pkg.name }

  predicate FixedIn(entry: Affected, f: string) {
    exists range | range in entry.ranges :: Some(f) in range
  }

  /** A record says that version `f` of the package is fixed. */
  predicate Fixes(records: seq<Vuln>, pkg: Package, f: string) {
    f != "" && exists r | r in records :: exists e | e in r.affected :: Concerns(e, pkg) && FixedIn(e, f)
  }

  /** Another name for the group's vulnerability: a later id of the group, or an alias
      of a record, that is not blank and not the primary. */
  predicate IsAlias(ids: seq<string>, records: seq<Vuln>, primary: string, a: string) {
    && a != primary && Trim(a) != ""
    && ((ids != [] && a in ids[1..]) || exists r | r in records :: a in r.aliases)
  }

  function Rank(s: Severity): nat {
    match s
    case Critical => 4
    case High => 3
    case Medium => 2
    case Low => 1
    case Unknown => 0
  }

  /** The highest severity that a record states. */
  ghost predicate IsWorst(records: seq<Vuln>, s: Severity) {
    && (forall r :: r in records && r.severity.Some? ==> Rank(r.severity.value) <= Rank(s))
    && (s == Unknown || exists r | r in records :: r.severity == Some(s))
  }

  predicate States(records: seq<Vuln>, s: Severity) { exists r | r in records :: r.severity == Some(s) }

  /** The worst severity, level by level. */
  lemma WorstByName(records: seq<Vuln>, s: Severity)
    ensures IsWorst(records, s) <==>
              s == (if States(records, Critical) then Critical
                    else if States(records, High) then High
                    else if States(records, Medium) then Medium
                    else if States(records, Low) then Low
                    else Unknown)
  {
    assert forall r :: r in records && r.severity.Some? ==> States(records, r.severity.value);
  }

  // ---- the methods -----------------------------------------------------------------------------

  /** Adds the fixed versions of one entry that are not there yet. */
  method AddFixed(entry: Affected, seen: seq<string>) returns (fixed: seq<string>)
    ensures forall f :: f in fixed <==> f in seen || (f != "" && FixedIn(entry, f))
  {
    fixed := seen;
    for i := 0 to |entry.ranges|
      invariant forall f :: f in fixed <==>
                  f in seen || (f != "" && exists range | range in entry.ranges[..i] :: Some(f) in range)
    {
      var before := fixed;
      var range := entry.ranges[i];
      for k := 0 to |range|
        invariant forall f :: f in fixed <==> f in before || (f != "" && Some(f) in range[..k])
      {
        if range[k].Some? && range[k].value != "" && range[k].value !in fixed {
          fixed := fixed + [range[k].value];
        }
        assert range[..k + 1] == range[..k] + [range[k]];
      }
      assert range[..|range|] == range;
      assert entry.ranges[..i + 1] == entry.ranges[..i] + [range];
    }
    assert entry.ranges[..|entry.ranges|] == entry.ranges;
  }

  /** The fixed versions of the entries about the package. */
  predicate EntriesFix(entries: seq<Affected>, pkg: Package, f: string) {
    f != "" && exists e | e in entries :: Concerns(e, pkg) && FixedIn(e, f)
  }

  method AddEntries(entries: seq<Affected>, pkg: Package, seen: seq<string>) returns (fixed: seq<string>)
    ensures forall f :: f in fixed <==> f in seen || EntriesFix(entries, pkg, f)
  {
    fixed := seen;
    for i := 0 to |entries|
      invariant forall f :: f in fixed <==> f in seen || EntriesFix(entries[..i], pkg, f)
    {
      assert entries[..i + 1] == entries[..i] + [entries[i]];
      if entries[i].name != "" && entries[i].name != pkg.name {
        continue;
      }
      fixed := AddFixed(entries[i], fixed);
    }
    assert entries[..|entries|] == entries;
  }

  /** The fixed versions of `osv_affected_fixed`: every one once, in order. */
  method AffectedFixed(records: seq<Vuln>, pkg: Package) returns (fixed: seq<string>)
    ensures Ascending(fixed) && forall f :: f in fixed <==> Fixes(records, pkg, f)
  {
    fixed := [];
    for i := 0 to |records|
      invariant forall f :: f in fixed <==> Fixes(records[..i], pkg, f)
    {
      fixed := AddEntries(records[i].affected, pkg, fixed);
      assert records[..i + 1] == records[..i] + [records[i]];
      assert forall f :: Fixes(records[..i + 1], pkg, f) <==>
                           Fixes(records[..i], pkg, f) || EntriesFix(records[i].affected, pkg, f);
    }
    assert records[..|records|] == records;
    SortedSetIsSorted(fixed);
    assert forall f :: f in fixed <==> f in Elements(fixed);
    assert forall f :: f in SortedSet(fixed) <==> f in Elements(SortedSet(fixed));
    fixed := SortedSet(fixed);
  }

  method GroupAliases(ids: seq<string>, records: seq<Vuln>, primary: string) returns (aliases: seq<string>)
    ensures Ascending(aliases) && forall a :: a in aliases <==> IsAlias(ids, records, primary, a)
  {
    var found: seq<string> := if ids == [] then [] else ids[1..];
    ghost var rest := found;
    for i := 0 to |records|
      invariant forall a :: a in found <==> a in rest || exists r | r in records[..i] :: a in r.aliases
    {
      found := found + records[i].aliases;
      assert records[..i + 1] == records[..i] + [records[i]];
    }
    assert records[..|records|] == records;
    var kept := Kept(found, primary);
    SortedSetIsSorted(kept);
    assert forall a :: a in kept <==> a in Elements(kept);
    assert forall a :: a in SortedSet(kept) <==> a in Elements(SortedSet(kept));
    aliases := SortedSet(kept);
  }

  function Kept(s: seq<string>, primary: string): (r: seq<string>)
    ensures forall a :: a in r <==> a in s && a != primary && Trim(a) != ""
  {
    if s == [] then []
    else (if s[0] != primary && Trim(s[0]) != "" then [s[0]] else []) + Kept(s[1..], primary)
  }

  method WorstSeverity(records: seq<Vuln>) returns (worst: Severity)
    ensures IsWorst(records, worst)
  {
    worst := Unknown;
    for i := 0 to |records|
      invariant IsWorst(records[..i], worst)
    {
      assert records[..i + 1] == records[..i] + [records[i]];
      match records[i].severity {
        case Some(s) =>
          if Rank(s) >= Rank(worst) {
            worst := s;
          }
        case None =>
      }
    }
    assert records[..|records|] == records;
  }

  /** What is hashed into the fingerprint of a finding. */
  function Payload(advisory: string, pkg: Package, manifest: string): string {
    Glue("osv", '|', Glue(advisory, '|', Glue(pkg.ecosystem, '|', Glue(pkg.name, '|', Glue(pkg.version, '|', manifest)))))
  }

  lemma PayloadSpelled(advisory: string, pkg: Package, manifest: string)
    ensures Payload(advisory, pkg, manifest)
         == "osv|" + advisory + "|" + pkg.ecosystem + "|" + pkg.name + "|" + pkg.version + "|" + manifest
  {
    var tail := pkg.name + "|" + pkg.version + "|" + manifest;
    assert Glue(pkg.name, '|', Glue(pkg.version, '|', manifest)) == tail;
    assert Glue(pkg.ecosystem, '|', tail) == pkg.ecosystem + "|" + tail;
    assert "osv" + ['|'] == "osv|";
  }

  /** A finding says of its group what the records say, each thing once and in order. */
  ghost predicate Merges(ids: seq<string>, records: seq<Vuln>, pkg: Package, manifest: string, f: Finding) {
    && f.primary == (if ids == [] then "" else ids[0])
    && Ascending(f.aliases) && (forall a :: a in f.aliases <==> IsAlias(ids, records, f.primary, a))
    && Ascending(f.fixed) && (forall v :: v in f.fixed <==> Fixes(records, pkg, v))
    && IsWorst(records, f.severity)
    && f.payload == Payload(f.primary, pkg, manifest)
  }

  /** `osv_group_finding`. */
  method GroupFinding(ids: seq<string>, records: seq<Vuln>, pkg: Package, manifest: string) returns (f: Finding)
    ensures Merges(ids, records, pkg, manifest, f)
  {
    var primary := if ids == [] then "" else ids[0];
    var aliases := GroupAliases(ids, records, primary);
    var severity := WorstSeverity(records);
    var fixed := AffectedFixed(records, pkg);
    f := Finding(primary, aliases, severity, fixed, Payload(primary, pkg, manifest));
  }

  /** A merge does not depend on the order or the repetition of the records, nor on
      the order of the group's other ids. */
  lemma MergeIgnoresOrder(ids: seq<string>, records: seq<Vuln>, others: seq<string>, shuffled: seq<Vuln>,
                          pkg: Package, manifest: string, f: Finding, g: Finding)
    requires Merges(ids, records, pkg, manifest, f) && Merges(others, shuffled, pkg, manifest, g)
    requires forall r :: r in records <==> r in shuffled
    requires ids != [] && others != [] && ids[0] == others[0] && forall x :: x in ids[1..] <==> x in others[1..]
    ensures f == g
  {
    SameElements(f.aliases, g.aliases);
    SameElements(f.fixed, g.fixed);
  }

  lemma SameElements(s: seq<string>, t: seq<string>)
    requires Ascending(s) && Ascending(t) && forall x :: x in s <==> x in t
    ensures s == t
  {
    assert Elements(s) == Elements(t);
    AscendingIsUnique(s, t);
  }

  // ---- a package -------------------------------------------------------------------------------

  /** The record of an id: the last one with it. */
  function Lookup(vulns: seq<Vuln>, id: string): Option<Vuln> {
    if vulns == [] then None
    else if vulns[|vulns| - 1].id == id then Some(vulns[|vulns| - 1])
    else Lookup(vulns[..|vulns| - 1], id)
  }

  function Records(vulns: seq<Vuln>, ids: seq<string>): seq<Vuln> {
    if ids == [] then []
    else
      match Lookup(vulns, ids[0])
      case Some(v) => [v] + Records(vulns, ids[1..])
      case None => Records(vulns, ids[1..])
  }

  /** The alias groups, or each record alone when there are none. */
  function Groups(p: PackageResult): seq<seq<string>> {
    if p.groups == [] then seq(|p.vulns|, i requires 0 <= i < |p.vulns| => [p.vulns[i].id]) else p.groups
  }

  /** The `i`-th record, and the last with its id. */
  predicate Latest(vulns: seq<Vuln>, i: nat, r: Vuln) {
    i < |vulns| && vulns[i] == r && forall k :: i < k < |vulns| ==> vulns[k].id != r.id
  }

  /** The records of a group are the last ones with its ids. */
  lemma {:induction false} RecordsAreLatest(vulns: seq<Vuln>, ids: seq<string>, r: Vuln)
    ensures r in Records(vulns, ids) <==> r.id in ids && exists i :: Latest(vulns, i, r)
  {
    if ids != [] {
      LookupIsLatest(vulns, ids[0], r);
      RecordsAreLatest(vulns, ids[1..], r);
    }
  }

  lemma {:induction false} LookupIsLatest(vulns: seq<Vuln>, id: string, r: Vuln)
    ensures Lookup(vulns, id) == Some(r) <==> r.id == id && exists i :: Latest(vulns, i, r)
  {
    if vulns != [] {
      var last, rest := |vulns| - 1, vulns[..|vulns| - 1];
      LookupIsLatest(rest, id, r);
      if vulns[last].id == id {
        assert Latest(vulns, last, vulns[last]);
      } else {
        forall i: nat | r.id == id
          ensures Latest(vulns, i, r) <==> Latest(rest, i, r)
        {
        }
      }
    }
  }

  /** The records are those that are listed under one of the ids, each id's last. */
  ghost predicate RecordsOf(vulns: seq<Vuln>, ids: seq<string>, records: seq<Vuln>) {
    forall r :: r in records <==> r.id in ids && exists i :: Latest(vulns, i, r)
  }

  /** `osv_package_findings`: one finding per group, in order, merged from the group's
      listed records; a group of unknown ids is still a finding. */
  method PackageFindings(p: PackageResult, manifest: string) returns (findings: seq<Finding>)
    ensures |findings| == |Groups(p)|
    ensures forall i :: 0 <= i < |findings| ==>
              && RecordsOf(p.vulns, Groups(p)[i], Records(p.vulns, Groups(p)[i]))
              && Merges(Groups(p)[i], Records(p.vulns, Groups(p)[i]), p.package, manifest, findings[i])
  {
    findings := [];
    var groups := Groups(p);
    for i := 0 to |groups|
      invariant |findings| == i
      invariant forall k :: 0 <= k < i ==>
                  Merges(groups[k], Records(p.vulns, groups[k]), p.package, manifest, findings[k])
    {
      var f := GroupFinding(groups[i], Records(p.vulns, groups[i]), p.package, manifest);
      findings := findings + [f];
    }
    forall i | 0 <= i < |groups|
      ensures RecordsOf(p.vulns, groups[i], Records(p.vulns, groups[i]))
    {
      GroupRecords(p.vulns, groups[i]);
    }
  }

  lemma GroupRecords(vulns: seq<Vuln>, ids: seq<string>)
    ensures RecordsOf(vulns, ids, Records(vulns, ids))
  {
    forall r
      ensures r in Records(vulns, ids) <==> r.id in ids && exists i :: Latest(vulns, i, r)
    {
      RecordsAreLatest(vulns, ids, r);
    }
  }

  /** Which listed records reach a finding: the last of each id, and if the package has
      groups, only those that a group names. */
  lemma ReportedExactlyWhen(p: PackageResult, r: Vuln)
    ensures (exists g | g in Groups(p) :: r in Records(p.vulns, g)) <==>
              (exists i :: Latest(p.vulns, i, r)) && (p.groups == [] || exists g | g in p.groups :: r.id in g)
  {
    forall g | g in Groups(p)
      ensures r in Records(p.vulns, g) <==> r.id in g && exists i :: Latest(p.vulns, i, r)
    {
      RecordsAreLatest(p.vulns, g, r);
    }
    if p.groups == [] && exists i :: Latest(p.vulns, i, r) {
      var i: nat :| Latest(p.vulns, i, r);
      assert Groups(p)[i] == [r.id] && Groups(p)[i] in Groups(p);
    }
  }

  // ---- identity --------------------------------------------------------------------------------

  predicate Barless(advisory: string, p: Package) {
    '|' !in advisory && '|' !in p.ecosystem && '|' !in p.name && '|' !in p.version
  }

  /** Payloads are equal only for equal findings; the manifest's path may hold the
      separator, the other fields not. */
  lemma PayloadIsInjective(a: string, p: Package, m: string, b: string, q: Package, n: string)
    requires Barless(a, p) && Barless(b, q) && Payload(a, p, m) == Payload(b, q, n)
    ensures a == b && p == q && m == n
  {
    var v, w := Glue(p.version, '|', m), Glue(q.version, '|', n);
    var x, y := Glue(p.name, '|', v), Glue(q.name, '|', w);
    var s, t := Glue(p.ecosystem, '|', x), Glue(q.ecosystem, '|', y);
    FirstPieceIsUnique("osv", Glue(a, '|', s), "osv", Glue(b, '|', t), '|');
    FirstPieceIsUnique(a, s, b, t, '|');
    FirstPieceIsUnique(p.ecosystem, x, q.ecosystem, y, '|');
    FirstPieceIsUnique(p.name, v, q.name, w, '|');
    FirstPieceIsUnique(p.version, m, q.version, n, '|');
  }
}
