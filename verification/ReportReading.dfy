/** Reports as the scanners write them, read back: which key holds what
    (backend/src/agents/scanner.rs:621-880, 1340-1377 and 1387-1420). */
module ReportReading {
  import opened JsonValue
  import opened Report
  import opened Text
  import Osv
  import Scanner

  function Texts(ts: seq<string>): Json { Arr(Mapped(ts, (t: string) => Str(t))) }

  lemma TextsAreRead(ts: seq<string>)
    ensures Report.Texts(Some(Texts(ts))) == ts && Conforms(ListOf(Shape.Text), Texts(ts))
  {
    var items := Texts(ts).items;
    forall i | 0 <= i < |ts|
      ensures items[i] == Str(ts[i]) && Report.Texts(Some(Texts(ts)))[i] == ts[i]
    {
      MappedAt(ts, (t: string) => Str(t), i);
      MappedAt(items, (v: Json) => TextOf(Some(v)), i);
    }
  }

  /** A record conforms when each of its fields does. */
  lemma RecordConforms(slots: seq<Slot>, fields: seq<Field>)
    requires forall i :: 0 <= i < |slots| ==> FieldConforms(slots[i], Get(fields, slots[i].key))
    ensures Conforms(Record(slots), Obj(fields))
  {
  }

  lemma TextConforms(key: string, text: string)
    ensures FieldConforms(Given(key, Shape.Text), Some(Str(text)))
  {
  }

  lemma ListConforms(key: string, shape: Shape, items: seq<Json>)
    requires forall x :: x in items ==> Conforms(shape, x)
    ensures FieldConforms(Given(key, ListOf(shape)), Some(Arr(items)))
  {
  }

  lemma PartConforms(key: string, slots: seq<Slot>, v: Json)
    requires Conforms(Record(slots), v)
    ensures FieldConforms(Given(key, Record(slots)), Some(v))
  {
  }

  lemma LeftOut(key: string, shape: Shape)
    ensures FieldConforms(Given(key, shape), None)
  {
  }

  // ---- Semgrep -----------------------------------------------------------------------------------

  lemma LineIsRead(n: nat)
    requires n < 0x8000_0000_0000_0000
    ensures IntegerOf(Show(n)) == Some(n)
  {
    ShownIsRead(n);
    assert Show(n)[0] in Show(n);
  }

  function WrittenLine(n: nat): Json { Obj([Field("line", Number(Show(n)))]) }

  lemma PositionIsRead(n: nat)
    requires n < 0x8000_0000_0000_0000
    ensures NumberOf(Part(POSITION, WrittenLine(n), "line")) == n && Conforms(Record(POSITION), WrittenLine(n))
  {
    LineIsRead(n);
    GetAt(WrittenLine(n).fields, 0);
    GetNothing(WrittenLine(n).fields, "col");
  }

  function WrittenDetection(checkId: string, path: string, from: nat, to: nat): Json {
    Obj([Field("check_id", Str(checkId)), Field("path", Str(path)), Field("start", WrittenLine(from)), Field("end", WrittenLine(to))])
  }

  lemma DetectionFields(checkId: string, path: string, from: nat, to: nat)
    ensures var f := WrittenDetection(checkId, path, from, to).fields;
            && Get(f, "check_id") == Some(Str(checkId)) && Get(f, "path") == Some(Str(path))
            && Get(f, "start") == Some(WrittenLine(from)) && Get(f, "end") == Some(WrittenLine(to)) && Get(f, "extra") == None
  {
    var f := WrittenDetection(checkId, path, from, to).fields;
    assert |"check_id"| == 8 && |"path"| == 4 && |"start"| == 5 && |"end"| == 3 && "extra"[0] != "start"[0];
    GetAt(f, 0);
    GetAt(f, 1);
    GetAt(f, 2);
    GetAt(f, 3);
    GetNothing(f, "extra");
  }

  /** A written detection is read with its own rule, path and lines, and it is accepted
      when the rule and the path are not blank and the lines count from one, in order. */
  lemma DetectionIsRead(checkId: string, path: string, from: nat, to: nat)
    requires from < 0x8000_0000_0000_0000 && to < 0x8000_0000_0000_0000
    ensures var r := WrittenDetection(checkId, path, from, to);
            && Scanner.DetectionOf(r) == Scanner.Detection(checkId, path, from, to, r)
            && (Scanner.Located(Scanner.DetectionOf(r)) <==> Trim(checkId) != "" && Trim(path) != "" && 1 <= from <= to)
  {
    DetectionFields(checkId, path, from, to);
    PositionIsRead(from);
    PositionIsRead(to);
  }

  lemma PlaceConforms(key: string, n: nat)
    requires n < 0x8000_0000_0000_0000
    ensures FieldConforms(Given(key, Record(POSITION)), Some(WrittenLine(n)))
  {
    PositionIsRead(n);
  }

  lemma DetectionConforms(checkId: string, path: string, from: nat, to: nat)
    requires from < 0x8000_0000_0000_0000 && to < 0x8000_0000_0000_0000
    ensures Conforms(Record(DETECTION), WrittenDetection(checkId, path, from, to))
  {
    var f := WrittenDetection(checkId, path, from, to).fields;
    DetectionFields(checkId, path, from, to);
    TextConforms("check_id", checkId);
    TextConforms("path", path);
    PlaceConforms("start", from);
    PlaceConforms("end", to);
    LeftOut("extra", Record(EXTRA));
    RecordConforms(DETECTION, f);
  }

  function WrittenSemgrep(errors: seq<Json>, results: seq<Json>, scanned: seq<string>): Json {
    Obj([Field("errors", Arr(errors)), Field("results", Arr(results)), Field("paths", Obj([Field("scanned", Texts(scanned))]))])
  }

  lemma SemgrepFields(errors: seq<Json>, results: seq<Json>, scanned: seq<string>)
    ensures var f := WrittenSemgrep(errors, results, scanned).fields;
            && Get(f, "errors") == Some(Arr(errors)) && Get(f, "results") == Some(Arr(results))
            && Get(f, "paths") == Some(Obj([Field("scanned", Texts(scanned))])) && Get(f, "version") == None
            && Get([Field("scanned", Texts(scanned))], "scanned") == Some(Texts(scanned))
  {
    var f := WrittenSemgrep(errors, results, scanned).fields;
    assert |"errors"| == 6 && |"results"| == 7 && |"paths"| == 5 && |"version"| == 7 && "version"[0] != "results"[0];
    GetAt(f, 0);
    GetAt(f, 1);
    GetAt(f, 2);
    GetNothing(f, "version");
    GetAt([Field("scanned", Texts(scanned))], 0);
  }

  /** A written report is a result exactly when it has no errors and scanned something,
      and its detections are those of its results, in order. */
  lemma SemgrepIsRead(errors: seq<Json>, results: seq<Json>, scanned: seq<string>)
    requires forall e :: e in errors ==> Conforms(Record(SEMGREP_ERROR), e)
    requires forall r :: r in results ==> Conforms(Record(DETECTION), r)
    ensures var v := WrittenSemgrep(errors, results, scanned);
            && Scanner.SemgrepOf(v).results == Mapped(results, Scanner.DetectionOf)
            && (Scanner.IsSemgrepReport(v) <==> errors == [] && scanned != [])
  {
    SemgrepFields(errors, results, scanned);
    SemgrepConforms(errors, results, scanned);
    assert Scanner.SemgrepOf(WrittenSemgrep(errors, results, scanned)).scanned == Texts(scanned).items;
    assert |Texts(scanned).items| == |scanned|;
  }

  lemma SemgrepConforms(errors: seq<Json>, results: seq<Json>, scanned: seq<string>)
    requires forall e :: e in errors ==> Conforms(Record(SEMGREP_ERROR), e)
    requires forall r :: r in results ==> Conforms(Record(DETECTION), r)
    ensures Conforms(Record(SEMGREP), WrittenSemgrep(errors, results, scanned))
  {
    var f := WrittenSemgrep(errors, results, scanned).fields;
    SemgrepFields(errors, results, scanned);
    PathsConform(scanned);
    ListConforms("errors", Record(SEMGREP_ERROR), errors);
    ListConforms("results", Record(DETECTION), results);
    PartConforms("paths", PATHS, Obj([Field("scanned", Texts(scanned))]));
    LeftOut("version", Shape.Text);
    RecordConforms(SEMGREP, f);
  }

  lemma PathsConform(scanned: seq<string>)
    ensures Conforms(Record(PATHS), Obj([Field("scanned", Texts(scanned))]))
  {
    TextsAreRead(scanned);
    GetAt([Field("scanned", Texts(scanned))], 0);
  }

  // ---- OSV ---------------------------------------------------------------------------------------

  function WrittenEvent(fixed: string): Json { Obj([Field("introduced", Str("0")), Field("fixed", Str(fixed))]) }

  /** An event is read with its fixed version, and one without gives none. */
  lemma EventIsRead(fixed: string)
    ensures Scanner.FixedOf(WrittenEvent(fixed)) == Some(fixed)
    ensures Scanner.FixedOf(Obj([Field("introduced", Str("0"))])) == None
  {
    GetAt(WrittenEvent(fixed).fields, 1);
    assert |"introduced"| != |"fixed"|;
    GetNothing([Field("introduced", Str("0"))], "fixed");
  }

  function WrittenRange(events: seq<Json>): Json { Obj([Field("type", Str("SEMVER")), Field("events", Arr(events))]) }

  function WrittenAffected(name: string, ranges: seq<Json>): Json {
    Obj([Field("package", Obj([Field("name", Str(name))])), Field("ranges", Arr(ranges))])
  }

  lemma RangeFields(events: seq<Json>)
    ensures Part(RANGE, WrittenRange(events), "events") == Some(Arr(events))
  {
    GetAt(WrittenRange(events).fields, 1);
  }

  lemma AffectedFields(name: string, ranges: seq<Json>)
    ensures SubPart(AFFECTED, WrittenAffected(name, ranges), "package", AFFECTED_PACKAGE, "name") == Some(Str(name))
    ensures Part(AFFECTED, WrittenAffected(name, ranges), "ranges") == Some(Arr(ranges))
  {
    var f := WrittenAffected(name, ranges).fields;
    assert |"package"| != |"ranges"|;
    GetAt(f, 0);
    GetAt(f, 1);
    GetAt([Field("name", Str(name))], 0);
  }

  /** An affected package is read with its name and, range by range, the fixed versions
      of its events. */
  lemma AffectedIsRead(name: string, ranges: seq<seq<Json>>)
    ensures Scanner.AffectedOf(WrittenAffected(name, Mapped(ranges, WrittenRange)))
         == Osv.Affected(name, Mapped(ranges, (events: seq<Json>) => Mapped(events, Scanner.FixedOf)))
  {
    var written := Mapped(ranges, WrittenRange);
    var a := WrittenAffected(name, written);
    AffectedFields(name, written);
    var read := (range: Json) => Mapped(ItemsOf(Part(RANGE, range, "events")), Scanner.FixedOf);
    var direct := (events: seq<Json>) => Mapped(events, Scanner.FixedOf);
    forall i | 0 <= i < |ranges|
      ensures Mapped(written, read)[i] == Mapped(ranges, direct)[i]
    {
      MappedAt(ranges, WrittenRange, i);
      MappedAt(written, read, i);
      MappedAt(ranges, direct, i);
      RangeFields(ranges[i]);
    }
    assert Mapped(written, read) == Mapped(ranges, direct);
  }

  function WrittenVuln(id: string, aliases: seq<string>, affected: seq<Json>, severity: string): Json {
    Obj([Field("id", Str(id)), Field("aliases", Texts(aliases)), Field("affected", Arr(affected)),
         Field("database_specific", Obj([Field("severity", Str(severity))]))])
  }

  lemma VulnFields(id: string, aliases: seq<string>, affected: seq<Json>, severity: string)
    ensures var v := WrittenVuln(id, aliases, affected, severity);
            && Part(VULN, v, "id") == Some(Str(id)) && Part(VULN, v, "aliases") == Some(Texts(aliases))
            && Part(VULN, v, "affected") == Some(Arr(affected))
            && Part(VULN, v, "database_specific") == Some(Obj([Field("severity", Str(severity))]))
            && Get([Field("severity", Str(severity))], "severity") == Some(Str(severity))
  {
    var f := WrittenVuln(id, aliases, affected, severity).fields;
    assert |"id"| == 2 && |"aliases"| == 7 && |"affected"| == 8 && |"database_specific"| == 17;
    GetAt(f, 0);
    GetAt(f, 1);
    GetAt(f, 2);
    GetAt(f, 3);
    GetAt([Field("severity", Str(severity))], 0);
  }

  lemma LevelsAreApart(level: string)
    ensures level == "critical" ==> level != "high" && level != "medium" && level != "moderate" && level != "low"
    ensures level == "high" ==> level != "medium" && level != "moderate" && level != "low"
    ensures level == "medium" || level == "moderate" ==> level != "low"
    ensures |"critical"| == 8 && |"high"| == 4 && |"medium"| == 6 && |"moderate"| == 8 && |"low"| == 3
  {
    assert "critical"[0] != "moderate"[0];
  }

  /** A record is read with its own id, aliases and affected packages, and with the
      severity that its database names. */
  lemma VulnIsRead(lower: string -> string, id: string, aliases: seq<string>, affected: seq<Json>, severity: string)
    ensures var v := Scanner.VulnOf(lower, WrittenVuln(id, aliases, affected, severity));
            && v.id == id && v.aliases == aliases && v.affected == Mapped(affected, Scanner.AffectedOf)
            && (v.severity == Some(Osv.Critical) <==> lower(severity) == "critical")
            && (v.severity == Some(Osv.High) <==> lower(severity) == "high")
            && (v.severity == Some(Osv.Medium) <==> lower(severity) == "medium" || lower(severity) == "moderate")
            && (v.severity == Some(Osv.Low) <==> lower(severity) == "low")
            && v.severity != Some(Osv.Unknown)
  {
    VulnFields(id, aliases, affected, severity);
    TextsAreRead(aliases);
    LevelsAreApart(lower(severity));
  }

  function WrittenGroup(ids: seq<string>): Json { Obj([Field("ids", Texts(ids))]) }

  function WrittenPackage(p: Osv.Package, vulns: seq<Json>, groups: seq<seq<string>>): Json {
    Obj([Field("package", Obj([Field("name", Str(p.name)), Field("version", Str(p.version)), Field("ecosystem", Str(p.ecosystem))])),
         Field("vulnerabilities", Arr(vulns)), Field("groups", Arr(Mapped(groups, WrittenGroup)))])
  }

  lemma PackageFields(p: Osv.Package, vulns: seq<Json>, groups: seq<seq<string>>)
    ensures var v := WrittenPackage(p, vulns, groups);
            && Part(PACKAGE_RESULT, v, "package")
               == Some(Obj([Field("name", Str(p.name)), Field("version", Str(p.version)), Field("ecosystem", Str(p.ecosystem))]))
            && Part(PACKAGE_RESULT, v, "vulnerabilities") == Some(Arr(vulns))
            && Part(PACKAGE_RESULT, v, "groups") == Some(Arr(Mapped(groups, WrittenGroup)))
  {
    var f := WrittenPackage(p, vulns, groups).fields;
    assert |"package"| == 7 && |"vulnerabilities"| == 15 && |"groups"| == 6;
    GetAt(f, 0);
    GetAt(f, 1);
    GetAt(f, 2);
  }

  lemma NamesOfPackage(p: Osv.Package)
    ensures var f := [Field("name", Str(p.name)), Field("version", Str(p.version)), Field("ecosystem", Str(p.ecosystem))];
            Get(f, "name") == Some(Str(p.name)) && Get(f, "version") == Some(Str(p.version)) && Get(f, "ecosystem") == Some(Str(p.ecosystem))
  {
    var f := [Field("name", Str(p.name)), Field("version", Str(p.version)), Field("ecosystem", Str(p.ecosystem))];
    assert |"name"| == 4 && |"version"| == 7 && |"ecosystem"| == 9;
    GetAt(f, 0);
    GetAt(f, 1);
    GetAt(f, 2);
  }

  lemma GroupsAreRead(groups: seq<seq<string>>)
    ensures Mapped(Mapped(groups, WrittenGroup), (g: Json) => Report.Texts(Part(GROUP, g, "ids"))) == groups
  {
    var written := Mapped(groups, WrittenGroup);
    var read := (g: Json) => Report.Texts(Part(GROUP, g, "ids"));
    forall i | 0 <= i < |groups|
      ensures Mapped(written, read)[i] == groups[i]
    {
      MappedAt(groups, WrittenGroup, i);
      MappedAt(written, read, i);
      GetAt(WrittenGroup(groups[i]).fields, 0);
      TextsAreRead(groups[i]);
    }
  }

  /** A package is read with its name, version and ecosystem, its records and its
      groups of ids. */
  lemma PackageIsRead(lower: string -> string, p: Osv.Package, vulns: seq<Json>, groups: seq<seq<string>>)
    ensures Scanner.PackageOf(lower, WrittenPackage(p, vulns, groups))
         == Osv.PackageResult(p, Mapped(vulns, (r: Json) => Scanner.VulnOf(lower, r)), groups)
  {
    PackageFields(p, vulns, groups);
    NamesOfPackage(p);
    GroupsAreRead(groups);
  }

  function WrittenSource(path: string, packages: seq<Json>): Json {
    Obj([Field("source", Obj([Field("path", Str(path))])), Field("packages", Arr(packages))])
  }

  function WrittenOsv(sources: seq<Json>): Json { Obj([Field("results", Arr(sources))]) }

  /** A source is read with its packages and its manifest's place. */
  lemma SourceIsRead(env: Scanner.Env, path: string, packages: seq<Json>)
    ensures Scanner.Packages(WrittenSource(path, packages)) == packages
    ensures Scanner.Manifest(env, WrittenSource(path, packages)) == env.place(path)
  {
    var f := WrittenSource(path, packages).fields;
    assert |"source"| != |"packages"|;
    GetAt(f, 0);
    GetAt(f, 1);
    GetAt([Field("path", Str(path))], 0);
  }

  lemma OptionalListConforms(key: string, shape: Shape, items: seq<Json>)
    requires forall x :: x in items ==> Conforms(shape, x)
    ensures FieldConforms(Needed(key, Optional(ListOf(shape))), Some(Arr(items)))
    ensures FieldConforms(Needed(key, Optional(ListOf(shape))), Some(Null))
  {
  }

  /** A report is read with its sources, and `null` in their place is a report without
      findings. */
  lemma SourcesAreRead(sources: seq<Json>)
    requires forall s :: s in sources ==> Conforms(Record(SOURCE_RESULT), s)
    ensures Scanner.IsOsvReport(WrittenOsv(sources)) && Scanner.Sources(WrittenOsv(sources)) == sources
    ensures var v := Obj([Field("results", Null)]); Scanner.IsOsvReport(v) && Scanner.Sources(v) == []
  {
    var nothing := Obj([Field("results", Null)]);
    GetAt(WrittenOsv(sources).fields, 0);
    GetAt(nothing.fields, 0);
    OptionalListConforms("results", Record(SOURCE_RESULT), sources);
    RecordConforms(OSV, WrittenOsv(sources).fields);
    RecordConforms(OSV, nothing.fields);
  }

  // ---- Gitleaks ----------------------------------------------------------------------------------

  lemma NoneOf(text: string, c: char)
    requires c !in text
    ensures forall k :: 0 <= k < |text| ==> text[k] != c
  {
  }

  lemma FirstBracket(before: string, rest: string)
    requires '[' !in before && rest != "" && rest[0] == '['
    ensures Scanner.FirstOf(before + rest, '[') == |before|
  {
    NoneOf(before, '[');
    assert (before + rest)[|before|] == '[';
  }

  lemma LastBracket(front: string, after: string)
    requires ']' !in after && front != "" && front[|front| - 1] == ']'
    ensures Scanner.AfterLast(front + after, ']') == |front|
  {
    NoneOf(after, ']');
    var s := front + after;
    assert s[|front| - 1] == ']';
    assert forall k :: |front| <= k < |s| ==> s[k] == after[k - |front|];
  }

  /** A list that stands in other output is found: from the first bracket to the last. */
  lemma ListInNoiseIsRead(env: Scanner.Env, before: string, list: string, after: string)
    requires '[' !in before && ']' !in after && |list| >= 2 && list[0] == '[' && list[|list| - 1] == ']'
    requires Trimmed(before + list + after) && env.parse(before + list + after) == None
    ensures Scanner.Leaks(env, before + list + after) == Scanner.LeaksIn(env, list)
  {
    var s := before + list + after;
    assert s == before + (list + after);
    FirstBracket(before, list + after);
    LastBracket(before + list, after);
    assert s[|before|..|before| + |list|] == list;
    assert Scanner.Bracketed(s) == Some(list);
    NullHasNoBracket(s, |before|);
    assert Trim(s) == s;
  }

  lemma NullHasNoBracket(s: string, i: nat)
    requires i < |s| && s[i] == '['
    ensures s != "null" && s != ""
  {
  }
}
