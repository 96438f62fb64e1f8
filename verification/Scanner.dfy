/** What a scanner run may be taken for (backend/src/agents/scanner.rs:483-1088, 1340-1377
    and 2079-2101), from the JSON of its report on, and the identity of a Semgrep
    detection (1264-1325). The JSON grammar and the lower-casing and path rules are
    parameters. */
module Scanner {
  import opened JsonValue
  import opened Report
  import opened Text
  import Osv

  datatype Kind = Gitleaks | OsvScanner | Semgrep | OtherParser

  /** How the sandbox run ended. */
  datatype Run = Finished(stdout: string, ok: bool) | TimedOut | Aborted | Flooded | NotRun

  datatype Outcome = Success(findingCount: nat) | Failed | Timeout | Cancelled

  /** A detection's identity and lines, and the record that the rest is read from. */
  datatype Detection = Detection(checkId: string, path: string, startLine: int, endLine: int, record: Json)

  datatype Finding = Leak(record: Json) | Advisory(finding: Osv.Finding) | Issue(detection: Detection)

  datatype Result = Result(outcome: Outcome, findings: seq<Finding>, coverageUnknown: bool)

  /** JSON text, if it is, as a value; lower case; a path below the repository. */
  datatype Env = Env(parse: string -> Option<Json>, lower: string -> string, place: string -> string)

  predicate IsBlank(text: string) { Trim(text) == "" }

  // ---- Semgrep -------------------------------------------------------------------------------

  function DetectionOf(r: Json): Detection {
    Detection(TextOf(Part(DETECTION, r, "check_id")), TextOf(Part(DETECTION, r, "path")),
              NumberOf(SubPart(DETECTION, r, "start", POSITION, "line")),
              NumberOf(SubPart(DETECTION, r, "end", POSITION, "line")), r)
  }

  datatype SemgrepDoc = SemgrepDoc(errors: seq<Json>, scanned: seq<Json>, results: seq<Detection>)

  /** What is read from a Semgrep report that has the shape. */
  function SemgrepOf(v: Json): SemgrepDoc {
    SemgrepDoc(ItemsOf(Part(SEMGREP, v, "errors")), ItemsOf(SubPart(SEMGREP, v, "paths", PATHS, "scanned")),
               Mapped(ItemsOf(Part(SEMGREP, v, "results")), DetectionOf))
  }

  /** `validate_semgrep_location`. */
  predicate Located(d: Detection) {
    Trim(d.checkId) != "" && Trim(d.path) != "" && 1 <= d.startLine <= d.endLine
  }

  function Filter<T>(s: seq<T>, keep: T -> bool): seq<T> {
    if s == [] then [] else (if keep(s[0]) then [s[0]] else []) + Filter(s[1..], keep)
  }

  predicate Unlocated(d: Detection) { !Located(d) }

  lemma {:induction false} FilterConcat<T>(a: seq<T>, b: seq<T>, keep: T -> bool)
    ensures Filter(a + b, keep) == Filter(a, keep) + Filter(b, keep)
  {
    if a == [] {
      assert a + b == b;
    } else {
      assert (a + b)[1..] == a[1..] + b;
      FilterConcat(a[1..], b, keep);
      var head := if keep(a[0]) then [a[0]] else [];
      assert head + (Filter(a[1..], keep) + Filter(b, keep)) == head + Filter(a[1..], keep) + Filter(b, keep);
    }
  }

  /** `findings_from_semgrep_doc`, before the valid ones become findings. */
  method SplitDetections(results: seq<Detection>) returns (valid: seq<Detection>, rejected: seq<Detection>)
    ensures valid == Filter(results, Located) && rejected == Filter(results, Unlocated)
  {
    valid, rejected := [], [];
    for i := 0 to |results|
      invariant valid == Filter(results[..i], Located) && rejected == Filter(results[..i], Unlocated)
    {
      assert results[..i + 1] == results[..i] + [results[i]];
      FilterConcat(results[..i], [results[i]], Located);
      FilterConcat(results[..i], [results[i]], Unlocated);
      if Located(results[i]) {
        valid := valid + [results[i]];
      } else {
        rejected := rejected + [results[i]];
      }
    }
    assert results[..|results|] == results;
  }

  /** No detection is lost or doubled: valid and rejected ones together are the results. */
  lemma {:induction false} DetectionsArePartitioned(results: seq<Detection>)
    ensures multiset(Filter(results, Located)) + multiset(Filter(results, Unlocated)) == multiset(results)
  {
    if results != [] {
      DetectionsArePartitioned(results[1..]);
      assert results == [results[0]] + results[1..];
    }
  }

  // ---- OSV -----------------------------------------------------------------------------------

  /** `osv_advisory_severity`. */
  function SeverityOf(lower: string -> string, r: Json): Option<Osv.Severity> {
    match Part(VULN, r, "database_specific")
    case Some(Obj(fields)) =>
      (match Get(fields, "severity")
       case Some(Str(raw)) =>
         var level := lower(raw);
         if level == "critical" then Some(Osv.Critical)
         else if level == "high" then Some(Osv.High)
         else if level == "medium" || level == "moderate" then Some(Osv.Medium)
         else if level == "low" then Some(Osv.Low)
         else None
       case _ => None)
    case _ => None
  }

  function FixedOf(event: Json): Option<string> {
    match Part(EVENT, event, "fixed")
    case Some(Str(version)) => Some(version)
    case _ => None
  }

  function AffectedOf(a: Json): Osv.Affected {
    Osv.Affected(TextOf(SubPart(AFFECTED, a, "package", AFFECTED_PACKAGE, "name")),
                 Mapped(ItemsOf(Part(AFFECTED, a, "ranges")),
                        (range: Json) => Mapped(ItemsOf(Part(RANGE, range, "events")), FixedOf)))
  }

  function VulnOf(lower: string -> string, r: Json): Osv.Vuln {
    Osv.Vuln(TextOf(Part(VULN, r, "id")), Texts(Part(VULN, r, "aliases")), SeverityOf(lower, r),
             Mapped(ItemsOf(Part(VULN, r, "affected")), AffectedOf))
  }

  function PackageOf(lower: string -> string, p: Json): Osv.PackageResult {
    Osv.PackageResult(
      Osv.Package(TextOf(SubPart(PACKAGE_RESULT, p, "package", PACKAGE, "name")),
                  TextOf(SubPart(PACKAGE_RESULT, p, "package", PACKAGE, "version")),
                  TextOf(SubPart(PACKAGE_RESULT, p, "package", PACKAGE, "ecosystem"))),
      Mapped(ItemsOf(Part(PACKAGE_RESULT, p, "vulnerabilities")), (r: Json) => VulnOf(lower, r)),
      Mapped(ItemsOf(Part(PACKAGE_RESULT, p, "groups")), (g: Json) => Texts(Part(GROUP, g, "ids"))))
  }

  function Sources(v: Json): seq<Json> { ItemsOf(Part(OSV, v, "results")) }

  function Packages(source: Json): seq<Json> { ItemsOf(Part(SOURCE_RESULT, source, "packages")) }

  function Manifest(env: Env, source: Json): string { env.place(TextOf(SubPart(SOURCE_RESULT, source, "source", SOURCE, "path"))) }

  /** How many vulnerabilities a listed package has: its groups, or its records when
      it has no groups. */
  function PackageCount(p: Json): nat {
    var groups := ItemsOf(Part(PACKAGE_RESULT, p, "groups"));
    if groups != [] then |groups| else |ItemsOf(Part(PACKAGE_RESULT, p, "vulnerabilities"))|
  }

  function PackagesCount(packages: seq<Json>): nat {
    if packages == [] then 0
    else PackagesCount(packages[..|packages| - 1]) + PackageCount(packages[|packages| - 1])
  }

  /** And a whole report. */
  function SourcesCount(sources: seq<Json>): nat {
    if sources == [] then 0
    else SourcesCount(sources[..|sources| - 1]) + PackagesCount(Packages(sources[|sources| - 1]))
  }

  /** One finding to make: an alias group of a listed package. */
  datatype Job = Job(listed: Osv.PackageResult, manifest: string, ids: seq<string>)

  function PackageJobs(listed: Osv.PackageResult, manifest: string): seq<Job> {
    Mapped(Osv.Groups(listed), (ids: seq<string>) => Job(listed, manifest, ids))
  }

  function PackagesJobs(env: Env, manifest: string, packages: seq<Json>): seq<Job> {
    if packages == [] then []
    else
      PackagesJobs(env, manifest, packages[..|packages| - 1])
      + PackageJobs(PackageOf(env.lower, packages[|packages| - 1]), manifest)
  }

  /** All that a report asks for, source by source, package by package, group by group. */
  function Jobs(env: Env, sources: seq<Json>): seq<Job> {
    if sources == [] then []
    else
      var last := sources[|sources| - 1];
      Jobs(env, sources[..|sources| - 1]) + PackagesJobs(env, Manifest(env, last), Packages(last))
  }

  ghost predicate Done(j: Job, f: Finding) {
    && f.Advisory?
    && Osv.Merges(j.ids, Osv.Records(j.listed.vulns, j.ids), j.listed.package, j.manifest, f.finding)
  }

  /** One finding for each, in order. */
  ghost predicate AllDone(jobs: seq<Job>, findings: seq<Finding>) {
    |jobs| == |findings| && forall i :: 0 <= i < |jobs| ==> Done(jobs[i], findings[i])
  }

  lemma DoneTogether(a: seq<Job>, x: seq<Finding>, b: seq<Job>, y: seq<Finding>)
    requires AllDone(a, x) && AllDone(b, y)
    ensures AllDone(a + b, x + y)
  {
  }

  lemma {:induction false} PackagesJobsCount(env: Env, manifest: string, packages: seq<Json>)
    ensures |PackagesJobs(env, manifest, packages)| == PackagesCount(packages)
  {
    if packages != [] {
      PackagesJobsCount(env, manifest, packages[..|packages| - 1]);
    }
  }

  /** The report's own numbers say how many findings there are. */
  lemma {:induction false} JobsCount(env: Env, sources: seq<Json>)
    ensures |Jobs(env, sources)| == SourcesCount(sources)
  {
    if sources != [] {
      var last := sources[|sources| - 1];
      JobsCount(env, sources[..|sources| - 1]);
      PackagesJobsCount(env, Manifest(env, last), Packages(last));
    }
  }

  lemma NextPackage(env: Env, manifest: string, packages: seq<Json>, i: nat, found: seq<Finding>, more: seq<Finding>)
    requires i < |packages| && AllDone(PackagesJobs(env, manifest, packages[..i]), found)
    requires AllDone(PackageJobs(PackageOf(env.lower, packages[i]), manifest), more)
    ensures AllDone(PackagesJobs(env, manifest, packages[..i + 1]), found + more)
  {
    JobsOfNext(env, manifest, packages, i);
    DoneTogether(PackagesJobs(env, manifest, packages[..i]), found,
                 PackageJobs(PackageOf(env.lower, packages[i]), manifest), more);
  }

  lemma JobsOfNext(env: Env, manifest: string, packages: seq<Json>, i: nat)
    requires i < |packages|
    ensures PackagesJobs(env, manifest, packages[..i + 1])
         == PackagesJobs(env, manifest, packages[..i]) + PackageJobs(PackageOf(env.lower, packages[i]), manifest)
  {
    assert packages[..i + 1][..i] == packages[..i];
  }

  lemma NextSource(env: Env, sources: seq<Json>, i: nat, found: seq<Finding>, more: seq<Finding>)
    requires i < |sources| && AllDone(Jobs(env, sources[..i]), found)
    requires AllDone(PackagesJobs(env, Manifest(env, sources[i]), Packages(sources[i])), more)
    ensures AllDone(Jobs(env, sources[..i + 1]), found + more)
  {
    assert sources[..i + 1][..i] == sources[..i];
    DoneTogether(Jobs(env, sources[..i]), found, PackagesJobs(env, Manifest(env, sources[i]), Packages(sources[i])), more);
  }

  method PackageAdvisories(listed: Osv.PackageResult, manifest: string) returns (findings: seq<Finding>)
    ensures AllDone(PackageJobs(listed, manifest), findings)
  {
    var merged := Osv.PackageFindings(listed, manifest);
    findings := [];
    for i := 0 to |merged|
      invariant AllDone(PackageJobs(listed, manifest)[..i], findings)
    {
      MappedAt(Osv.Groups(listed), (ids: seq<string>) => Job(listed, manifest, ids), i);
      findings := findings + [Advisory(merged[i])];
    }
    assert PackageJobs(listed, manifest)[..|merged|] == PackageJobs(listed, manifest);
  }

  /** The findings of one source. */
  method SourceFindings(env: Env, source: Json) returns (findings: seq<Finding>)
    ensures AllDone(PackagesJobs(env, Manifest(env, source), Packages(source)), findings)
  {
    findings := [];
    var packages, manifest := Packages(source), Manifest(env, source);
    for i := 0 to |packages|
      invariant AllDone(PackagesJobs(env, manifest, packages[..i]), findings)
    {
      var more := PackageAdvisories(PackageOf(env.lower, packages[i]), manifest);
      NextPackage(env, manifest, packages, i, findings, more);
      findings := findings + more;
    }
    assert packages[..|packages|] == packages;
  }

  /** `findings_from_doc`. */
  method OsvFindings(env: Env, v: Json) returns (findings: seq<Finding>)
    ensures AllDone(Jobs(env, Sources(v)), findings)
  {
    findings := [];
    var sources := Sources(v);
    for i := 0 to |sources|
      invariant AllDone(Jobs(env, sources[..i]), findings)
    {
      var more := SourceFindings(env, sources[i]);
      NextSource(env, sources, i, findings, more);
      findings := findings + more;
    }
    assert sources[..|sources|] == sources;
  }

  // ---- Gitleaks --------------------------------------------------------------------------------

  /** The places of the first `[` and, beyond it, the last `]`. */
  function FirstOf(s: string, c: char): (i: nat)
    ensures i <= |s| && (i < |s| ==> s[i] == c) && forall k :: 0 <= k < i ==> s[k] != c
  {
    if s == "" || s[0] == c then 0 else 1 + FirstOf(s[1..], c)
  }

  function AfterLast(s: string, c: char): (i: nat)
    ensures i <= |s| && (i > 0 ==> s[i - 1] == c) && forall k :: i <= k < |s| ==> s[k] != c
  {
    if s == "" || s[|s| - 1] == c then |s| else AfterLast(s[..|s| - 1], c)
  }

  predicate IsLeakList(v: Json) {
    Conforms(ListOf(Record(LEAK)), v) && v.Arr? && forall x :: x in v.items ==> Unrepeated(LEAK, x)
  }

  function LeaksIn(env: Env, text: string): Option<seq<Json>> {
    match env.parse(text)
    case Some(v) => if IsLeakList(v) then Some(v.items) else None
    case None => None
  }

  /** The part from the first `[` to the last `]`, if there is one. */
  function Bracketed(s: string): Option<string> {
    var open, close := FirstOf(s, '['), AfterLast(s, ']');
    if open < |s| && open + 1 < close then Some(s[open..close]) else None
  }

  /** The records of a Gitleaks report: nothing and `null` are an empty one, and an
      array may be surrounded by other output. */
  function Leaks(env: Env, stdout: string): Option<seq<Json>> {
    var trimmed := Trim(stdout);
    if trimmed == "" || trimmed == "null" then Some([])
    else if LeaksIn(env, trimmed).Some? then LeaksIn(env, trimmed)
    else if Bracketed(trimmed).Some? then LeaksIn(env, Bracketed(trimmed).value)
    else None
  }

  // ---- which runs may be taken for a result ------------------------------------------------------

  /** The report's JSON, for the scanners whose whole output is one value. */
  function ValueOf(env: Env, run: Run): Option<Json> {
    if run.Finished? && !IsBlank(run.stdout) then env.parse(Trim(run.stdout)) else None
  }

  /** An OSV report: an object with the key `results`, of the expected shape. */
  predicate IsOsvReport(v: Json) { HasKey(v, "results") && Conforms(Record(OSV), v) }

  /** A Semgrep report without errors of a scan that looked at something: an object
      with the keys `results` and `paths`, of the expected shape. */
  predicate IsSemgrepReport(v: Json) {
    && HasKey(v, "results") && HasKey(v, "paths") && Conforms(Record(SEMGREP), v)
    && SemgrepOf(v).errors == [] && SemgrepOf(v).scanned != []
  }

  predicate Usable(kind: Kind, env: Env, run: Run) {
    && run.Finished?
    && match kind
       case Gitleaks => (IsBlank(run.stdout) ==> run.ok) && Leaks(env, run.stdout).Some?
       case OsvScanner => ValueOf(env, run).Some? && IsOsvReport(ValueOf(env, run).value)
       case Semgrep => ValueOf(env, run).Some? && IsSemgrepReport(ValueOf(env, run).value)
       case OtherParser => false
  }

  /** The findings are those of the report. */
  ghost predicate Reports(kind: Kind, env: Env, run: Run, findings: seq<Finding>)
    requires Usable(kind, env, run)
  {
    match kind
    case Gitleaks => findings == Mapped(Leaks(env, run.stdout).value, (r: Json) => Leak(r))
    case OsvScanner => AllDone(Jobs(env, Sources(ValueOf(env, run).value)), findings)
    case Semgrep =>
      findings == Mapped(Filter(SemgrepOf(ValueOf(env, run).value).results, Located), (d: Detection) => Issue(d))
    case OtherParser => findings == []
  }

  // ---- the program -------------------------------------------------------------------------------

  /** A usable result is a success whose count is its findings; anything else carries
      no finding and says that the coverage is unknown. */
  predicate NeverFalselyClean(r: Result) {
    if r.outcome.Success? then r.outcome.findingCount == |r.findings| && !r.coverageUnknown
    else r.findings == [] && r.coverageUnknown
  }

  function Succeed(findings: seq<Finding>): Result { Result(Success(|findings|), findings, false) }

  function Unusable(outcome: Outcome): Result { Result(outcome, [], true) }

  /** The value that has all the keys and then the shape. */
  method ReadReport(env: Env, stdout: string, keys: seq<string>, slots: seq<Slot>) returns (r: Option<Json>)
    ensures match r
            case Some(v) =>
              && !IsBlank(stdout) && env.parse(Trim(stdout)) == r && Conforms(Record(slots), v)
              && forall k :: k in keys ==> HasKey(v, k)
            case None =>
              || IsBlank(stdout) || env.parse(Trim(stdout)).None?
              || !Conforms(Record(slots), env.parse(Trim(stdout)).value)
              || exists k :: k in keys && !HasKey(env.parse(Trim(stdout)).value, k)
  {
    var trimmed := Trim(stdout);
    if trimmed == "" {
      return None;
    }
    var value := env.parse(trimmed);
    if value.None? {
      return None;
    }
    for i := 0 to |keys|
      invariant forall j :: 0 <= j < i ==> HasKey(value.value, keys[j])
    {
      if !HasKey(value.value, keys[i]) {
        return None;
      }
    }
    r := if Conforms(Record(slots), value.value) then value else None;
  }

  method ClassifyGitleaks(env: Env, stdout: string, ok: bool) returns (result: Result)
    ensures Judged(Gitleaks, env, Finished(stdout, ok), result)
  {
    if IsBlank(stdout) && !ok {
      return Unusable(Failed);
    }
    var records := Leaks(env, stdout);
    if records.None? {
      return Unusable(Failed);
    }
    return Succeed(Mapped(records.value, (r: Json) => Leak(r)));
  }

  method ClassifyOsv(env: Env, stdout: string, ok: bool) returns (result: Result)
    ensures Judged(OsvScanner, env, Finished(stdout, ok), result)
  {
    if IsBlank(stdout) && !ok {
      return Unusable(Failed);
    }
    var doc := ReadReport(env, stdout, ["results"], OSV);
    if doc.None? {
      return Unusable(Failed);
    }
    var findings := OsvFindings(env, doc.value);
    return Succeed(findings);
  }

  method ClassifySemgrep(env: Env, stdout: string, ok: bool) returns (result: Result)
    ensures Judged(Semgrep, env, Finished(stdout, ok), result)
  {
    if IsBlank(stdout) && !ok {
      return Unusable(Failed);
    }
    var report := ReadReport(env, stdout, ["results", "paths"], SEMGREP);
    if report.None? {
      return Unusable(Failed);
    }
    var doc := SemgrepOf(report.value);
    if doc.errors != [] || doc.scanned == [] {
      return Unusable(Failed);
    }
    var valid, rejected := SplitDetections(doc.results);
    return Succeed(Mapped(valid, (d: Detection) => Issue(d)));
  }

  /** Never falsely clean; a success exactly when the run may be taken for a result,
      and then with exactly the report's findings. */
  ghost predicate Judged(kind: Kind, env: Env, run: Run, r: Result) {
    && NeverFalselyClean(r)
    && (r.outcome.Success? <==> Usable(kind, env, run))
    && (r.outcome.Success? ==> Reports(kind, env, run, r.findings))
    && (r.outcome.Timeout? <==> run.TimedOut?)
    && (r.outcome.Cancelled? <==> run.Aborted?)
  }

  /** `classify`. */
  method Classify(kind: Kind, env: Env, run: Run) returns (result: Result)
    ensures NeverFalselyClean(result)
    ensures result.outcome.Success? <==> Usable(kind, env, run)
    ensures result.outcome.Success? ==> Reports(kind, env, run, result.findings)
    ensures (result.outcome.Timeout? <==> run.TimedOut?) && (result.outcome.Cancelled? <==> run.Aborted?)
  {
    match run {
      case TimedOut => return Unusable(Timeout);
      case Aborted => return Unusable(Cancelled);
      case Flooded => return Unusable(Failed);
      case NotRun => return Unusable(Failed);
      case Finished(stdout, ok) =>
        match kind {
          case Gitleaks => result := ClassifyGitleaks(env, stdout, ok);
          case OsvScanner => result := ClassifyOsv(env, stdout, ok);
          case Semgrep => result := ClassifySemgrep(env, stdout, ok);
          case OtherParser => return Unusable(Failed);
        }
    }
  }

  // ---- what makes a report clean -----------------------------------------------------------------

  /** Drift of the top key never passes for a result: whatever the exit status, output
      that is not JSON, or is JSON without the object key `results`, such as an array, an
      empty object or one whose key is misspelt, is a success of neither scanner. */
  lemma DriftIsNeverAResult(kind: Kind, env: Env, run: Run)
    requires kind.OsvScanner? || kind.Semgrep?
    requires match ValueOf(env, run)
             case Some(v) => v.Obj? ==> forall f :: f in v.fields ==> f.key != "results"
             case None => true
    ensures !Usable(kind, env, run)
  {
    if ValueOf(env, run).Some? && ValueOf(env, run).value.Obj? {
      GetFindsKeys(ValueOf(env, run).value.fields, "results");
    }
  }

  /** It is the check of the key that prevents it, not the shape: an empty object has
      the shape of both reports, an empty array that of a Semgrep report, and an object
      with other keys only that of an OSV report; all read as empty documents. */
  lemma ShapeAloneAcceptsDrift(v: Json)
    requires v == Obj([]) || v == Arr([]) || (v.Obj? && forall f :: f in v.fields ==> f.key != "results")
    ensures v == Obj([]) ==> Conforms(Record(SEMGREP), v)
    ensures v == Arr([]) ==> Conforms(Record(SEMGREP), v)
    ensures v.Obj? ==> Conforms(Record(OSV), v) && Sources(v) == []
    ensures v == Obj([]) || v == Arr([]) ==> SemgrepOf(v) == SemgrepDoc([], [], [])
  {
    if v.Obj? {
      GetFindsKeys(v.fields, "results");
    }
  }

  /** Drift of a nested key does: whatever stands under a misspelt `packages`, the report
      has the shape and counts nothing. */
  lemma NestedDriftReadsClean(key: string, x: Json)
    requires key != "packages" && key != "source"
    ensures var v := Obj([Field("results", Arr([Obj([Field(key, x)])]))]);
            IsOsvReport(v) && SourcesCount(Sources(v)) == 0
  {
    var source := Obj([Field(key, x)]);
    GetOfOne(key, x, "packages");
    GetOfOne(key, x, "source");
    GetOfOne("results", Arr([source]), "results");
    assert Packages(source) == [];
    SourceConforms(source);
    assert Sources(Obj([Field("results", Arr([source]))])) == [source];
    NothingCounted([source]);
  }

  lemma GetOfOne(key: string, x: Json, wanted: string)
    ensures Get([Field(key, x)], wanted) == if key == wanted then Some(x) else None
  {
  }

  lemma SourceConforms(source: Json)
    requires source.Obj? && Get(source.fields, "packages").None? && Get(source.fields, "source").None?
    ensures Conforms(Record(SOURCE_RESULT), source)
    ensures Conforms(Optional(ListOf(Record(SOURCE_RESULT))), Arr([source]))
  {
  }

  /** The check for `paths` decides nothing: without the key no scanned file is read. */
  lemma PathsKeyIsImplied(v: Json)
    requires v.Obj? && SemgrepOf(v).scanned != []
    ensures HasKey(v, "paths")
  {
  }

  /** An OSV run counts what the report counts, and reports no vulnerability exactly
      when no listed package has one. */
  lemma OsvCountsTheReport(env: Env, run: Run, r: Result)
    requires Judged(OsvScanner, env, run, r) && r.outcome.Success?
    ensures var sources := Sources(ValueOf(env, run).value);
            && r.outcome.findingCount == SourcesCount(sources)
            && (r.outcome.findingCount == 0 <==>
                  forall source, p :: source in sources && p in Packages(source) ==> PackageCount(p) == 0)
  {
    var sources := Sources(ValueOf(env, run).value);
    JobsCount(env, sources);
    NothingCounted(sources);
  }

  lemma {:induction false} NothingInPackages(packages: seq<Json>)
    ensures PackagesCount(packages) == 0 <==> forall p :: p in packages ==> PackageCount(p) == 0
  {
    if packages != [] {
      var front, last := packages[..|packages| - 1], packages[|packages| - 1];
      assert packages == front + [last];
      NothingInPackages(front);
    }
  }

  lemma {:induction false} NothingCounted(sources: seq<Json>)
    ensures SourcesCount(sources) == 0 <==>
              forall source, p :: source in sources && p in Packages(source) ==> PackageCount(p) == 0
  {
    if sources != [] {
      var front, last := sources[..|sources| - 1], sources[|sources| - 1];
      assert sources == front + [last];
      NothingCounted(front);
      NothingInPackages(Packages(last));
    }
  }

  /** A Semgrep run: its findings and the refused detections are all that was reported. */
  lemma SemgrepCountsTheReport(env: Env, run: Run, r: Result)
    requires Judged(Semgrep, env, run, r) && r.outcome.Success?
    ensures var doc := SemgrepOf(ValueOf(env, run).value);
            && doc.errors == [] && doc.scanned != []
            && r.outcome.findingCount + |Filter(doc.results, Unlocated)| == |doc.results|
  {
    var doc := SemgrepOf(ValueOf(env, run).value);
    DetectionsArePartitioned(doc.results);
    assert |multiset(Filter(doc.results, Located))| == |Filter(doc.results, Located)|;
    assert |multiset(doc.results)| == |doc.results|;
  }

  /** The exit status decides only when nothing was written, and then only against a
      result: of the three scanners, blank output is a result of a successful Gitleaks
      run alone. */
  lemma ExitStatusDecidesOnlyBlankOutput(kind: Kind, env: Env, stdout: string, ok: bool)
    ensures !IsBlank(stdout) ==> (Usable(kind, env, Finished(stdout, ok)) <==> Usable(kind, env, Finished(stdout, !ok)))
    ensures IsBlank(stdout) ==> (Usable(kind, env, Finished(stdout, ok)) <==> kind.Gitleaks? && ok)
  {
    match kind
    case Gitleaks => BlankIsNoLeak(env, stdout);
    case OsvScanner => SameValue(env, stdout, ok);
    case Semgrep => SameValue(env, stdout, ok);
    case OtherParser =>
  }

  lemma BlankIsNoLeak(env: Env, stdout: string)
    ensures IsBlank(stdout) ==> Leaks(env, stdout) == Some([])
  {
  }

  lemma SameValue(env: Env, stdout: string, ok: bool)
    ensures ValueOf(env, Finished(stdout, ok)) == ValueOf(env, Finished(stdout, !ok))
    ensures IsBlank(stdout) ==> ValueOf(env, Finished(stdout, ok)).None?
  {
  }

  // ---- identity of a detection -------------------------------------------------------------------

  function ShowInt(n: int): string { if n < 0 then "-" + Show(-n) else Show(n) }

  datatype Place = Place(checkId: string, file: string, startLine: int, startCol: int, endLine: int, endCol: int)

  function Position(line: int, col: int): string { Glue(ShowInt(line), ':', ShowInt(col)) }

  /** What is hashed when the tool gave no fingerprint of its own. */
  function Payload(p: Place): string {
    Glue("semgrep", '|', Glue(p.checkId, '|', Whereabouts(p)))
  }

  /** The file and the two positions. */
  function Whereabouts(p: Place): string {
    Glue(Glue(p.file, '|', Position(p.startLine, p.startCol)), '|', Position(p.endLine, p.endCol))
  }

  lemma PayloadSpelled(p: Place)
    ensures Payload(p)
         == "semgrep|" + p.checkId + "|" + p.file + "|" + ShowInt(p.startLine) + ":" + ShowInt(p.startCol)
            + "|" + ShowInt(p.endLine) + ":" + ShowInt(p.endCol)
  {
    var a, b := Position(p.startLine, p.startCol), Position(p.endLine, p.endCol);
    assert a == ShowInt(p.startLine) + ":" + ShowInt(p.startCol) && b == ShowInt(p.endLine) + ":" + ShowInt(p.endCol);
    assert Whereabouts(p) == p.file + "|" + a + "|" + b;
    assert "semgrep" + ['|'] == "semgrep|";
  }

  lemma ShownDigits(n: nat)
    ensures (forall c :: c in Show(n) ==> IsDigit(c)) && IsDigit(Show(n)[0])
  {
    ShownIsRead(n);
    assert Show(n)[0] in Show(n);
  }

  lemma MinusIsNoDigit()
    ensures !IsDigit('-') && !IsDigit('|') && !IsDigit(':')
  {
  }

  lemma ShownIsPlain(n: int)
    ensures forall c :: c in ShowInt(n) ==> c == '-' || IsDigit(c)
    ensures ShowInt(n) != "" && (ShowInt(n)[0] == '-' <==> n < 0)
  {
    var digits := Show(if n < 0 then -n else n);
    ShownDigits(if n < 0 then -n else n);
    MinusIsNoDigit();
    assert ShowInt(n) == if n < 0 then ['-'] + digits else digits;
  }

  lemma ShowIntIsInjective(m: int, n: int)
    requires ShowInt(m) == ShowInt(n)
    ensures m == n
  {
    ShownIsPlain(m);
    ShownIsPlain(n);
    ShownIsRead(if m < 0 then -m else m);
    ShownIsRead(if n < 0 then -n else n);
    if m < 0 {
      assert ShowInt(m)[1..] == Show(-m) && ShowInt(n)[1..] == Show(-n);
    }
  }

  lemma PositionIsPlain(line: int, col: int)
    ensures '|' !in Position(line, col)
  {
    ShownIsPlain(line);
    ShownIsPlain(col);
  }

  lemma PositionIsInjective(a: int, b: int, c: int, d: int)
    requires Position(a, b) == Position(c, d)
    ensures a == c && b == d
  {
    ShownIsPlain(a);
    ShownIsPlain(c);
    FirstPieceIsUnique(ShowInt(a), ShowInt(b), ShowInt(c), ShowInt(d), ':');
    ShowIntIsInjective(a, c);
    ShowIntIsInjective(b, d);
  }

  /** Two detections have the same payload only if they are at the same place: it is
      enough that the rule ids are free of the separator. */
  lemma PayloadIsInjective(p: Place, q: Place)
    requires '|' !in p.checkId && '|' !in q.checkId && Payload(p) == Payload(q)
    ensures p == q
  {
    FirstPieceIsUnique("semgrep", Glue(p.checkId, '|', Whereabouts(p)), "semgrep", Glue(q.checkId, '|', Whereabouts(q)), '|');
    FirstPieceIsUnique(p.checkId, Whereabouts(p), q.checkId, Whereabouts(q), '|');
    var a, b := Position(p.startLine, p.startCol), Position(q.startLine, q.startCol);
    var c, d := Position(p.endLine, p.endCol), Position(q.endLine, q.endCol);
    PositionIsPlain(p.startLine, p.startCol);
    PositionIsPlain(q.startLine, q.startCol);
    PositionIsPlain(p.endLine, p.endCol);
    PositionIsPlain(q.endLine, q.endCol);
    LastPieceIsUnique(Glue(p.file, '|', a), c, Glue(q.file, '|', b), d, '|');
    LastPieceIsUnique(p.file, a, q.file, b, '|');
    PositionIsInjective(p.startLine, p.startCol, q.startLine, q.startCol);
    PositionIsInjective(p.endLine, p.endCol, q.endLine, q.endCol);
  }
}
