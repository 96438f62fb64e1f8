/** The scanners' report formats as the deserializer takes them
    (backend/src/agents/scanner.rs:621-880, 1340-1357 and 2035-2073): which JSON values
    have the expected shape, and what is read from one that has. */
module Report {
  import opened JsonValue
  import opened Text

  // ---- shapes ------------------------------------------------------------------------------

  /** What a type accepts. `defaulted` marks a field that may be left out. */
  datatype Shape =
    | Text
    | Integer
    | Decimals
    | Anything
    | Optional(inner: Shape)
    | ListOf(inner: Shape)
    | Record(slots: seq<Slot>)

  datatype Slot = Slot(key: string, shape: Shape, defaulted: bool)

  const I64: nat := 0x8000_0000_0000_0000

  /** The number is written as an integer of 64 bits with a sign; `-0` is not one. */
  function IntegerOf(digits: string): Option<int> {
    if digits == "" then None
    else if digits[0] == '-' then
      match Decimal(digits[1..])
      case Some(n) => if 0 < n <= I64 then Some(0 - n as int) else None
      case None => None
    else
      match Decimal(digits)
      case Some(n) => if n < I64 then Some(n) else None
      case None => None
  }

  /** The value has the shape. A struct is read from an object, or from an array that
      gives its fields in order; an optional field that is left out of an object reads
      as nothing. */
  predicate Conforms(shape: Shape, v: Json)
    decreases shape
  {
    match shape
    case Text => v.Str?
    case Integer => v.Number? && IntegerOf(v.digits).Some?
    case Decimals => v.Number?
    case Anything => true
    case Optional(inner) => v.Null? || Conforms(inner, v)
    case ListOf(inner) => v.Arr? && forall x :: x in v.items ==> Conforms(inner, x)
    case Record(slots) =>
      match v
      case Obj(fields) => forall s :: s in slots ==> FieldConforms(s, Get(fields, s.key))
      case Arr(items) =>
        && |items| <= |slots|
        && (forall i :: 0 <= i < |items| ==> Conforms(slots[i].shape, items[i]))
        && (forall i :: |items| <= i < |slots| ==> slots[i].defaulted)
      case _ => false
  }

  predicate FieldConforms(s: Slot, found: Option<Json>)
    decreases s
  {
    match found
    case Some(v) => Conforms(s.shape, v)
    case None => s.defaulted || s.shape.Optional?
  }

  // ---- the structs ---------------------------------------------------------------------------

  function Given(key: string, shape: Shape): Slot { Slot(key, shape, true) }

  function Needed(key: string, shape: Shape): Slot { Slot(key, shape, false) }

  const POSITION: seq<Slot> := [Given("line", Integer), Given("col", Integer)]

  const METADATA: seq<Slot> := [
    Given("category", Text), Given("confidence", Text), Given("likelihood", Text), Given("impact", Text),
    Given("cwe", ListOf(Text)), Given("owasp", ListOf(Text)), Given("references", ListOf(Text)),
    Given("technology", ListOf(Text)), Given("fix", Optional(Text)), Given("fix_regex", Optional(Anything))]

  const EXTRA: seq<Slot> := [
    Given("severity", Text), Given("message", Text), Given("lines", Text), Given("fingerprint", Text),
    Given("metadata", Record(METADATA))]

  const DETECTION: seq<Slot> := [
    Given("check_id", Text), Given("path", Text), Given("start", Record(POSITION)), Given("end", Record(POSITION)),
    Given("extra", Record(EXTRA))]

  const SEMGREP_ERROR: seq<Slot> := [
    Given("type", Text), Given("code", Integer), Given("level", Text), Given("message", Text)]

  const PATHS: seq<Slot> := [Given("scanned", ListOf(Text))]

  const SEMGREP: seq<Slot> := [
    Given("errors", ListOf(Record(SEMGREP_ERROR))), Given("results", ListOf(Record(DETECTION))),
    Given("paths", Record(PATHS)), Given("version", Text)]

  const OSV_SEVERITY: seq<Slot> := [Needed("type", Text), Given("score", Text)]

  const EVENT: seq<Slot> := [
    Given("introduced", Text), Given("fixed", Optional(Text)), Given("last_affected", Optional(Text)),
    Given("limit", Optional(Text))]

  const RANGE: seq<Slot> := [Needed("type", Text), Given("events", ListOf(Record(EVENT)))]

  const AFFECTED_PACKAGE: seq<Slot> := [Given("ecosystem", Text), Given("name", Text)]

  const AFFECTED: seq<Slot> := [Given("package", Record(AFFECTED_PACKAGE)), Given("ranges", ListOf(Record(RANGE)))]

  const REFERENCE: seq<Slot> := [Given("type", Text), Given("url", Text)]

  const VULN: seq<Slot> := [
    Given("id", Text), Given("aliases", ListOf(Text)), Given("summary", Text),
    Given("severity", ListOf(Record(OSV_SEVERITY))), Given("affected", ListOf(Record(AFFECTED))),
    Given("references", ListOf(Record(REFERENCE))), Given("database_specific", Anything)]

  const GROUP: seq<Slot> := [Given("ids", ListOf(Text))]

  const PACKAGE: seq<Slot> := [Given("name", Text), Given("version", Text), Given("ecosystem", Text)]

  const PACKAGE_RESULT: seq<Slot> := [
    Given("package", Record(PACKAGE)), Given("vulnerabilities", ListOf(Record(VULN))),
    Given("groups", ListOf(Record(GROUP)))]

  const SOURCE: seq<Slot> := [Given("path", Text), Given("type", Text)]

  const SOURCE_RESULT: seq<Slot> := [
    Given("source", Record(SOURCE)), Given("packages", ListOf(Record(PACKAGE_RESULT)))]

  const OSV: seq<Slot> := [Needed("results", Optional(ListOf(Record(SOURCE_RESULT))))]

  const LEAK: seq<Slot> := [
    Given("RuleID", Text), Given("Description", Text), Given("File", Text), Given("StartLine", Integer),
    Given("EndLine", Integer), Given("StartColumn", Integer), Given("EndColumn", Integer), Given("Match", Text),
    Given("Secret", Text), Given("SymlinkFile", Text), Given("Commit", Text), Given("Entropy", Decimals),
    Given("Author", Text), Given("Email", Text), Given("Date", Text), Given("Message", Text),
    Given("Tags", ListOf(Text)), Given("Fingerprint", Text)]

  /** Gitleaks records are read straight from the text, where a known key must not
      come twice. */
  predicate Unrepeated(slots: seq<Slot>, v: Json) {
    v.Obj? ==>
      forall i, j :: 0 <= i < j < |v.fields| && v.fields[i].key == v.fields[j].key ==>
        forall s :: s in slots ==> s.key != v.fields[i].key
  }

  // ---- reading ---------------------------------------------------------------------------------

  /** The place of a field among those of its struct. */
  function PlaceOf(slots: seq<Slot>, key: string): nat {
    if slots == [] || slots[0].key == key then 0 else 1 + PlaceOf(slots[1..], key)
  }

  /** A field of a struct, unless it was left out. */
  function Part(slots: seq<Slot>, v: Json, key: string): Option<Json> {
    match v
    case Obj(fields) => Get(fields, key)
    case Arr(items) => if PlaceOf(slots, key) < |items| then Some(items[PlaceOf(slots, key)]) else None
    case _ => None
  }

  /** A field of a field. */
  function SubPart(outer: seq<Slot>, v: Json, name: string, inner: seq<Slot>, key: string): Option<Json> {
    match Part(outer, v, name)
    case Some(x) => Part(inner, x, key)
    case None => None
  }

  function TextOf(x: Option<Json>): string {
    match x
    case Some(Str(s)) => s
    case _ => ""
  }

  function NumberOf(x: Option<Json>): int {
    match x
    case Some(Number(digits)) => if IntegerOf(digits).Some? then IntegerOf(digits).value else 0
    case _ => 0
  }

  function ItemsOf(x: Option<Json>): seq<Json> {
    match x
    case Some(Arr(items)) => items
    case _ => []
  }

  function Texts(x: Option<Json>): seq<string> { Mapped(ItemsOf(x), (v: Json) => TextOf(Some(v))) }
}
