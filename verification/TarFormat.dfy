/** Header fields and member names of the tar stream, as the extractor reads
    them (backend/src/agents/fetch.rs:1159-1250). */
module TarFormat {
  import opened Text

  const MAX_TOTAL_BYTES: nat := 150 * 1024 * 1024
  const MAX_FILE_BYTES: nat := 20 * 1024 * 1024
  const MAX_FILE_COUNT: nat := 20_000
  const MAX_PATH_CHARS: nat := 1024
  const MAX_COMPONENT_BYTES: nat := 255
  const MAX_META_BYTES: nat := 64 * 1024
  const BLOCK: nat := 512
  const U64: nat := 0x1_0000_0000_0000_0000

  datatype Why =
    | Truncated | GzipDecode | BadOctal | EmptyName | Escapes
    | WriteFailed | MakeDirFailed | LinkEntry | ThroughSymlink

  datatype Fault = Cancelled | PayloadTooLarge | Internal(why: Why)

  datatype Outcome<+T> = Ok(value: T) | Err(fault: Fault)

  /** A place in the extracted tree: the components below the destination. */
  type Path = seq<string>

  // ---- numbers ----------------------------------------------------------------

  /** The unbounded value of big-endian bytes. */
  function BigEndian(bs: seq<byte>): nat {
    if bs == [] then 0 else BigEndian(bs[..|bs| - 1]) * 256 + bs[|bs| - 1]
  }

  /** The value of a text of octal digits. */
  function OctalDigits(s: string): Option<nat> {
    if s == [] then Some(0)
    else
      var last := s[|s| - 1];
      match OctalDigits(s[..|s| - 1])
      case Some(n) => if '0' <= last <= '7' then Some(n * 8 + (last as int - '0' as int)) else None
      case None => None
  }

  /** `u64::from_str_radix(s, 8)`: an optional plus sign, then at least one digit. */
  function FromOctal(s: string): Option<nat> {
    var digits := if s != [] && s[0] == '+' then s[1..] else s;
    if digits == [] then None
    else
      match OctalDigits(digits)
      case Some(n) => if n < U64 then Some(n) else None
      case None => None
  }

  /** The text of a NUL-terminated field, without outer white space. */
  function CStr(field: seq<byte>): string {
    var text := match SplitOnce(field, 0) case Some((before, _)) => before case None => field;
    Trim(DecodeLossy(text))
  }

  /** What a numeric field means: base-256 modulo 2^64 when the top bit is set,
      an octal text otherwise; a blank field is zero. */
  function SizeOf(field: seq<byte>): Option<nat> {
    if field == [] then Some(0)
    else if field[0] >= 0x80 then Some(BigEndian(field[1..]) % U64)
    else if CStr(field) == [] then Some(0)
    else FromOctal(CStr(field))
  }

  lemma WrappedStep(x: nat, b: byte)
    ensures (x % U64) * 256 % U64 + b == (x * 256 + b) % U64
  {
    var q, r := x / U64, x % U64;
    assert x * 256 + b == q * 256 * U64 + (r * 256 + b);
    assert (x * 256 + b) % U64 == (r * 256 + b) % U64;
  }

  /** The extractor's loop, which wraps at every step, reads `SizeOf`. */
  method ParseSize(field: seq<byte>) returns (r: Outcome<nat>)
    ensures r == match SizeOf(field) case Some(n) => Ok(n) case None => Err(Internal(BadOctal))
  {
    if field == [] {
      return Ok(0);
    }
    if field[0] >= 0x80 {
      var value: nat := 0;
      for i := 1 to |field|
        invariant value == BigEndian(field[1..i]) % U64
      {
        WrappedStep(BigEndian(field[1..i]), field[i]);
        assert field[1..i + 1][..i - 1] == field[1..i];
        value := value * 256 % U64 + field[i];
      }
      assert field[1..|field|] == field[1..];
      return Ok(value);
    }
    var s := CStr(field);
    if s == [] {
      return Ok(0);
    }
    match FromOctal(s)
    case Some(n) => return Ok(n);
    case None => return Err(Internal(BadOctal));
  }

  // ---- names --------------------------------------------------------------------

  /** The value of a `path=` record, after the record's length and a blank. */
  function PathRecord(line: string): Option<string> {
    match SplitOnce(line, ' ')
    case None => None
    case Some((_, rest)) => if "path=" <= rest then Some(rest[5..]) else None
  }

  /** The first `path=` value among some lines. */
  function FirstPath(lines: seq<string>): Option<string> {
    if lines == [] then None
    else if PathRecord(lines[0]).Some? then PathRecord(lines[0])
    else FirstPath(lines[1..])
  }

  /** `path=` of a pax extended header body. */
  function PaxPath(body: seq<byte>): Option<string> {
    FirstPath(Split(DecodeLossy(body), '\n'))
  }

  method ReadPaxPath(body: seq<byte>) returns (r: Option<string>)
    ensures r == PaxPath(body)
  {
    var lines := Split(DecodeLossy(body), '\n');
    for i := 0 to |lines|
      invariant PaxPath(body) == FirstPath(lines[i..])
    {
      var value := PathRecord(lines[i]);
      if value.Some? {
        return value;
      }
    }
    return None;
  }

  /** `trim_end_matches('\0')`. */
  function TrimNuls(s: string): string {
    if s != [] && s[|s| - 1] == '\0' then TrimNuls(s[..|s| - 1]) else s
  }

  /** A pending long name wins over the header's prefix and name. */
  function ResolveName(pending: Option<string>, raw: string, prefix: string): string {
    match pending
    case Some(name) => name
    case None => if prefix == [] then raw else prefix + "/" + raw
  }

  function Pad(size: nat): nat { (BLOCK - size % BLOCK) % BLOCK }

  /** The blocks a body of `size` bytes occupies. */
  function Blocks(size: nat): nat { (size + BLOCK - 1) / BLOCK }

  /** Padding fills a body up to whole blocks, with less than one block. */
  lemma PadFillsBlocks(size: nat)
    ensures size + Pad(size) == BLOCK * Blocks(size) && Pad(size) < BLOCK
  {
  }

  // ---- joining a name onto the destination ----------------------------------

  /** `trim_start_matches("./")`. */
  function StripDotSlash(name: string): string {
    if "./" <= name then StripDotSlash(name[2..]) else name
  }

  /** The components left of a split name, or why the name is refused. */
  function Components(pieces: seq<string>): (r: Outcome<Path>)
    ensures r != Err(Cancelled)
  {
    if pieces == [] then Ok([])
    else if pieces[0] == "" || pieces[0] == "." then Components(pieces[1..])
    else if pieces[0] == ".." then Err(Internal(Escapes))
    else if |Encode(pieces[0])| > MAX_COMPONENT_BYTES then Err(PayloadTooLarge)
    else
      match Components(pieces[1..])
      case Ok(rest) => Ok([pieces[0]] + rest)
      case Err(e) => Err(e)
  }

  /** Where a member name leads below the destination. */
  function Resolve(name: string): (r: Outcome<Path>)
    ensures r != Err(Cancelled)
  {
    var n := StripDotSlash(name);
    if n == [] then Err(Internal(EmptyName))
    else if |n| > MAX_PATH_CHARS then Err(PayloadTooLarge)
    else if n[0] == '/' then Err(Internal(Escapes))
    else Components(Split(n, '/'))
  }

  /** A name that may be joined: not empty, at most 1024 characters, not absolute, no
      `..` among its pieces and no piece above 255 bytes. */
  predicate Joinable(n: string) {
    && n != "" && |n| <= 1024 && n[0] != '/'
    && forall p :: p in Split(n, '/') ==> Passable(p)
  }

  predicate Passable(p: string) { p != ".." && (p != "" && p != "." ==> |Encode(p)| <= 255) }

  /** The pieces that name something. */
  function Named(pieces: seq<string>): Path {
    if pieces == [] then []
    else (if pieces[0] == "" || pieces[0] == "." then [] else [pieces[0]]) + Named(pieces[1..])
  }

  lemma PassesFirst(pieces: seq<string>)
    requires pieces != []
    ensures Components(pieces).Ok? <==> Passable(pieces[0]) && Components(pieces[1..]).Ok?
  {
    assert "" != ".." && |"."| != |".."|;
  }

  lemma {:induction false} ComponentsAreNamed(pieces: seq<string>)
    ensures Components(pieces).Ok? <==> forall p :: p in pieces ==> Passable(p)
    ensures Components(pieces).Ok? ==> Components(pieces).value == Named(pieces)
  {
    if pieces != [] {
      ComponentsAreNamed(pieces[1..]);
      assert forall p :: p in pieces <==> p == pieces[0] || p in pieces[1..] by {
        assert pieces == [pieces[0]] + pieces[1..];
      }
      PassesFirst(pieces);
    }
  }

  /** Exactly those names are accepted, and lead to their pieces; a leading `./` is cut
      off before, as often as it stands there. */
  lemma JoinedExactlyWhen(name: string)
    ensures Resolve(name).Ok? <==> Joinable(StripDotSlash(name))
    ensures Resolve(name).Ok? ==> Resolve(name).value == Named(Split(StripDotSlash(name), '/'))
    ensures "./" <= name ==> StripDotSlash(name) == StripDotSlash(name[2..])
    ensures !("./" <= name) ==> StripDotSlash(name) == name
  {
    ComponentsAreNamed(Split(StripDotSlash(name), '/'));
  }

  method SafeJoin(name: string) returns (r: Outcome<Path>)
    ensures r == Resolve(name)
    ensures r.Ok? <==> Joinable(StripDotSlash(name))
    ensures r.Ok? ==> r.value == Named(Split(StripDotSlash(name), '/'))
    ensures StripDotSlash(name) != "" && |StripDotSlash(name)| <= 1024 && StripDotSlash(name)[0] == '/' ==> r == Err(Internal(Escapes))
    ensures |StripDotSlash(name)| > 1024 ==> r == Err(PayloadTooLarge)
  {
    JoinedExactlyWhen(name);
    var n := StripDotSlash(name);
    if n == [] {
      return Err(Internal(EmptyName));
    }
    if |n| > MAX_PATH_CHARS {
      return Err(PayloadTooLarge);
    }
    if n[0] == '/' {
      return Err(Internal(Escapes));
    }
    var pieces := Split(n, '/');
    var out: Path := [];
    PrependNothing(Components(pieces));
    assert pieces[0..] == pieces;
    for i := 0 to |pieces|
      invariant Components(pieces) == Prepended(out, Components(pieces[i..]))
    {
      var piece := pieces[i];
      assert pieces[i..][0] == piece && pieces[i..][1..] == pieces[i + 1..];
      if piece == "" || piece == "." {
        continue;
      }
      if piece == ".." {
        return Err(Internal(Escapes));
      }
      if |Encode(piece)| > MAX_COMPONENT_BYTES {
        return Err(PayloadTooLarge);
      }
      PrependMore(out, piece, Components(pieces[i + 1..]));
      out := out + [piece];
    }
    assert out + [] == out;
    return Ok(out);
  }

  lemma PrependNothing(back: Outcome<Path>)
    ensures Prepended([], back) == back
  {
    if back.Ok? {
      assert [] + back.value == back.value;
    }
  }

  lemma PrependMore(front: Path, piece: string, back: Outcome<Path>)
    ensures Prepended(front + [piece], back) == Prepended(front, Prepended([piece], back))
  {
    if back.Ok? {
      assert front + [piece] + back.value == front + ([piece] + back.value);
    }
  }

  function Prepended(front: Path, back: Outcome<Path>): Outcome<Path> {
    match back case Ok(p) => Ok(front + p) case Err(e) => Err(e)
  }

  /** A component that names one entry of its directory. */
  predicate Ordinary(c: string) {
    c != "" && c != "." && c != ".." && '/' !in c && |Encode(c)| <= MAX_COMPONENT_BYTES
  }

  /** Every accepted name leads to ordinary components only, so never out of
      the destination. */
  lemma ResolvedIsContained(name: string)
    requires Resolve(name).Ok?
    ensures forall c :: c in Resolve(name).value ==> Ordinary(c)
  {
    var n := StripDotSlash(name);
    JoinOfSplit(n, '/');
    ComponentsAreOrdinary(Split(n, '/'));
  }

  lemma {:induction false} ComponentsAreOrdinary(pieces: seq<string>)
    requires Components(pieces).Ok?
    requires forall p :: p in pieces ==> '/' !in p
    ensures forall c :: c in Components(pieces).value ==> Ordinary(c)
  {
    if pieces != [] {
      ComponentsAreOrdinary(pieces[1..]);
    }
  }

  /** A list of ordinary components, printed with slashes, resolves to itself. */
  lemma ResolveOfPrinted(path: Path)
    requires path != [] && forall c :: c in path ==> Ordinary(c)
    requires |Join(path, '/')| <= MAX_PATH_CHARS
    ensures Resolve(Join(path, '/')) == Ok(path)
  {
    var n := Join(path, '/');
    assert path[0] in path;
    assert n[0] == path[0][0];
    if |path[0]| > 1 {
      assert n[1] == path[0][1] && path[0][1] in path[0];
    } else {
      assert path[0] == [n[0]] && n[0] != '.';
    }
    assert !("./" <= n);
    SplitOfJoin(path, '/');
    OrdinaryComponents(path);
  }

  lemma {:induction false} OrdinaryComponents(path: Path)
    requires forall c :: c in path ==> Ordinary(c)
    ensures Components(path) == Ok(path)
  {
    if path != [] {
      assert path[0] in path;
      OrdinaryComponents(path[1..]);
      assert [path[0]] + path[1..] == path;
    }
  }

  // ---- writing sizes ------------------------------------------------------------

  /** The `width` lowest octal digits of `n`. */
  function OctalText(n: nat, width: nat): (s: string)
    ensures |s| == width
  {
    if width == 0 then ""
    else OctalText(n / 8, width - 1) + [('0' as int + n % 8) as char]
  }

  function Pow8(k: nat): nat { if k == 0 then 1 else 8 * Pow8(k - 1) }

  lemma {:induction false} OctalTextValue(n: nat, width: nat)
    requires n < Pow8(width)
    ensures OctalDigits(OctalText(n, width)) == Some(n)
  {
    if width > 0 {
      OctalTextValue(n / 8, width - 1);
      var s := OctalText(n, width);
      assert s[..|s| - 1] == OctalText(n / 8, width - 1);
    }
  }

  /** The `width` lowest base-256 digits of `n`, most significant first. */
  function Base256(n: nat, width: nat): (bs: seq<byte>)
    ensures |bs| == width
  {
    if width == 0 then [] else Base256(n / 256, width - 1) + [n % 256]
  }

  function Pow256(k: nat): nat { if k == 0 then 1 else 256 * Pow256(k - 1) }

  lemma {:induction false} Base256Value(n: nat, width: nat)
    requires n < Pow256(width)
    ensures BigEndian(Base256(n, width)) == n
  {
    if width > 0 {
      Base256Value(n / 256, width - 1);
      var bs := Base256(n, width);
      assert bs[..|bs| - 1] == Base256(n / 256, width - 1);
    }
  }

  /** A ustar size field: octal digits and a NUL. */
  function OctalField(n: nat, width: nat): (f: seq<byte>)
    ensures |f| == width + 1
  {
    OctalBytes(OctalText(n, width)) + [0]
  }

  function OctalBytes(s: string): (bs: seq<byte>)
    ensures |bs| == |s|
  {
    if s == [] then [] else [if s[0] as int < 256 then s[0] as int else 0] + OctalBytes(s[1..])
  }

  /** A GNU base-256 size field. */
  function Base256Field(n: nat, width: nat): (f: seq<byte>)
    ensures |f| == width + 1
  {
    [0x80] + Base256(n, width)
  }

  predicate Digits(s: string) { forall c :: c in s ==> '0' <= c <= '7' }

  lemma {:induction false} OctalTextDigits(n: nat, width: nat)
    ensures Digits(OctalText(n, width))
  {
    if width > 0 {
      OctalTextDigits(n / 8, width - 1);
    }
  }

  lemma {:induction false} DecodeDigits(s: string)
    requires Digits(s)
    ensures DecodeLossy(OctalBytes(s)) == s && 0 !in OctalBytes(s)
  {
    if s != [] {
      assert s[0] in s;
      assert forall c :: c in s[1..] ==> c in s;
      DecodeDigits(s[1..]);
      assert OctalBytes(s)[1..] == OctalBytes(s[1..]);
      assert [s[0]] + s[1..] == s;
    }
  }

  lemma FieldOfDigits(s: string)
    requires s != [] && Digits(s)
    ensures CStr(OctalBytes(s) + [0]) == s && OctalBytes(s)[0] == s[0] as int
  {
    DecodeDigits(s);
    SplitOnceAt(OctalBytes(s), [], 0);
    assert OctalBytes(s) + [0] + [] == OctalBytes(s) + [0];
    assert s[0] in s && s[|s| - 1] in s;
    assert Trim(s) == s;
  }

  lemma SizeOfDigits(s: string, n: nat)
    requires s != [] && Digits(s) && OctalDigits(s) == Some(n) && n < U64
    ensures SizeOf(OctalBytes(s) + [0]) == Some(n)
  {
    FieldOfDigits(s);
    assert s[0] in s;
    assert FromOctal(s) == Some(n);
  }

  lemma OctalIsRead(n: nat, width: nat)
    requires n < U64 && 0 < width && n < Pow8(width)
    ensures SizeOf(OctalField(n, width)) == Some(n)
  {
    OctalTextValue(n, width);
    OctalTextDigits(n, width);
    SizeOfDigits(OctalText(n, width), n);
  }

  lemma BinaryIsRead(n: nat, width: nat)
    requires n < U64 && n < Pow256(width)
    ensures SizeOf(Base256Field(n, width)) == Some(n)
  {
    Base256Value(n, width);
    assert Base256Field(n, width)[1..] == Base256(n, width);
  }

  /** Both spellings of a size are read back, whatever the width of the field. */
  lemma SizeOfWritten(n: nat, width: nat)
    requires n < U64
    ensures 0 < width && n < Pow8(width) ==> SizeOf(OctalField(n, width)) == Some(n)
    ensures n < Pow256(width) ==> SizeOf(Base256Field(n, width)) == Some(n)
  {
    if 0 < width && n < Pow8(width) {
      OctalIsRead(n, width);
    }
    if n < Pow256(width) {
      BinaryIsRead(n, width);
    }
  }

  lemma {:induction false} OctalNeedsDigits(s: string)
    ensures OctalDigits(s).Some? <==> forall i :: 0 <= i < |s| ==> '0' <= s[i] <= '7'
  {
    if s != [] {
      OctalNeedsDigits(s[..|s| - 1]);
    }
  }

  /** Which fields are numbers: every binary one, modulo 2^64; of the others a blank one,
      which is zero, and octal digits, after a plus sign or not, within 64 bits. */
  lemma FieldIsNumber(field: seq<byte>)
    ensures field != [] && field[0] >= 128 ==> SizeOf(field) == Some(BigEndian(field[1..]) % 0x1_0000_0000_0000_0000)
    ensures field != [] && field[0] < 128 && CStr(field) != "" ==>
              var s := CStr(field);
              var digits := if s[0] == '+' then s[1..] else s;
              (SizeOf(field).Some? <==>
                && digits != "" && (forall i :: 0 <= i < |digits| ==> '0' <= digits[i] <= '7')
                && OctalDigits(digits).Some? && OctalDigits(digits).value < 0x1_0000_0000_0000_0000)
    ensures field == [] || (field[0] < 128 && CStr(field) == "") ==> SizeOf(field) == Some(0)
  {
    if field != [] && field[0] < 128 && CStr(field) != "" {
      var s := CStr(field);
      OctalNeedsDigits(if s[0] == '+' then s[1..] else s);
    }
  }

  /** The eleven digits of a header field reach 8 GiB in octal and every 64-bit
      size in base-256. */
  lemma FieldReach()
    ensures Pow8(11) == 0x2_0000_0000 && Pow256(11) > U64
  {
    assert Pow8(4) == 0x1000;
    assert Pow8(8) == 0x100_0000;
    assert Pow256(4) == 0x1_0000_0000;
    assert Pow256(8) == U64;
  }

}
