/** Text and byte helpers shared by the models: splitting as Rust's `str::split`
    does it, trimming, and UTF-8 with lossy decoding. */
module Text {

  datatype Option<+T> = None | Some(value: T)

  type byte = b: int | 0 <= b < 256

  // ---- splitting and joining ------------------------------------------------

  /** All pieces of `s` between occurrences of `sep`; there is always at least one. */
  function Split<T(==)>(s: seq<T>, sep: T): (pieces: seq<seq<T>>)
    ensures |pieces| >= 1
  {
    if s == [] then [[]]
    else
      var rest := Split(s[1..], sep);
      if s[0] == sep then [[]] + rest
      else [[s[0]] + rest[0]] + rest[1..]
  }

  function Join<T>(pieces: seq<seq<T>>, sep: T): seq<T>
    requires |pieces| >= 1
  {
    if |pieces| == 1 then pieces[0]
    else pieces[0] + [sep] + Join(pieces[1..], sep)
  }

  /** The text before and after the first `sep`, if there is one. */
  function SplitOnce<T(==)>(s: seq<T>, sep: T): (r: Option<(seq<T>, seq<T>)>)
    ensures r.Some? ==> s == r.value.0 + [sep] + r.value.1 && sep !in r.value.0
    ensures r.None? <==> sep !in s
  {
    if s == [] then None
    else if s[0] == sep then Some(([], s[1..]))
    else
      match SplitOnce(s[1..], sep)
      case None => None
      case Some((before, after)) => Some(([s[0]] + before, after))
  }

  /** The text around a first separator. */
  lemma {:induction false} SplitOnceAt<T>(before: seq<T>, after: seq<T>, sep: T)
    requires sep !in before
    ensures SplitOnce(before + [sep] + after, sep) == Some((before, after))
  {
    var s := before + [sep] + after;
    if before == [] {
      assert s[0] == sep && s[1..] == after;
    } else {
      assert s[0] == before[0] && before[0] in before;
      assert s[1..] == before[1..] + [sep] + after;
      SplitOnceAt(before[1..], after, sep);
      assert [before[0]] + before[1..] == before;
    }
  }

  /** A subset has no more elements. */
  lemma SmallerSet<T>(a: set<T>, b: set<T>)
    requires a <= b
    ensures |a| <= |b|
  {
    assert b == a + (b - a);
  }

  /** Splitting a text that has no separator returns the text itself. */
  lemma {:induction false} SplitWhole<T>(s: seq<T>, sep: T)
    requires sep !in s
    ensures Split(s, sep) == [s]
  {
    if s != [] {
      SplitWhole(s[1..], sep);
      assert [s[0]] + s[1..] == s;
    }
  }

  /** Splitting distributes over a separator. */
  lemma {:induction false} SplitConcat<T>(a: seq<T>, b: seq<T>, sep: T)
    ensures Split(a + [sep] + b, sep) == Split(a, sep) + Split(b, sep)
  {
    var whole := a + [sep] + b;
    if a == [] {
      assert whole[1..] == b;
    } else {
      assert whole[1..] == a[1..] + [sep] + b;
      SplitConcat(a[1..], b, sep);
    }
  }

  /** Joining pieces that are free of the separator and splitting again is the identity. */
  lemma {:induction false} SplitOfJoin<T>(pieces: seq<seq<T>>, sep: T)
    requires |pieces| >= 1
    requires forall p :: p in pieces ==> sep !in p
    ensures Split(Join(pieces, sep), sep) == pieces
  {
    SplitWhole(pieces[0], sep);
    if |pieces| > 1 {
      SplitConcat(pieces[0], Join(pieces[1..], sep), sep);
      SplitOfJoin(pieces[1..], sep);
    }
  }

  /** Splitting and joining again is the identity, and no piece holds the separator. */
  lemma {:induction false} JoinOfSplit<T>(s: seq<T>, sep: T)
    ensures Join(Split(s, sep), sep) == s
    ensures forall p :: p in Split(s, sep) ==> sep !in p
  {
    if s != [] {
      JoinOfSplit(s[1..], sep);
      var rest := Split(s[1..], sep);
      if s[0] == sep {
        assert Split(s, sep)[1..] == rest;
      } else {
        assert Split(s, sep)[1..] == rest[1..];
      }
    }
  }

  /** `x`, a separator and `y`. */
  function Glue(x: string, sep: char, y: string): string { x + [sep] + y }

  lemma GluedAt(x: string, sep: char, a: string, k: nat)
    requires k < |Glue(x, sep, a)|
    ensures k < |x| ==> Glue(x, sep, a)[k] in x
    ensures k == |x| ==> Glue(x, sep, a)[k] == sep
    ensures k > |x| ==> Glue(x, sep, a)[k] in a
  {
    assert k < |x| ==> Glue(x, sep, a)[k] == x[k];
    assert k > |x| ==> Glue(x, sep, a)[k] == a[k - |x| - 1];
  }

  lemma GluedAlike(x: string, a: string, y: string, b: string, sep: char)
    requires Glue(x, sep, a) == Glue(y, sep, b) && |x| == |y|
    ensures x == y && a == b
  {
    var s := Glue(x, sep, a);
    assert s[..|x|] == x && s[|x| + 1..] == a && s[..|y|] == y && s[|y| + 1..] == b;
  }

  /** The text before a first separator, and after a last one, is determined. */
  lemma FirstPieceIsUnique(x: string, a: string, y: string, b: string, sep: char)
    requires sep !in x && sep !in y && Glue(x, sep, a) == Glue(y, sep, b)
    ensures x == y && a == b
  {
    GluedAt(x, sep, a, |x|);
    GluedAt(x, sep, a, |y|);
    GluedAt(y, sep, b, |x|);
    GluedAt(y, sep, b, |y|);
    GluedAlike(x, a, y, b, sep);
  }

  lemma LastPieceIsUnique(x: string, a: string, y: string, b: string, sep: char)
    requires sep !in a && sep !in b && Glue(x, sep, a) == Glue(y, sep, b)
    ensures x == y && a == b
  {
    GluedAt(x, sep, a, |x|);
    GluedAt(x, sep, a, |y|);
    GluedAt(y, sep, b, |x|);
    GluedAt(y, sep, b, |y|);
    GluedAlike(x, a, y, b, sep);
  }

  /** The text before and after the last colon. */
  function SplitLastColon(s: string): Option<(string, string)> {
    if s == "" then None
    else if s[|s| - 1] == ':' then Some((s[..|s| - 1], ""))
    else
      match SplitLastColon(s[..|s| - 1])
      case Some((a, b)) => Some((a, b + [s[|s| - 1]]))
      case None => None
  }

  lemma {:induction false} SplitLastColonAt(host: string, port: string)
    requires ':' !in port
    ensures SplitLastColon(host + ":" + port) == Some((host, port))
  {
    var s := host + ":" + port;
    if port == "" {
      assert s[|s| - 1] == ':' && s[..|s| - 1] == host;
    } else {
      var front, last := port[..|port| - 1], port[|port| - 1];
      assert s[|s| - 1] == last && last in port && s[..|s| - 1] == host + ":" + front;
      SplitLastColonAt(host, front);
      assert front + [last] == port;
    }
  }

  lemma {:induction false} LastColonJoins(s: string)
    ensures match SplitLastColon(s)
            case Some((a, b)) => s == a + ":" + b && ':' !in b
            case None => ':' !in s
  {
    if s != "" {
      LastColonJoins(s[..|s| - 1]);
      assert s == s[..|s| - 1] + [s[|s| - 1]];
    }
  }

  // ---- words inside a text ------------------------------------------------------

  /** The text contains the word. */
  predicate Holds(word: string, text: string) {
    exists i | 0 <= i <= |text| :: word <= text[i..]
  }

  lemma LetterOfWord(word: string, text: string, i: nat, k: nat)
    requires i <= |text| && word <= text[i..] && k < |word|
    ensures text[i + k] in word
  {
    assert text[i..][k] == text[i + k];
  }

  lemma HoldsNeedsFirst(word: string, text: string)
    requires word != "" && word[0] !in text
    ensures !Holds(word, text)
  {
    assert forall i :: 0 <= i < |text| ==> text[i..][0] == text[i] && text[i] in text;
  }

  /** A word without the separator lies on one side of it. */
  lemma HoldsBeside(word: string, a: string, b: string, sep: char)
    requires sep !in word && word != ""
    ensures Holds(word, a + [sep] + b) <==> Holds(word, a) || Holds(word, b)
  {
    var whole := a + [sep] + b;
    if Holds(word, whole) {
      var i :| 0 <= i <= |whole| && word <= whole[i..];
      if i <= |a| {
        var k := |a| - i;
        if k < |word| {
          LetterOfWord(word, whole, i, k);
        }
        assert word <= a[i..];
      } else {
        assert whole[i..] == b[i - |a| - 1..];
      }
    }
    if Holds(word, a) {
      var i :| 0 <= i <= |a| && word <= a[i..];
      assert word <= whole[i..];
    }
    if Holds(word, b) {
      var i :| 0 <= i <= |b| && word <= b[i..];
      assert whole[i + |a| + 1..] == b[i..];
    }
  }

  lemma {:induction false} HoldsInPiece(word: string, pieces: seq<string>, sep: char)
    requires word != "" && sep !in word && pieces != []
    ensures Holds(word, Join(pieces, sep)) <==> exists p | p in pieces :: Holds(word, p)
  {
    if |pieces| > 1 {
      HoldsInPiece(word, pieces[1..], sep);
      HoldsBeside(word, pieces[0], Join(pieces[1..], sep), sep);
      assert pieces == [pieces[0]] + pieces[1..];
    } else {
      assert pieces == [pieces[0]];
    }
  }

  // ---- lists ---------------------------------------------------------------------

  function Mapped<T, F>(s: seq<T>, f: T -> F): (r: seq<F>)
    ensures |r| == |s|
  {
    if s == [] then [] else [f(s[0])] + Mapped(s[1..], f)
  }

  lemma {:induction false} MappedAt<T, F>(s: seq<T>, f: T -> F, i: nat)
    requires i < |s|
    ensures Mapped(s, f)[i] == f(s[i])
  {
    if i > 0 {
      MappedAt(s[1..], f, i - 1);
    }
  }

  // ---- trimming -------------------------------------------------------------

  /** Rust's `char::is_whitespace`: the Unicode White_Space property. */
  predicate IsSpace(c: char) {
    var n := c as int;
    || 0x09 <= n <= 0x0D || n == 0x20 || n == 0x85 || n == 0xA0 || n == 0x1680
    || 0x2000 <= n <= 0x200A || n == 0x2028 || n == 0x2029 || n == 0x202F
    || n == 0x205F || n == 0x3000
  }

  function TrimStart(s: string): string {
    if s != [] && IsSpace(s[0]) then TrimStart(s[1..]) else s
  }

  function TrimEnd(s: string): string {
    if s != [] && IsSpace(s[|s| - 1]) then TrimEnd(s[..|s| - 1]) else s
  }

  function Trim(s: string): string { TrimEnd(TrimStart(s)) }

  predicate Trimmed(s: string) {
    s != [] ==> !IsSpace(s[0]) && !IsSpace(s[|s| - 1])
  }

  // ---- decimal numbers ------------------------------------------------------------

  predicate IsDigit(c: char) { '0' <= c <= '9' }

  function DigitValue(c: char): (d: nat)
    requires IsDigit(c)
    ensures d < 10
  {
    c as int - 48
  }

  function DigitChar(d: nat): (c: char)
    requires d < 10
    ensures IsDigit(c)
  {
    (48 + d) as char
  }

  lemma DigitIsRead(d: nat)
    requires d < 10
    ensures DigitValue(DigitChar(d)) == d
  {
  }

  /** The value of decimal digits, however many. */
  function Decimal(s: string): Option<nat> {
    if s == "" then Some(0)
    else if IsDigit(s[|s| - 1]) then
      match Decimal(s[..|s| - 1])
      case Some(n) => Some(10 * n + DigitValue(s[|s| - 1]))
      case None => None
    else None
  }

  /** Rust's `str::parse` for an unsigned type: digits after an optional plus sign. */
  function ParseUnsigned(s: string, max: nat): Option<nat> {
    var digits := if |s| > 1 && s[0] == '+' then s[1..] else s;
    if digits == "" then None
    else
      match Decimal(digits)
      case Some(n) => if n <= max then Some(n) else None
      case None => None
  }

  function Show(n: nat): (s: string)
    ensures s != ""
  {
    (if n < 10 then "" else Show(n / 10)) + [DigitChar(n % 10)]
  }

  /** One more digit at the end of a text. */
  lemma DecimalOfLast(front: string, n: nat, d: nat)
    requires Decimal(front) == Some(n) && d < 10
    ensures Decimal(front + [DigitChar(d)]) == Some(10 * n + d)
  {
    var s := front + [DigitChar(d)];
    assert s[..|s| - 1] == front && s[|s| - 1] == DigitChar(d);
    DigitIsRead(d);
  }

  /** A printed number is read back. */
  lemma {:induction false} ShownIsRead(n: nat)
    ensures Decimal(Show(n)) == Some(n)
    ensures forall c :: c in Show(n) ==> IsDigit(c)
  {
    if n >= 10 {
      ShownIsRead(n / 10);
      DecimalOfLast(Show(n / 10), n / 10, n % 10);
    } else {
      DecimalOfLast("", 0, n % 10);
      assert n % 10 == n;
    }
  }

  // ---- UTF-8 (RFC 3629) -------------------------------------------------------

  /** The UTF-8 bytes of one character, section 3 of RFC 3629. */
  function EncodeChar(c: char): (bs: seq<byte>)
    ensures 1 <= |bs| <= 4
  {
    var n := c as int;
    if n < 0x80 then [n]
    else if n < 0x800 then [0xC0 + n / 64, 0x80 + n % 64]
    else if n < 0x1_0000 then [0xE0 + n / 64 / 64, 0x80 + n / 64 % 64, 0x80 + n % 64]
    else [0xF0 + n / 64 / 64 / 64, 0x80 + n / 64 / 64 % 64, 0x80 + n / 64 % 64, 0x80 + n % 64]
  }

  function Encode(s: string): seq<byte> {
    if s == [] then [] else EncodeChar(s[0]) + Encode(s[1..])
  }

  const REPLACEMENT: char := '\U{FFFD}'

  predicate Continues(b: byte) { 0x80 <= b <= 0xBF }

  /** Whether `b` may follow the lead byte `lead` at distance `i`: the first
      continuation byte is limited so that no character has two spellings. */
  predicate Fits(lead: byte, i: nat, b: byte) {
    && Continues(b)
    && (i == 1 ==>
          && (lead == 0xE0 ==> b >= 0xA0) && (lead == 0xED ==> b <= 0x9F)
          && (lead == 0xF0 ==> b >= 0x90) && (lead == 0xF4 ==> b <= 0x8F))
  }

  /** How many continuation bytes a lead byte asks for; 0 when it cannot lead. */
  function Needs(lead: byte): nat {
    if lead < 0xC2 || lead > 0xF4 then 0 else if lead < 0xE0 then 1 else if lead < 0xF0 then 2 else 3
  }

  /** Appends the six payload bits of a continuation byte. */
  function Shift6(n: int, b: byte): int { n * 64 + (b as int - 0x80) }

  predicate IsScalar(n: int) { 0 <= n < 0xD800 || 0xE000 <= n < 0x11_0000 }

  /** Takes `need` continuation bytes from index `i` on; at the first that does
      not fit, everything before it is one ill-formed start. */
  function Continue(bs: seq<byte>, need: nat, i: nat, n: int): (r: (char, nat))
    requires 1 <= i <= |bs|
    ensures i <= r.1 <= |bs|
    decreases need
  {
    if need == 0 then (if IsScalar(n) then n as char else REPLACEMENT, i)
    else if i == |bs| || !Fits(bs[0], i, bs[i]) then (REPLACEMENT, i)
    else Continue(bs, need - 1, i + 1, Shift6(n, bs[i]))
  }

  /** The first character of a byte string and how many bytes it takes; an
      ill-formed start yields U+FFFD for its longest well-formed beginning. */
  function DecodeChar(bs: seq<byte>): (r: (char, nat))
    requires |bs| > 0
    ensures 1 <= r.1 <= |bs|
  {
    if bs[0] < 0x80 then (bs[0] as char, 1)
    else
      var need := Needs(bs[0]);
      if need == 0 then (REPLACEMENT, 1)
      else Continue(bs, need, 1, bs[0] as int - Lead(need))
  }

  /** The marker bits of a lead byte with `need` continuation bytes. */
  function Lead(need: nat): int { if need == 1 then 0xC0 else if need == 2 then 0xE0 else 0xF0 }

  /** `String::from_utf8_lossy`. */
  function DecodeLossy(bs: seq<byte>): string {
    if bs == [] then []
    else
      var (c, n) := DecodeChar(bs);
      [c] + DecodeLossy(bs[n..])
  }

  lemma DecodeOfEncodeChar(c: char, rest: seq<byte>)
    ensures DecodeChar(EncodeChar(c) + rest) == (c, |EncodeChar(c)|)
  {
    var n := c as int;
    if 0x80 <= n < 0x800 {
      DecodeOfTwo(n, EncodeChar(c) + rest);
    } else if 0x800 <= n < 0x1_0000 {
      DecodeOfThree(n, EncodeChar(c) + rest);
    } else if 0x1_0000 <= n {
      DecodeOfFour(n, EncodeChar(c) + rest);
    }
  }

  lemma Sextet(bs: seq<byte>, need: nat, i: nat, n: nat)
    requires 1 <= i < |bs| && bs[i] == 0x80 + n % 64 && Fits(bs[0], i, bs[i]) && need > 0
    ensures Continue(bs, need, i, n / 64) == Continue(bs, need - 1, i + 1, n)
  {
    assert Shift6(n / 64, bs[i]) == n;
  }

  lemma DecodeOfTwo(n: nat, bs: seq<byte>)
    requires 0x80 <= n < 0x800 && |bs| >= 2
    requires bs[0] == 0xC0 + n / 64 && bs[1] == 0x80 + n % 64
    ensures DecodeChar(bs) == (n as char, 2)
  {
    Sextet(bs, 1, 1, n);
  }

  lemma DecodeOfThree(n: nat, bs: seq<byte>)
    requires 0x800 <= n < 0x1_0000 && IsScalar(n) && |bs| >= 3
    requires bs[0] == 0xE0 + n / 64 / 64 && bs[1] == 0x80 + n / 64 % 64 && bs[2] == 0x80 + n % 64
    ensures DecodeChar(bs) == (n as char, 3)
  {
    Sextet(bs, 2, 1, n / 64);
    Sextet(bs, 1, 2, n);
  }

  lemma DecodeOfFour(n: nat, bs: seq<byte>)
    requires 0x1_0000 <= n < 0x11_0000 && |bs| >= 4
    requires bs[0] == 0xF0 + n / 64 / 64 / 64 && bs[1] == 0x80 + n / 64 / 64 % 64
    requires bs[2] == 0x80 + n / 64 % 64 && bs[3] == 0x80 + n % 64
    ensures DecodeChar(bs) == (n as char, 4)
  {
    Sextet(bs, 3, 1, n / 64 / 64);
    Sextet(bs, 2, 2, n / 64);
    Sextet(bs, 1, 3, n);
  }

  /** Lossy decoding inverts encoding. */
  lemma {:induction false} DecodeOfEncode(s: string)
    ensures DecodeLossy(Encode(s)) == s
  {
    if s != [] {
      DecodeOfEncodeChar(s[0], Encode(s[1..]));
      DecodeOfEncode(s[1..]);
      var n := |EncodeChar(s[0])|;
      assert Encode(s)[n..] == Encode(s[1..]);
    }
  }

  lemma {:induction false} EncodeConcat(s: string, t: string)
    ensures Encode(s + t) == Encode(s) + Encode(t)
  {
    if s == [] {
      assert s + t == t;
    } else {
      assert (s + t)[1..] == s[1..] + t;
      EncodeConcat(s[1..], t);
    }
  }

  /** An ASCII value appears among the bytes of a text exactly when the
      character appears in the text. */
  lemma {:induction false} AsciiInEncode(s: string, c: char)
    requires c as int < 0x80
    ensures c as int in Encode(s) <==> c in s
  {
    if s != [] {
      AsciiInEncode(s[1..], c);
    }
  }
}
