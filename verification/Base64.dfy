/** The strict base64 decoder of docker-authz-plugin/src/lib.rs:142-199 against the
    encoding of section 4 of RFC 4648. */
module Base64 {
  import opened Text

  const PAD: byte := 0x3D

  /** The value of a letter of the alphabet. */
  function Digit(c: byte): (v: Option<nat>)
    ensures v.Some? ==> v.value < 64
  {
    if 0x41 <= c <= 0x5A then Some(c - 0x41)
    else if 0x61 <= c <= 0x7A then Some(c - 0x61 + 26)
    else if 0x30 <= c <= 0x39 then Some(c - 0x30 + 52)
    else if c == 0x2B then Some(62)
    else if c == 0x2F then Some(63)
    else None
  }

  function Letter(v: nat): (c: byte)
    requires v < 64
    ensures Digit(c) == Some(v) && c != PAD
  {
    if v < 26 then 0x41 + v
    else if v < 52 then 0x61 + (v - 26)
    else if v < 62 then 0x30 + (v - 52)
    else if v == 62 then 0x2B
    else 0x2F
  }

  function Number(c: byte): (v: nat)
    ensures v < 64
  {
    if Digit(c).Some? then Digit(c).value else 0
  }

  lemma LetterOfNumber(c: byte)
    requires Digit(c).Some?
    ensures Letter(Number(c)) == c
  {
  }

  /** Rust's `is_ascii_whitespace`. */
  predicate Blank(b: byte) { b == 0x20 || b == 0x09 || b == 0x0A || b == 0x0C || b == 0x0D }

  function Strip(s: seq<byte>): seq<byte> {
    if s == [] then [] else (if Blank(s[0]) then [] else [s[0]]) + Strip(s[1..])
  }

  // ---- eight bits and six -----------------------------------------------------------------

  /** Four groups of six bits out of three bytes of eight. */
  function First(x: byte): nat { x / 4 }

  function Second(x: byte, y: byte): nat { x % 4 * 16 + y / 16 }

  function Third(y: byte, z: byte): nat { y % 16 * 4 + z / 64 }

  function Fourth(z: byte): nat { z % 64 }

  lemma Sextets(x: byte, y: byte, z: byte)
    ensures First(x) < 64 && Second(x, y) < 64 && Third(y, z) < 64 && Fourth(z) < 64
  {
  }

  /** Three bytes of eight bits out of four groups of six, as the shifts build them
      in a `u8`. */
  function Byte1(a: nat, b: nat): byte { (a * 4 + b / 16) % 256 }

  function Byte2(b: nat, c: nat): byte { (b * 16 + c / 4) % 256 }

  function Byte3(c: nat, d: nat): byte { (c * 64 + d) % 256 }

  lemma FirstByte(x: byte, y: byte)
    ensures Byte1(First(x), Second(x, y)) == x
  {
    assert Second(x, y) / 16 == x % 4;
  }

  lemma SecondByte(x: byte, y: byte, z: byte)
    ensures Byte2(Second(x, y), Third(y, z)) == y
  {
    assert Third(y, z) / 4 == y % 16;
    assert Second(x, y) * 16 == x % 4 * 256 + y / 16 * 16;
  }

  lemma ThirdByte(y: byte, z: byte)
    ensures Byte3(Third(y, z), Fourth(z)) == z
  {
    assert Third(y, z) * 64 == y % 16 * 256 + z / 64 * 64;
  }

  lemma SextetsOfBytes(a: nat, b: nat, c: nat, d: nat)
    requires a < 64 && b < 64 && c < 64 && d < 64
    ensures First(Byte1(a, b)) == a && Second(Byte1(a, b), Byte2(b, c)) == b
    ensures Third(Byte2(b, c), Byte3(c, d)) == c && Fourth(Byte3(c, d)) == d
    ensures Second(Byte1(a, b), 0) == b / 16 * 16 && Third(Byte2(b, c), 0) == c / 4 * 4
  {
    assert Byte1(a, b) == a * 4 + b / 16;
    assert Byte2(b, c) == b % 16 * 16 + c / 4;
    assert Byte3(c, d) == c % 4 * 64 + d;
  }

  // ---- the encoding and what it spells ------------------------------------------------------

  /** `n + 1` letters and pads up to four. */
  function Letters(a: nat, b: nat, c: nat, d: nat, n: nat): (t: seq<byte>)
    requires a < 64 && b < 64 && c < 64 && d < 64
    ensures |t| == 4
  {
    [Letter(a), Letter(b), if n > 1 then Letter(c) else PAD, if n > 2 then Letter(d) else PAD]
  }

  /** Section 4 of RFC 4648, three bytes at a time. */
  function Encode(bs: seq<byte>): (t: seq<byte>)
    decreases |bs|
  {
    if bs == [] then []
    else if |bs| > 3 then Encode(bs[..3]) + Encode(bs[3..])
    else
      var x, y, z := bs[0], if |bs| > 1 then bs[1] else 0, if |bs| > 2 then bs[2] else 0;
      Sextets(x, y, z);
      Letters(First(x), Second(x, y), Third(y, z), Fourth(z), |bs|)
  }

  /** Only letters and pads. */
  predicate Spelled(t: seq<byte>) { forall i :: 0 <= i < |t| ==> Digit(t[i]).Some? || t[i] == PAD }

  /** A pad is the last byte, or the one before a last pad. */
  predicate PadsLast(t: seq<byte>) {
    forall i :: 0 <= i < |t| && t[i] == PAD ==> i == |t| - 1 || (i == |t| - 2 && t[|t| - 1] == PAD)
  }

  /** Whole quanta of letters, of which only the last may end in one or two pads. */
  predicate WellPadded(t: seq<byte>) { t != [] && |t| % 4 == 0 && Spelled(t) && PadsLast(t) }

  function Pads(t: seq<byte>): nat
    requires |t| >= 4
  {
    if t[|t| - 2] == PAD then 2 else if t[|t| - 1] == PAD then 1 else 0
  }

  /** The bytes that a text spells, four letters at a time; the bits of a byte that
      the pads cut off are dropped. */
  function Value(t: seq<byte>): seq<byte>
    requires |t| % 4 == 0
    decreases |t|
  {
    if t == [] then []
    else if |t| > 4 then Value(t[..4]) + Value(t[4..])
    else
      var a, b, c, d := Number(t[0]), Number(t[1]), Number(t[2]), Number(t[3]);
      if t[2] == PAD then [Byte1(a, b)]
      else if t[3] == PAD then [Byte1(a, b), Byte2(b, c)]
      else [Byte1(a, b), Byte2(b, c), Byte3(c, d)]
  }

  /** `t` with the bits that its pads cut off set to zero. */
  function Canonical(t: seq<byte>): seq<byte>
    requires |t| >= 4
  {
    if Pads(t) == 2 then t[..|t| - 3] + [Letter(Number(t[|t| - 3]) / 16 * 16), PAD, PAD]
    else if Pads(t) == 1 then t[..|t| - 2] + [Letter(Number(t[|t| - 2]) / 4 * 4), PAD]
    else t
  }

  // ---- round trips ------------------------------------------------------------------------

  lemma LettersSpell(a: nat, b: nat, c: nat, d: nat, bs: seq<byte>)
    requires a < 64 && b < 64 && c < 64 && d < 64 && 1 <= |bs| <= 3
    requires Byte1(a, b) == bs[0] && (|bs| > 1 ==> Byte2(b, c) == bs[1]) && (|bs| > 2 ==> Byte3(c, d) == bs[2])
    ensures var t := Letters(a, b, c, d, |bs|);
            WellPadded(t) && Pads(t) == 3 - |bs| && Value(t) == bs
  {
  }

  lemma ShortEncodeSpells(bs: seq<byte>)
    requires 1 <= |bs| <= 3
    ensures var t := Encode(bs);
            |t| == 4 && WellPadded(t) && Pads(t) == 3 - |bs| && Value(t) == bs
  {
    var x, y, z := bs[0], if |bs| > 1 then bs[1] else 0, if |bs| > 2 then bs[2] else 0;
    Sextets(x, y, z);
    FirstByte(x, y);
    SecondByte(x, y, z);
    ThirdByte(y, z);
    LettersSpell(First(x), Second(x, y), Third(y, z), Fourth(z), bs);
  }

  lemma ValueSplits(front: seq<byte>, rest: seq<byte>)
    requires |front| == 4 && |rest| % 4 == 0
    ensures Value(front + rest) == Value(front) + Value(rest)
  {
    if rest == [] {
      assert front + rest == front;
    } else {
      assert (front + rest)[..4] == front && (front + rest)[4..] == rest;
    }
  }

  lemma PaddedSplits(front: seq<byte>, rest: seq<byte>)
    requires |front| == 4 && |rest| >= 4 && |rest| % 4 == 0
    ensures WellPadded(front + rest) <==> WellPadded(front) && Pads(front) == 0 && WellPadded(rest)
  {
    var t := front + rest;
    assert forall i :: 4 <= i < |t| ==> t[i] == rest[i - 4];
    assert forall i :: 0 <= i < |rest| ==> rest[i] == t[i + 4];
    assert t[0] == front[0] && t[1] == front[1] && t[2] == front[2] && t[3] == front[3];
  }

  lemma CanonicalSplits(front: seq<byte>, rest: seq<byte>)
    requires |front| == 4 && |rest| >= 4
    ensures Canonical(front + rest) == front + Canonical(rest) && Pads(front + rest) == Pads(rest)
  {
    var t := front + rest;
    assert t[..|t| - 3] == front + rest[..|rest| - 3] && t[..|t| - 2] == front + rest[..|rest| - 2];
  }

  /** Decoding what was encoded gives it back. */
  lemma {:induction false} DecodeOfEncode(bs: seq<byte>)
    requires bs != []
    ensures WellPadded(Encode(bs)) && Value(Encode(bs)) == bs
    decreases |bs|
  {
    if |bs| <= 3 {
      ShortEncodeSpells(bs);
    } else {
      ShortEncodeSpells(bs[..3]);
      DecodeOfEncode(bs[3..]);
      var front, rest := Encode(bs[..3]), Encode(bs[3..]);
      assert Encode(bs) == front + rest;
      PaddedSplits(front, rest);
      ValueSplits(front, rest);
      assert bs == bs[..3] + bs[3..];
    }
  }

  lemma ShortValueEncodes(q: seq<byte>)
    requires |q| == 4 && WellPadded(q)
    ensures Encode(Value(q)) == Canonical(q) && |Value(q)| == 3 - Pads(q)
  {
    var a, b, c, d := Number(q[0]), Number(q[1]), Number(q[2]), Number(q[3]);
    SextetsOfBytes(a, b, c, d);
    assert Digit(q[0]).Some? && Digit(q[1]).Some?;
    LetterOfNumber(q[0]);
    LetterOfNumber(q[1]);
    if q[2] != PAD {
      LetterOfNumber(q[2]);
    }
    if q[3] != PAD {
      LetterOfNumber(q[3]);
    }
  }

  lemma EncodeSplits(front: seq<byte>, rest: seq<byte>)
    requires |front| == 3 && rest != []
    ensures Encode(front + rest) == Encode(front) + Encode(rest)
  {
    assert (front + rest)[..3] == front && (front + rest)[3..] == rest;
  }

  /** Encoding what was decoded gives the input with its cut-off bits cleared: the
      decoder reads every well-padded text as the one byte string that it spells, and
      two texts read alike exactly when they differ in cut-off bits only. */
  lemma {:induction false} EncodeOfDecode(t: seq<byte>)
    requires WellPadded(t)
    ensures Encode(Value(t)) == Canonical(t)
    ensures |Value(t)| == |t| / 4 * 3 - Pads(t)
    decreases |t|
  {
    if |t| == 4 {
      ShortValueEncodes(t);
    } else {
      var front, rest := t[..4], t[4..];
      assert front + rest == t;
      PaddedSplits(front, rest);
      CanonicalSplits(front, rest);
      ShortValueEncodes(front);
      EncodeOfDecode(rest);
      ValueSplits(front, rest);
      EncodeSplits(Value(front), Value(rest));
    }
  }

  /** The letters are those of table 1 in section 4 of RFC 4648, the pad is the equals
      sign, and white space is what ASCII has of it. */
  lemma AlphabetOfTheStandard(v: nat, c: byte)
    requires v < 64
    ensures Letter(v) == if v < 26 then 'A' as int + v
                         else if v < 52 then 'a' as int + v - 26
                         else if v < 62 then '0' as int + v - 52
                         else if v == 62 then '+' as int else '/' as int
    ensures Digit(c) == Some(v) <==> c == Letter(v)
    ensures c == PAD <==> c == '=' as int
    ensures Blank(c) <==> c == ' ' as int || c == '\t' as int || c == '\n' as int || c == '\r' as int || c == 12
  {
    if Digit(c) == Some(v) {
      LetterOfNumber(c);
    }
  }

  /** Nothing in an encoding is white space. */
  lemma EncodedIsStripped(bs: seq<byte>)
    requires bs != []
    ensures Strip(Encode(bs)) == Encode(bs)
  {
    DecodeOfEncode(bs);
    assert forall i :: 0 <= i < |Encode(bs)| ==> !Blank(Encode(bs)[i]);
    NothingToStrip(Encode(bs));
  }

  lemma {:induction false} NothingToStrip(t: seq<byte>)
    requires forall i :: 0 <= i < |t| ==> !Blank(t[i])
    ensures Strip(t) == t
  {
    if t != [] {
      NothingToStrip(t[1..]);
      assert [t[0]] + t[1..] == t;
    }
  }

  /** White space anywhere changes nothing. */
  lemma {:induction false} StripInserted(a: seq<byte>, blanks: seq<byte>, b: seq<byte>)
    requires forall i :: 0 <= i < |blanks| ==> Blank(blanks[i])
    ensures Strip(a + blanks + b) == Strip(a + b)
  {
    if a != [] {
      StripInserted(a[1..], blanks, b);
      assert (a + blanks + b)[1..] == a[1..] + blanks + b && (a + b)[1..] == a[1..] + b;
    } else if blanks != [] {
      StripInserted(a, blanks[1..], b);
      assert (a + blanks + b)[1..] == a + blanks[1..] + b;
    } else {
      assert a + blanks + b == a + b;
    }
  }

  // ---- the decoder ------------------------------------------------------------------------

  /** The bytes of `s` that are not white space. */
  method StripBlanks(s: seq<byte>) returns (t: seq<byte>)
    ensures t == Strip(s)
  {
    t := [];
    var i := |s|;
    while i > 0
      invariant 0 <= i <= |s| && t == Strip(s[i..])
    {
      i := i - 1;
      assert s[i..] == [s[i]] + s[i + 1..];
      if !Blank(s[i]) {
        t := [s[i]] + t;
      }
    }
  }

  /** The checks before the quanta are read: a pad stands only at the very end. */
  method PadsAtEnd(t: seq<byte>) returns (ok: bool)
    requires t != [] && |t| % 4 == 0
    ensures ok <==> PadsLast(t)
  {
    if t[0] == PAD || t[1] == PAD {
      return false;
    }
    var pos := 0;
    while pos < |t| && t[pos] != PAD
      invariant 0 <= pos <= |t|
      invariant forall i :: 0 <= i < pos ==> t[i] != PAD
    {
      pos := pos + 1;
    }
    ok := pos == |t| || (pos >= |t| - 2 && t[|t| - 1] == PAD);
  }

  /** `b64_decode`: accepts exactly the well-padded texts, white space aside. */
  method Decode(s: seq<byte>) returns (r: Option<seq<byte>>)
    ensures r == if WellPadded(Strip(s)) then Some(Value(Strip(s))) else None
  {
    var t := StripBlanks(s);
    if t == [] || |t| % 4 != 0 {
      return None;
    }
    var placed := PadsAtEnd(t);
    if !placed {
      return None;
    }
    r := ReadQuanta(t);
  }

  lemma ChunkStep(chunk: seq<byte>, rest: seq<byte>)
    requires |chunk| == 4 && |rest| % 4 == 0 && PadsLast(chunk + rest)
    ensures chunk[0] != PAD && chunk[1] != PAD && (chunk[2] == PAD ==> chunk[3] == PAD) && (chunk[3] == PAD ==> rest == [])
    ensures PadsLast(rest) && (Spelled(chunk + rest) <==> Spelled(chunk) && Spelled(rest))
    ensures Value(chunk + rest) == Value(chunk) + Value(rest)
  {
    var t := chunk + rest;
    ValueSplits(chunk, rest);
    assert t[0] == chunk[0] && t[1] == chunk[1] && t[2] == chunk[2] && t[3] == chunk[3];
    assert forall i :: 4 <= i < |t| ==> t[i] == rest[i - 4];
    assert forall i :: 0 <= i < |rest| ==> rest[i] == t[i + 4];
  }

  lemma OutGrows(out: seq<byte>, front: seq<byte>, rest: seq<byte>)
    ensures out + (front + rest) == out + front + rest
  {
  }

  method ReadQuanta(t: seq<byte>) returns (r: Option<seq<byte>>)
    requires t != [] && |t| % 4 == 0 && PadsLast(t)
    ensures r == if Spelled(t) then Some(Value(t)) else None
  {
    var out: seq<byte> := [];
    var rest := t;
    while rest != []
      invariant |rest| % 4 == 0 && PadsLast(rest)
      invariant Spelled(t) <==> Spelled(rest)
      invariant Value(t) == out + Value(rest)
      decreases |rest|
    {
      var chunk := rest[..4];
      assert rest == chunk + rest[4..];
      ChunkStep(chunk, rest[4..]);
      var bytes := ReadQuantum(chunk, |rest| == 4);
      if bytes.None? {
        return None;
      }
      OutGrows(out, bytes.value, Value(rest[4..]));
      out, rest := out + bytes.value, rest[4..];
    }
    assert out + [] == out;
    return Some(out);
  }

  lemma SpelledOfFour(q: seq<byte>)
    requires |q| == 4
    ensures Spelled(q) <==> LetterOrPad(q[0]) && LetterOrPad(q[1]) && LetterOrPad(q[2]) && LetterOrPad(q[3])
  {
  }

  predicate LetterOrPad(c: byte) { Digit(c).Some? || c == PAD }

  /** One chunk of four, of which only the last may end in pads. */
  method ReadQuantum(chunk: seq<byte>, last: bool) returns (bytes: Option<seq<byte>>)
    requires |chunk| == 4 && chunk[0] != PAD && chunk[1] != PAD
    requires chunk[2] == PAD ==> chunk[3] == PAD
    requires chunk[3] == PAD ==> last
    ensures bytes == if Spelled(chunk) then Some(Value(chunk)) else None
  {
    SpelledOfFour(chunk);
    var a, b := Digit(chunk[0]), Digit(chunk[1]);
    if a.None? || b.None? {
      return None;
    }
    var out := [Byte1(a.value, b.value)];
    if last && chunk[2] == PAD && chunk[3] == PAD {
      return Some(out);
    }
    var c := Digit(chunk[2]);
    if c.None? {
      return None;
    }
    out := out + [Byte2(b.value, c.value)];
    assert chunk[2] != PAD && out == [Byte1(a.value, b.value), Byte2(b.value, c.value)];
    if last && chunk[3] == PAD {
      return Some(out);
    }
    var d := Digit(chunk[3]);
    if d.None? {
      return None;
    }
    out := out + [Byte3(c.value, d.value)];
    assert out == [Byte1(a.value, b.value), Byte2(b.value, c.value), Byte3(c.value, d.value)];
    return Some(out);
  }
}
