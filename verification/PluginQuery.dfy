/** What the authorization plugin reads from a request's query: percent encoding, image
    references and scanner names (docker-authz-plugin/src/lib.rs:241-305 and 430-492). */
module PluginQuery {
  import opened Text

  // ---- percent encoding ------------------------------------------------------------------------

  const PERCENT: byte := 0x25

  function Hex(b: byte): Option<nat> {
    if 0x30 <= b <= 0x39 then Some(b - 0x30)
    else if 0x61 <= b <= 0x66 then Some(b - 0x57)
    else if 0x41 <= b <= 0x46 then Some(b - 0x37)
    else None
  }

  /** The byte that two hexadecimal digits spell. */
  function Pair(a: byte, b: byte): Option<byte> {
    if Hex(a).Some? && Hex(b).Some? && Hex(a).value < 16 && Hex(b).value < 16
    then Some(Hex(a).value * 16 + Hex(b).value) else None
  }

  function Decoded(bs: seq<byte>): seq<byte> {
    if bs == [] then []
    else if bs[0] == PERCENT && |bs| > 2 && Pair(bs[1], bs[2]).Some? then [Pair(bs[1], bs[2]).value] + Decoded(bs[3..])
    else [bs[0]] + Decoded(bs[1..])
  }

  /** The escape at a position, if there is a whole one. */
  function EscapeAt(bs: seq<byte>, i: nat): Option<byte>
    requires i < |bs|
  {
    if bs[i] == PERCENT && i + 2 < |bs| then Pair(bs[i + 1], bs[i + 2]) else None
  }

  lemma DecodedHead(bs: seq<byte>, i: nat)
    requires i < |bs|
    ensures EscapeAt(bs, i).Some? ==> i + 3 <= |bs| && Decoded(bs[i..]) == [EscapeAt(bs, i).value] + Decoded(bs[i + 3..])
    ensures EscapeAt(bs, i).None? ==> Decoded(bs[i..]) == [bs[i]] + Decoded(bs[i + 1..])
  {
    assert bs[i..][1..] == bs[i + 1..];
    assert i + 2 < |bs| ==> bs[i..][3..] == bs[i + 3..];
  }

  lemma OneMoreByte(out: seq<byte>, b: byte, rest: seq<byte>)
    ensures out + ([b] + rest) == out + [b] + rest
  {
  }

  /** `percent_decode`, on bytes. */
  method PercentDecode(bs: seq<byte>) returns (out: seq<byte>)
    ensures out == Decoded(bs)
  {
    out := [];
    var i: nat := 0;
    while i < |bs|
      invariant i <= |bs| && out + Decoded(bs[i..]) == Decoded(bs)
    {
      DecodedHead(bs, i);
      match EscapeAt(bs, i)
      case Some(b) =>
        OneMoreByte(out, b, Decoded(bs[i + 3..]));
        out, i := out + [b], i + 3;
      case None =>
        OneMoreByte(out, bs[i], Decoded(bs[i + 1..]));
        out, i := out + [bs[i]], i + 1;
    }
  }

  function HexDigit(n: nat): byte
    requires n < 16
  {
    if n < 10 then 0x30 + n else 0x37 + n
  }

  function Encoded(bs: seq<byte>): seq<byte> {
    if bs == [] then [] else [PERCENT, HexDigit(bs[0] / 16), HexDigit(bs[0] % 16)] + Encoded(bs[1..])
  }

  lemma PairOfDigits(b: byte)
    ensures Pair(HexDigit(b / 16), HexDigit(b % 16)) == Some(b)
  {
  }

  /** Percent-encoded bytes are read back. */
  lemma {:induction false} DecodedOfEncoded(bs: seq<byte>)
    ensures Decoded(Encoded(bs)) == bs
  {
    if bs != [] {
      var t := Encoded(bs);
      PairOfDigits(bs[0]);
      assert t[3..] == Encoded(bs[1..]);
      DecodedOfEncoded(bs[1..]);
      assert [bs[0]] + bs[1..] == bs;
    }
  }

  // ---- pulls -------------------------------------------------------------------------------------

  datatype Image = Image(name: string, tag: string)

  const GITLEAKS: Image := Image("ghcr.io/" + "gitleaks/" + "gitleaks", "v8.18.4")
  const OSV: Image := Image("ghcr.io/" + "google/" + "osv-scanner", "v2.2.4")
  const SEMGREP: Image := Image("semgrep/" + "semgrep", "1.96.0")

  const APPROVED: seq<Image> := [GITLEAKS, OSV, SEMGREP]

  function Ref(a: Image): string { a.name + ":" + a.tag }

  predicate IsApproved(ref: string) { exists a | a in APPROVED :: ref == Ref(a) }

  /** The decoded values of a query key, in order. */
  function Values(pairs: seq<string>, key: string): seq<string> {
    if pairs == [] then []
    else
      Values(pairs[..|pairs| - 1], key)
      + (match SplitOnce(pairs[|pairs| - 1], '=')
         case Some((k, v)) => if k == key then [DecodeLossy(Decoded(Encode(v)))] else []
         case None => [])
  }

  function Query(uri: string): string {
    match SplitOnce(uri, '?') case Some((_, q)) => q case None => ""
  }

  /** `query_param`: the first value of a key. */
  function Param(pairs: seq<string>, key: string): Option<string> {
    if pairs == [] then None
    else
      match SplitOnce(pairs[0], '=')
      case Some((k, v)) => if k == key then Some(DecodeLossy(Decoded(Encode(v)))) else Param(pairs[1..], key)
      case None => Param(pairs[1..], key)
  }

  /** The reference that one image and at most one tag make together. */
  function Recombined(from: string, tags: seq<string>): Option<string> {
    if from == "" then None
    else if tags == [] then Some(from)
    else if |tags| != 1 || tags[0] == "" || '@' in from then None
    else
      match SplitLastColon(from)
      case Some((_, embedded)) => if embedded == tags[0] then Some(from) else None
      case None => Some(from + ":" + tags[0])
  }

  /** `pull_policy`. */
  method PullPolicy(uri: string) returns (allowed: bool)
    ensures allowed <==> PullPasses(Values(Split(Query(uri), '&'), "fromImage"), Values(Split(Query(uri), '&'), "tag"))
  {
    var pairs := Split(Query(uri), '&');
    var froms, tags: seq<string> := [], [];
    for i := 0 to |pairs|
      invariant froms == Values(pairs[..i], "fromImage") && tags == Values(pairs[..i], "tag")
    {
      assert pairs[..i + 1][..i] == pairs[..i];
      match SplitOnce(pairs[i], '=') {
        case None =>
        case Some((k, v)) =>
          if k == "fromImage" {
            var bytes := PercentDecode(Encode(v));
            froms := froms + [DecodeLossy(bytes)];
          } else if k == "tag" {
            var bytes := PercentDecode(Encode(v));
            tags := tags + [DecodeLossy(bytes)];
          }
      }
    }
    assert pairs[..|pairs|] == pairs;
    if |froms| != 1 {
      return false;
    }
    var candidate := Recombined(froms[0], tags);
    return candidate.Some? && IsApproved(candidate.value);
  }

  predicate PullPasses(froms: seq<string>, tags: seq<string>) {
    |froms| == 1 && Recombined(froms[0], tags).Some? && IsApproved(Recombined(froms[0], tags).value)
  }

  // ---- what a query says ---------------------------------------------------------------------------

  lemma ValuesOfOne(pair: string, key: string)
    ensures Values([pair], key)
         == match SplitOnce(pair, '=')
            case Some((k, v)) => if k == key then [DecodeLossy(Decoded(Encode(v)))] else []
            case None => []
  {
    assert [pair][..0] == [];
  }

  lemma {:induction false} ValuesConcat(a: seq<string>, b: seq<string>, key: string)
    ensures Values(a + b, key) == Values(a, key) + Values(b, key)
  {
    if b == [] {
      assert a + b == a;
    } else {
      assert (a + b)[..|a + b| - 1] == a + b[..|b| - 1];
      ValuesConcat(a, b[..|b| - 1], key);
    }
  }

  /** `query_param` gives the first value. */
  lemma {:induction false} ParamIsFirst(pairs: seq<string>, key: string)
    ensures Param(pairs, key) == if Values(pairs, key) == [] then None else Some(Values(pairs, key)[0])
  {
    if pairs != [] {
      ValuesConcat([pairs[0]], pairs[1..], key);
      assert [pairs[0]] + pairs[1..] == pairs;
      ValuesOfOne(pairs[0], key);
      ParamIsFirst(pairs[1..], key);
    }
  }

  /** Bytes of ASCII letters as a text. */
  predicate IsAscii(bs: seq<byte>) { forall i :: 0 <= i < |bs| ==> bs[i] < 0x80 }

  function Ascii(bs: seq<byte>): string
    requires IsAscii(bs)
  {
    if bs == [] then "" else [bs[0] as char] + Ascii(bs[1..])
  }

  lemma AsciiChar(b: byte)
    requires b < 0x80
    ensures EncodeChar(b as char) == [b]
  {
  }

  lemma {:induction false} EncodeOfAscii(bs: seq<byte>)
    requires IsAscii(bs)
    ensures Encode(Ascii(bs)) == bs
  {
    if bs != [] {
      EncodeOfAscii(bs[1..]);
      var head, rest := bs[0] as char, Ascii(bs[1..]);
      AsciiChar(bs[0]);
      assert ([head] + rest)[1..] == rest;
      assert [bs[0]] + bs[1..] == bs;
    }
  }

  lemma {:induction false} EncodedIsPlain(bs: seq<byte>)
    ensures forall i :: 0 <= i < |Encoded(bs)| ==>
              var b := Encoded(bs)[i]; b == 0x25 || 0x30 <= b <= 0x39 || 0x41 <= b <= 0x46
    ensures IsAscii(Encoded(bs))
  {
    if bs != [] {
      EncodedIsPlain(bs[1..]);
    }
  }

  lemma {:induction false} AsciiLetters(bs: seq<byte>, c: char)
    requires IsAscii(bs)
    ensures c in Ascii(bs) ==> c as int in bs
  {
    if bs != [] {
      AsciiLetters(bs[1..], c);
    }
  }

  /** A text with every byte percent-encoded. */
  function Escaped(text: string): string {
    EncodedIsPlain(Encode(text));
    Ascii(Encoded(Encode(text)))
  }

  lemma EscapedIsRead(text: string)
    ensures DecodeLossy(Decoded(Encode(Escaped(text)))) == text
    ensures '&' !in Escaped(text) && '?' !in Escaped(text)
  {
    EncodedIsPlain(Encode(text));
    EncodeOfAscii(Encoded(Encode(text)));
    DecodedOfEncoded(Encode(text));
    DecodeOfEncode(text);
    AsciiLetters(Encoded(Encode(text)), '&');
    AsciiLetters(Encoded(Encode(text)), '?');
  }

  /** One pair of a query, escaped. */
  function Written(key: string, text: string): string { key + ['='] + Escaped(text) }

  lemma WrittenIsRead(key: string, text: string, asked: string)
    requires '=' !in key
    ensures Values([Written(key, text)], asked) == if key == asked then [text] else []
  {
    SplitOnceAt(key, Escaped(text), '=');
    EscapedIsRead(text);
    ValuesOfOne(Written(key, text), asked);
  }

  lemma WrittenIsOnePiece(key: string, text: string)
    requires '&' !in key && '?' !in key
    ensures '&' !in Written(key, text) && '?' !in Written(key, text)
  {
    EscapedIsRead(text);
  }

  lemma PairsOfQuery(path: string, first: string, rest: string)
    requires '?' !in path && '&' !in first
    ensures Split(Query(path + ['?'] + first), '&') == [first]
    ensures Split(Query(path + ['?'] + (first + ['&'] + rest)), '&') == [first] + Split(rest, '&')
  {
    SplitOnceAt(path, first, '?');
    SplitOnceAt(path, first + ['&'] + rest, '?');
    SplitWhole(first, '&');
    SplitConcat(first, rest, '&');
  }

  lemma GitleaksSpelled()
    ensures Ref(GITLEAKS) == "ghcr.io/gitleaks/gitleaks:v8.18.4"
  {
  }

  lemma OsvSpelled()
    ensures Ref(OSV) == "ghcr.io/google/osv-scanner:v2.2.4"
  {
  }

  lemma SemgrepSpelled()
    ensures Ref(SEMGREP) == "semgrep/semgrep:1.96.0"
  {
  }

  lemma ApprovedOneByOne(ref: string)
    ensures IsApproved(ref) <==> ref == Ref(GITLEAKS) || ref == Ref(OSV) || ref == Ref(SEMGREP)
  {
    assert GITLEAKS in APPROVED && OSV in APPROVED && SEMGREP in APPROVED;
  }

  /** The references that may be pulled, letter by letter. */
  lemma ApprovedExactly(ref: string)
    ensures IsApproved(ref) <==>
              || ref == "ghcr.io/gitleaks/gitleaks:v8.18.4"
              || ref == "ghcr.io/google/osv-scanner:v2.2.4"
              || ref == "semgrep/semgrep:1.96.0"
  {
    GitleaksSpelled();
    OsvSpelled();
    SemgrepSpelled();
    ApprovedOneByOne(ref);
  }

  /** What the query of a written pull says. */
  lemma WrittenPullIsRead(path: string, image: string, tag: string)
    requires '?' !in path
    ensures var pairs := Split(Query(path + ['?'] + Written("fromImage", image)), '&');
            Values(pairs, "fromImage") == [image] && Values(pairs, "tag") == []
    ensures var pairs := Split(Query(path + ['?'] + (Written("fromImage", image) + ['&'] + Written("tag", tag))), '&');
            Values(pairs, "fromImage") == [image] && Values(pairs, "tag") == [tag]
  {
    var first, second := Written("fromImage", image), Written("tag", tag);
    KeysAreApart();
    WrittenIsOnePiece("fromImage", image);
    WrittenIsOnePiece("tag", tag);
    PairsOfQuery(path, first, second);
    SplitWhole(second, '&');
    WrittenIsRead("fromImage", image, "fromImage");
    WrittenIsRead("fromImage", image, "tag");
    WrittenIsRead("tag", tag, "fromImage");
    WrittenIsRead("tag", tag, "tag");
    ValuesConcat([first], [second], "fromImage");
    ValuesConcat([first], [second], "tag");
  }

  /** A written pull of an image, and of an image and a tag, passes exactly when it
      spells an approved one. */
  lemma WrittenPullPasses(path: string, image: string, tag: string)
    requires '?' !in path
    ensures var pairs := Split(Query(path + ['?'] + Written("fromImage", image)), '&');
            PullPasses(Values(pairs, "fromImage"), Values(pairs, "tag")) <==> IsApproved(image)
    ensures var pairs := Split(Query(path + ['?'] + (Written("fromImage", image) + ['&'] + Written("tag", tag))), '&');
            PullPasses(Values(pairs, "fromImage"), Values(pairs, "tag")) <==>
              exists a | a in APPROVED :: tag == a.tag && (image == Ref(a) || image == a.name)
  {
    WrittenPullIsRead(path, image, tag);
    PullOfOne(image, tag);
  }

  lemma PullOfOne(image: string, tag: string)
    ensures PullPasses([image], []) <==> IsApproved(image)
    ensures PullPasses([image], [tag]) <==> exists a | a in APPROVED :: tag == a.tag && (image == Ref(a) || image == a.name)
  {
    PullPassesExactly([image], []);
    PullPassesExactly([image], [tag]);
  }

  lemma KeysAreApart()
    ensures "fromImage" != "tag" && '=' !in "fromImage" && '=' !in "tag"
    ensures '&' !in "fromImage" && '&' !in "tag" && '?' !in "fromImage" && '?' !in "tag"
  {
    assert |"fromImage"| != |"tag"|;
  }

  /** A written name is read, and a second one does not count. */
  lemma WrittenNameIsRead(path: string, name: string, rest: string)
    requires '?' !in path
    ensures Param(Split(Query(path + ['?'] + Written("name", name)), '&'), "name") == Some(name)
    ensures Param(Split(Query(path + ['?'] + (Written("name", name) + ['&'] + rest)), '&'), "name") == Some(name)
  {
    assert '=' !in "name" && '&' !in "name" && '?' !in "name";
    var first := Written("name", name);
    WrittenIsOnePiece("name", name);
    PairsOfQuery(path, first, rest);
    WrittenIsRead("name", name, "name");
    ValuesConcat([first], Split(rest, '&'), "name");
    ParamIsFirst([first], "name");
    ParamIsFirst([first] + Split(rest, '&'), "name");
  }

  predicate Unmarked(s: string) { s != "" && ':' !in s && '@' !in s }

  predicate Simple(a: Image) { Unmarked(a.name) && Unmarked(a.tag) }

  lemma UnmarkedConcat(s: string, t: string)
    requires Unmarked(s) && Unmarked(t)
    ensures Unmarked(s + t)
  {
  }

  lemma GitleaksIsSimple()
    ensures Simple(GITLEAKS)
  {
    UnmarkedConcat("ghcr.io/", "gitleaks/");
    UnmarkedConcat("ghcr.io/" + "gitleaks/", "gitleaks");
  }

  lemma OsvIsSimple()
    ensures Simple(OSV)
  {
    UnmarkedConcat("ghcr.io/", "google/");
    UnmarkedConcat("ghcr.io/" + "google/", "osv-scanner");
  }

  lemma SemgrepIsSimple()
    ensures Simple(SEMGREP)
  {
    UnmarkedConcat("semgrep/", "semgrep");
  }

  lemma ApprovedAreSimple(a: Image)
    requires a in APPROVED
    ensures Simple(a)
  {
    GitleaksIsSimple();
    OsvIsSimple();
    SemgrepIsSimple();
  }

  lemma RefSplits(a: Image)
    requires a in APPROVED
    ensures SplitLastColon(Ref(a)) == Some((a.name, a.tag)) && '@' !in Ref(a) && Ref(a) != ""
  {
    ApprovedAreSimple(a);
    SplitLastColonAt(a.name, a.tag);
  }

  /** A pull passes exactly when it spells one approved image: the whole reference, with
      or without its own tag once more, or the name and the tag. */
  lemma PullPassesExactly(froms: seq<string>, tags: seq<string>)
    ensures PullPasses(froms, tags) <==>
              exists a | a in APPROVED ::
                || (froms == [Ref(a)] && (tags == [] || tags == [a.tag]))
                || (froms == [a.name] && tags == [a.tag])
  {
    if PullPasses(froms, tags) {
      var from := froms[0];
      var a :| a in APPROVED && Recombined(from, tags).value == Ref(a);
      RefSplits(a);
      PassingIsSpelled(from, tags, a);
      assert froms == [from];
    }
    forall a | a in APPROVED && ((froms == [Ref(a)] && (tags == [] || tags == [a.tag])) || (froms == [a.name] && tags == [a.tag]))
      ensures PullPasses(froms, tags)
    {
      SpelledPasses(froms[0], tags, a);
    }
  }

  lemma PassingIsSpelled(from: string, tags: seq<string>, a: Image)
    requires a in APPROVED && Recombined(from, tags) == Some(Ref(a))
    ensures (from == Ref(a) && (tags == [] || tags == [a.tag])) || (from == a.name && tags == [a.tag])
  {
    RefSplits(a);
    ApprovedAreSimple(a);
    if tags != [] {
      assert tags == [tags[0]];
      LastColonJoins(from);
      if SplitLastColon(from).None? {
        FirstPieceIsUnique(from, tags[0], a.name, a.tag, ':');
      }
    }
  }

  lemma SpelledPasses(from: string, tags: seq<string>, a: Image)
    requires a in APPROVED
    requires (from == Ref(a) && (tags == [] || tags == [a.tag])) || (from == a.name && tags == [a.tag])
    ensures Recombined(from, tags) == Some(Ref(a))
  {
    RefSplits(a);
    ApprovedAreSimple(a);
    LastColonJoins(a.name);
    if from == a.name {
      assert SplitLastColon(a.name).None?;
    }
  }

  // ---- scanner names -----------------------------------------------------------------------------

  const PREFIX: string := "firecrow-scan-"

  predicate DashAt(i: nat) { i == 8 || i == 13 || i == 18 || i == 23 }

  predicate LowerHex(c: char) { '0' <= c <= '9' || 'a' <= c <= 'f' }

  /** Five groups of hexadecimal digits, 8-4-4-4-12. */
  predicate IsUuid(s: string) {
    |s| == 36 && forall i :: 0 <= i < 36 ==> if DashAt(i) then s[i] == '-' else LowerHex(s[i])
  }

  predicate IsScannerName(name: string) { PREFIX <= name && IsUuid(name[|PREFIX|..]) }

  /** A scanner name, letter by letter. */
  lemma ScannerNameExactly(name: string)
    ensures IsScannerName(name) <==>
              && |name| == 50 && name[..14] == "firecrow-scan-"
              && forall i :: 14 <= i < 50 ==>
                   if i == 22 || i == 27 || i == 32 || i == 37 then name[i] == '-'
                   else '0' <= name[i] <= '9' || 'a' <= name[i] <= 'f'
  {
    if |name| == 50 {
      assert forall i :: 0 <= i < 36 ==> name[14..][i] == name[14 + i];
      assert forall i :: 14 <= i < 50 ==> name[i] == name[14..][i - 14];
    }
  }

  /** The letters one by one, noting where the dashes are. */
  method CheckUuid(s: string) returns (ok: bool)
    ensures ok <==> IsUuid(s)
  {
    if |s| != 36 {
      return false;
    }
    var dash: set<nat> := {};
    for i := 0 to 36
      invariant forall k :: 0 <= k < i ==> LowerHex(s[k]) || (s[k] == '-' && DashAt(k))
      invariant forall k: nat :: k in dash <==> k < i && s[k] == '-'
    {
      if LowerHex(s[i]) {
      } else if s[i] == '-' && DashAt(i) {
        dash := dash + {i};
      } else {
        return false;
      }
    }
    return 8 in dash && 13 in dash && 18 in dash && 23 in dash;
  }
}
