/** How the authorization plugin reads a request URI
    (docker-authz-plugin/src/lib.rs:200-283). */
module PluginPath {
  import opened Text

  /** The text before the first `?` or `#`. */
  function BeforeQuery(uri: string): string {
    if uri == "" || uri[0] == '?' || uri[0] == '#' then "" else [uri[0]] + BeforeQuery(uri[1..])
  }

  function NonEmpty(pieces: seq<string>): (segs: seq<string>)
    ensures forall s :: s in segs <==> s in pieces && s != ""
  {
    if pieces == [] then [] else (if pieces[0] == "" then [] else [pieces[0]]) + NonEmpty(pieces[1..])
  }

  function Segments(raw: string): seq<string> { NonEmpty(Split(raw, '/')) }

  /** `v` and then digits and dots. */
  predicate IsVersion(seg: string) {
    |seg| > 1 && seg[0] == 'v' && forall c :: c in seg[1..] ==> IsDigit(c) || c == '.'
  }

  function Unversioned(segs: seq<string>): seq<string> {
    if |segs| > 1 && IsVersion(segs[0]) then segs[1..] else segs
  }

  predicate Smuggles(raw: string) { Holds("%2f", raw) || Holds("%2F", raw) || Holds("%00", raw) }

  /** The version prefix is looked for behind the first byte of the first segment;
      behind a longer character the slice panics, and no answer is given. */
  datatype Route = Path(segs: seq<string>) | Unusable | Panics

  predicate StartsLong(seg: string) { seg != "" && |EncodeChar(seg[0])| > 1 }

  /** Where a URI leads. */
  function RouteOf(uri: string): Route {
    var raw := BeforeQuery(uri);
    var segs := Segments(raw);
    if raw == "" || raw[0] != '/' || Smuggles(raw) then Unusable
    else if "." in segs || ".." in segs || segs == [] then Unusable
    else if |segs| > 1 && StartsLong(segs[0]) then Panics
    else Path(Unversioned(segs))
  }

  /** A route as the program holds it. */
  function Printed(r: Route): string {
    if r.Path? && r.segs != [] then "/" + Join(r.segs, '/') else ""
  }

  lemma SegmentsAreClean(raw: string)
    ensures forall s :: s in Segments(raw) ==> s != "" && '/' !in s
  {
    JoinOfSplit(raw, '/');
  }

  lemma FirstOfJoin(segs: seq<string>)
    requires |segs| > 0 && forall s :: s in segs ==> s != "" && '/' !in s
    ensures SplitOnce(Join(segs, '/'), '/') == if |segs| == 1 then None else Some((segs[0], Join(segs[1..], '/')))
  {
    var text := Join(segs, '/');
    assert segs[0] in segs;
    if |segs| > 1 {
      SplitOnceAt(segs[0], Join(segs[1..], '/'), '/');
    }
  }

  lemma NonEmptyHead(pieces: seq<string>, i: nat)
    requires i < |pieces|
    ensures NonEmpty(pieces[i..]) == (if pieces[i] == "" then [] else [pieces[i]]) + NonEmpty(pieces[i + 1..])
  {
    assert pieces[i..][1..] == pieces[i + 1..];
  }

  /** The segments of a usable path, in a loop that stops at a dot segment. */
  method CollectSegments(raw: string) returns (segs: Option<seq<string>>)
    ensures segs == if "." in Segments(raw) || ".." in Segments(raw) then None else Some(Segments(raw))
  {
    var pieces := Split(raw, '/');
    var out: seq<string> := [];
    for i := 0 to |pieces|
      invariant out + NonEmpty(pieces[i..]) == Segments(raw)
      invariant "." !in out && ".." !in out
    {
      NonEmptyHead(pieces, i);
      if pieces[i] == "" {
        continue;
      }
      if pieces[i] == "." || pieces[i] == ".." {
        return None;
      }
      out := out + [pieces[i]];
    }
    assert out + [] == out;
    return Some(out);
  }

  /** `normalize_path`; nothing when the slice panics. */
  method NormalizePath(uri: string) returns (path: Option<string>)
    ensures path == if RouteOf(uri).Panics? then None else Some(Printed(RouteOf(uri)))
  {
    var raw := BeforeQuery(uri);
    if raw == "" || raw[0] != '/' {
      return Some("");
    }
    if Smuggles(raw) {
      return Some("");
    }
    var collected := CollectSegments(raw);
    if collected.None? || collected.value == [] {
      return Some("");
    }
    var segs := collected.value;
    SegmentsAreClean(raw);
    FirstOfJoin(segs);
    var rest := Join(segs, '/');
    match SplitOnce(rest, '/')
    case None => return Some("/" + rest);
    case Some((ver, tail)) =>
      if StartsLong(ver) {
        return None;
      }
      assert tail != "" by {
        assert segs[1] in segs;
      }
      if IsVersion(ver) {
        return Some("/" + tail);
      }
      return Some("/" + rest);
  }

  // ---- what does not matter ------------------------------------------------------------------

  lemma {:induction false} NonEmptyConcat(a: seq<string>, b: seq<string>)
    ensures NonEmpty(a + b) == NonEmpty(a) + NonEmpty(b)
  {
    if a == [] {
      assert a + b == b;
    } else {
      assert (a + b)[1..] == a[1..] + b;
      NonEmptyConcat(a[1..], b);
    }
  }

  lemma SegmentsConcat(a: string, b: string)
    ensures Segments(a + ['/'] + b) == Segments(a) + Segments(b)
  {
    SplitConcat(a, b, '/');
    NonEmptyConcat(Split(a, '/'), Split(b, '/'));
  }

  lemma SmugglesBeside(a: string, b: string)
    ensures Smuggles(a + ['/'] + b) <==> Smuggles(a) || Smuggles(b)
  {
    HoldsBeside("%2f", a, b, '/');
    HoldsBeside("%2F", a, b, '/');
    HoldsBeside("%00", a, b, '/');
  }

  lemma {:induction false} BeforeQueryConcat(a: string, b: string)
    requires '?' !in a && '#' !in a
    ensures BeforeQuery(a + b) == a + BeforeQuery(b)
  {
    if a == "" {
      assert a + b == b;
    } else {
      assert (a + b)[1..] == a[1..] + b;
      BeforeQueryConcat(a[1..], b);
    }
  }

  /** What a route depends on. */
  lemma SameRoute(u: string, v: string)
    requires var a, b := BeforeQuery(u), BeforeQuery(v);
             a != "" && b != "" && a[0] == b[0] && Smuggles(a) == Smuggles(b) && Segments(a) == Segments(b)
    ensures RouteOf(u) == RouteOf(v)
  {
  }

  /** A doubled slash in the path changes nothing. */
  lemma DoubledSlash(a: string, b: string)
    requires '?' !in a && '#' !in a
    ensures RouteOf(a + ['/'] + ['/'] + b) == RouteOf(a + ['/'] + b)
  {
    var rest := BeforeQuery(b);
    BeforeQueryConcat(a + ['/'], b);
    BeforeQueryConcat(a + ['/'] + ['/'], b);
    assert a + ['/'] + ['/'] + rest == a + ['/'] + ("" + ['/'] + rest);
    SegmentsConcat(a, "" + ['/'] + rest);
    SegmentsConcat("", rest);
    SegmentsConcat(a, rest);
    SmugglesBeside(a, "" + ['/'] + rest);
    SmugglesBeside("", rest);
    SmugglesBeside(a, rest);
    NoPercent("");
    SameRoute(a + ['/'] + ['/'] + b, a + ['/'] + b);
  }

  lemma BehindPath(path: string, mark: string, query: string)
    requires '?' !in path && '#' !in path && (mark == "?" || mark == "#")
    ensures BeforeQuery(path + mark + query) == path && BeforeQuery(path) == path
  {
    BeforeQueryConcat(path, mark + query);
    BeforeQueryConcat(path, "");
    assert path + mark + query == path + (mark + query);
    assert path + "" == path;
  }

  /** Nor does anything behind the path. */
  lemma QueryIgnored(path: string, query: string)
    requires '?' !in path && '#' !in path
    ensures RouteOf(path + "?" + query) == RouteOf(path)
    ensures RouteOf(path + "#" + query) == RouteOf(path)
  {
    BehindPath(path, "?", query);
    BehindPath(path, "#", query);
  }

  // ---- what leads nowhere ------------------------------------------------------------------------

  /** A path with an encoded slash or an encoded NUL in it leads nowhere. */
  lemma EncodedIsRefused(a: string, word: string, b: string)
    requires '?' !in a && '#' !in a && (word == "%2f" || word == "%2F" || word == "%00")
    ensures RouteOf(a + word + b) == Unusable
  {
    assert '?' !in word && '#' !in word;
    BeforeQueryConcat(a + word, b);
    var raw := a + word + BeforeQuery(b);
    assert raw[|a|..] == word + BeforeQuery(b);
    assert Holds(word, raw);
  }

  /** Nor does one with a dot segment, or one that does not start at the root. */
  lemma DotsAreRefused(a: string, dots: string, b: string)
    requires '?' !in a && '#' !in a && (dots == "." || dots == "..")
    ensures RouteOf(a + ['/'] + dots) == Unusable && RouteOf(a + ['/'] + dots + ['/'] + b) == Unusable
    ensures a != "" && a[0] != '/' ==> RouteOf(a + b) == Unusable
    ensures RouteOf("") == Unusable
  {
    var front := a + ['/'] + dots;
    BeforeQueryConcat(front, "");
    assert front + "" == front;
    BeforeQueryConcat(front, ['/'] + b);
    assert front + (['/'] + b) == front + ['/'] + b;
    assert BeforeQuery(['/'] + b) == ['/'] + BeforeQuery(b) by {
      assert (['/'] + b)[1..] == b;
    }
    assert front + (['/'] + BeforeQuery(b)) == front + ['/'] + BeforeQuery(b);
    DotSegment(dots);
    SegmentsConcat(a, dots);
    SegmentsConcat(front, BeforeQuery(b));
    BeforeQueryConcat(a, b);
  }

  lemma DotSegment(dots: string)
    requires dots == "." || dots == ".."
    ensures Segments(dots) == [dots]
  {
    SplitWhole(dots, '/');
    AllNonEmpty([dots]);
  }

  /** What a version looks like, and behind which letters the slice panics. */
  lemma DelicateSegments(seg: string)
    ensures IsVersion(seg) <==>
              |seg| >= 2 && seg[0] == 'v' && forall i :: 1 <= i < |seg| ==> '0' <= seg[i] <= '9' || seg[i] == '.'
    ensures StartsLong(seg) <==> seg != "" && seg[0] as int >= 128
  {
    if |seg| >= 2 {
      forall i | 1 <= i < |seg|
        ensures seg[i] in seg[1..]
      {
        assert seg[1..][i - 1] == seg[i];
      }
    }
  }

  /** Every other path is its segments. */
  lemma PlainIsItself(segs: seq<string>)
    requires Clean(segs) && "." !in segs && ".." !in segs && !Delicate(segs)
    requires forall s :: s in segs ==> '%' !in s && '?' !in s && '#' !in s
    ensures RouteOf("/" + Join(segs, '/')) == Path(segs)
  {
    var path := "/" + Join(segs, '/');
    JoinedLetters(segs, '%');
    JoinedLetters(segs, '?');
    JoinedLetters(segs, '#');
    NoPercent(path);
    BeforeQueryConcat(path, "");
    assert path + "" == path;
    SegmentsOfPrinted(segs);
  }

  predicate Quiet(c: char) { c == 'v' || IsDigit(c) || c == '.' }

  lemma VersionIsPlain(ver: string)
    requires IsVersion(ver)
    ensures '/' !in ver && '?' !in ver && '#' !in ver && '%' !in ver && Segments(ver) == [ver]
  {
    assert ver == [ver[0]] + ver[1..];
    assert forall c :: c in ver ==> Quiet(c);
    SplitWhole(ver, '/');
    assert NonEmpty([ver]) == [ver];
  }

  lemma NoPercent(text: string)
    requires '%' !in text
    ensures !Smuggles(text)
  {
    HoldsNeedsFirst("%2f", text);
    HoldsNeedsFirst("%2F", text);
    HoldsNeedsFirst("%00", text);
  }

  lemma NoSegments()
    ensures Segments("") == []
  {
    assert Split("", '/') == [""] && [""][1..] == [];
  }

  /** A path with one more segment in front. */
  lemma SegmentInFront(seg: string, rest: string)
    requires seg != "" && '/' !in seg && '%' !in seg
    ensures Segments("" + ['/'] + (seg + ['/'] + rest)) == [seg] + Segments("" + ['/'] + rest)
    ensures Smuggles("" + ['/'] + (seg + ['/'] + rest)) <==> Smuggles("" + ['/'] + rest)
  {
    SplitWhole(seg, '/');
    assert NonEmpty([seg]) == [seg];
    NoSegments();
    SegmentsConcat("", rest);
    SegmentsConcat(seg, rest);
    SegmentsConcat("", seg + ['/'] + rest);
    NoPercent("");
    NoPercent(seg);
    SmugglesBeside("", rest);
    SmugglesBeside(seg, rest);
    SmugglesBeside("", seg + ['/'] + rest);
  }

  lemma VersionInFront(ver: string, segs: seq<string>)
    requires IsVersion(ver)
    ensures !StartsLong(ver) && ver != "." && ver != ".."
    ensures Unversioned([ver] + segs) == if segs == [] then [ver] else segs
    ensures "." in [ver] + segs <==> "." in segs
    ensures ".." in [ver] + segs <==> ".." in segs
  {
    assert segs != [] ==> ([ver] + segs)[1..] == segs;
  }

  /** The first of several segments is a version, or makes the slice panic. */
  predicate Delicate(segs: seq<string>) { |segs| > 1 && (IsVersion(segs[0]) || StartsLong(segs[0])) }

  predicate Refused(raw: string) { Smuggles(raw) || "." in Segments(raw) || ".." in Segments(raw) }

  lemma DelicateChanges(segs: seq<string>)
    ensures Unversioned(segs) != segs || (|segs| > 1 && StartsLong(segs[0])) <==> Delicate(segs)
  {
    assert |segs| > 1 ==> |segs[1..]| < |segs|;
  }

  lemma VersionedText(ver: string, p: string)
    requires IsVersion(ver) && p != "" && p[0] == '/'
    ensures var raw := BeforeQuery("/" + ver + p);
            && raw != "" && raw[0] == '/' && Segments(raw) == [ver] + Segments(BeforeQuery(p))
            && (Smuggles(raw) <==> Smuggles(BeforeQuery(p)))
  {
    VersionIsPlain(ver);
    var path := BeforeQuery(p);
    var rest := path[1..];
    BeforeQueryConcat("/" + ver, p);
    assert path == "" + ['/'] + rest;
    assert "/" + ver + path == "" + ['/'] + (ver + ['/'] + rest);
    SegmentInFront(ver, rest);
  }

  /** A version in front of a path: it is dropped, and with it every look at the
      segments behind it, so what follows counts as it stands. */
  lemma VersionPrefix(ver: string, p: string)
    requires IsVersion(ver) && p != "" && p[0] == '/'
    ensures var raw := BeforeQuery(p);
            && RouteOf("/" + ver + p)
               == (if Refused(raw) then Unusable else if Segments(raw) == [] then Path([ver]) else Path(Segments(raw)))
            && (RouteOf("/" + ver + p) == RouteOf(p)
                <==> Refused(raw) || (Segments(raw) != [] && !Delicate(Segments(raw))))
  {
    VersionedText(ver, p);
    VersionInFront(ver, Segments(BeforeQuery(p)));
    DelicateChanges(Segments(BeforeQuery(p)));
  }

  // ---- normalizing twice -----------------------------------------------------------------------

  lemma NothingHolds(word: string)
    requires word != ""
    ensures !Holds(word, "")
  {
    HoldsNeedsFirst(word, "");
  }

  /** Segments of a text that holds no escape hold none, and printed again neither. */
  lemma PrintedHolds(word: string, raw: string, segs: seq<string>)
    requires word != "" && '/' !in word && !Holds(word, raw)
    requires segs != [] && forall s :: s in segs ==> s in Segments(raw)
    ensures !Holds(word, Printed(Path(segs)))
  {
    JoinOfSplit(raw, '/');
    HoldsInPiece(word, Split(raw, '/'), '/');
    HoldsInPiece(word, segs, '/');
    NothingHolds(word);
    HoldsBeside(word, "", Join(segs, '/'), '/');
    assert Printed(Path(segs)) == "" + ['/'] + Join(segs, '/');
  }

  lemma PrintedSmuggles(raw: string, segs: seq<string>)
    requires !Smuggles(raw) && segs != [] && forall s :: s in segs ==> s in Segments(raw)
    ensures !Smuggles(Printed(Path(segs)))
  {
    PrintedHolds("%2f", raw, segs);
    PrintedHolds("%2F", raw, segs);
    PrintedHolds("%00", raw, segs);
  }

  lemma {:induction false} QueryFree(uri: string)
    ensures '?' !in BeforeQuery(uri) && '#' !in BeforeQuery(uri)
  {
    if uri != "" {
      QueryFree(uri[1..]);
    }
  }

  lemma {:induction false} JoinedLetters(pieces: seq<string>, c: char)
    requires pieces != [] && c != '/'
    ensures c in Join(pieces, '/') <==> exists p | p in pieces :: c in p
  {
    if |pieces| > 1 {
      JoinedLetters(pieces[1..], c);
      assert pieces == [pieces[0]] + pieces[1..];
    } else {
      assert pieces == [pieces[0]];
    }
  }

  lemma PrintedQueryFree(raw: string, segs: seq<string>, c: char)
    requires c != '/' && c !in raw && segs != [] && forall s :: s in segs ==> s in Segments(raw)
    ensures c !in Printed(Path(segs))
  {
    JoinOfSplit(raw, '/');
    JoinedLetters(Split(raw, '/'), c);
    JoinedLetters(segs, c);
  }

  lemma SegmentsOfPrinted(segs: seq<string>)
    requires Clean(segs)
    ensures Segments(Printed(Path(segs))) == segs
  {
    SplitOfJoin(segs, '/');
    assert Printed(Path(segs)) == "" + ['/'] + Join(segs, '/');
    SegmentsConcat("", Join(segs, '/'));
    NoSegments();
    AllNonEmpty(segs);
  }

  lemma {:induction false} AllNonEmpty(pieces: seq<string>)
    requires forall p :: p in pieces ==> p != ""
    ensures NonEmpty(pieces) == pieces
  {
    if pieces != [] {
      assert pieces[0] in pieces && forall p :: p in pieces[1..] ==> p in pieces;
      AllNonEmpty(pieces[1..]);
      assert [pieces[0]] + pieces[1..] == pieces;
    }
  }

  /** What normalizing makes of a normalized path, with or without a query behind it. */
  lemma NormalizedAgain(uri: string, query: string)
    requires RouteOf(uri).Path?
    ensures var segs := RouteOf(uri).segs;
            && RouteOf(Printed(RouteOf(uri)))
               == (if |segs| > 1 && StartsLong(segs[0]) then Panics else Path(Unversioned(segs)))
            && RouteOf(Printed(RouteOf(uri)) + "?" + query) == RouteOf(Printed(RouteOf(uri)))
  {
    var raw, segs := BeforeQuery(uri), RouteOf(uri).segs;
    var path := Printed(Path(segs));
    RouteIsClean(uri);
    var all := Segments(raw);
    assert |all| > 1 ==> forall s :: s in all[1..] ==> s in all;
    QueryFree(uri);
    PrintedQueryFree(raw, segs, '?');
    PrintedQueryFree(raw, segs, '#');
    PrintedSmuggles(raw, segs);
    SegmentsOfPrinted(segs);
    BeforeQueryConcat(path, "");
    assert path + "" == path;
    QueryIgnored(path, query);
  }

  /** Normalizing is idempotent exactly where the first of several segments left is
      neither a version nor one that makes the slice panic. */
  lemma IdempotentExactlyWhen(uri: string)
    requires !RouteOf(uri).Panics?
    ensures RouteOf(Printed(RouteOf(uri))) == RouteOf(uri) <==> !(RouteOf(uri).Path? && Delicate(RouteOf(uri).segs))
  {
    if RouteOf(uri).Path? {
      NormalizedAgain(uri, "");
      DelicateChanges(RouteOf(uri).segs);
    }
  }

  const ACUTE: string := "\U{00E9}"

  /** Two segments behind a version. */
  lemma BehindVersion(a: string, b: string)
    requires a != "" && b != "" && a != "." && a != ".." && b != "." && b != ".."
    requires forall c :: c in a || c in b ==> c != '/' && c != '?' && c != '#' && c != '%'
    ensures RouteOf("/" + "v1" + ("/" + a + "/" + b)) == Path([a, b])
    ensures RouteOf("/" + a + "/" + b) == if StartsLong(a) then Panics else Path(Unversioned([a, b]))
  {
    TwoSegments(a, b);
    VersionPrefix("v1", "/" + a + "/" + b);
  }

  /** Both kinds of input at which it is not: the second time another version is
      dropped, or the slice panics. */
  lemma NotIdempotent()
    ensures RouteOf("/" + "v1" + ("/" + "v2" + "/" + "x")) == Path(["v2", "x"])
    ensures RouteOf("/" + "v2" + "/" + "x") == Path(["x"])
    ensures RouteOf("/" + "v1" + ("/" + ACUTE + "/" + "x")) == Path([ACUTE, "x"])
    ensures RouteOf("/" + ACUTE + "/" + "x") == Panics
  {
    BehindVersion("v2", "x");
    BehindVersion(ACUTE, "x");
    assert ["v2", "x"][1..] == ["x"];
  }

  lemma TwoSegments(a: string, b: string)
    requires a != "" && b != "" && forall c :: c in a || c in b ==> c != '/' && c != '?' && c != '#' && c != '%'
    ensures BeforeQuery("/" + a + "/" + b) == "/" + a + "/" + b && !Smuggles("/" + a + "/" + b)
    ensures Segments("/" + a + "/" + b) == [a, b]
  {
    var p := "/" + a + "/" + b;
    assert p == "" + ['/'] + (a + ['/'] + b);
    BeforeQueryConcat(p, "");
    assert p + "" == p;
    NoPercent(p);
    SplitWhole(a, '/');
    SplitWhole(b, '/');
    SegmentsConcat(a, b);
    SegmentsConcat("", a + ['/'] + b);
    NoSegments();
    assert NonEmpty([a]) == [a] && NonEmpty([b]) == [b];
  }

  // ---- the printed path, looked at as text -------------------------------------------------------

  predicate Clean(segs: seq<string>) { segs != [] && forall s :: s in segs ==> s != "" && '/' !in s }

  lemma RouteIsClean(uri: string)
    ensures RouteOf(uri).Path? ==> Clean(RouteOf(uri).segs)
  {
    SegmentsAreClean(BeforeQuery(uri));
    var segs := Segments(BeforeQuery(uri));
    assert |segs| > 1 ==> forall s :: s in segs[1..] ==> s in segs;
  }

  /** Equal printed paths are equal routes. */
  lemma PrintedIsInjective(a: seq<string>, b: seq<string>)
    requires Clean(a) && Clean(b) && Printed(Path(a)) == Printed(Path(b))
    ensures a == b
  {
    assert Join(a, '/') == Printed(Path(a))[1..] && Join(b, '/') == Printed(Path(b))[1..];
    SplitOfJoin(a, '/');
    SplitOfJoin(b, '/');
  }

  /** The segment behind `/containers/`. */
  function ContainerTarget(path: string): Option<string> {
    if "/containers/" <= path then
      var first := Split(path[12..], '/')[0];
      if first == "" then None else Some(first)
    else None
  }

  function TargetOf(segs: seq<string>): Option<string> {
    if |segs| >= 2 && segs[0] == "containers" then Some(segs[1]) else None
  }

  /** A first segment, told by the text in front. */
  lemma FirstIsPrefix(word: string, segs: seq<string>)
    requires Clean(segs) && word != "" && '/' !in word
    ensures var path, prefix := Printed(Path(segs)), ['/'] + word + ['/'];
            && (prefix <= path <==> |segs| > 1 && segs[0] == word)
            && (prefix <= path ==> Split(path[|prefix|..], '/') == segs[1..])
  {
    var path, prefix := Printed(Path(segs)), ['/'] + word + ['/'];
    SplitOfJoin(segs, '/');
    assert path[1..] == Join(segs, '/');
    assert |segs| > 1 && segs[0] == word ==> path == prefix + Join(segs[1..], '/');
    if prefix <= path {
      var rest := path[|prefix|..];
      assert path == prefix + rest;
      assert path[1..] == word + ['/'] + rest;
      SplitConcat(word, rest, '/');
      SplitWhole(word, '/');
      assert segs == [word] + Split(rest, '/');
      assert segs[1..] == Split(rest, '/');
    }
  }

  lemma PrefixSpelled()
    ensures ['/'] + "containers" + ['/'] == "/containers/" && '/' !in "containers"
  {
  }

  lemma TargetIsSecond(segs: seq<string>)
    requires Clean(segs)
    ensures ContainerTarget(Printed(Path(segs))) == TargetOf(segs)
    ensures "/containers/" <= Printed(Path(segs)) <==> TargetOf(segs).Some?
    ensures TargetOf(segs).Some? ==> Split(Printed(Path(segs))[12..], '/') == segs[1..]
  {
    PrefixSpelled();
    FirstIsPrefix("containers", segs);
    assert |segs| > 1 ==> segs[1] in segs;
  }

  predicate EndsWith(text: string, tail: string) { |tail| <= |text| && text[|text| - |tail|..] == tail }

  lemma {:induction false} JoinOfLast(segs: seq<string>)
    requires |segs| > 1
    ensures Join(segs, '/') == Join(segs[..|segs| - 1], '/') + ['/'] + segs[|segs| - 1]
  {
    if |segs| > 2 {
      JoinOfLast(segs[1..]);
      assert segs[1..][..|segs| - 2] == segs[..|segs| - 1][1..];
    } else {
      assert segs[1..] == [segs[1]] && segs[..1] == [segs[0]];
    }
  }

  lemma SplitOfPrinted(segs: seq<string>)
    requires Clean(segs)
    ensures Split(Printed(Path(segs)), '/') == [""] + segs
  {
    assert Printed(Path(segs)) == "" + ['/'] + Join(segs, '/');
    SplitConcat("", Join(segs, '/'), '/');
    SplitOfJoin(segs, '/');
  }

  lemma EndMeansLast(segs: seq<string>, front: string, op: string)
    requires Clean(segs) && '/' !in op && Printed(Path(segs)) == front + ['/'] + op
    ensures segs[|segs| - 1] == op
  {
    SplitConcat(front, op, '/');
    SplitWhole(op, '/');
    SplitOfPrinted(segs);
    var pieces := Split(front, '/') + [op];
    assert pieces == [""] + segs;
    assert pieces[|pieces| - 1] == op;
  }

  lemma LastMeansEnd(segs: seq<string>)
    requires Clean(segs)
    ensures EndsWith(Printed(Path(segs)), "/" + segs[|segs| - 1])
  {
    if |segs| > 1 {
      JoinOfLast(segs);
    }
  }

  lemma EndIsLast(segs: seq<string>, op: string)
    requires Clean(segs) && '/' !in op
    ensures EndsWith(Printed(Path(segs)), "/" + op) <==> segs[|segs| - 1] == op
  {
    var path := Printed(Path(segs));
    LastMeansEnd(segs);
    if EndsWith(path, "/" + op) {
      var front := path[..|path| - |op| - 1];
      assert path == front + ['/'] + op;
      EndMeansLast(segs, front, op);
    }
  }
}
