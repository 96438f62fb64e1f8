/** The trusted-proxy list and the client address of a request
    (backend/src/middleware/cloudflare.rs:122-317). How an address is spelled is a
    parameter: `parse` stands for the standard library's strict address parser. */
module ClientIp {
  import opened Text
  import opened Cidr

  // ---- the list of trusted proxies --------------------------------------------------------

  /** One entry of the list: an error, nothing, or a range. */
  datatype Entry = Malformed | Blank | Listed(range: Range)

  type Parser = string -> Option<Ip>

  function ReadEntry(parse: Parser, piece: string): Entry {
    var entry := Trim(piece);
    if entry == "" then Blank
    else
      var (addr, bits) :=
        match SplitOnce(entry, '/')
        case Some((a, b)) => (Trim(a), Some(Trim(b)))
        case None => (entry, None);
      match parse(addr)
      case None => Malformed
      case Some(ip) =>
        match bits
        case None => Listed(Range(ip, Width(ip)))
        case Some(b) =>
          match ParseUnsigned(b, 255)
          case None => Malformed
          case Some(n) => if n > Width(ip) then Malformed else Listed(Range(ip, n))
  }

  /** All the ranges in order, or nothing when one entry is malformed. */
  function Listing(parse: Parser, pieces: seq<string>): Option<seq<Range>> {
    if pieces == [] then Some([])
    else
      match (ReadEntry(parse, pieces[0]), Listing(parse, pieces[1..]))
      case (Malformed, _) => None
      case (_, None) => None
      case (Blank, Some(rest)) => Some(rest)
      case (Listed(range), Some(rest)) => Some([range] + rest)
  }

  function Both<T>(a: Option<seq<T>>, b: Option<seq<T>>): Option<seq<T>> {
    if a.Some? && b.Some? then Some(a.value + b.value) else None
  }

  lemma {:induction false} ListingConcat(parse: Parser, a: seq<string>, b: seq<string>)
    ensures Listing(parse, a + b) == Both(Listing(parse, a), Listing(parse, b))
  {
    if a == [] {
      assert a + b == b;
      assert Listing(parse, b).Some? ==> [] + Listing(parse, b).value == Listing(parse, b).value;
    } else {
      assert (a + b)[1..] == a[1..] + b;
      ListingConcat(parse, a[1..], b);
      if ReadEntry(parse, a[0]).Listed? && Listing(parse, a[1..]).Some? && Listing(parse, b).Some? {
        var head, rest, more := ReadEntry(parse, a[0]).range, Listing(parse, a[1..]).value, Listing(parse, b).value;
        assert [head] + (rest + more) == [head] + rest + more;
      }
    }
  }

  /** `parse_trusted_proxy_cidrs`: one malformed entry spoils the list. */
  method ParseTrustedProxyCidrs(raw: string, parse: Parser) returns (r: Option<seq<Range>>)
    ensures r == Listing(parse, Split(raw, ','))
  {
    var entries := Split(raw, ',');
    var out: seq<Range> := [];
    assert entries[0..] == entries;
    NothingBefore(Listing(parse, entries));
    for i := 0 to |entries|
      invariant Listing(parse, entries) == Both(Some(out), Listing(parse, entries[i..]))
    {
      assert entries[i..][1..] == entries[i + 1..];
      match ReadEntry(parse, entries[i])
      case Malformed =>
        return None;
      case Blank =>
      case Listed(range) =>
        OneMore(out, range, Listing(parse, entries[i + 1..]));
        out := out + [range];
    }
    assert out + [] == out;
    return Some(out);
  }

  lemma NothingBefore<T>(list: Option<seq<T>>)
    ensures Both(Some([]), list) == list
  {
    assert list.Some? ==> [] + list.value == list.value;
  }

  lemma OneMore<T>(out: seq<T>, x: T, rest: Option<seq<T>>)
    ensures Both(Some(out), Both(Some([x]), rest)) == Both(Some(out + [x]), rest)
  {
    assert rest.Some? ==> out + ([x] + rest.value) == out + [x] + rest.value;
  }

  /** The list of two texts joined by a comma is the two lists joined, and an error in
      either is an error of both. */
  lemma ListDistributes(parse: Parser, a: string, b: string)
    ensures Listing(parse, Split(a + "," + b, ',')) == Both(Listing(parse, Split(a, ',')), Listing(parse, Split(b, ',')))
  {
    SplitConcat(a, b, ',');
    assert a + "," + b == a + [','] + b;
    ListingConcat(parse, Split(a, ','), Split(b, ','));
  }

  lemma {:induction false} PrefixesInRange(parse: Parser, pieces: seq<string>)
    requires Listing(parse, pieces).Some?
    ensures forall r :: r in Listing(parse, pieces).value ==> r.prefix <= Width(r.network)
  {
    if pieces != [] {
      PrefixesInRange(parse, pieces[1..]);
    }
  }

  lemma TrimmedStays(s: string)
    requires Trimmed(s)
    ensures Trim(s) == s
  {
  }

  lemma ShownIsTrimmed(n: nat)
    ensures Trimmed(Show(n)) && '+' !in Show(n) && '/' !in Show(n)
  {
    ShownIsRead(n);
    var bits := Show(n);
    assert bits[0] in bits && bits[|bits| - 1] in bits;
  }

  lemma ShownParses(n: nat)
    ensures ParseUnsigned(Show(n), 255) == if n <= 255 then Some(n) else None
  {
    ShownIsRead(n);
    ShownIsTrimmed(n);
    assert Show(n)[0] in Show(n);
  }

  lemma RangeEntry(entry: string, addr: string, bits: string)
    requires addr != "" && bits != "" && Trimmed(addr) && Trimmed(bits) && '/' !in addr && entry == addr + ['/'] + bits
    ensures Trim(entry) == entry && SplitOnce(entry, '/') == Some((addr, bits)) && Trim(addr) == addr && Trim(bits) == bits
  {
    SplitOnceAt(addr, bits, '/');
    TrimmedStays(entry);
    TrimmedStays(addr);
    TrimmedStays(bits);
  }

  /** A written entry is read: an address stands for itself alone, and behind a slash
      every prefix that the family has is taken, and no other. */
  lemma EntryIsRead(parse: Parser, addr: string, n: nat)
    requires addr != "" && Trimmed(addr) && '/' !in addr
    ensures ReadEntry(parse, addr) == match parse(addr)
                                      case None => Malformed
                                      case Some(ip) => Listed(Range(ip, if ip.V4? then 32 else 128))
    ensures ReadEntry(parse, addr + ['/'] + Show(n))
            == match parse(addr)
               case None => Malformed
               case Some(ip) => if n > (if ip.V4? then 32 else 128) then Malformed else Listed(Range(ip, n))
  {
    TrimmedStays(addr);
    ShownIsTrimmed(n);
    ShownParses(n);
    RangeEntry(addr + ['/'] + Show(n), addr, Show(n));
  }

  /** A piece of blanks is no entry, and blanks around an entry do not count. */
  lemma BlanksAside(parse: Parser, piece: string)
    ensures (forall c :: c in piece ==> IsSpace(c)) ==> ReadEntry(parse, piece) == Blank
    ensures ReadEntry(parse, Trim(piece)) == ReadEntry(parse, piece)
  {
    TrimOfBlanks(piece);
    TrimTrims(piece);
  }

  lemma {:induction false} TrimOfBlanks(s: string)
    ensures (forall c :: c in s ==> IsSpace(c)) ==> Trim(s) == ""
  {
    if s != "" && IsSpace(s[0]) {
      assert s[0] in s && forall c :: c in s[1..] ==> c in s;
      TrimOfBlanks(s[1..]);
    }
  }

  lemma TrimTrims(s: string)
    ensures Trim(Trim(s)) == Trim(s)
  {
    StartTrims(s);
    EndTrims(TrimStart(s));
  }

  lemma {:induction false} StartTrims(s: string)
    ensures TrimStart(s) != "" ==> !IsSpace(TrimStart(s)[0])
  {
    if s != "" && IsSpace(s[0]) {
      StartTrims(s[1..]);
    }
  }

  lemma {:induction false} EndTrims(s: string)
    ensures TrimEnd(s) <= s
    ensures TrimEnd(s) != "" ==> !IsSpace(TrimEnd(s)[|TrimEnd(s)| - 1])
  {
    if s != "" && IsSpace(s[|s| - 1]) {
      EndTrims(s[..|s| - 1]);
    }
  }

  // ---- who is a proxy -----------------------------------------------------------------------

  /** The edge's published ranges and the operator's list. */
  datatype Trust = Trust(edge: seq<Range>, proxies: seq<Range>, parse: Parser)

  predicate InAny(ranges: seq<Range>, ip: Ip) { exists r | r in ranges :: Contains(r, ip) }

  predicate IsProxy(t: Trust, peerIsEdge: bool, ip: Ip) {
    (peerIsEdge && InAny(t.edge, ip)) || InAny(t.proxies, ip)
  }

  const MAX_FORWARDED_HOPS: nat := 64

  /** The hop is blank or a proxy: the walk goes on to its left. */
  predicate Passed(t: Trust, peerIsEdge: bool, hop: string) {
    || Trim(hop) == ""
    || (t.parse(Trim(hop)).Some?
        && (InAny(t.proxies, t.parse(Trim(hop)).value) || (peerIsEdge && InAny(t.edge, t.parse(Trim(hop)).value))))
  }

  /** The walk, from the right, over at most `left` hops. */
  function WalkHops(t: Trust, peerIsEdge: bool, hops: seq<string>, left: nat, outermost: Option<Ip>): Option<Ip> {
    if hops == [] || left == 0 then outermost
    else
      var hop, rest := Trim(hops[|hops| - 1]), hops[..|hops| - 1];
      if hop == "" then WalkHops(t, peerIsEdge, rest, left - 1, outermost)
      else
        match t.parse(hop)
        case None => None
        case Some(addr) =>
          if IsProxy(t, peerIsEdge, addr) then WalkHops(t, peerIsEdge, rest, left - 1, Some(addr)) else Some(addr)
  }

  /** `forwarded_client_ip`. */
  method ForwardedClientIp(t: Trust, peerIsEdge: bool, xff: string) returns (r: Option<Ip>)
    ensures r == WalkHops(t, peerIsEdge, Split(xff, ','), MAX_FORWARDED_HOPS, None)
  {
    var hops := Split(xff, ',');
    var outermost: Option<Ip> := None;
    var i, left: nat := |hops|, MAX_FORWARDED_HOPS;
    assert hops[..i] == hops;
    while i > 0 && left > 0
      invariant i <= |hops|
      invariant WalkHops(t, peerIsEdge, hops[..i], left, outermost)
             == WalkHops(t, peerIsEdge, hops, MAX_FORWARDED_HOPS, None)
    {
      assert hops[..i][|hops[..i]| - 1] == hops[i - 1] && hops[..i][..i - 1] == hops[..i - 1];
      i, left := i - 1, left - 1;
      var hop := Trim(hops[i]);
      if hop == "" {
        continue;
      }
      var addr := t.parse(hop);
      if addr.None? {
        return None;
      }
      if !IsProxy(t, peerIsEdge, addr.value) {
        return addr;
      }
      outermost := addr;
    }
    return outermost;
  }

  /** The walk stops at hop `i`: it is neither blank nor a proxy, everything to its
      right is, and the walk gets there. */
  predicate StopsAt(t: Trust, peerIsEdge: bool, hops: seq<string>, left: nat, i: nat) {
    && i < |hops| && |hops| - i <= left
    && !Passed(t, peerIsEdge, hops[i])
    && forall j :: i < j < |hops| ==> Passed(t, peerIsEdge, hops[j])
  }

  /** Where it stops, that hop is the answer, or there is none if it does not parse. */
  lemma {:induction false} StopIsAnswer(t: Trust, peerIsEdge: bool, hops: seq<string>, left: nat, outermost: Option<Ip>, i: nat)
    requires StopsAt(t, peerIsEdge, hops, left, i)
    ensures WalkHops(t, peerIsEdge, hops, left, outermost) == t.parse(Trim(hops[i]))
  {
    if i < |hops| - 1 {
      var last := hops[|hops| - 1];
      assert Passed(t, peerIsEdge, last);
      PassedHop(t, peerIsEdge, hops, left, outermost);
      StopIsAnswer(t, peerIsEdge, hops[..|hops| - 1], left - 1, Seen(t, last, outermost), i);
    }
  }

  /** The hops that the walk looks at. */
  function Window(hops: seq<string>, left: nat): seq<string> {
    if |hops| <= left then hops else hops[|hops| - left..]
  }

  predicate AllPassed(t: Trust, peerIsEdge: bool, hops: seq<string>) {
    forall hop :: hop in hops ==> Passed(t, peerIsEdge, hop)
  }

  /** The last hop's effect on the answer so far. */
  function Seen(t: Trust, hop: string, outermost: Option<Ip>): Option<Ip> {
    if Trim(hop) == "" then outermost else t.parse(Trim(hop))
  }

  lemma PassedHop(t: Trust, peerIsEdge: bool, hops: seq<string>, left: nat, outermost: Option<Ip>)
    requires hops != [] && left > 0 && Passed(t, peerIsEdge, hops[|hops| - 1])
    ensures WalkHops(t, peerIsEdge, hops, left, outermost)
         == WalkHops(t, peerIsEdge, hops[..|hops| - 1], left - 1, Seen(t, hops[|hops| - 1], outermost))
  {
  }

  /** Where it does not stop, every hop it saw was blank or a proxy, and the answer is
      the leftmost proxy of them, if any. */
  lemma {:induction false} NoStopIsOutermost(t: Trust, peerIsEdge: bool, hops: seq<string>, left: nat, outermost: Option<Ip>)
    requires AllPassed(t, peerIsEdge, Window(hops, left))
    ensures WalkHops(t, peerIsEdge, hops, left, outermost) == Leftmost(t, Window(hops, left), outermost)
  {
    if hops == [] || left == 0 {
      assert Window(hops, left) == [];
    } else {
      var last, rest := hops[|hops| - 1], hops[..|hops| - 1];
      assert Window(hops, left) == Window(rest, left - 1) + [last];
      assert last in Window(hops, left);
      PassedHop(t, peerIsEdge, hops, left, outermost);
      NoStopIsOutermost(t, peerIsEdge, rest, left - 1, Seen(t, last, outermost));
      LeftmostOfMore(t, Window(rest, left - 1), last, outermost);
    }
  }

  /** The first hop that is not blank. */
  function Leftmost(t: Trust, hops: seq<string>, otherwise: Option<Ip>): Option<Ip> {
    if hops == [] then otherwise
    else if Trim(hops[0]) == "" then Leftmost(t, hops[1..], otherwise)
    else t.parse(Trim(hops[0]))
  }

  lemma {:induction false} LeftmostOfMore(t: Trust, hops: seq<string>, last: string, otherwise: Option<Ip>)
    ensures Leftmost(t, hops + [last], otherwise)
         == Leftmost(t, hops, Seen(t, last, otherwise))
  {
    if hops == [] {
      assert ([] + [last])[1..] == [];
    } else {
      assert (hops + [last])[1..] == hops[1..] + [last];
      LeftmostOfMore(t, hops[1..], last, otherwise);
    }
  }

  /** Hops put in front of a chain whose walk stops change nothing. */
  lemma PrependedHops(t: Trust, peerIsEdge: bool, more: seq<string>, hops: seq<string>, left: nat, i: nat)
    requires StopsAt(t, peerIsEdge, hops, left, i)
    ensures WalkHops(t, peerIsEdge, more + hops, left, None) == WalkHops(t, peerIsEdge, hops, left, None)
  {
    assert forall j :: 0 <= j < |hops| ==> (more + hops)[|more| + j] == hops[j];
    assert forall j :: |more| + i < j < |more + hops| ==> (more + hops)[j] == hops[j - |more|];
    StopIsAnswer(t, peerIsEdge, more + hops, left, None, |more| + i);
    StopIsAnswer(t, peerIsEdge, hops, left, None, i);
  }

  /** `whole` ends in the pieces of `part` after its first. */
  ghost predicate EndsIn(whole: seq<string>, part: seq<string>) {
    && |whole| >= |part| >= 1
    && forall j :: 1 <= j < |part| ==> whole[|whole| - |part| + j] == part[j]
  }

  /** Text put in front of a text touches the pieces after the first no more. */
  lemma {:induction false} SplitAfterText(p: string, s: string, sep: char)
    ensures EndsIn(Split(p + s, sep), Split(s, sep))
  {
    if p == "" {
      assert p + s == s;
    } else {
      assert (p + s)[1..] == p[1..] + s;
      SplitAfterText(p[1..], s, sep);
      OneCharBefore(p[0], Split(p[1..] + s, sep), Split(s, sep), sep);
    }
  }

  lemma OneCharBefore(c: char, inner: seq<string>, part: seq<string>, sep: char)
    requires EndsIn(inner, part)
    ensures EndsIn(if c == sep then [[]] + inner else [[c] + inner[0]] + inner[1..], part)
  {
  }

  /** Whatever text a client puts in front of a chain, the answer is the same when the
      walk stops right of the chain's first hop. */
  lemma PrependedText(t: Trust, peerIsEdge: bool, p: string, xff: string, i: nat)
    requires i > 0 && StopsAt(t, peerIsEdge, Split(xff, ','), MAX_FORWARDED_HOPS, i)
    ensures WalkHops(t, peerIsEdge, Split(p + xff, ','), MAX_FORWARDED_HOPS, None)
         == WalkHops(t, peerIsEdge, Split(xff, ','), MAX_FORWARDED_HOPS, None)
  {
    var hops, all := Split(xff, ','), Split(p + xff, ',');
    SplitAfterText(p, xff, ',');
    var k := |all| - |hops|;
    forall j | k < j < |all|
      ensures all[j] == hops[j - k]
    {
      assert hops[j - k] == all[|all| - |hops| + (j - k)];
    }
    StopIsAnswer(t, peerIsEdge, all, MAX_FORWARDED_HOPS, None, k + i);
    StopIsAnswer(t, peerIsEdge, hops, MAX_FORWARDED_HOPS, None, i);
  }

  // ---- the client address ------------------------------------------------------------------

  /** The three headers, where present and readable as text. */
  datatype Headers = Headers(cfConnectingIp: Option<string>, realIp: Option<string>, forwardedFor: Option<string>)

  datatype Client = Unresolved | Address(ip: Ip)

  function Spelled(t: Trust, header: Option<string>): Option<Ip> {
    if header.Some? then t.parse(Trim(header.value)) else None
  }

  function Forwarded(t: Trust, peerIsEdge: bool, header: Option<string>): Option<Ip> {
    if header.Some? then WalkHops(t, peerIsEdge, Split(header.value, ','), MAX_FORWARDED_HOPS, None) else None
  }

  function OrElse(a: Option<Ip>, b: Option<Ip>): Option<Ip> { if a.Some? then a else b }

  /** The answer as the headers give it, in the order in which they are asked: for the
      edge its own header, the real address, then the chain; for a listed proxy the
      chain, then the real address; for anyone else the peer itself. */
  ghost predicate Speaks(t: Trust, headers: Headers, peer: Ip, client: Client) {
    var cf := if headers.cfConnectingIp.Some? then t.parse(Trim(headers.cfConnectingIp.value)) else None;
    var realIp := if headers.realIp.Some? then t.parse(Trim(headers.realIp.value)) else None;
    if InAny(t.edge, peer) then
      var chain := if headers.forwardedFor.Some? then WalkHops(t, true, Split(headers.forwardedFor.value, ','), 64, None) else None;
      && (cf.Some? ==> client == Address(cf.value))
      && (cf.None? && realIp.Some? ==> client == Address(realIp.value))
      && (cf.None? && realIp.None? && chain.Some? ==> client == Address(chain.value))
      && (cf.None? && realIp.None? && chain.None? ==> client == Address(peer))
    else if InAny(t.proxies, peer) then
      var chain := if headers.forwardedFor.Some? then WalkHops(t, false, Split(headers.forwardedFor.value, ','), 64, None) else None;
      && (chain.Some? ==> client == Address(chain.value))
      && (chain.None? && realIp.Some? ==> client == Address(realIp.value))
      && (chain.None? && realIp.None? ==> client == Address(peer))
    else client == Address(peer)
  }

  /** `resolve_client_ip_with`. */
  method ResolveClientIpWith(t: Trust, headers: Headers, peer: Option<Ip>) returns (client: Client)
    ensures client == Resolved(t, headers, peer)
    ensures if peer.None? then client == Unresolved else Speaks(t, headers, peer.value, client)
  {
    if peer.None? {
      return Unresolved;
    }
    var peerIsEdge := InAny(t.edge, peer.value);
    if !peerIsEdge && !InAny(t.proxies, peer.value) {
      return Address(peer.value);
    }
    if peerIsEdge {
      var cf := Spelled(t, headers.cfConnectingIp);
      if cf.Some? {
        return Address(cf.value);
      }
      var realIp := Spelled(t, headers.realIp);
      if realIp.Some? {
        return Address(realIp.value);
      }
    }
    if headers.forwardedFor.Some? {
      var hop := ForwardedClientIp(t, peerIsEdge, headers.forwardedFor.value);
      if hop.Some? {
        return Address(hop.value);
      }
    }
    if !peerIsEdge {
      var realIp := Spelled(t, headers.realIp);
      if realIp.Some? {
        return Address(realIp.value);
      }
    }
    return Address(peer.value);
  }

  /** Which header speaks first, by who the peer is. */
  function Resolved(t: Trust, headers: Headers, peer: Option<Ip>): Client {
    match peer
    case None => Unresolved
    case Some(ip) =>
      var cf, realIp := Spelled(t, headers.cfConnectingIp), Spelled(t, headers.realIp);
      var said :=
        if InAny(t.edge, ip) then OrElse(cf, OrElse(realIp, Forwarded(t, true, headers.forwardedFor)))
        else if InAny(t.proxies, ip) then OrElse(Forwarded(t, false, headers.forwardedFor), realIp)
        else None;
      Address(OrElse(said, Some(ip)).value)
  }

  /** A peer that is neither the edge nor a listed proxy cannot speak for anyone. */
  lemma UntrustedPeerIsItself(t: Trust, a: Headers, b: Headers, peer: Ip)
    requires !IsProxy(t, true, peer)
    ensures Resolved(t, a, Some(peer)) == Resolved(t, b, Some(peer)) == Address(peer)
  {
  }

  /** A listed proxy that appends the address it was called from decides the answer:
      whatever its caller sent as a chain before. */
  lemma AppendedHopWins(t: Trust, peer: Ip, forged: string, client: Ip, spelling: string, headers: Headers)
    requires InAny(t.proxies, peer) && !InAny(t.edge, peer)
    requires ',' !in spelling && t.parse(Trim(spelling)) == Some(client) && !IsProxy(t, false, client)
    requires Trim(spelling) != ""
    requires headers.forwardedFor == Some(forged + "," + spelling)
    ensures Resolved(t, headers, Some(peer)) == Address(client)
  {
    SplitConcat(forged, spelling, ',');
    SplitWhole(spelling, ',');
    assert forged + "," + spelling == forged + [','] + spelling;
    var hops := Split(forged + "," + spelling, ',');
    assert hops == Split(forged, ',') + [spelling];
    StopIsAnswer(t, false, hops, MAX_FORWARDED_HOPS, None, |hops| - 1);
  }
}
