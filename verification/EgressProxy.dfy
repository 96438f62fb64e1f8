/** The resolve-once-then-pin proxy (backend/src/bin/egress_proxy.rs:60-388; CONNECT is
    section 9.3.6 of RFC 9110). The address policy, the resolver and the network are
    parameters: any answers at all. */
module EgressProxy {
  import opened Text

  type Ip = string

  const MAX_HEAD_BYTES: nat := 8192
  const MAX_AUTHORITY_BYTES: nat := 253
  const MAX_CONCURRENT_CONNECTIONS: nat := 128

  // ---- the request line ---------------------------------------------------------------------

  const MAX_PORT: nat := 0xFFFF

  datatype Target = Target(host: string, port: nat)

  /** Rust's `char::is_control`: the C0 and C1 ranges. */
  predicate IsControl(c: char) { c as int < 0x20 || 0x7F <= c as int < 0xA0 }

  predicate Plain(c: char) { c != '@' && c != '/' && c != '[' && c != ']' && !IsSpace(c) && !IsControl(c) }

  /** The text before and after the first `]:`. */
  function SplitBracket(s: string): Option<(string, string)> {
    if |s| < 2 then None
    else if s[..2] == "]:" then Some(("", s[2..]))
    else
      match SplitBracket(s[1..])
      case Some((a, b)) => Some(([s[0]] + a, b))
      case None => None
  }

  function WithPort(host: string, port: string): Option<Target> {
    match ParseUnsigned(port, MAX_PORT)
    case Some(n) => Some(Target(host, n))
    case None => None
  }

  /** `parse_authority`. */
  function ParseAuthority(authority: string): Option<Target> {
    if authority == "" || |Encode(authority)| > MAX_AUTHORITY_BYTES then None
    else if authority[0] == '[' then
      match SplitBracket(authority[1..])
      case None => None
      case Some((host, port)) =>
        if host == "" || '[' in host || ']' in host then None else WithPort(host, port)
    else if exists c | c in authority :: !Plain(c) then None
    else
      match SplitLastColon(authority)
      case None => None
      case Some((host, port)) =>
        if host == "" || ':' in host then None else WithPort(host, port)
  }

  lemma {:induction false} SplitBracketAt(host: string, port: string)
    requires ']' !in host
    ensures SplitBracket(host + "]:" + port) == Some((host, port))
  {
    var s := host + "]:" + port;
    if host == "" {
      assert s[..2] == "]:" && s[2..] == port;
    } else {
      assert s[0] == host[0] && host[0] in host && s[1..] == host[1..] + "]:" + port;
      SplitBracketAt(host[1..], port);
      assert [host[0]] + host[1..] == host;
    }
  }

  lemma {:induction false} BracketJoins(s: string)
    ensures match SplitBracket(s)
            case Some((a, b)) => s == a + "]:" + b
            case None => true
  {
    if |s| >= 2 && s[..2] != "]:" {
      BracketJoins(s[1..]);
    }
  }

  /** The two spellings of a target. */
  predicate Spells(authority: string, host: string, port: string) {
    || (authority == "[" + host + "]:" + port && host != "" && '[' !in host && ']' !in host)
    || (authority == host + ":" + port && host != "" && ':' !in host && ':' !in port
        && forall c :: c in authority ==>
             c != '@' && c != '/' && c != '[' && c != ']' && !IsSpace(c) && 0x20 <= c as int && !(0x7F <= c as int < 0xA0))
  }

  /** Exactly the two spellings within the length limit are read, as the host and the
      port that they spell. */
  lemma AuthorityIsRead(authority: string, target: Target)
    ensures ParseAuthority(authority) == Some(target) <==>
              && |Encode(authority)| <= 253
              && exists port :: Spells(authority, target.host, port) && ParseUnsigned(port, 65535) == Some(target.port)
  {
    if ParseAuthority(authority) == Some(target) {
      ReadIsSpelled(authority, target);
    }
    if |Encode(authority)| <= MAX_AUTHORITY_BYTES {
      forall port | Spells(authority, target.host, port) && ParseUnsigned(port, MAX_PORT) == Some(target.port)
        ensures ParseAuthority(authority) == Some(target)
      {
        SpelledIsRead(authority, target.host, port);
      }
    }
  }

  lemma ReadIsSpelled(authority: string, target: Target)
    requires ParseAuthority(authority) == Some(target)
    ensures exists port :: Spells(authority, target.host, port) && ParseUnsigned(port, MAX_PORT) == Some(target.port)
  {
    if authority[0] == '[' {
      BracketJoins(authority[1..]);
      var port := SplitBracket(authority[1..]).value.1;
      assert authority == "[" + authority[1..];
      assert Spells(authority, target.host, port);
    } else {
      LastColonJoins(authority);
      var port := SplitLastColon(authority).value.1;
      assert Spells(authority, target.host, port);
    }
  }

  lemma SpelledIsRead(authority: string, host: string, port: string)
    requires |Encode(authority)| <= MAX_AUTHORITY_BYTES && Spells(authority, host, port)
    ensures ParseAuthority(authority) == WithPort(host, port)
  {
    if authority == "[" + host + "]:" + port && host != "" && '[' !in host && ']' !in host {
      assert authority[1..] == host + "]:" + port;
      SplitBracketAt(host, port);
    } else {
      assert authority[0] in authority;
      SplitLastColonAt(host, port);
    }
  }

  /** A printed host and port, within the length limit, are read back. */
  lemma PrintedAuthorityIsRead(host: string, port: nat)
    requires host != "" && port <= 65535
    requires |Encode(host + ":" + Show(port))| <= 253
    requires (forall c :: c in host ==> Plain(c)) && ':' !in host
    ensures ParseAuthority(host + ":" + Show(port)) == Some(Target(host, port))
  {
    ShownIsRead(port);
    ShownIsUnsigned(port);
    DigitsSpellPort(host, Show(port));
    SpelledIsRead(host + ":" + Show(port), host, Show(port));
  }

  lemma DigitsSpellPort(host: string, port: string)
    requires host != "" && (forall c :: c in host ==> Plain(c)) && ':' !in host
    requires forall c :: c in port ==> '0' <= c <= '9'
    ensures Spells(host + ":" + port, host, port)
  {
    forall c | c in host + ":" + port
      ensures Plain(c)
    {
      if c !in host && c !in port {
        assert c == ':';
      }
    }
  }

  lemma PrintedBracketsAreRead(host: string, port: nat)
    requires host != "" && port <= 65535
    requires |Encode("[" + host + "]:" + Show(port))| <= 253
    requires '[' !in host && ']' !in host
    ensures ParseAuthority("[" + host + "]:" + Show(port)) == Some(Target(host, port))
  {
    ShownIsUnsigned(port);
    SpelledIsRead("[" + host + "]:" + Show(port), host, Show(port));
  }

  lemma ShownIsUnsigned(n: nat)
    requires n <= MAX_PORT
    ensures ParseUnsigned(Show(n), MAX_PORT) == Some(n)
  {
    ShownIsRead(n);
    assert Show(n)[0] in Show(n);
  }

  function Words(s: string): seq<string> {
    if s == "" then []
    else if IsSpace(s[0]) then Words(s[1..])
    else
      var rest := Words(s[1..]);
      if |s| > 1 && !IsSpace(s[1]) && rest != [] then [[s[0]] + rest[0]] + rest[1..] else [[s[0]]] + rest
  }

  /** `parse_connect_line`. */
  function ParseConnectLine(line: string): Option<Target> {
    var words := Words(line);
    if |words| == 3 && words[0] == "CONNECT" && (words[2] == "HTTP/1.1" || words[2] == "HTTP/1.0")
    then ParseAuthority(words[1])
    else None
  }

  lemma {:induction false} WordInFront(word: string, rest: string)
    requires word != "" && forall c :: c in word ==> !IsSpace(c)
    ensures Words(word + [' '] + rest) == [word] + Words(rest)
  {
    var s := word + [' '] + rest;
    assert s[0] == word[0] && word[0] in word;
    if |word| == 1 {
      assert s[1..] == [' '] + rest && (s[1..])[1..] == rest;
      assert [s[0]] == word;
    } else {
      assert s[1..] == word[1..] + [' '] + rest && s[1] == word[1] && word[1] in word;
      WordInFront(word[1..], rest);
      assert [word[0]] + word[1..] == word;
    }
  }

  lemma {:induction false} OneWord(word: string)
    requires word != "" && forall c :: c in word ==> !IsSpace(c)
    ensures Words(word) == [word]
  {
    assert word[0] in word;
    if |word| > 1 {
      assert word[1] in word;
      OneWord(word[1..]);
      assert [word[0]] + word[1..] == word;
    } else {
      assert word[1..] == "" && [word[0]] == word;
    }
  }

  lemma WordsOfThree(a: string, b: string, c: string)
    requires a != "" && b != "" && c != "" && forall x :: x in a + b + c ==> !IsSpace(x)
    ensures Words(a + [' '] + (b + [' '] + c)) == [a, b, c]
  {
    assert forall x :: x in a || x in b || x in c ==> x in a + b + c;
    WordInFront(a, b + [' '] + c);
    WordInFront(b, c);
    OneWord(c);
  }

  /** A request line is read when it says CONNECT and one of the two versions, and asks
      for what its authority spells; any other method or version is refused. */
  lemma ConnectLineIsRead(verb: string, authority: string, version: string)
    requires verb != "" && authority != "" && version != "" && forall x :: x in verb + authority + version ==> !IsSpace(x)
    ensures ParseConnectLine(verb + [' '] + (authority + [' '] + version))
         == if verb == "CONNECT" && (version == "HTTP/1.1" || version == "HTTP/1.0") then ParseAuthority(authority) else None
  {
    WordsOfThree(verb, authority, version);
  }

  // ---- one connection ------------------------------------------------------------------------

  datatype Resolution = Addresses(ips: seq<Ip>) | Failed

  datatype Status = BadRequest | Forbidden | BadGateway | Established | Overloaded

  /** What a connection does to the outside. */
  datatype Effect = Resolve(host: string) | Connect(ip: Ip, port: nat) | Reply(status: Status) | Tunnel(ip: Ip, port: nat)

  /** The egress policy: which targets, and which addresses, it lets through. */
  datatype Policy = Policy(target: Target -> bool, address: Ip -> bool)

  predicate IsReply(e: Effect) { e.Reply? }

  predicate IsResolve(e: Effect) { e.Resolve? }

  function Count(log: seq<Effect>, keep: Effect -> bool): nat {
    if log == [] then 0 else (if keep(log[0]) then 1 else 0) + Count(log[1..], keep)
  }

  lemma {:induction false} CountConcat(a: seq<Effect>, b: seq<Effect>, keep: Effect -> bool)
    ensures Count(a + b, keep) == Count(a, keep) + Count(b, keep)
  {
    if a == [] {
      assert a + b == b;
    } else {
      assert (a + b)[1..] == a[1..] + b;
      CountConcat(a[1..], b, keep);
    }
  }

  /** The head ends in a blank line before the connection ends or the cap is passed. */
  function HeadComplete(lines: seq<string>, total: nat): bool {
    && lines != [] && lines[0] != "" && total + |Encode(lines[0])| <= MAX_HEAD_BYTES
    && (lines[0] == "\r\n" || lines[0] == "\n" || HeadComplete(lines[1..], total + |Encode(lines[0])|))
  }

  function Requested(lines: seq<string>): Option<Target> {
    if HeadComplete(lines, 0) then ParseConnectLine(TrimEnd(lines[0])) else None
  }

  predicate BlankLine(line: string) { line == "\r\n" || line == "\n" }

  function Bytes(lines: seq<string>): nat {
    if lines == [] then 0 else |Encode(lines[0])| + Bytes(lines[1..])
  }

  /** A first blank line, and not more than this many bytes up to its end. */
  ghost predicate EndsBlank(lines: seq<string>, k: nat, bytes: int) {
    && k < |lines| && BlankLine(lines[k]) && Bytes(lines[..k + 1]) <= bytes
    && forall j :: 0 <= j < k ==> lines[j] != "" && !BlankLine(lines[j])
  }

  lemma EndsBlankLater(lines: seq<string>, k: nat, bytes: int)
    requires lines != [] && lines[0] != "" && !BlankLine(lines[0])
    ensures EndsBlank(lines, k + 1, bytes) <==> EndsBlank(lines[1..], k, bytes - |Encode(lines[0])|)
  {
    if k + 1 < |lines| {
      assert lines[..k + 2][1..] == lines[1..][..k + 1];
      assert forall j :: 0 <= j < k ==> lines[1..][j] == lines[j + 1];
      assert forall j :: 1 <= j < k + 1 ==> lines[j] == lines[1..][j - 1];
    }
  }

  /** Exactly the heads that end in a blank line within 8192 bytes are complete. */
  lemma HeadCompleteExactly(lines: seq<string>)
    ensures HeadComplete(lines, 0) <==> exists k: nat :: EndsBlank(lines, k, 8192)
  {
    HeadCompleteFrom(lines, 0, 8192);
  }

  lemma EndsBlankFits(lines: seq<string>, k: nat, bytes: int)
    requires EndsBlank(lines, k, bytes)
    ensures lines[0] != "" && |Encode(lines[0])| <= bytes
    ensures BlankLine(lines[0]) ==> k == 0
  {
    assert lines[..k + 1][0] == lines[0];
  }

  lemma {:induction false} HeadCompleteFrom(lines: seq<string>, total: nat, bytes: int)
    requires bytes == 8192 - total
    ensures HeadComplete(lines, total) <==> exists k: nat :: EndsBlank(lines, k, bytes)
    decreases |lines|
  {
    forall k: nat | EndsBlank(lines, k, bytes)
      ensures lines != [] && lines[0] != "" && |Encode(lines[0])| <= bytes && (BlankLine(lines[0]) ==> k == 0)
    {
      EndsBlankFits(lines, k, bytes);
    }
    if lines != [] && lines[0] != "" && |Encode(lines[0])| <= bytes {
      if BlankLine(lines[0]) {
        assert lines[..1] == [lines[0]] && Bytes([lines[0]]) == |Encode(lines[0])| + Bytes([lines[0]][1..]);
        assert EndsBlank(lines, 0, bytes);
      } else {
        HeadGoesOn(lines, total, bytes);
      }
    }
  }

  lemma {:induction false} HeadGoesOn(lines: seq<string>, total: nat, bytes: int)
    requires bytes == 8192 - total && lines != [] && lines[0] != "" && !BlankLine(lines[0]) && |Encode(lines[0])| <= bytes
    ensures HeadComplete(lines, total) <==> exists k: nat :: EndsBlank(lines, k, bytes)
    decreases |lines|, 0
  {
    var left := bytes - |Encode(lines[0])|;
    HeadCompleteFrom(lines[1..], total + |Encode(lines[0])|, left);
    if k: nat :| EndsBlank(lines[1..], k, left) {
      EndsBlankLater(lines, k, bytes);
      assert EndsBlank(lines, k + 1, bytes);
    }
    if k: nat :| EndsBlank(lines, k, bytes) {
      EndsBlankLater(lines, k - 1, bytes);
      assert EndsBlank(lines[1..], k - 1, left);
    }
  }

  /** The attempts on a list of addresses, in order, up to the first that answers. */
  function Attempts(ips: seq<Ip>, port: nat, answers: Ip -> bool): seq<Effect> {
    if ips == [] then []
    else [Connect(ips[0], port)] + (if answers(ips[0]) then [] else Attempts(ips[1..], port, answers))
  }

  function FirstAnswering(ips: seq<Ip>, answers: Ip -> bool): Option<Ip> {
    if ips == [] then None else if answers(ips[0]) then Some(ips[0]) else FirstAnswering(ips[1..], answers)
  }

  predicate AllAllowed(policy: Policy, answer: Resolution) {
    answer.Addresses? && answer.ips != [] && forall ip :: ip in answer.ips ==> policy.address(ip)
  }

  function Pinned(ips: seq<Ip>, port: nat, answers: Ip -> bool): seq<Effect> {
    Attempts(ips, port, answers) + Verdict(ips, port, answers)
  }

  /** Everything one connection does. */
  function Served(policy: Policy, target: Option<Target>, answer: Resolution, answers: Ip -> bool): seq<Effect> {
    match target
    case None => [Reply(BadRequest)]
    case Some(t) =>
      if !policy.target(t) then [Reply(Forbidden)]
      else if !AllAllowed(policy, answer) then [Resolve(t.host), Reply(Forbidden)]
      else [Resolve(t.host)] + Pinned(answer.ips, t.port, answers)
  }

  lemma {:induction false} AttemptsAreFromList(ips: seq<Ip>, port: nat, answers: Ip -> bool)
    ensures forall e :: e in Attempts(ips, port, answers) ==> e.Connect? && e.ip in ips && e.port == port
    ensures Count(Attempts(ips, port, answers), IsReply) == 0 && Count(Attempts(ips, port, answers), IsResolve) == 0
    ensures match FirstAnswering(ips, answers)
            case Some(ip) => ip in ips && answers(ip) && Connect(ip, port) in Attempts(ips, port, answers)
            case None => forall ip :: ip in ips ==> !answers(ip) && Connect(ip, port) in Attempts(ips, port, answers)
  {
    if ips != [] && !answers(ips[0]) {
      AttemptsAreFromList(ips[1..], port, answers);
      CountConcat([Connect(ips[0], port)], Attempts(ips[1..], port, answers), IsReply);
      CountConcat([Connect(ips[0], port)], Attempts(ips[1..], port, answers), IsResolve);
    }
  }

  /** Every connection: one reply; at most one resolution, and none for a malformed
      request or a target that the policy refuses; every address that is tried or
      tunnelled to belongs to that one answer, all of which the policy let through;
      a refused answer causes no attempt. */
  ghost predicate Contained(policy: Policy, target: Option<Target>, answer: Resolution, log: seq<Effect>) {
    && Count(log, IsReply) == 1
    && Count(log, IsResolve) == (if target.Some? && policy.target(target.value) then 1 else 0)
    && (forall e :: e in log && e.Resolve? ==> target.Some? && e.host == target.value.host)
    && (forall e :: e in log && (e.Connect? || e.Tunnel?) ==>
          && target.Some? && e.port == target.value.port && policy.target(target.value)
          && AllAllowed(policy, answer) && e.ip in answer.ips)
    && (forall e :: e in log && e.Tunnel? ==> Connect(e.ip, e.port) in log)
  }

  /** How the attempts end for the client. */
  function Verdict(ips: seq<Ip>, port: nat, answers: Ip -> bool): seq<Effect> {
    match FirstAnswering(ips, answers)
    case Some(ip) => [Reply(Established), Tunnel(ip, port)]
    case None => [Reply(BadGateway)]
  }

  lemma VerdictCounts(ips: seq<Ip>, port: nat, answers: Ip -> bool)
    ensures Count(Verdict(ips, port, answers), IsReply) == 1 && Count(Verdict(ips, port, answers), IsResolve) == 0
    ensures forall e :: e in Verdict(ips, port, answers) ==>
              e.Reply? || (e.Tunnel? && e.port == port && FirstAnswering(ips, answers) == Some(e.ip))
  {
    CountOne(Reply(BadGateway), IsReply);
    CountOne(Reply(BadGateway), IsResolve);
    match FirstAnswering(ips, answers)
    case Some(ip) =>
      CountTwo(Reply(Established), Tunnel(ip, port), IsReply);
      CountTwo(Reply(Established), Tunnel(ip, port), IsResolve);
    case None =>
  }

  lemma CountOne(e: Effect, keep: Effect -> bool)
    ensures Count([e], keep) == if keep(e) then 1 else 0
  {
  }

  lemma CountTwo(e: Effect, f: Effect, keep: Effect -> bool)
    ensures Count([e, f], keep) == (if keep(e) then 1 else 0) + (if keep(f) then 1 else 0)
  {
    CountConcat([e], [f], keep);
    assert [e] + [f] == [e, f];
  }

  lemma PinnedCounts(ips: seq<Ip>, port: nat, answers: Ip -> bool)
    ensures Count(Pinned(ips, port, answers), IsReply) == 1 && Count(Pinned(ips, port, answers), IsResolve) == 0
    ensures forall e :: e in Pinned(ips, port, answers) ==>
              e.Reply? || ((e.Connect? || e.Tunnel?) && e.ip in ips && e.port == port)
    ensures forall e :: e in Pinned(ips, port, answers) && e.Tunnel? ==> Connect(e.ip, port) in Pinned(ips, port, answers)
  {
    AttemptsAreFromList(ips, port, answers);
    VerdictCounts(ips, port, answers);
    CountConcat(Attempts(ips, port, answers), Verdict(ips, port, answers), IsReply);
    CountConcat(Attempts(ips, port, answers), Verdict(ips, port, answers), IsResolve);
  }

  lemma AllowedIsContained(policy: Policy, t: Target, answer: Resolution, rest: seq<Effect>)
    requires policy.target(t) && Count(rest, IsReply) == 1 && Count(rest, IsResolve) == 0
    requires forall e :: e in rest ==>
               e.Reply? || ((e.Connect? || e.Tunnel?) && AllAllowed(policy, answer) && e.ip in answer.ips && e.port == t.port)
    requires forall e :: e in rest && e.Tunnel? ==> Connect(e.ip, t.port) in rest
    ensures Contained(policy, Some(t), answer, [Resolve(t.host)] + rest)
  {
    CountConcat([Resolve(t.host)], rest, IsReply);
    CountConcat([Resolve(t.host)], rest, IsResolve);
  }

  lemma ServedIsContained(policy: Policy, target: Option<Target>, answer: Resolution, answers: Ip -> bool)
    ensures Contained(policy, target, answer, Served(policy, target, answer, answers))
  {
    if target.Some? && policy.target(target.value) {
      var t := target.value;
      if AllAllowed(policy, answer) {
        PinnedCounts(answer.ips, t.port, answers);
        AllowedIsContained(policy, t, answer, Pinned(answer.ips, t.port, answers));
      } else {
        AllowedIsContained(policy, t, answer, [Reply(Forbidden)]);
        assert [Resolve(t.host)] + [Reply(Forbidden)] == [Resolve(t.host), Reply(Forbidden)];
      }
    }
  }

  // ---- how it ends ------------------------------------------------------------------------------

  function Tries(ips: seq<Ip>, port: nat): (log: seq<Effect>)
    ensures |log| == |ips|
  {
    seq(|ips|, i requires 0 <= i < |ips| => Connect(ips[i], port))
  }

  /** The first address that answers. */
  ghost predicate FirstAt(ips: seq<Ip>, answers: Ip -> bool, k: nat) {
    k < |ips| && answers(ips[k]) && forall j :: 0 <= j < k ==> !answers(ips[j])
  }

  /** What a connection does, case by case: 400 for no request; 403 for a refused
      target, without a resolution; 403 behind the one resolution if that failed, was
      empty or held a refused address; else attempts in order, and either 200 and the
      tunnel to the first address that answered, or 502 when none did. */
  ghost predicate Outcome(policy: Policy, target: Option<Target>, answer: Resolution, answers: Ip -> bool, log: seq<Effect>) {
    if target.None? then log == [Reply(BadRequest)]
    else
      var t := target.value;
      if !policy.target(t) then log == [Reply(Forbidden)]
      else if answer.Failed? || answer.ips == [] || exists ip :: ip in answer.ips && !policy.address(ip)
      then log == [Resolve(t.host), Reply(Forbidden)]
      else
        && (forall k: nat :: FirstAt(answer.ips, answers, k) ==>
              log == [Resolve(t.host)] + (Tries(answer.ips[..k + 1], t.port) + [Reply(Established), Tunnel(answer.ips[k], t.port)]))
        && ((forall ip :: ip in answer.ips ==> !answers(ip)) ==>
              log == [Resolve(t.host)] + (Tries(answer.ips, t.port) + [Reply(BadGateway)]))
  }

  lemma {:induction false} AttemptsUpTo(ips: seq<Ip>, port: nat, answers: Ip -> bool, k: nat)
    requires FirstAt(ips, answers, k)
    ensures Attempts(ips, port, answers) == Tries(ips[..k + 1], port) && FirstAnswering(ips, answers) == Some(ips[k])
  {
    if k > 0 {
      AttemptsUpTo(ips[1..], port, answers, k - 1);
      assert Tries(ips[..k + 1], port) == [Connect(ips[0], port)] + Tries(ips[1..][..k], port);
    } else {
      assert Tries(ips[..1], port) == [Connect(ips[0], port)];
    }
  }

  lemma {:induction false} AttemptsOnAll(ips: seq<Ip>, port: nat, answers: Ip -> bool)
    requires forall ip :: ip in ips ==> !answers(ip)
    ensures Attempts(ips, port, answers) == Tries(ips, port) && FirstAnswering(ips, answers) == None
  {
    if ips != [] {
      AttemptsOnAll(ips[1..], port, answers);
      assert Tries(ips, port) == [Connect(ips[0], port)] + Tries(ips[1..], port);
    }
  }

  lemma ServedExactly(policy: Policy, target: Option<Target>, answer: Resolution, answers: Ip -> bool)
    ensures Outcome(policy, target, answer, answers, Served(policy, target, answer, answers))
  {
    if target.Some? && policy.target(target.value) && AllAllowed(policy, answer) {
      forall k: nat | FirstAt(answer.ips, answers, k)
        ensures Pinned(answer.ips, target.value.port, answers)
             == Tries(answer.ips[..k + 1], target.value.port) + [Reply(Established), Tunnel(answer.ips[k], target.value.port)]
      {
        AttemptsUpTo(answer.ips, target.value.port, answers, k);
      }
      if forall ip :: ip in answer.ips ==> !answers(ip) {
        AttemptsOnAll(answer.ips, target.value.port, answers);
      }
    }
  }
}
