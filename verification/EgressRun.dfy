/** The proxy with all its connections at once (backend/src/bin/egress_proxy.rs:253-388):
    a semaphore of permits, and every connection that was ever accepted, step by step
    and in any interleaving. */
module EgressRun {
  import opened Text
  import opened EgressProxy

  type ConnId = nat

  /** Where a connection is. It holds a permit until it is over. */
  datatype Phase = Reading | Asking(t: Target) | Trying(t: Target, rest: seq<Ip>) | Tunneling | Over

  /** What was requested, what the resolver answered to its one question, and what the
      connection did. */
  datatype Conn = Conn(phase: Phase, target: Option<Target>, answer: Resolution, log: seq<Effect>)

  datatype State = State(permits: nat, conns: map<ConnId, Conn>)

  const START: State := State(MAX_CONCURRENT_CONNECTIONS, map[])

  /** What the client's head asks for, if it is a request, what the resolver answers
      and whether an address answers travel with the action. A task may end at any
      moment. */
  datatype Action =
    | Accept(c: ConnId)
    | Head(c: ConnId, target: Option<Target>)
    | Answer(c: ConnId, answer: Resolution)
    | Attempt(c: ConnId, connected: bool)
    | Drop(c: ConnId)

  predicate InService(p: Phase) { !p.Over? }

  function Serving(s: State): set<ConnId> { set c | c in s.conns && InService(s.conns[c].phase) }

  function Replying(conn: Conn, status: Status): Conn { conn.(phase := Over, log := conn.log + [Reply(status)]) }

  /** A connection's own step; one that is not enabled changes nothing. */
  function Move(policy: Policy, conn: Conn, a: Action): Conn {
    match a
    case Accept(_) => conn
    case Head(_, target) =>
      if !conn.phase.Reading? then conn
      else if target.None? then Replying(conn, BadRequest)
      else if !policy.target(target.value) then Replying(conn.(target := target), Forbidden)
      else conn.(phase := Asking(target.value), target := target, log := conn.log + [Resolve(target.value.host)])
    case Answer(_, answer) =>
      if !conn.phase.Asking? then conn
      else if AllAllowed(policy, answer) then conn.(phase := Trying(conn.phase.t, answer.ips), answer := answer)
      else Replying(conn.(answer := answer), Forbidden)
    case Attempt(_, connected) =>
      if !conn.phase.Trying? then conn
      else if conn.phase.rest == [] then Replying(conn, BadGateway)
      else
        var ip, port := conn.phase.rest[0], conn.phase.t.port;
        if connected
        then conn.(phase := Tunneling, log := conn.log + [Connect(ip, port), Reply(Established), Tunnel(ip, port)])
        else conn.(phase := Trying(conn.phase.t, conn.phase.rest[1..]), log := conn.log + [Connect(ip, port)])
    case Drop(_) => conn.(phase := Over)
  }

  const ADMITTED: Conn := Conn(Reading, None, Failed, [])
  const REFUSED: Conn := Conn(Over, None, Failed, [Reply(Overloaded)])

  /** `handle_accept`: a permit, or an immediate refusal. A permit goes back when its
      connection is over. */
  function Step(policy: Policy, s: State, a: Action): State {
    if a.Accept? then
      if a.c in s.conns then s
      else if s.permits > 0 then State(s.permits - 1, s.conns[a.c := ADMITTED])
      else s.(conns := s.conns[a.c := REFUSED])
    else if a.c in s.conns then
      var next := Move(policy, s.conns[a.c], a);
      State(s.permits + (if InService(s.conns[a.c].phase) && !InService(next.phase) then 1 else 0), s.conns[a.c := next])
    else s
  }

  function Run(policy: Policy, trace: seq<Action>): State {
    if trace == [] then START else Step(policy, Run(policy, trace[..|trace| - 1]), trace[|trace| - 1])
  }

  lemma RunThen(policy: Policy, trace: seq<Action>, a: Action)
    ensures Run(policy, trace + [a]) == Step(policy, Run(policy, trace), a)
  {
    assert (trace + [a])[..|trace + [a]| - 1] == trace;
  }

  // ---- one connection, at any moment ---------------------------------------------------------

  /** At most one reply and one resolution, the latter only for a target that the
      policy lets through; every address that is tried or tunnelled to belongs to that
      one answer, all of which the policy let through; a refused connection does
      nothing else. */
  ghost predicate Within(policy: Policy, target: Option<Target>, answer: Resolution, log: seq<Effect>) {
    && Count(log, IsReply) <= 1 && Count(log, IsResolve) <= 1
    && (forall e :: e in log && e.Resolve? ==> target.Some? && policy.target(target.value) && e.host == target.value.host)
    && (forall e :: e in log && (e.Connect? || e.Tunnel?) ==>
          && target.Some? && e.port == target.value.port && policy.target(target.value)
          && AllAllowed(policy, answer) && e.ip in answer.ips)
    && (forall e :: e in log && e.Tunnel? ==> Connect(e.ip, e.port) in log)
    && (Reply(Overloaded) in log ==> log == [Reply(Overloaded)])
  }

  ghost predicate Silent(log: seq<Effect>) {
    && Count(log, IsReply) == 0
    && forall e :: e in log ==> !e.Reply? && !e.Tunnel?
  }

  ghost predicate ConnOk(policy: Policy, conn: Conn) {
    && Within(policy, conn.target, conn.answer, conn.log)
    && match conn.phase
       case Reading => conn.log == []
       case Asking(t) =>
         && Silent(conn.log) && conn.target == Some(t) && policy.target(t)
         && Count(conn.log, IsResolve) == 1 && forall e :: e in conn.log ==> !e.Connect?
       case Trying(t, rest) =>
         && Silent(conn.log) && conn.target == Some(t) && policy.target(t)
         && AllAllowed(policy, conn.answer) && forall ip :: ip in rest ==> ip in conn.answer.ips
       case _ => true
  }

  lemma LogOneMore(log: seq<Effect>, e: Effect)
    ensures Count(log + [e], IsReply) == Count(log, IsReply) + (if e.Reply? then 1 else 0)
    ensures Count(log + [e], IsResolve) == Count(log, IsResolve) + (if e.Resolve? then 1 else 0)
    ensures forall x :: x in log + [e] <==> x in log || x == e
  {
    CountConcat(log, [e], IsReply);
    CountConcat(log, [e], IsResolve);
    CountOne(e, IsReply);
    CountOne(e, IsResolve);
  }

  lemma ReplyKeepsOk(policy: Policy, conn: Conn, status: Status)
    requires Within(policy, conn.target, conn.answer, conn.log) && Silent(conn.log) && status != Overloaded
    ensures ConnOk(policy, Replying(conn, status))
  {
    LogOneMore(conn.log, Reply(status));
  }

  lemma HeadKeepsOk(policy: Policy, conn: Conn, a: Action)
    requires ConnOk(policy, conn) && a.Head?
    ensures ConnOk(policy, Move(policy, conn, a))
  {
    if conn.phase.Reading? {
      var target := a.target;
      if target.None? {
        ReplyKeepsOk(policy, conn, BadRequest);
      } else if !policy.target(target.value) {
        ReplyKeepsOk(policy, conn.(target := target), Forbidden);
      } else {
        LogOneMore(conn.log, Resolve(target.value.host));
      }
    }
  }

  lemma AnswerKeepsOk(policy: Policy, conn: Conn, a: Action)
    requires ConnOk(policy, conn) && a.Answer?
    ensures ConnOk(policy, Move(policy, conn, a))
  {
    if conn.phase.Asking? && !AllAllowed(policy, a.answer) {
      ReplyKeepsOk(policy, conn.(answer := a.answer), Forbidden);
    }
  }

  lemma AttemptKeepsOk(policy: Policy, conn: Conn, a: Action)
    requires ConnOk(policy, conn) && a.Attempt?
    ensures ConnOk(policy, Move(policy, conn, a))
  {
    if conn.phase.Trying? {
      if conn.phase.rest == [] {
        ReplyKeepsOk(policy, conn, BadGateway);
      } else {
        ConnectKeepsOk(policy, conn, a.connected);
      }
    }
  }

  /** The connection after an attempt that failed. */
  function Tried(conn: Conn): Conn
    requires conn.phase.Trying? && conn.phase.rest != []
  {
    conn.(phase := Trying(conn.phase.t, conn.phase.rest[1..]),
          log := conn.log + [Connect(conn.phase.rest[0], conn.phase.t.port)])
  }

  lemma TriedIsOk(policy: Policy, conn: Conn)
    requires ConnOk(policy, conn) && conn.phase.Trying? && conn.phase.rest != []
    ensures ConnOk(policy, Tried(conn))
  {
    assert conn.phase.rest[0] in conn.phase.rest;
    LogOneMore(conn.log, Connect(conn.phase.rest[0], conn.phase.t.port));
  }

  /** The reply and the tunnel after an attempt that answered. */
  lemma TunnelIsOk(policy: Policy, conn: Conn, ip: Ip, port: nat)
    requires Within(policy, conn.target, conn.answer, conn.log) && Silent(conn.log) && Connect(ip, port) in conn.log
    ensures Within(policy, conn.target, conn.answer, conn.log + [Reply(Established)] + [Tunnel(ip, port)])
  {
    LogOneMore(conn.log, Reply(Established));
    LogOneMore(conn.log + [Reply(Established)], Tunnel(ip, port));
  }

  lemma ConnectKeepsOk(policy: Policy, conn: Conn, connected: bool)
    requires ConnOk(policy, conn) && conn.phase.Trying? && conn.phase.rest != []
    ensures ConnOk(policy, Move(policy, conn, Attempt(0, connected)))
  {
    TriedIsOk(policy, conn);
    if connected {
      var ip, port := conn.phase.rest[0], conn.phase.t.port;
      TunnelIsOk(policy, Tried(conn), ip, port);
      assert conn.log + [Connect(ip, port), Reply(Established), Tunnel(ip, port)]
          == Tried(conn).log + [Reply(Established)] + [Tunnel(ip, port)];
    }
  }

  lemma MoveKeepsOk(policy: Policy, conn: Conn, a: Action)
    requires ConnOk(policy, conn)
    ensures ConnOk(policy, Move(policy, conn, a))
  {
    match a
    case Head(_, _) => HeadKeepsOk(policy, conn, a);
    case Answer(_, _) => AnswerKeepsOk(policy, conn, a);
    case Attempt(_, _) => AttemptKeepsOk(policy, conn, a);
    case _ =>
  }

  // ---- every run -------------------------------------------------------------------------------

  /** Every permit is either free or held by one connection in service. */
  ghost predicate Good(policy: Policy, s: State) {
    && |Serving(s)| + s.permits == MAX_CONCURRENT_CONNECTIONS
    && forall c :: c in s.conns ==> ConnOk(policy, s.conns[c])
  }

  lemma ServingAfter(conns: map<ConnId, Conn>, permits: nat, c: ConnId, next: Conn)
    ensures Serving(State(permits, conns[c := next]))
         == if InService(next.phase) then Serving(State(permits, conns)) + {c} else Serving(State(permits, conns)) - {c}
  {
  }

  lemma NewcomersAreOk(policy: Policy)
    ensures ConnOk(policy, ADMITTED) && ConnOk(policy, REFUSED)
  {
    CountOne(Reply(Overloaded), IsReply);
    CountOne(Reply(Overloaded), IsResolve);
  }

  lemma AcceptKeepsGood(policy: Policy, s: State, c: ConnId, first: Conn, t: State)
    requires Good(policy, s) && c !in s.conns && ConnOk(policy, first)
    requires InService(first.phase) ==> s.permits > 0
    requires t == State(if InService(first.phase) then s.permits - 1 else s.permits, s.conns[c := first])
    ensures Good(policy, t)
  {
    ServingAfter(s.conns, s.permits, c, first);
    assert c !in Serving(s) && Serving(s) - {c} == Serving(s);
  }

  /** A record changed, and its permit came back if that ended its service. */
  lemma RecordKeepsGood(policy: Policy, s: State, c: ConnId, next: Conn, t: State)
    requires Good(policy, s) && c in s.conns && ConnOk(policy, next)
    requires InService(next.phase) ==> InService(s.conns[c].phase)
    requires t == State(s.permits + (if InService(s.conns[c].phase) && !InService(next.phase) then 1 else 0), s.conns[c := next])
    ensures Good(policy, t)
  {
    ServingAfter(s.conns, s.permits, c, next);
    assert c in Serving(s) ==> Serving(s) + {c} == Serving(s);
    assert c !in Serving(s) ==> Serving(s) - {c} == Serving(s);
  }

  /** A connection that is over never comes back. */
  lemma MovesOnlyOut(policy: Policy, conn: Conn, a: Action)
    ensures conn.phase.Over? ==> Move(policy, conn, a) == conn
  {
  }

  lemma StepKeepsGood(policy: Policy, s: State, a: Action)
    requires Good(policy, s)
    ensures Good(policy, Step(policy, s, a))
  {
    if a.Accept? && a.c !in s.conns {
      NewcomersAreOk(policy);
      AcceptKeepsGood(policy, s, a.c, if s.permits > 0 then ADMITTED else REFUSED, Step(policy, s, a));
    } else if !a.Accept? && a.c in s.conns {
      assert ConnOk(policy, s.conns[a.c]);
      MoveKeepsOk(policy, s.conns[a.c], a);
      MovesOnlyOut(policy, s.conns[a.c], a);
      RecordKeepsGood(policy, s, a.c, Move(policy, s.conns[a.c], a), Step(policy, s, a));
    }
  }

  lemma {:induction false} RunIsGood(policy: Policy, trace: seq<Action>)
    ensures Good(policy, Run(policy, trace))
  {
    if trace != [] {
      RunIsGood(policy, trace[..|trace| - 1]);
      StepKeepsGood(policy, Run(policy, trace[..|trace| - 1]), trace[|trace| - 1]);
    }
  }

  /** However connections come, go and overlap, at most 128 are in service, and the
      next is refused exactly when there are 128. */
  lemma ServiceIsBounded(policy: Policy, trace: seq<Action>, c: ConnId)
    ensures |Serving(Run(policy, trace))| <= 128
    ensures c !in Run(policy, trace).conns ==>
              var after := Run(policy, trace + [Accept(c)]);
              && c in after.conns
              && (after.conns[c].log == [Reply(Overloaded)] <==> |Serving(Run(policy, trace))| == 128)
              && (c in Serving(after) <==> |Serving(Run(policy, trace))| < 128)
  {
    RunIsGood(policy, trace);
    RunThen(policy, trace, Accept(c));
  }

  /** In every run and at every moment, every connection, finished or not, keeps to
      the one answer it got; and when nothing is in service, every permit is back. */
  lemma EveryConnectionIsContained(policy: Policy, trace: seq<Action>, c: ConnId)
    requires c in Run(policy, trace).conns
    ensures var conn := Run(policy, trace).conns[c]; Within(policy, conn.target, conn.answer, conn.log)
    ensures Serving(Run(policy, trace)) == {} <==> Run(policy, trace).permits == MAX_CONCURRENT_CONNECTIONS
  {
    RunIsGood(policy, trace);
    assert ConnOk(policy, Run(policy, trace).conns[c]);
  }

  function Accepts(n: nat): seq<Action> { if n == 0 then [] else Accepts(n - 1) + [Accept(n - 1)] }

  /** The bound is attained. */
  lemma {:induction false} FullIsReached(policy: Policy, n: nat)
    requires n <= 128
    ensures var s := Run(policy, Accepts(n));
            |Serving(s)| == n && forall c :: c in s.conns ==> c < n
  {
    if n == 0 {
      assert Serving(START) == {};
    } else {
      FullIsReached(policy, n - 1);
      RunIsGood(policy, Accepts(n - 1));
      RunThen(policy, Accepts(n - 1), Accept(n - 1));
      RunIsGood(policy, Accepts(n));
    }
  }

  // ---- the program -------------------------------------------------------------------------------

  lemma AnotherAttempt(tried: seq<Effect>, rest: seq<Ip>, port: nat, answers: Ip -> bool)
    requires rest != []
    ensures tried + Attempts(rest, port, answers)
         == tried + [Connect(rest[0], port)] + (if answers(rest[0]) then [] else Attempts(rest[1..], port, answers))
    ensures FirstAnswering(rest, answers) == if answers(rest[0]) then Some(rest[0]) else FirstAnswering(rest[1..], answers)
  {
  }

  lemma PinnedFound(validated: seq<Ip>, tried: seq<Effect>, rest: seq<Ip>, port: nat, answers: Ip -> bool)
    requires rest != [] && answers(rest[0]) && FirstAnswering(rest, answers) == FirstAnswering(validated, answers)
    requires tried + Attempts(rest, port, answers) == Attempts(validated, port, answers)
    ensures Pinned(validated, port, answers)
         == tried + [Connect(rest[0], port), Reply(Established), Tunnel(rest[0], port)]
  {
    var ip := rest[0];
    assert Attempts(rest, port, answers) == [Connect(ip, port)];
    assert tried + [Connect(ip, port), Reply(Established), Tunnel(ip, port)]
        == tried + [Connect(ip, port)] + [Reply(Established), Tunnel(ip, port)];
  }

  lemma PinnedNone(validated: seq<Ip>, tried: seq<Effect>, port: nat, answers: Ip -> bool)
    requires FirstAnswering([], answers) == FirstAnswering(validated, answers)
    requires tried + Attempts([], port, answers) == Attempts(validated, port, answers)
    ensures Pinned(validated, port, answers) == tried + [Reply(BadGateway)]
  {
  }

  class Proxy {
    const policy: Policy
    var permits: nat
    var conns: map<ConnId, Conn>
    ghost var trace: seq<Action>

    ghost predicate Valid()
      reads this
    {
      Run(policy, trace) == State(permits, conns)
    }

    constructor (policy: Policy)
      ensures Valid() && this.policy == policy && trace == []
    {
      this.policy, permits, conns, trace := policy, MAX_CONCURRENT_CONNECTIONS, map[], [];
    }

    /** Anything that the other connections do meanwhile. */
    method Others(c: ConnId)
      requires Valid()
      modifies this
      ensures Valid() && old(trace) <= trace
      ensures c in conns <==> c in old(conns)
      ensures c in conns ==> conns[c] == old(conns)[c]
    {
      var rounds: nat := *;
      while rounds > 0
        invariant Valid() && old(trace) <= trace
        invariant c in conns <==> c in old(conns)
        invariant c in conns ==> conns[c] == old(conns)[c]
      {
        var a: Action := *;
        if a.c != c {
          RunThen(policy, trace, a);
          var next := Step(policy, State(permits, conns), a);
          permits, conns, trace := next.permits, next.conns, trace + [a];
        }
        rounds := rounds - 1;
      }
    }

    /** The connection's own step: its record, and the permit if it is over. */
    method Record(c: ConnId, next: Conn, ghost a: Action)
      requires Valid() && c in conns && InService(conns[c].phase) && a.c == c && !a.Accept?
      requires next == Move(policy, conns[c], a)
      modifies this
      ensures Valid() && trace == old(trace) + [a] && conns == old(conns)[c := next]
    {
      RunThen(policy, trace, a);
      conns := conns[c := next];
      if next.phase.Over? {
        permits := permits + 1;
      }
      trace := trace + [a];
    }

    /** Reads up to the blank line; the first line is the request. */
    static method ReadHead(lines: seq<string>) returns (request: Option<string>)
      ensures request == if HeadComplete(lines, 0) then Some(TrimEnd(lines[0])) else None
    {
      request := None;
      var total: nat := 0;
      for i := 0 to |lines|
        invariant HeadComplete(lines, 0) <==> HeadComplete(lines[i..], total)
        invariant request == if i == 0 then None else Some(TrimEnd(lines[0]))
      {
        assert lines[i..][1..] == lines[i + 1..];
        if lines[i] == "" {
          return None;
        }
        total := total + |Encode(lines[i])|;
        if total > MAX_HEAD_BYTES {
          return None;
        }
        if request.None? {
          request := Some(TrimEnd(lines[i]));
        }
        if lines[i] == "\r\n" || lines[i] == "\n" {
          return;
        }
      }
      return None;
    }

    /** `check_candidates`: one refused address refuses them all. */
    static method CheckCandidates(policy: Policy, resolved: Resolution) returns (validated: Option<seq<Ip>>)
      ensures validated == if AllAllowed(policy, resolved) then Some(resolved.ips) else None
    {
      if resolved.Failed? || resolved.ips == [] {
        return None;
      }
      for i := 0 to |resolved.ips|
        invariant forall j :: 0 <= j < i ==> policy.address(resolved.ips[j])
      {
        if !policy.address(resolved.ips[i]) {
          return None;
        }
      }
      return Some(resolved.ips);
    }

    /** `connect_pinned`: the validated addresses in order, and nothing else, while
        other connections go on; then the tunnel, or the failure. */
    method ConnectPinned(c: ConnId, answers: Ip -> bool)
      requires Valid() && c in conns && conns[c].phase.Trying?
      modifies this
      ensures Valid() && old(trace) <= trace && c in conns && conns[c].phase == Over
      ensures var was := old(conns)[c];
              conns[c].log == was.log + Pinned(was.phase.rest, was.phase.t.port, answers)
    {
      ghost var validated, before := conns[c].phase.rest, conns[c].log;
      var t := conns[c].phase.t;
      var rest := conns[c].phase.rest;
      ghost var tried: seq<Effect> := [];
      while rest != []
        invariant Valid() && old(trace) <= trace && c in conns
        invariant conns[c].phase == Trying(t, rest) && conns[c].log == before + tried
        invariant tried + Attempts(rest, t.port, answers) == Attempts(validated, t.port, answers)
        invariant FirstAnswering(rest, answers) == FirstAnswering(validated, answers)
        decreases |rest|
      {
        var ip := rest[0];
        if answers(ip) {
          PinnedFound(validated, tried, rest, t.port, answers);
          EstablishTunnel(c, t, ip);
          return;
        }
        AnotherAttempt(tried, rest, t.port, answers);
        FailAttempt(c, t, ip);
        tried := tried + [Connect(ip, t.port)];
        rest := rest[1..];
      }
      PinnedNone(validated, tried, t.port, answers);
      GiveUp(c);
    }

    /** An attempt that is refused or takes too long. */
    method FailAttempt(c: ConnId, t: Target, ip: Ip)
      requires Valid() && c in conns && conns[c].phase.Trying? && conns[c].phase.t == t
      requires conns[c].phase.rest != [] && conns[c].phase.rest[0] == ip
      modifies this
      ensures Valid() && old(trace) <= trace && c in conns
      ensures conns[c].phase == Trying(t, old(conns)[c].phase.rest[1..])
      ensures conns[c].log == old(conns)[c].log + [Connect(ip, t.port)]
    {
      Others(c);
      var conn := conns[c];
      Record(c, conn.(phase := Trying(t, conn.phase.rest[1..]), log := conn.log + [Connect(ip, t.port)]), Attempt(c, false));
    }

    /** No address is left. */
    method GiveUp(c: ConnId)
      requires Valid() && c in conns && conns[c].phase.Trying? && conns[c].phase.rest == []
      modifies this
      ensures Valid() && old(trace) <= trace && c in conns && conns[c].phase == Over
      ensures conns[c].log == old(conns)[c].log + [Reply(BadGateway)]
    {
      Others(c);
      Record(c, Replying(conns[c], BadGateway), Attempt(c, false));
    }

    /** The 200, the tunnel, and its end. */
    method EstablishTunnel(c: ConnId, t: Target, ip: Ip)
      requires Valid() && c in conns && conns[c].phase.Trying? && conns[c].phase.t == t
      requires conns[c].phase.rest != [] && conns[c].phase.rest[0] == ip
      modifies this
      ensures Valid() && old(trace) <= trace && c in conns && conns[c].phase == Over
      ensures conns[c].log == old(conns)[c].log + [Connect(ip, t.port), Reply(Established), Tunnel(ip, t.port)]
    {
      Others(c);
      var effects := [Connect(ip, t.port), Reply(Established), Tunnel(ip, t.port)];
      Record(c, conns[c].(phase := Tunneling, log := conns[c].log + effects), Attempt(c, true));
      Others(c);
      Record(c, conns[c].(phase := Over), Drop(c));
    }

    /** From the one resolution to the reply. */
    method ResolveAndPin(c: ConnId, t: Target, answer: Resolution, answers: Ip -> bool)
      requires Valid() && c in conns && conns[c].phase == Asking(t)
      modifies this
      ensures Valid() && old(trace) <= trace && c in conns && conns[c].phase == Over
      ensures conns[c].log == old(conns)[c].log
                   + (if AllAllowed(policy, answer) then Pinned(answer.ips, t.port, answers) else [Reply(Forbidden)])
    {
      Others(c);
      var validated := CheckCandidates(policy, answer);
      if validated.None? {
        Record(c, Replying(conns[c].(answer := answer), Forbidden), Answer(c, answer));
        return;
      }
      Record(c, conns[c].(phase := Trying(t, validated.value), answer := answer), Answer(c, answer));
      ConnectPinned(c, answers);
    }

    /** The request that was read, if there is one: refused, or resolved and pinned. */
    method ServeRequest(c: ConnId, target: Option<Target>, answer: Resolution, answers: Ip -> bool)
      requires Valid() && c in conns && conns[c] == ADMITTED
      modifies this
      ensures Valid() && old(trace) <= trace && c in conns && conns[c].phase == Over
      ensures conns[c].log == Served(policy, target, answer, answers)
    {
      var conn := conns[c];
      if target.None? {
        Record(c, Replying(conn, BadRequest), Head(c, target));
        return;
      }
      var t := target.value;
      if !policy.target(t) {
        Record(c, Replying(conn.(target := target), Forbidden), Head(c, target));
        return;
      }
      Record(c, conn.(phase := Asking(t), target := target, log := [Resolve(t.host)]), Head(c, target));
      ResolveAndPin(c, t, answer, answers);
    }

    /** `serve_connection`, with what the resolver would say to its one question and
        which addresses would answer. */
    method ServeConnection(c: ConnId, lines: seq<string>, answer: Resolution, answers: Ip -> bool)
      requires Valid() && c in conns && conns[c] == ADMITTED
      modifies this
      ensures Valid() && old(trace) <= trace && c in conns && conns[c].phase == Over
      ensures conns[c].log == Served(policy, Requested(lines), answer, answers)
      ensures Outcome(policy, Requested(lines), answer, answers, conns[c].log)
    {
      ServedExactly(policy, Requested(lines), answer, answers);
      Others(c);
      var request := ReadHead(lines);
      var target := if request.Some? then ParseConnectLine(request.value) else None;
      ServeRequest(c, target, answer, answers);
    }

    /** `try_acquire_owned`. */
    method TryAcquire(c: ConnId) returns (admitted: bool)
      requires Valid() && c !in conns
      modifies this
      ensures Valid() && trace == old(trace) + [Accept(c)]
      ensures admitted <==> |Serving(Run(policy, old(trace)))| < 128
      ensures conns == old(conns)[c := if admitted then ADMITTED else REFUSED]
    {
      RunIsGood(policy, trace);
      RunThen(policy, trace, Accept(c));
      admitted := permits > 0;
      if admitted {
        permits, conns := permits - 1, conns[c := ADMITTED];
      } else {
        conns := conns[c := REFUSED];
      }
      trace := trace + [Accept(c)];
    }

    /** `handle_accept`: a permit and the service, or an immediate refusal, which
        comes exactly when 128 connections are in service at that moment. */
    method HandleAccept(c: ConnId, lines: seq<string>, answer: Resolution, answers: Ip -> bool)
        returns (admitted: bool, ghost before: seq<Action>)
      requires Valid() && c !in conns
      modifies this
      ensures Valid() && old(trace) <= before && before + [Accept(c)] <= trace
      ensures admitted <==> |Serving(Run(policy, before))| < 128
      ensures c in conns && conns[c].phase == Over
      ensures conns[c].log == if admitted then Served(policy, Requested(lines), answer, answers) else [Reply(Overloaded)]
    {
      Others(c);
      before := trace;
      admitted := TryAcquire(c);
      if admitted {
        ServeConnection(c, lines, answer, answers);
      }
    }
  }
}
