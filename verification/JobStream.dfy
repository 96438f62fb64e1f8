/** The live stream of one job (backend/src/api/routes_sse.rs:60-191) over the lossy
    broadcast channel of backend/src/state.rs:18-38 and the job rows, while workers,
    retries and publishers (backend/src/orchestrator/mod.rs:1236-1275) go on. */
module JobStream {

  type JobId = nat
  type Publisher = nat

  /** How many messages the channel keeps for its slowest receiver. */
  const CAPACITY: nat := 1024

  /** Whether the job is finished, and how often it was put back in the queue. */
  datatype Row = Row(terminal: bool, epoch: nat)

  /** A broadcast event: the row as its publisher read it. */
  datatype Msg = Msg(job: JobId, row: Row)

  datatype Event = Update(msg: Msg) | Completed(msg: Msg) | Error

  datatype Stage = Fresh | Subscribed | Streaming | CatchingUp | Ended

  /** The handler's side: its cursor in the channel's log, what it yielded, and
      whether its latest catch-up read failed. */
  datatype Stream = Stream(job: JobId, stage: Stage, next: nat, yielded: seq<Event>, missedRead: bool)

  /** Everything else. `sent` is the channel's whole history, of which only the last
      `CAPACITY` messages can still be received. */
  datatype World = World(rows: map<JobId, Row>, reading: map<Publisher, Msg>, sent: seq<Msg>, closed: bool)

  datatype State = State(world: World, stream: Stream)

  datatype Action =
    | Create(j: JobId)
    | Finish(j: JobId)
    | Requeue(j: JobId)
    | Read(p: Publisher, j: JobId)
    | Send(p: Publisher)
    | Close
    | Subscribe
    | Snapshot(ok: bool)
    | Recv
    | CatchUp(ok: bool)
    | Revalidate(valid: bool)

  function Start(j: JobId): State {
    State(World(map[], map[], [], false), Stream(j, Fresh, 0, [], false))
  }

  /** The oldest message that the channel still has. */
  function Oldest(w: World): nat { if |w.sent| <= CAPACITY then 0 else |w.sent| - CAPACITY }

  /** An event about the row: the last one if the row is terminal. */
  function Yield(m: Stream, msg: Msg): Stream {
    if msg.row.terminal then m.(stage := Ended, yielded := m.yielded + [Completed(msg)])
    else m.(stage := Streaming, yielded := m.yielded + [Update(msg)])
  }

  function WorldStep(w: World, a: Action): World {
    match a
    case Create(j) => if j in w.rows then w else w.(rows := w.rows[j := Row(false, 0)])
    case Finish(j) => if j in w.rows then w.(rows := w.rows[j := w.rows[j].(terminal := true)]) else w
    case Requeue(j) =>
      if j in w.rows && w.rows[j].terminal then w.(rows := w.rows[j := Row(false, w.rows[j].epoch + 1)]) else w
    case Read(p, j) => if j in w.rows && p !in w.reading then w.(reading := w.reading[p := Msg(j, w.rows[j])]) else w
    case Send(p) =>
      if p in w.reading && !w.closed then w.(sent := w.sent + [w.reading[p]], reading := w.reading - {p}) else w
    case Close => w.(closed := true)
    case _ => w
  }

  /** `rx.recv()` and what the loop does with its answer. */
  function Receive(w: World, m: Stream): Stream {
    if m.next < Oldest(w) then m.(stage := CatchingUp, next := Oldest(w))
    else if m.next < |w.sent| then
      var msg := w.sent[m.next];
      if msg.job == m.job then Yield(m.(next := m.next + 1), msg) else m.(next := m.next + 1)
    else if w.closed then m.(stage := Ended)
    else m
  }

  function StreamStep(w: World, m: Stream, a: Action): Stream {
    match a
    case Subscribe => if m.stage.Fresh? then m.(stage := Subscribed, next := |w.sent|) else m
    case Snapshot(ok) =>
      if !m.stage.Subscribed? then m
      else if ok && m.job in w.rows then Yield(m, Msg(m.job, w.rows[m.job]))
      else m.(stage := Ended, yielded := m.yielded + [Error])
    case Recv => if m.stage.Streaming? then Receive(w, m) else m
    case CatchUp(ok) =>
      if !m.stage.CatchingUp? then m
      else if ok && m.job in w.rows then Yield(m.(missedRead := false), Msg(m.job, w.rows[m.job]))
      else m.(stage := Streaming, missedRead := true)
    case Revalidate(valid) => if m.stage.Streaming? && !valid then m.(stage := Ended) else m
    case _ => m
  }

  function Step(s: State, a: Action): State { State(WorldStep(s.world, a), StreamStep(s.world, s.stream, a)) }

  function Run(s: State, trace: seq<Action>): State {
    if trace == [] then s else Step(Run(s, trace[..|trace| - 1]), trace[|trace| - 1])
  }

  lemma RunThen(s: State, trace: seq<Action>, a: Action)
    ensures Run(s, trace + [a]) == Step(Run(s, trace), a)
  {
    assert (trace + [a])[..|trace + [a]| - 1] == trace;
  }

  // ---- invariants -------------------------------------------------------------------------

  /** A row that was read is the row now, or an earlier state of it. */
  predicate Known(rows: map<JobId, Row>, m: Msg) {
    m.job in rows && (m.row.epoch < rows[m.job].epoch || (m.row.epoch == rows[m.job].epoch && (m.row.terminal ==> rows[m.job].terminal)))
  }

  /** Every terminal write precedes the broadcast of it. */
  ghost predicate Ordered(w: World) {
    && (forall i :: 0 <= i < |w.sent| ==> Known(w.rows, w.sent[i]))
    && (forall p :: p in w.reading ==> Known(w.rows, w.reading[p]))
  }

  /** The message tells that the job is finished, and no retry came since. */
  predicate Final(w: World, j: JobId, m: Msg) {
    m.job == j && m.row.terminal && j in w.rows && m.row == w.rows[j]
  }

  /** A live stream whose latest catch-up read worked has not read past a final message. */
  ghost predicate NothingLost(w: World, m: Stream) {
    && m.next <= |w.sent|
    && (m.stage.Streaming? && !m.missedRead ==> forall i :: 0 <= i < m.next ==> !Final(w, m.job, w.sent[i]))
  }

  /** Only the last event is not an update, the stream is over with it, and every
      event is about the stream's job as a publisher or the handler once read it. */
  ghost predicate WellFormed(w: World, m: Stream) {
    && (m.stage.Fresh? || m.stage.Subscribed? ==> m.yielded == [])
    && (forall i :: 0 <= i < |m.yielded| ==> m.yielded[i].Update? || (i == |m.yielded| - 1 && m.stage.Ended?))
    && (forall i :: 0 <= i < |m.yielded| && !m.yielded[i].Error? ==>
          && m.yielded[i].msg.job == m.job && Known(w.rows, m.yielded[i].msg)
          && (m.yielded[i].Completed? <==> m.yielded[i].msg.row.terminal))
  }

  ghost predicate Good(s: State) {
    && Ordered(s.world) && NothingLost(s.world, s.stream) && WellFormed(s.world, s.stream)
    && (s.stream.stage.CatchingUp? || s.stream.stage.Streaming? ==> s.stream.job in s.world.rows)
  }

  lemma WorldStepKeeps(w: World, m: Stream, a: Action)
    requires Ordered(w) && NothingLost(w, m) && WellFormed(w, m)
    ensures var v := WorldStep(w, a);
            && Ordered(v) && NothingLost(v, m) && WellFormed(v, m) && w.rows.Keys <= v.rows.Keys
            && (forall msg :: Known(w.rows, msg) ==> Known(v.rows, msg))
  {
    var v := WorldStep(w, a);
    forall msg | Known(w.rows, msg)
      ensures Known(v.rows, msg)
    {
    }
    assert forall i :: 0 <= i < |w.sent| ==> v.sent[i] == w.sent[i];
    forall i | 0 <= i < |w.sent| && Known(w.rows, w.sent[i]) && !Final(w, m.job, w.sent[i])
      ensures a.Finish? || !Final(v, m.job, v.sent[i])
    {
    }
  }

  lemma YieldKeeps(w: World, m: Stream, n: Stream, msg: Msg)
    requires Ordered(w) && WellFormed(w, m) && !m.stage.Ended? && Known(w.rows, msg) && msg.job == m.job
    requires n == m.(next := n.next, stage := n.stage, missedRead := n.missedRead) && n.next <= |w.sent|
    requires !msg.row.terminal && !n.missedRead ==> forall i :: 0 <= i < n.next ==> !Final(w, m.job, w.sent[i])
    ensures NothingLost(w, Yield(n, msg)) && WellFormed(w, Yield(n, msg))
  {
  }

  /** A row that is live has no final message, so a read of it hides none. */
  lemma LiveRowHasNoFinal(w: World, j: JobId)
    requires Ordered(w) && j in w.rows && !w.rows[j].terminal
    ensures forall i :: 0 <= i < |w.sent| ==> !Final(w, j, w.sent[i])
  {
  }

  lemma ReadKeeps(w: World, m: Stream, n: Stream)
    requires Good(State(w, m)) && (m.stage.Subscribed? || m.stage.CatchingUp?) && m.job in w.rows
    requires n == m.(missedRead := n.missedRead)
    ensures Good(State(w, Yield(n, Msg(m.job, w.rows[m.job]))))
  {
    if !w.rows[m.job].terminal {
      LiveRowHasNoFinal(w, m.job);
    }
    YieldKeeps(w, m, n, Msg(m.job, w.rows[m.job]));
  }

  lemma ReceiveKeeps(w: World, m: Stream)
    requires Good(State(w, m)) && m.stage.Streaming?
    ensures Good(State(w, Receive(w, m)))
  {
    if Oldest(w) <= m.next < |w.sent| && w.sent[m.next].job == m.job {
      YieldKeeps(w, m, m.(next := m.next + 1), w.sent[m.next]);
    }
  }

  lemma StreamStepKeeps(w: World, m: Stream, a: Action)
    requires Good(State(w, m))
    ensures Good(State(w, StreamStep(w, m, a)))
  {
    match a
    case Snapshot(ok) =>
      if m.stage.Subscribed? && ok && m.job in w.rows { ReadKeeps(w, m, m); }
    case CatchUp(ok) =>
      if m.stage.CatchingUp? && ok && m.job in w.rows { ReadKeeps(w, m, m.(missedRead := false)); }
    case Recv =>
      if m.stage.Streaming? { ReceiveKeeps(w, m); }
    case _ =>
  }

  /** World and stream never move in one action. */
  lemma StepKeepsGood(s: State, a: Action)
    requires Good(s)
    ensures Good(Step(s, a))
  {
    WorldStepKeeps(s.world, s.stream, a);
    StreamStepKeeps(s.world, s.stream, a);
    assert WorldStep(s.world, a) == s.world || StreamStep(s.world, s.stream, a) == s.stream;
  }

  lemma {:induction false} RunIsGood(j: JobId, trace: seq<Action>)
    ensures Good(Run(Start(j), trace)) && Run(Start(j), trace).stream.job == j
  {
    if trace != [] {
      RunIsGood(j, trace[..|trace| - 1]);
      StepKeepsGood(Run(Start(j), trace[..|trace| - 1]), trace[|trace| - 1]);
    }
  }

  // ---- what every run keeps ---------------------------------------------------------------

  /** The completion of the job's present attempt was broadcast. */
  ghost predicate Announced(w: World, j: JobId) { exists i :: 0 <= i < |w.sent| && Final(w, j, w.sent[i]) }

  /** In any run, with any number of retries before: while the stream is live and its
      latest catch-up read, if there was one, worked, an announced completion is still
      ahead of it, as a message it can receive, or behind a lag whose read will find
      the finished row. */
  lemma NoLostCompletion(j: JobId, trace: seq<Action>)
    ensures var s := Run(Start(j), trace); var w, m := s.world, s.stream;
            (m.stage.Streaming? || m.stage.CatchingUp?) && !m.missedRead && Announced(w, j) ==>
              || (m.stage.CatchingUp? && j in w.rows && w.rows[j].terminal)
              || (m.next < Oldest(w) && j in w.rows && w.rows[j].terminal)
              || (exists i :: m.next <= i < |w.sent| && Oldest(w) <= i && Final(w, j, w.sent[i]))
  {
    RunIsGood(j, trace);
  }

  /** The final event is yielded once, last, and only about a finished job; nothing
      follows it. */
  lemma OneLastEvent(j: JobId, trace: seq<Action>, i: nat)
    ensures var s := Run(Start(j), trace); var w, m := s.world, s.stream;
            i < |m.yielded| && !m.yielded[i].Update? ==>
              && i == |m.yielded| - 1 && m.stage.Ended?
              && (m.yielded[i].Completed? ==>
                    var msg := m.yielded[i].msg;
                    && msg.job == j && msg.row.terminal && j in w.rows
                    && (msg.row.epoch < w.rows[j].epoch || w.rows[j].terminal))
  {
    RunIsGood(j, trace);
  }

  lemma {:induction false} EndedStays(s: State, more: seq<Action>)
    requires s.stream.stage.Ended?
    ensures Run(s, more).stream == s.stream
  {
    if more != [] {
      EndedStays(s, more[..|more| - 1]);
    }
  }

  // ---- what exactly is yielded ------------------------------------------------------------

  /** The account of a run: where the channel stood at the subscription, the rows and
      messages of the job that reached the handler, and how often it lagged. */
  datatype Account = Account(first: nat, heard: seq<Msg>, lags: nat)

  ghost function Tally(j: JobId, trace: seq<Action>): Account {
    if trace == [] then Account(0, [], 0)
    else TallyStep(Tally(j, trace[..|trace| - 1]), Run(Start(j), trace[..|trace| - 1]), trace[|trace| - 1])
  }

  ghost function TallyStep(t: Account, s: State, a: Action): Account {
    var w, m := s.world, s.stream;
    if a.Subscribe? && m.stage == Fresh then t.(first := |w.sent|)
    else if (a == Snapshot(true) && m.stage == Subscribed) || (a == CatchUp(true) && m.stage == CatchingUp) then
      if m.job in w.rows then t.(heard := t.heard + [Msg(m.job, w.rows[m.job])]) else t
    else if a.Recv? && m.stage == Streaming then
      if m.next + 1024 < |w.sent| then t.(lags := t.lags + 1)
      else if m.next < |w.sent| && w.sent[m.next].job == m.job then t.(heard := t.heard + [w.sent[m.next]])
      else t
    else t
  }

  /** The events of rows and messages, one each. */
  function EventsOf(msgs: seq<Msg>): (events: seq<Event>)
    ensures |events| == |msgs|
  {
    seq(|msgs|, i requires 0 <= i < |msgs| => if msgs[i].row.terminal then Completed(msgs[i]) else Update(msgs[i]))
  }

  /** The messages of the job, in order. */
  function Mine(j: JobId, msgs: seq<Msg>): seq<Msg> {
    if msgs == [] then []
    else Mine(j, msgs[..|msgs| - 1]) + (if msgs[|msgs| - 1].job == j then [msgs[|msgs| - 1]] else [])
  }

  lemma MineOfNext(j: JobId, sent: seq<Msg>, first: nat, next: nat)
    requires first <= next < |sent|
    ensures Mine(j, sent[first..next + 1]) == Mine(j, sent[first..next]) + (if sent[next].job == j then [sent[next]] else [])
  {
    assert sent[first..next + 1][..next - first] == sent[first..next];
  }

  /** Every row and message that reached the handler was yielded, as one event each and
      in order; a stream without a snapshot yielded the error alone. */
  ghost predicate YieldsHeard(m: Stream, t: Account) {
    if m.yielded == [Error] then m.stage.Ended? && t.heard == [] else m.yielded == EventsOf(t.heard)
  }

  /** While nothing lagged: the snapshot, and after it what the channel carried for
      the job from the subscription up to the cursor. */
  ghost predicate HearsAll(w: World, m: Stream, t: Account) {
    && (m.stage.Fresh? ==> t == Account(0, [], 0))
    && (m.stage.Subscribed? ==> t == Account(m.next, [], 0) && m.next <= |w.sent|)
    && (m.stage.CatchingUp? ==> t.lags > 0 && t.heard != [])
    && (m.stage.Streaming? ==> t.heard != [])
    && (t.lags == 0 && t.heard != [] ==>
          && t.first <= m.next <= |w.sent|
          && t.heard[0].job == m.job && t.heard[1..] == Mine(m.job, w.sent[t.first..m.next]))
  }

  lemma WorldKeepsTally(w: World, m: Stream, t: Account, a: Action)
    requires HearsAll(w, m, t)
    ensures HearsAll(WorldStep(w, a), m, t)
  {
    if t.lags == 0 && t.heard != [] {
      assert WorldStep(w, a).sent[t.first..m.next] == w.sent[t.first..m.next];
    }
  }

  lemma HearingOneMore(w: World, m: Stream, t: Account, msg: Msg)
    requires YieldsHeard(m, t) && !m.stage.Ended?
    ensures YieldsHeard(Yield(m, msg), t.(heard := t.heard + [msg]))
  {
    assert EventsOf(t.heard + [msg]) == EventsOf(t.heard) + [if msg.row.terminal then Completed(msg) else Update(msg)];
    assert Yield(m, msg).yielded == EventsOf(t.heard + [msg]);
    assert Yield(m, msg).yielded[|m.yielded|] != Error;
  }

  lemma ReceiveTallied(w: World, m: Stream, t: Account)
    requires m.stage.Streaming? && YieldsHeard(m, t) && HearsAll(w, m, t)
    ensures YieldsHeard(Receive(w, m), TallyStep(t, State(w, m), Recv))
    ensures HearsAll(w, Receive(w, m), TallyStep(t, State(w, m), Recv))
  {
    if Oldest(w) <= m.next < |w.sent| {
      var msg := w.sent[m.next];
      if t.lags == 0 {
        MineOfNext(m.job, w.sent, t.first, m.next);
      }
      if msg.job == m.job {
        HearingOneMore(w, m.(next := m.next + 1), t, msg);
        assert (t.heard + [msg])[1..] == t.heard[1..] + [msg];
      }
    }
  }

  lemma ReadTallied(w: World, m: Stream, n: Stream, t: Account)
    requires m.stage.Subscribed? || m.stage.CatchingUp?
    requires m.job in w.rows && YieldsHeard(m, t) && HearsAll(w, m, t) && n == m.(missedRead := n.missedRead)
    ensures var msg := Msg(m.job, w.rows[m.job]);
            && YieldsHeard(Yield(n, msg), t.(heard := t.heard + [msg]))
            && HearsAll(w, Yield(n, msg), t.(heard := t.heard + [msg]))
  {
    HearingOneMore(w, n, t, Msg(m.job, w.rows[m.job]));
    if m.stage.Subscribed? {
      assert w.sent[m.next..m.next] == [];
    }
  }

  lemma StreamTallied(w: World, m: Stream, t: Account, a: Action)
    requires YieldsHeard(m, t) && HearsAll(w, m, t) && (m.stage.CatchingUp? ==> m.job in w.rows)
    ensures YieldsHeard(StreamStep(w, m, a), TallyStep(t, State(w, m), a))
    ensures HearsAll(w, StreamStep(w, m, a), TallyStep(t, State(w, m), a))
  {
    if a.Recv? && m.stage.Streaming? {
      ReceiveTallied(w, m, t);
    } else if a == Snapshot(true) && m.stage.Subscribed? && m.job in w.rows {
      ReadTallied(w, m, m, t);
    } else if a == CatchUp(true) && m.stage.CatchingUp? {
      ReadTallied(w, m, m.(missedRead := false), t);
    } else if a.Snapshot? && m.stage.Subscribed? {
      assert m.yielded + [Error] == [Error];
    }
  }

  lemma {:induction false} RunIsTallied(j: JobId, trace: seq<Action>)
    ensures var s := Run(Start(j), trace); YieldsHeard(s.stream, Tally(j, trace)) && HearsAll(s.world, s.stream, Tally(j, trace))
  {
    if trace != [] {
      var front, a := trace[..|trace| - 1], trace[|trace| - 1];
      var s, t := Run(Start(j), front), Tally(j, front);
      RunIsTallied(j, front);
      RunIsGood(j, front);
      StreamTallied(s.world, s.stream, t, a);
      WorldKeepsTally(s.world, StreamStep(s.world, s.stream, a), TallyStep(t, s, a), a);
    }
  }

  /** What a stream yields, in every run: the error alone, or one event for every row
      and message that it got. Without a lag these are the snapshot and then exactly
      the messages of the job that the channel carried since the subscription, each
      once and in order. */
  lemma YieldsExactly(j: JobId, trace: seq<Action>)
    ensures var w, m, t := Run(Start(j), trace).world, Run(Start(j), trace).stream, Tally(j, trace);
            && m.yielded == (if m.stage.Ended? && m.yielded == [Error] then [Error] else EventsOf(t.heard))
            && (t.heard != [] && t.lags == 0 ==>
                  && t.first <= m.next <= |w.sent|
                  && m.yielded == EventsOf([t.heard[0]] + Mine(j, w.sent[t.first..m.next])))
  {
    RunIsTallied(j, trace);
    RunIsGood(j, trace);
    var t := Tally(j, trace);
    if t.heard != [] {
      assert t.heard == [t.heard[0]] + t.heard[1..];
    }
  }

  // ---- the handler alone ----------------------------------------------------------------

  /** The handler alone: it receives, and reads when it lags. */
  function Poll(s: State): State {
    if s.stream.stage.CatchingUp? then Step(s, CatchUp(true)) else Step(s, Recv)
  }

  function Polls(s: State, n: nat): State { if n == 0 then s else Poll(Polls(s, n - 1)) }

  predicate Delivered(s: State) {
    s.stream.stage.Ended? && s.stream.yielded != [] && s.stream.yielded[|s.stream.yielded| - 1].Completed?
  }

  predicate Live(s: State) { s.stream.stage.Streaming? || s.stream.stage.CatchingUp? }

  /** A message that ends the job's stream. */
  predicate Ends(m: Msg, j: JobId) { m.job == j && m.row.terminal }

  /** What decides about an announced completion: a lag, whose read finds the
      finished row, or a terminal message of the job at or after the cursor. */
  predicate Ahead(s: State) {
    || s.stream.stage.CatchingUp?
    || s.stream.next < Oldest(s.world)
    || exists i :: s.stream.next <= i < |s.world.sent| && Ends(s.world.sent[i], s.stream.job)
  }

  ghost predicate Awaiting(s: State) { Good(s) && Live(s) && Announced(s.world, s.stream.job) }

  /** Polls left at most: a lag costs one receive and one read. */
  function Backlog(s: State): nat {
    if s.stream.stage.CatchingUp? then 1
    else if s.stream.next < Oldest(s.world) then 2
    else if s.stream.next <= |s.world.sent| then |s.world.sent| - s.stream.next
    else 0
  }

  lemma PollShrinksBacklog(s: State)
    requires Awaiting(s) && Ahead(s)
    ensures Delivered(Poll(s)) || (Awaiting(Poll(s)) && Ahead(Poll(s)) && Backlog(Poll(s)) < Backlog(s))
  {
    StepKeepsGood(s, Recv);
    StepKeepsGood(s, CatchUp(true));
  }

  lemma {:induction false} PollsShrinkBacklog(s: State, n: nat)
    requires Awaiting(s) && Ahead(s) && Backlog(s) <= n
    ensures exists k: nat :: k <= n && Delivered(Polls(s, k))
    decreases n
  {
    PollShrinksBacklog(s);
    if Delivered(Poll(s)) {
      assert Polls(s, 1) == Poll(Polls(s, 0));
    } else {
      PollsShrinkBacklog(Poll(s), n - 1);
      var k: nat :| k <= n - 1 && Delivered(Polls(Poll(s), k));
      PollFirst(s, k);
    }
  }

  lemma {:induction false} PollFirst(s: State, k: nat)
    ensures Polls(Poll(s), k) == Polls(s, k + 1)
  {
    if k > 0 {
      PollFirst(s, k - 1);
    } else {
      assert Polls(s, 1) == Poll(Polls(s, 0));
    }
  }

  /** The stream has nothing to wait for any more. */
  ghost predicate Abandoned(s: State) {
    if s.stream.stage.Ended? then !Delivered(s) else Good(s) && s.stream.stage.Streaming? && !Ahead(s)
  }

  lemma {:induction false} AbandonedStays(s: State, n: nat)
    requires Abandoned(s)
    ensures Abandoned(Polls(s, n))
  {
    if n > 0 {
      AbandonedStays(s, n - 1);
      if Polls(s, n - 1).stream.stage.Streaming? {
        StepKeepsGood(Polls(s, n - 1), Recv);
      }
    }
  }

  /** Exactly when polling delivers an announced completion, failed reads or not: the
      handler lags and its read works, or a terminal message of the job lies at or
      after its cursor. It then takes no more polls than the channel keeps messages. */
  lemma DeliveredIffAhead(s: State)
    requires Awaiting(s)
    ensures (exists n: nat :: Delivered(Polls(s, n))) <==> Ahead(s)
    ensures Ahead(s) ==> exists n: nat :: n <= CAPACITY && Delivered(Polls(s, n))
  {
    if Ahead(s) {
      PollsShrinkBacklog(s, Backlog(s));
    } else {
      forall n: nat
        ensures !Delivered(Polls(s, n))
      {
        AbandonedStays(s, n);
      }
    }
  }

  /** However far behind, a live stream whose latest catch-up read worked yields the
      announced completion within as many polls as the channel keeps messages. */
  lemma CompletionArrives(s: State)
    requires Awaiting(s) && !s.stream.missedRead
    ensures exists n: nat :: n <= CAPACITY && Delivered(Polls(s, n))
  {
    DeliveredIffAhead(s);
  }

  /** The failing branch: after a catch-up read that failed with the completion
      announced, polling delivers exactly when the stream lags once more, or a terminal
      message of the job lies at or after the oldest that the channel still has. For
      a job that was never put back in the queue, that message is the completion
      itself. */
  lemma AfterFailedRead(s: State)
    requires Good(s) && s.stream.stage.CatchingUp? && Announced(s.world, s.stream.job)
    ensures var t := Step(s, CatchUp(false)); var w, j := s.world, s.stream.job;
            && ((exists n: nat :: Delivered(Polls(t, n)))
                <==> s.stream.next < Oldest(w)
                     || exists i :: Oldest(w) <= s.stream.next <= i < |w.sent| && Ends(w.sent[i], j))
            && (w.rows[j].epoch == 0 ==>
                  forall i :: 0 <= i < |w.sent| ==> (Ends(w.sent[i], j) <==> Final(w, j, w.sent[i])))
  {
    StepKeepsGood(s, CatchUp(false));
    DeliveredIffAhead(Step(s, CatchUp(false)));
  }

  // ---- a completion that is lost ---------------------------------------------------------

  /** The completion is broadcast, then `n` messages about another job. */
  function Flood(j: JobId, other: JobId, n: nat): seq<Action> {
    if n == 0 then [Create(j), Create(other), Subscribe, Snapshot(true), Finish(j), Read(0, j), Send(0)]
    else Flood(j, other, n - 1) + [Read(0, other)] + [Send(0)]
  }

  ghost predicate Flooded(s: State, j: JobId, other: JobId, n: nat) {
    var w := s.world;
    && w.rows == map[j := Row(true, 0), other := Row(false, 0)] && w.reading == map[] && !w.closed
    && |w.sent| == n + 1 && w.sent[0] == Msg(j, Row(true, 0))
    && (forall i :: 0 < i <= n ==> w.sent[i].job == other)
    && s.stream == Stream(j, Streaming, 0, [Update(Msg(j, Row(false, 0)))], false)
  }

  lemma RunSteps(s: State, first: seq<Action>, a: Action, b: Action)
    ensures Run(s, first + [a] + [b]) == Step(Step(Run(s, first), a), b)
  {
    RunThen(s, first, a);
    RunThen(s, first + [a], b);
  }

  lemma FloodBegins(j: JobId, other: JobId)
    requires j != other
    ensures Flooded(Run(Start(j), Flood(j, other, 0)), j, other, 0)
  {
    var a := Start(j);
    RunSteps(a, [], Create(j), Create(other));
    RunSteps(a, [Create(j), Create(other)], Subscribe, Snapshot(true));
    RunSteps(a, [Create(j), Create(other), Subscribe, Snapshot(true)], Finish(j), Read(0, j));
    RunThen(a, [Create(j), Create(other), Subscribe, Snapshot(true), Finish(j), Read(0, j)], Send(0));
    assert [] + [Create(j)] + [Create(other)] == [Create(j), Create(other)];
    assert [Create(j), Create(other)] + [Subscribe] + [Snapshot(true)]
        == [Create(j), Create(other), Subscribe, Snapshot(true)];
    assert [Create(j), Create(other), Subscribe, Snapshot(true)] + [Finish(j)] + [Read(0, j)]
        == [Create(j), Create(other), Subscribe, Snapshot(true), Finish(j), Read(0, j)];
    assert [Create(j), Create(other), Subscribe, Snapshot(true), Finish(j), Read(0, j)] + [Send(0)]
        == Flood(j, other, 0);
  }

  lemma {:induction false} FloodRuns(j: JobId, other: JobId, n: nat)
    requires j != other
    ensures Flooded(Run(Start(j), Flood(j, other, n)), j, other, n)
  {
    if n == 0 {
      FloodBegins(j, other);
    } else {
      FloodRuns(j, other, n - 1);
      RunSteps(Start(j), Flood(j, other, n - 1), Read(0, other), Send(0));
    }
  }

  /** The loss is real: from the start a run leads to a live stream that a failed
      catch-up read has left without its announced completion for good. */
  lemma LossIsReachable(j: JobId, other: JobId)
    requires j != other
    ensures exists trace ::
              var s := Run(Start(j), trace);
              && s.stream.stage.Streaming? && s.stream.missedRead && !s.world.closed && Announced(s.world, j)
              && forall n: nat :: !Delivered(Polls(s, n))
  {
    var flood := Flood(j, other, CAPACITY);
    FloodRuns(j, other, CAPACITY);
    var trace := flood + [Recv] + [CatchUp(false)];
    RunSteps(Start(j), flood, Recv, CatchUp(false));
    RunIsGood(j, trace);
    var s := Run(Start(j), trace);
    assert s.stream.next == 1 == Oldest(s.world);
    assert Final(s.world, j, s.world.sent[0]);
    assert !Ahead(s);
    DeliveredIffAhead(s);
    assert s.stream.missedRead && Announced(s.world, j) && forall n: nat :: !Delivered(Polls(s, n));
  }
}
