/** Job admission, delivery de-duplication, cancel and retry
    (backend/src/api/routes_audit.rs:132-251 and 321-421) as steps over one
    database: every interleaving of any number of calls, workers and failures is
    a sequence of actions. */
module Admission {
  import opened Text

  type UserId = string
  type DeliveryId = string
  type JobId = nat
  type CallId = nat

  datatype Status = Queued | Running | Completed | Failed | Cancelled | Partial | EngineUnavailable

  predicate Live(s: Status) { s.Queued? || s.Running? }

  /** A row, with the call that inserted it. */
  datatype Job = Job(user: UserId, status: Status, delivery: Option<DeliveryId>, cancelRequested: bool, origin: CallId)

  datatype Refusal = TooManyActive | NotFound | CannotRetry | DatabaseError

  datatype Reply = Accepted(id: JobId) | Refused(why: Refusal)

  /** Where a call is. From `Locked` to `Conflicted` it is inside its
      transaction and holds its user's advisory lock. */
  datatype Stage =
    | Arrived
    | Looked
    | Locked
    | Counted
    | Inserted(id: JobId)
    | Conflicted(id: JobId)
    | Unmatched(id: JobId)
    | RetryArrived(job: JobId)
    | RetryRead(job: JobId)
    | RetryChecked(job: JobId)
    | Replied(reply: Reply)

  datatype Call = Call(user: UserId, delivery: Option<DeliveryId>, stage: Stage)

  /** The committed rows, the advisory locks, the ids drawn so far, and how often
      each user's finished jobs were made live again: by `retry_job`, and by a
      worker opening an execution for a job that had meanwhile finished
      (backend/src/orchestrator/execution.rs:85-96). */
  datatype World = World(jobs: map<JobId, Job>, locks: map<int, CallId>, drawn: set<JobId>,
                         retries: multiset<UserId>, reopens: multiset<UserId>)

  datatype Db = Db(world: World, calls: map<CallId, Call>)

  const EMPTY: Db := Db(World(map[], map[], {}, multiset{}, multiset{}), map[])

  /** The configured limit, and the hash behind `pg_advisory_xact_lock`; two
      users may share a key. */
  datatype Config = Config(maxActive: int, key: UserId -> int)

  function Cap(cfg: Config): nat { if cfg.maxActive < 1 then 1 else cfg.maxActive }

  /** An action carries the answers that are not ours to compute: which matching row
      a SELECT returned, whether an execution was running, whether the reply to a
      COMMIT was heard. */
  datatype Action =
    | Arrive(c: CallId, user: UserId, delivery: Option<DeliveryId>)
    | Lookup(c: CallId, found: Option<JobId>)
    | TakeLock(c: CallId)
    | Count(c: CallId)
    | Insert(c: CallId, id: JobId)
    | Commit(c: CallId, heard: bool)
    | Abort(c: CallId)
    | Fallback(c: CallId, found: Option<JobId>)
    | ArriveRetry(c: CallId, user: UserId, job: JobId)
    | ReadJob(c: CallId)
    | CheckExecutions(c: CallId, busy: bool)
    | UpdateRetry(c: CallId)
    | Cancel(user: UserId, job: JobId)
    | Progress(job: JobId, to: Status)

  // ---- queries ------------------------------------------------------------------------

  function LiveJobs(jobs: map<JobId, Job>, u: UserId): set<JobId> {
    set j | j in jobs && jobs[j].user == u && Live(jobs[j].status)
  }

  predicate Delivered(jobs: map<JobId, Job>, j: JobId, d: DeliveryId) {
    j in jobs && jobs[j].delivery == Some(d)
  }

  /** A correct answer to `SELECT id .. WHERE webhook_delivery_id = d`. */
  predicate Answers(jobs: map<JobId, Job>, d: DeliveryId, found: Option<JobId>) {
    match found
    case Some(j) => Delivered(jobs, j, d)
    case None => !exists j | j in jobs :: jobs[j].delivery == Some(d)
  }

  predicate InTransaction(s: Stage) { s.Locked? || s.Counted? || s.Inserted? || s.Conflicted? }

  /** Another transaction has an uncommitted row with this delivery id: the
      unique index makes an insert wait for it. */
  predicate DeliveryPending(calls: map<CallId, Call>, c: CallId, d: DeliveryId) {
    exists o | o in calls :: o != c && calls[o].stage.Inserted? && calls[o].delivery == Some(d)
  }

  predicate Retryable(s: Status) { s.Failed? || s.Cancelled? || s.Partial? || s.EngineUnavailable? }

  /** The lifecycle trigger: which status changes the database lets through
      (backend/migrations/20260901001300_audit_jobs_lifecycle_guard.sql:17-70). */
  predicate Legal(from: Status, to: Status) {
    match from
    case Queued => to.Running? || to.Failed? || to.Cancelled?
    case Running => !to.Running?
    case Completed => false
    case _ => to.Queued?
  }

  // ---- steps ------------------------------------------------------------------------------

  function At(s: Db, c: CallId, stage: Stage): Db
    requires c in s.calls
  {
    s.(calls := s.calls[c := s.calls[c].(stage := stage)])
  }

  /** Leaving the transaction releases the lock. */
  function Leave(cfg: Config, s: Db, c: CallId, stage: Stage): Db
    requires c in s.calls
  {
    At(s, c, stage).(world := s.world.(locks := s.world.locks - {cfg.key(s.calls[c].user)}))
  }

  function FinishLookup(s: Db, c: CallId, found: Option<JobId>, otherwise: Stage): Db
    requires c in s.calls
  {
    At(s, c, if found.Some? then Replied(Accepted(found.value)) else otherwise)
  }

  function NewJob(c: CallId, call: Call): Job { Job(call.user, Queued, call.delivery, false, c) }

  /** The count under the lock: refuse at the cap, go on below it. */
  function CountLive(cfg: Config, s: Db, c: CallId): Db
    requires c in s.calls
  {
    if |LiveJobs(s.world.jobs, s.calls[c].user)| >= Cap(cfg)
    then Leave(cfg, s, c, Replied(Refused(TooManyActive)))
    else At(s, c, Counted)
  }

  /** `INSERT .. ON CONFLICT (webhook_delivery_id) DO NOTHING`: waits for an
      uncommitted row with the same delivery id, then inserts or does nothing. */
  function InsertRow(s: Db, c: CallId, id: JobId): Db
    requires c in s.calls
  {
    var d := s.calls[c].delivery;
    if d.Some? && DeliveryPending(s.calls, c, d.value) then s
    else
      At(s, c, if d.Some? && !Answers(s.world.jobs, d.value, None) then Conflicted(id) else Inserted(id))
      .(world := s.world.(drawn := s.world.drawn + {id}))
  }

  /** The row becomes visible and the lock is released at once; the reply may be lost. */
  function CommitRow(cfg: Config, s: Db, c: CallId, reply: Reply): Db
    requires c in s.calls && s.calls[c].stage.Inserted?
  {
    var left := Leave(cfg, s, c, Replied(reply));
    left.(world := left.world.(jobs := s.world.jobs[s.calls[c].stage.id := NewJob(c, s.calls[c])]))
  }

  /** A status or flag change of one row, with the counters of revived jobs. */
  function ChangeRow(s: Db, j: JobId, job: Job, retried: bool): Db
    requires j in s.world.jobs
  {
    var revived := !Live(s.world.jobs[j].status) && Live(job.status);
    s.(world := s.world.(
      jobs := s.world.jobs[j := job],
      retries := if revived && retried then s.world.retries + multiset{job.user} else s.world.retries,
      reopens := if revived && !retried then s.world.reopens + multiset{job.user} else s.world.reopens))
  }

  /** The first read of `retry_job`. */
  function ReadForRetry(s: Db, c: CallId, job: JobId): Db
    requires c in s.calls
  {
    var jobs := s.world.jobs;
    if job !in jobs || jobs[job].user != s.calls[c].user then At(s, c, Replied(Refused(NotFound)))
    else if !Retryable(jobs[job].status) then At(s, c, Replied(Refused(CannotRetry)))
    else At(s, c, RetryRead(job))
  }

  /** The guarded UPDATE of `retry_job`. */
  function Requeue(s: Db, c: CallId, job: JobId): Db
    requires c in s.calls
  {
    var jobs := s.world.jobs;
    if job in jobs && jobs[job].user == s.calls[c].user && Retryable(jobs[job].status)
    then At(ChangeRow(s, job, jobs[job].(status := Queued, cancelRequested := false), true), c, Replied(Accepted(job)))
    else At(s, c, Replied(Refused(CannotRetry)))
  }

  /** One action; an action that is not enabled changes nothing. */
  function Step(cfg: Config, s: Db, a: Action): Db {
    match a
    case Arrive(c, user, delivery) =>
      if c in s.calls then s
      else s.(calls := s.calls[c := Call(user, delivery, if delivery.Some? then Arrived else Looked)])
    case ArriveRetry(c, user, job) =>
      if c in s.calls then s else s.(calls := s.calls[c := Call(user, None, RetryArrived(job))])
    case Cancel(user, j) =>
      if j in s.world.jobs && s.world.jobs[j].user == user && Live(s.world.jobs[j].status)
      then ChangeRow(s, j, s.world.jobs[j].(cancelRequested := true), false)
      else s
    case Progress(j, to) =>
      if j in s.world.jobs && Legal(s.world.jobs[j].status, to)
      then ChangeRow(s, j, s.world.jobs[j].(status := to), false)
      else s
    case _ => if a.c in s.calls then CallStep(cfg, s, a) else s
  }

  /** An action of a call that has arrived. */
  function CallStep(cfg: Config, s: Db, a: Action): Db
    requires !a.Arrive? && !a.ArriveRetry? && !a.Cancel? && !a.Progress? && a.c in s.calls
  {
    var c := a.c;
    var call := s.calls[c];
    match a
    case Lookup(_, found) =>
      if call.stage.Arrived? && call.delivery.Some? && Answers(s.world.jobs, call.delivery.value, found)
      then FinishLookup(s, c, found, Looked)
      else s
    case TakeLock(_) =>
      if call.stage.Looked? && cfg.key(call.user) !in s.world.locks
      then At(s, c, Locked).(world := s.world.(locks := s.world.locks[cfg.key(call.user) := c]))
      else s
    case Count(_) => if call.stage.Locked? then CountLive(cfg, s, c) else s
    case Insert(_, id) => if call.stage.Counted? && id !in s.world.drawn then InsertRow(s, c, id) else s
    case Commit(_, heard) =>
      if call.stage.Inserted? then
        CommitRow(cfg, s, c, if heard then Accepted(call.stage.id) else Refused(DatabaseError))
      else if call.stage.Conflicted? then
        Leave(cfg, s, c, if heard then Unmatched(call.stage.id) else Replied(Refused(DatabaseError)))
      else s
    case Abort(_) =>
      if InTransaction(call.stage) then Leave(cfg, s, c, Replied(Refused(DatabaseError)))
      else if !call.stage.Replied? then At(s, c, Replied(Refused(DatabaseError)))
      else s
    case Fallback(_, found) =>
      if call.stage.Unmatched? && call.delivery.Some? && Answers(s.world.jobs, call.delivery.value, found)
      then FinishLookup(s, c, found, Replied(Accepted(call.stage.id)))
      else s
    case ReadJob(_) => if call.stage.RetryArrived? then ReadForRetry(s, c, call.stage.job) else s
    case CheckExecutions(_, busy) =>
      if call.stage.RetryRead?
      then At(s, c, if busy then Replied(Refused(CannotRetry)) else RetryChecked(call.stage.job))
      else s
    case UpdateRetry(_) => if call.stage.RetryChecked? then Requeue(s, c, call.stage.job) else s
  }

  /** The state after a run. Every finite interleaving is such a run. */
  function Run(cfg: Config, trace: seq<Action>): Db {
    if trace == [] then EMPTY else Step(cfg, Run(cfg, trace[..|trace| - 1]), trace[|trace| - 1])
  }

  // ---- invariants --------------------------------------------------------------------------

  /** Rows have drawn ids, a delivery id has at most one row, and no user is over
      the cap by more than the jobs that were made live again. */
  ghost predicate WorldOk(cfg: Config, w: World) {
    && w.jobs.Keys <= w.drawn
    && (forall i, j, d :: Delivered(w.jobs, i, d) && Delivered(w.jobs, j, d) ==> i == j)
    && (forall u :: |LiveJobs(w.jobs, u)| <= Bound(cfg, w, u))
  }

  function Bound(cfg: Config, w: World, u: UserId): nat { Cap(cfg) + w.retries[u] + w.reopens[u] }

  /** What a call's stage claims: a transaction holds its lock; after the count
      there is room for one more row; a pending row is new; a conflict has a row to
      find; a reply names the row that was asked for. */
  ghost predicate CallOk(cfg: Config, w: World, c: CallId, call: Call) {
    && (InTransaction(call.stage) ==> cfg.key(call.user) in w.locks && w.locks[cfg.key(call.user)] == c)
    && (InTransaction(call.stage) && !call.stage.Locked? ==>
          |LiveJobs(w.jobs, call.user)| + 1 <= Bound(cfg, w, call.user))
    && (call.stage.Inserted? ==>
          && call.stage.id in w.drawn && call.stage.id !in w.jobs
          && (call.delivery.Some? ==> forall j :: !Delivered(w.jobs, j, call.delivery.value)))
    && Backed(w.jobs, call)
  }

  ghost predicate Backed(jobs: map<JobId, Job>, call: Call) {
    match call.stage
    case Conflicted(_) => call.delivery.Some? && exists j :: Delivered(jobs, j, call.delivery.value)
    case Unmatched(_) => call.delivery.Some? && exists j :: Delivered(jobs, j, call.delivery.value)
    case RetryArrived(_) | RetryRead(_) | RetryChecked(_) => call.delivery.None?
    case Replied(Accepted(id)) =>
      if call.delivery.Some? then Delivered(jobs, id, call.delivery.value) else id in jobs && jobs[id].user == call.user
    case _ => true
  }

  /** Two pending rows differ in id and in delivery. */
  ghost predicate PendingApart(calls: map<CallId, Call>) {
    forall c, o ::
      c in calls && o in calls && c != o && calls[c].stage.Inserted? && calls[o].stage.Inserted?
      ==> calls[c].stage.id != calls[o].stage.id
          && (calls[c].delivery.Some? ==> calls[c].delivery != calls[o].delivery)
  }

  /** A lock is held by a call inside its transaction, under its own user's key. */
  ghost predicate LocksOwned(cfg: Config, locks: map<int, CallId>, calls: map<CallId, Call>) {
    forall k :: k in locks ==>
      locks[k] in calls && InTransaction(calls[locks[k]].stage) && cfg.key(calls[locks[k]].user) == k
  }

  ghost predicate Good(cfg: Config, s: Db) {
    && WorldOk(cfg, s.world)
    && (forall c :: c in s.calls ==> CallOk(cfg, s.world, c, s.calls[c]))
    && PendingApart(s.calls)
    && LocksOwned(cfg, s.world.locks, s.calls)
  }

  // ---- the shapes of a step --------------------------------------------------------------

  /** A call moves, and only it. */
  lemma CallMoved(cfg: Config, s: Db, c: CallId, call: Call)
    requires Good(cfg, s) && CallOk(cfg, s.world, c, call) && !call.stage.Inserted?
    requires c in s.calls ==> InTransaction(s.calls[c].stage) == InTransaction(call.stage) && s.calls[c].user == call.user
    requires c !in s.calls ==> !InTransaction(call.stage)
    ensures Good(cfg, s.(calls := s.calls[c := call]))
  {
  }

  /** A call leaves its transaction without a new row. */
  lemma CallLeft(cfg: Config, s: Db, c: CallId, stage: Stage)
    requires Good(cfg, s) && c in s.calls && InTransaction(s.calls[c].stage)
    requires !InTransaction(stage) && Backed(s.world.jobs, s.calls[c].(stage := stage))
    ensures Good(cfg, Leave(cfg, s, c, stage))
  {
    var w := s.world.(locks := s.world.locks - {cfg.key(s.calls[c].user)});
    forall o | o in s.calls && o != c
      ensures CallOk(cfg, w, o, s.calls[o])
    {
      assert CallOk(cfg, s.world, o, s.calls[o]) && CallOk(cfg, s.world, c, s.calls[c]);
    }
  }

  lemma LockTaken(cfg: Config, s: Db, c: CallId)
    requires Good(cfg, s) && c in s.calls && s.calls[c].stage.Looked?
    requires cfg.key(s.calls[c].user) !in s.world.locks
    ensures Good(cfg, CallStep(cfg, s, TakeLock(c)))
  {
    var w := s.world.(locks := s.world.locks[cfg.key(s.calls[c].user) := c]);
    forall o | o in s.calls && o != c
      ensures CallOk(cfg, w, o, s.calls[o])
    {
      assert CallOk(cfg, s.world, o, s.calls[o]);
    }
  }

  lemma RowInserted(cfg: Config, s: Db, c: CallId, id: JobId)
    requires Good(cfg, s) && c in s.calls && s.calls[c].stage.Counted? && id !in s.world.drawn
    ensures Good(cfg, InsertRow(s, c, id))
  {
    var call, after := s.calls[c], InsertRow(s, c, id);
    forall o | o in s.calls
      ensures CallOk(cfg, s.world, o, s.calls[o]) && CallOk(cfg, after.world, o, s.calls[o])
    {
      assert CallOk(cfg, s.world, o, s.calls[o]);
    }
    InsertedCallOk(cfg, s, c, id);
    assert WorldOk(cfg, after.world) by {
      assert forall u :: Bound(cfg, after.world, u) == Bound(cfg, s.world, u);
    }
    if after.calls[c].stage.Inserted? {
      assert call.delivery.Some? ==> !DeliveryPending(s.calls, c, call.delivery.value);
    }
  }

  lemma InsertedCallOk(cfg: Config, s: Db, c: CallId, id: JobId)
    requires Good(cfg, s) && c in s.calls && s.calls[c].stage.Counted? && id !in s.world.drawn
    ensures CallOk(cfg, InsertRow(s, c, id).world, c, InsertRow(s, c, id).calls[c])
  {
    var call, jobs := s.calls[c], s.world.jobs;
    assert CallOk(cfg, s.world, c, call);
    if call.delivery.Some? {
      var d := call.delivery.value;
      if Answers(jobs, d, None) {
        assert forall j :: Delivered(jobs, j, d) ==> j in jobs;
      } else {
        var j :| j in jobs && jobs[j].delivery == Some(d);
        assert Delivered(jobs, j, d);
      }
    }
  }

  lemma LiveAfter(jobs: map<JobId, Job>, j: JobId, job: Job, u: UserId)
    ensures LiveJobs(jobs[j := job], u)
         == if job.user == u && Live(job.status) then LiveJobs(jobs, u) + {j} else LiveJobs(jobs, u) - {j}
  {
  }

  /** Changing one row of its user adds at most one live job, and only when the
      row was not live before. */
  lemma LiveChange(jobs: map<JobId, Job>, j: JobId, job: Job, u: UserId)
    requires j in jobs ==> jobs[j].user == job.user
    ensures |LiveJobs(jobs[j := job], u)|
         <= |LiveJobs(jobs, u)|
            + (if u == job.user && Live(job.status) && (j in jobs ==> !Live(jobs[j].status)) then 1 else 0)
    ensures u != job.user ==> LiveJobs(jobs[j := job], u) == LiveJobs(jobs, u)
  {
    LiveAfter(jobs, j, job, u);
    var before := LiveJobs(jobs, u);
    if u == job.user {
      assert j in before ==> before + {j} == before;
      assert |before - {j}| <= |before| && |before + {j}| <= |before| + 1;
    } else {
      assert before - {j} == before;
    }
  }

  /** Rows are never removed and keep their delivery, so replies stay true. */
  lemma BackedStays(jobs: map<JobId, Job>, j: JobId, job: Job, call: Call)
    requires Backed(jobs, call)
    requires j in jobs ==> jobs[j].delivery == job.delivery && jobs[j].user == job.user
    ensures Backed(jobs[j := job], call)
  {
    if (call.stage.Conflicted? || call.stage.Unmatched?) && call.delivery.Some? {
      var i :| Delivered(jobs, i, call.delivery.value);
      assert Delivered(jobs[j := job], i, call.delivery.value);
    }
  }

  lemma StillUndelivered(jobs: map<JobId, Job>, after: map<JobId, Job>, id: JobId, d: DeliveryId)
    requires forall j :: !Delivered(jobs, j, d)
    requires id in after && after == jobs[id := after[id]] && after[id].delivery != Some(d)
    ensures forall j :: !Delivered(after, j, d)
  {
    forall j
      ensures !Delivered(after, j, d)
    {
      assert !Delivered(jobs, j, d);
    }
  }

  /** A call in its transaction beside a committing one holds another lock, so it
      is of another user and its room stays. */
  lemma OtherCallKept(cfg: Config, s: Db, c: CallId, reply: Reply, o: CallId)
    requires Good(cfg, s) && c in s.calls && s.calls[c].stage.Inserted? && o in s.calls && o != c
    ensures CallOk(cfg, CommitRow(cfg, s, c, reply).world, o, s.calls[o])
  {
    var call, other := s.calls[c], s.calls[o];
    var row, w := NewJob(c, call), s.world;
    assert CallOk(cfg, w, o, other) && CallOk(cfg, w, c, call);
    BackedStays(w.jobs, call.stage.id, row, other);
    LiveChange(w.jobs, call.stage.id, row, other.user);
    if other.stage.Inserted? && other.delivery.Some? {
      StillUndelivered(w.jobs, w.jobs[call.stage.id := row], call.stage.id, other.delivery.value);
    }
  }

  /** The committed row uses up the room that its call had counted. */
  lemma CommittedWorldOk(cfg: Config, s: Db, c: CallId, reply: Reply)
    requires Good(cfg, s) && c in s.calls && s.calls[c].stage.Inserted?
    ensures WorldOk(cfg, CommitRow(cfg, s, c, reply).world)
  {
    var call, w, after := s.calls[c], s.world, CommitRow(cfg, s, c, reply).world;
    var id := call.stage.id;
    assert CallOk(cfg, w, c, call);
    forall u
      ensures |LiveJobs(after.jobs, u)| <= Bound(cfg, after, u)
    {
      assert |LiveJobs(w.jobs, u)| <= Bound(cfg, w, u);
      LiveChange(w.jobs, id, NewJob(c, call), u);
    }
    forall i, j, d | Delivered(after.jobs, i, d) && Delivered(after.jobs, j, d)
      ensures i == j
    {
      assert i != id ==> Delivered(w.jobs, i, d);
      assert j != id ==> Delivered(w.jobs, j, d);
    }
  }

  lemma RowCommitted(cfg: Config, s: Db, c: CallId, reply: Reply)
    requires Good(cfg, s) && c in s.calls && s.calls[c].stage.Inserted?
    requires reply == Accepted(s.calls[c].stage.id) || reply.Refused?
    ensures Good(cfg, CommitRow(cfg, s, c, reply))
  {
    CommittedWorldOk(cfg, s, c, reply);
    assert CallOk(cfg, s.world, c, s.calls[c]);
    forall o | o in s.calls && o != c
      ensures CallOk(cfg, CommitRow(cfg, s, c, reply).world, o, s.calls[o])
    {
      OtherCallKept(cfg, s, c, reply, o);
    }
  }

  /** A row changes its status; if that makes it live again, a counter goes up
      with it. */
  lemma RowChanged(cfg: Config, s: Db, j: JobId, job: Job, retried: bool)
    requires Good(cfg, s) && j in s.world.jobs
    requires job.user == s.world.jobs[j].user && job.delivery == s.world.jobs[j].delivery && job.origin == s.world.jobs[j].origin
    ensures Good(cfg, ChangeRow(s, j, job, retried))
  {
    var w, after := s.world, ChangeRow(s, j, job, retried).world;
    forall i, d
      ensures Delivered(after.jobs, i, d) <==> Delivered(w.jobs, i, d)
    {
    }
    forall u
      ensures |LiveJobs(after.jobs, u)| - |LiveJobs(w.jobs, u)| <= Bound(cfg, after, u) - Bound(cfg, w, u)
    {
      LiveChange(w.jobs, j, job, u);
    }
    assert WorldOk(cfg, after) by {
      forall u
        ensures |LiveJobs(after.jobs, u)| <= Bound(cfg, after, u)
      {
        assert |LiveJobs(w.jobs, u)| <= Bound(cfg, w, u);
      }
    }
    forall o | o in s.calls
      ensures CallOk(cfg, after, o, s.calls[o])
    {
      assert CallOk(cfg, w, o, s.calls[o]);
      BackedStays(w.jobs, j, job, s.calls[o]);
    }
  }

  // ---- every step, every run ------------------------------------------------------------

  lemma CallStepKeepsGood(cfg: Config, s: Db, a: Action)
    requires Good(cfg, s) && !a.Arrive? && !a.ArriveRetry? && !a.Cancel? && !a.Progress? && a.c in s.calls
    ensures Good(cfg, CallStep(cfg, s, a))
  {
    var c, call := a.c, s.calls[a.c];
    if CallStep(cfg, s, a) == s {
      return;
    }
    match a
    case TakeLock(_) => LockTaken(cfg, s, c);
    case Count(_) => CountKeepsGood(cfg, s, c);
    case Insert(_, id) => RowInserted(cfg, s, c, id);
    case Commit(_, _) => CommitKeepsGood(cfg, s, a);
    case Abort(_) => AbortKeepsGood(cfg, s, c);
    case UpdateRetry(_) =>
      assert CallOk(cfg, s.world, c, call);
      RequeueKeepsGood(cfg, s, c, call.stage.job);
    case _ => ReadKeepsGood(cfg, s, a);
  }

  lemma CommitKeepsGood(cfg: Config, s: Db, a: Action)
    requires Good(cfg, s) && a.Commit? && a.c in s.calls
    ensures Good(cfg, CallStep(cfg, s, a))
  {
    var c, after := a.c, CallStep(cfg, s, a);
    assert CallOk(cfg, s.world, c, s.calls[c]);
    if s.calls[c].stage.Inserted? {
      RowCommitted(cfg, s, c, after.calls[c].stage.reply);
    } else if s.calls[c].stage.Conflicted? {
      CallLeft(cfg, s, c, after.calls[c].stage);
    }
  }

  lemma CountKeepsGood(cfg: Config, s: Db, c: CallId)
    requires Good(cfg, s) && c in s.calls && s.calls[c].stage.Locked?
    ensures Good(cfg, CountLive(cfg, s, c))
  {
    assert CallOk(cfg, s.world, c, s.calls[c]);
    if |LiveJobs(s.world.jobs, s.calls[c].user)| >= Cap(cfg) {
      CallLeft(cfg, s, c, Replied(Refused(TooManyActive)));
    } else {
      CallMoved(cfg, s, c, s.calls[c].(stage := Counted));
    }
  }

  lemma AbortKeepsGood(cfg: Config, s: Db, c: CallId)
    requires Good(cfg, s) && c in s.calls
    ensures Good(cfg, CallStep(cfg, s, Abort(c)))
  {
    var reply := Replied(Refused(DatabaseError));
    if InTransaction(s.calls[c].stage) {
      CallLeft(cfg, s, c, reply);
    } else if !s.calls[c].stage.Replied? {
      CallMoved(cfg, s, c, s.calls[c].(stage := reply));
    }
  }

  /** The plain SELECTs, outside any transaction. */
  lemma ReadKeepsGood(cfg: Config, s: Db, a: Action)
    requires Good(cfg, s) && (a.Lookup? || a.Fallback? || a.ReadJob? || a.CheckExecutions?) && a.c in s.calls
    ensures Good(cfg, CallStep(cfg, s, a))
  {
    var after := CallStep(cfg, s, a);
    assert CallOk(cfg, s.world, a.c, s.calls[a.c]);
    if after != s {
      CallMoved(cfg, s, a.c, after.calls[a.c]);
    }
  }

  lemma RequeueKeepsGood(cfg: Config, s: Db, c: CallId, job: JobId)
    requires Good(cfg, s) && c in s.calls && s.calls[c].stage.RetryChecked? && s.calls[c].delivery == None
    ensures Good(cfg, Requeue(s, c, job))
  {
    var call, jobs := s.calls[c], s.world.jobs;
    if job in jobs && jobs[job].user == call.user && Retryable(jobs[job].status) {
      var row := jobs[job].(status := Queued, cancelRequested := false);
      RowChanged(cfg, s, job, row, true);
      CallMoved(cfg, ChangeRow(s, job, row, true), c, call.(stage := Replied(Accepted(job))));
    } else {
      CallMoved(cfg, s, c, call.(stage := Replied(Refused(CannotRetry))));
    }
  }

  lemma ArrivalKeepsGood(cfg: Config, s: Db, c: CallId, call: Call)
    requires Good(cfg, s) && c !in s.calls
    requires call.stage.Arrived? || call.stage.Looked? || (call.stage.RetryArrived? && call.delivery.None?)
    ensures Good(cfg, s.(calls := s.calls[c := call]))
  {
    CallMoved(cfg, s, c, call);
  }

  lemma StepKeepsGood(cfg: Config, s: Db, a: Action)
    requires Good(cfg, s)
    ensures Good(cfg, Step(cfg, s, a))
  {
    match a
    case Arrive(c, user, delivery) =>
      if c !in s.calls {
        ArrivalKeepsGood(cfg, s, c, Call(user, delivery, if delivery.Some? then Arrived else Looked));
      }
    case ArriveRetry(c, user, job) =>
      if c !in s.calls {
        ArrivalKeepsGood(cfg, s, c, Call(user, None, RetryArrived(job)));
      }
    case Cancel(_, _) => RowStepKeepsGood(cfg, s, a);
    case Progress(_, _) => RowStepKeepsGood(cfg, s, a);
    case _ =>
      if a.c in s.calls {
        CallStepKeepsGood(cfg, s, a);
      }
  }

  lemma RowStepKeepsGood(cfg: Config, s: Db, a: Action)
    requires Good(cfg, s) && (a.Cancel? || a.Progress?)
    ensures Good(cfg, Step(cfg, s, a))
  {
    var j := a.job;
    if Step(cfg, s, a) != s {
      var row := s.world.jobs[j];
      RowChanged(cfg, s, j, if a.Cancel? then row.(cancelRequested := true) else row.(status := a.to), false);
    }
  }

  lemma {:induction false} RunIsGood(cfg: Config, trace: seq<Action>)
    ensures Good(cfg, Run(cfg, trace))
  {
    if trace == [] {
      assert forall u :: LiveJobs(map[], u) == {};
    } else {
      RunIsGood(cfg, trace[..|trace| - 1]);
      StepKeepsGood(cfg, Run(cfg, trace[..|trace| - 1]), trace[|trace| - 1]);
    }
  }

  /** Each row came from a call that is over, of the same user and delivery, which
      was told the row's id unless the reply was lost; a call inserts one row. */
  ghost predicate RowsOwned(jobs: map<JobId, Job>, calls: map<CallId, Call>) {
    && (forall j :: j in jobs ==>
          && jobs[j].origin in calls
          && calls[jobs[j].origin].user == jobs[j].user && calls[jobs[j].origin].delivery == jobs[j].delivery
          && (calls[jobs[j].origin].stage == Replied(Accepted(j)) || calls[jobs[j].origin].stage == Replied(Refused(DatabaseError))))
    && (forall i, j :: i in jobs && j in jobs && jobs[i].origin == jobs[j].origin ==> i == j)
  }

  lemma RowsOwnedThrough(jobs: map<JobId, Job>, calls: map<CallId, Call>, c: CallId, call: Call, id: JobId)
    requires RowsOwned(jobs, calls)
    requires c in calls ==>
               !calls[c].stage.Replied? && calls[c].user == call.user && calls[c].delivery == call.delivery
    ensures RowsOwned(jobs, calls[c := call])
    ensures c in calls && (call.stage == Replied(Accepted(id)) || call.stage == Replied(Refused(DatabaseError))) ==>
              RowsOwned(jobs[id := NewJob(c, call)], calls[c := call])
  {
    assert c in calls ==> forall j :: j in jobs ==> jobs[j].origin != c;
  }

  lemma RowsOwnedAfterChange(s: Db, j: JobId, job: Job, retried: bool)
    requires RowsOwned(s.world.jobs, s.calls) && j in s.world.jobs
    requires job.user == s.world.jobs[j].user && job.delivery == s.world.jobs[j].delivery && job.origin == s.world.jobs[j].origin
    ensures RowsOwned(ChangeRow(s, j, job, retried).world.jobs, s.calls)
  {
    forall i | i in s.world.jobs
      ensures ChangeRow(s, j, job, retried).world.jobs[i].origin == s.world.jobs[i].origin
    {
    }
  }

  lemma StepKeepsRowsOwned(cfg: Config, s: Db, a: Action)
    requires RowsOwned(s.world.jobs, s.calls)
    ensures RowsOwned(Step(cfg, s, a).world.jobs, Step(cfg, s, a).calls)
  {
    var after := Step(cfg, s, a);
    match a
    case Cancel(_, j) =>
      if after != s { RowsOwnedAfterChange(s, j, s.world.jobs[j].(cancelRequested := true), false); }
    case Progress(j, to) =>
      if after != s { RowsOwnedAfterChange(s, j, s.world.jobs[j].(status := to), false); }
    case Commit(c, _) =>
      if after != s {
        RowsOwnedThrough(s.world.jobs, s.calls, c, after.calls[c], s.calls[c].stage.id);
      }
    case UpdateRetry(c) =>
      if after != s {
        var j := s.calls[c].stage.job;
        if after.calls[c].stage.reply.Accepted? {
          RowsOwnedAfterChange(s, j, s.world.jobs[j].(status := Queued, cancelRequested := false), true);
        }
        RowsOwnedThrough(after.world.jobs, s.calls, c, after.calls[c], j);
      }
    case _ =>
      if after != s {
        RowsOwnedThrough(s.world.jobs, s.calls, a.c, after.calls[a.c], 0);
      }
  }

  lemma {:induction false} RunOwnsRows(cfg: Config, trace: seq<Action>)
    ensures RowsOwned(Run(cfg, trace).world.jobs, Run(cfg, trace).calls)
  {
    if trace != [] {
      RunOwnsRows(cfg, trace[..|trace| - 1]);
      StepKeepsRowsOwned(cfg, Run(cfg, trace[..|trace| - 1]), trace[|trace| - 1]);
    }
  }

  // ---- what every run keeps ---------------------------------------------------------------

  /** How many queued and running jobs a user has. */
  function Active(jobs: map<JobId, Job>, user: UserId): nat {
    |set j | j in jobs && jobs[j].user == user && (jobs[j].status.Queued? || jobs[j].status.Running?)|
  }

  lemma ActiveIsLive(jobs: map<JobId, Job>, user: UserId)
    ensures Active(jobs, user) == |LiveJobs(jobs, user)|
  {
    assert LiveJobs(jobs, user) == set j | j in jobs && jobs[j].user == user && (jobs[j].status.Queued? || jobs[j].status.Running?);
  }

  /** However the calls interleave, a user's queued and running jobs are at most the
      configured limit, but one where that is less, plus the jobs of that user that
      were made live again. */
  lemma CapHolds(cfg: Config, trace: seq<Action>, u: UserId)
    ensures var w := Run(cfg, trace).world;
            Active(w.jobs, u) <= (if cfg.maxActive < 1 then 1 else cfg.maxActive) + w.retries[u] + w.reopens[u]
  {
    RunIsGood(cfg, trace);
    ActiveIsLive(Run(cfg, trace).world.jobs, u);
  }

  /** A lock has one holder, which is inside its transaction; two transactions under
      one key are the same call. */
  lemma LockExcludes(cfg: Config, trace: seq<Action>, c: CallId, o: CallId)
    requires c in Run(cfg, trace).calls && o in Run(cfg, trace).calls
    ensures var s := Run(cfg, trace); var k := cfg.key(s.calls[c].user);
            && ((k in s.world.locks && s.world.locks[k] == c) <==> InTransaction(s.calls[c].stage))
            && (InTransaction(s.calls[c].stage) && InTransaction(s.calls[o].stage) && k == cfg.key(s.calls[o].user)
                ==> c == o)
  {
    RunIsGood(cfg, trace);
    var s := Run(cfg, trace);
    assert CallOk(cfg, s.world, c, s.calls[c]) && CallOk(cfg, s.world, o, s.calls[o]);
  }

  /** Calls with one delivery id, of any users, at any time: one row at most, and
      every accepted call names it. */
  lemma OneJobPerDelivery(cfg: Config, trace: seq<Action>, d: DeliveryId, c: CallId, j: JobId)
    requires Delivered(Run(cfg, trace).world.jobs, j, d)
    requires c in Run(cfg, trace).calls && Run(cfg, trace).calls[c].delivery == Some(d)
    ensures var s := Run(cfg, trace);
            && (forall i :: Delivered(s.world.jobs, i, d) ==> i == j)
            && (s.calls[c].stage.Replied? && s.calls[c].stage.reply.Accepted? ==> s.calls[c].stage.reply.id == j)
  {
    RunIsGood(cfg, trace);
    assert CallOk(cfg, Run(cfg, trace).world, c, Run(cfg, trace).calls[c]);
  }

  /** A redelivery can be refused by the cap only if no row with its delivery
      existed when it looked; once one does, a fresh call finds it. */
  lemma RedeliveryIsFound(cfg: Config, trace: seq<Action>, c: CallId, user: UserId, d: DeliveryId, j: JobId, found: Option<JobId>)
    requires Delivered(Run(cfg, trace).world.jobs, j, d) && c !in Run(cfg, trace).calls
    requires Answers(Run(cfg, trace).world.jobs, d, found)
    ensures var after := Run(cfg, trace + [Arrive(c, user, Some(d)), Lookup(c, found)]);
            c in after.calls && after.calls[c] == Call(user, Some(d), Replied(Accepted(j)))
  {
    var next := trace + [Arrive(c, user, Some(d))];
    var last := next + [Lookup(c, found)];
    assert last == trace + [Arrive(c, user, Some(d)), Lookup(c, found)];
    assert next[..|next| - 1] == trace && last[..|last| - 1] == next;
    RunIsGood(cfg, trace);
    assert j in Run(cfg, trace).world.jobs;
  }

  /** A refused call left no row, unless it is one whose reply was lost; a call that
      was accepted left at most the row it was told about. */
  lemma RefusalLeavesNoRow(cfg: Config, trace: seq<Action>, j: JobId)
    requires j in Run(cfg, trace).world.jobs
    ensures var s := Run(cfg, trace); var job := s.world.jobs[j];
            && job.origin in s.calls && s.calls[job.origin].stage.Replied?
            && (s.calls[job.origin].stage.reply == Accepted(j) || s.calls[job.origin].stage.reply == Refused(DatabaseError))
            && (forall i :: i in s.world.jobs && s.world.jobs[i].origin == job.origin ==> i == j)
  {
    RunOwnsRows(cfg, trace);
  }

  /** Rows never disappear, and a status changes only so: a queued job is started,
      fails or is cancelled; a running one ends or goes back to the queue; one that
      failed, was cancelled, is partial or had no engine may go back to the queue. */
  lemma StatusMovesLegally(cfg: Config, s: Db, a: Action, j: JobId)
    requires Good(cfg, s) && j in s.world.jobs
    ensures j in Step(cfg, s, a).world.jobs
    ensures var from, to := s.world.jobs[j].status, Step(cfg, s, a).world.jobs[j].status;
            || from == to
            || (from == Queued && to in {Running, Failed, Cancelled})
            || (from == Running && to in {Queued, Completed, Failed, Cancelled, Partial, EngineUnavailable})
            || (from in {Failed, Cancelled, Partial, EngineUnavailable} && to == Queued)
  {
    if a.Commit? && a.c in s.calls {
      assert CallOk(cfg, s.world, a.c, s.calls[a.c]);
    }
  }

  /** And each of those changes can happen. */
  lemma LegalMovesHappen(cfg: Config, s: Db, j: JobId, to: Status)
    requires j in s.world.jobs
    requires var from := s.world.jobs[j].status;
             || (from == Queued && to in {Running, Failed, Cancelled})
             || (from == Running && to in {Queued, Completed, Failed, Cancelled, Partial, EngineUnavailable})
             || (from in {Failed, Cancelled, Partial, EngineUnavailable} && to == Queued)
    ensures Step(cfg, s, Progress(j, to)).world.jobs == s.world.jobs[j := s.world.jobs[j].(status := to)]
  {
  }

  /** What a commit and a retry write. */
  lemma RowsWritten(cfg: Config, s: Db, c: CallId, heard: bool)
    requires c in s.calls
    ensures s.calls[c].stage.Inserted? ==>
              Step(cfg, s, Commit(c, heard)).world.jobs
              == s.world.jobs[s.calls[c].stage.id := Job(s.calls[c].user, Queued, s.calls[c].delivery, false, c)]
    ensures s.calls[c].stage.RetryChecked? ==>
              var j, jobs := s.calls[c].stage.job, s.world.jobs;
              Step(cfg, s, UpdateRetry(c)).world.jobs
              == if j in jobs && jobs[j].user == s.calls[c].user
                    && jobs[j].status in {Failed, Cancelled, Partial, EngineUnavailable}
                 then jobs[j := jobs[j].(status := Queued, cancelRequested := false)] else jobs
  {
  }

  predicate IsCompleted(jobs: map<JobId, Job>, j: JobId) { j in jobs && jobs[j].status.Completed? }

  lemma RunThen(cfg: Config, trace: seq<Action>, a: Action)
    ensures Run(cfg, trace + [a]) == Step(cfg, Run(cfg, trace), a)
  {
    assert (trace + [a])[..|trace + [a]| - 1] == trace;
  }

  /** A completed job is completed for ever, whatever is retried or cancelled. */
  lemma {:induction false} CompletedIsFinal(cfg: Config, before: seq<Action>, more: seq<Action>, j: JobId)
    requires IsCompleted(Run(cfg, before).world.jobs, j)
    ensures IsCompleted(Run(cfg, before + more).world.jobs, j)
  {
    if more == [] {
      assert before + more == before;
    } else {
      var most, last := before + more[..|more| - 1], more[|more| - 1];
      CompletedIsFinal(cfg, before, more[..|more| - 1], j);
      CompletedStays(cfg, most, last, j);
      assert before + more == most + [last];
    }
  }

  lemma CompletedStays(cfg: Config, trace: seq<Action>, a: Action, j: JobId)
    requires IsCompleted(Run(cfg, trace).world.jobs, j)
    ensures IsCompleted(Run(cfg, trace + [a]).world.jobs, j)
  {
    RunIsGood(cfg, trace);
    RunThen(cfg, trace, a);
    StatusMovesLegally(cfg, Run(cfg, trace), a, j);
  }

  /** The state after a run that reached `mid` and then took one more action. */
  lemma RunFrom(cfg: Config, t: seq<Action>, mid: Db, a: Action, end: Db)
    requires Run(cfg, t) == mid && Step(cfg, mid, a) == end
    ensures Run(cfg, t + [a]) == end
  {
    RunThen(cfg, t, a);
  }
}
