/** The handlers of backend/src/api/routes_audit.rs as the statements they run, one
    after the other, on a database that any number of other calls and workers may
    change between two statements. Every handler run is a run of Admission. */
module JobStore {
  import opened Text
  import opened Admission

  /** The statements at which a connection may be lost, or answer with an error. */
  datatype Point = AtLookup | AtBegin | AtCount | AtInsert | AtCommit | AtCommitReply | AtFallback | AtRead | AtUpdate

  predicate By(a: Action, c: CallId) { !a.Cancel? && !a.Progress? && a.c == c }

  /** What no later step takes back: ids stay drawn, and rows stay, with their user
      and delivery. */
  ghost predicate Later(s: Db, t: Db) {
    && s.world.drawn <= t.world.drawn
    && forall j :: j in s.world.jobs ==>
         && j in t.world.jobs
         && t.world.jobs[j].user == s.world.jobs[j].user && t.world.jobs[j].delivery == s.world.jobs[j].delivery
  }

  lemma RowsOnly(s: Db, t: Db, j: JobId, job: Job)
    requires t.world.jobs == s.world.jobs[j := job] && t.world.drawn == s.world.drawn
    requires j in s.world.jobs ==> job.user == s.world.jobs[j].user && job.delivery == s.world.jobs[j].delivery
    ensures Later(s, t)
  {
  }

  lemma CommitIsLater(cfg: Config, s: Db, a: Action)
    requires Good(cfg, s) && a.Commit? && a.c in s.calls
    ensures Later(s, CallStep(cfg, s, a))
  {
    assert CallOk(cfg, s.world, a.c, s.calls[a.c]);
    if s.calls[a.c].stage.Inserted? {
      RowsOnly(s, CallStep(cfg, s, a), s.calls[a.c].stage.id, NewJob(a.c, s.calls[a.c]));
    }
  }

  predicate OfCall(a: Action) { !a.Arrive? && !a.ArriveRetry? && !a.Cancel? && !a.Progress? }

  lemma CallIsLater(cfg: Config, s: Db, a: Action)
    requires Good(cfg, s) && OfCall(a) && a.c in s.calls
    ensures Later(s, CallStep(cfg, s, a))
  {
    var t := CallStep(cfg, s, a);
    if a.Commit? {
      CommitIsLater(cfg, s, a);
    } else if a.UpdateRetry? && t.world.jobs != s.world.jobs {
      var j := s.calls[a.c].stage.job;
      RowsOnly(s, t, j, s.world.jobs[j].(status := Queued, cancelRequested := false));
    } else {
      assert t.world.jobs == s.world.jobs;
    }
  }

  lemma StepIsLater(cfg: Config, s: Db, a: Action)
    requires Good(cfg, s)
    ensures Later(s, Step(cfg, s, a))
  {
    if OfCall(a) && a.c in s.calls {
      CallIsLater(cfg, s, a);
    } else if (a.Cancel? || a.Progress?) && Step(cfg, s, a) != s {
      var row := s.world.jobs[a.job];
      RowsOnly(s, Step(cfg, s, a), a.job, if a.Cancel? then row.(cancelRequested := true) else row.(status := a.to));
    }
  }

  lemma Performed(cfg: Config, s: Db, trace: seq<Action>, a: Action, t: Db)
    requires s == Run(cfg, trace) && t == Step(cfg, s, a)
    ensures t == Run(cfg, trace + [a]) && Later(s, t)
  {
    RunThen(cfg, trace, a);
    RunIsGood(cfg, trace);
    StepIsLater(cfg, s, a);
  }

  lemma CallUntouched(cfg: Config, s: Db, a: Action, c: CallId)
    requires !By(a, c)
    ensures c in Step(cfg, s, a).calls <==> c in s.calls
    ensures c in s.calls ==> Step(cfg, s, a).calls[c] == s.calls[c]
  {
  }

  /** How often call `c` tried to take its lock or to insert its row. */
  function Tries(trace: seq<Action>, c: CallId): nat {
    if trace == [] then 0
    else
      var last := trace[|trace| - 1];
      Tries(trace[..|trace| - 1], c) + (if (last.TakeLock? || last.Insert?) && last.c == c then 1 else 0)
  }

  lemma {:induction false} TriesGrow(trace: seq<Action>, more: seq<Action>, c: CallId)
    requires trace <= more
    ensures Tries(trace, c) <= Tries(more, c)
    decreases |more|
  {
    if trace != more {
      TriesGrow(trace, more[..|more| - 1], c);
    }
  }

  lemma OneMoreTry(trace: seq<Action>, a: Action, c: CallId)
    requires (a.TakeLock? || a.Insert?) && a.c == c
    ensures Tries(trace + [a], c) == Tries(trace, c) + 1
  {
    assert (trace + [a])[..|trace + [a]| - 1] == trace;
  }

  /** The call counted its user's jobs and found as many as the configured limit (one,
      where that is less). */
  ghost predicate RefusedAtCap(cfg: Config, trace: seq<Action>, from: nat, c: CallId, user: UserId) {
    exists k :: from <= k < |trace| && trace[k] == Count(c)
                && Active(Run(cfg, trace[..k]).world.jobs, user) >= if cfg.maxActive < 1 then 1 else cfg.maxActive
  }

  /** It found fewer. */
  ghost predicate CountedBelow(cfg: Config, trace: seq<Action>, from: nat, c: CallId, user: UserId) {
    exists k :: from <= k < |trace| && trace[k] == Count(c)
                && Active(Run(cfg, trace[..k]).world.jobs, user) < if cfg.maxActive < 1 then 1 else cfg.maxActive
  }

  /** What a count proves stays proved in a longer run. */
  lemma CountStays(cfg: Config, trace: seq<Action>, more: seq<Action>, from: nat, c: CallId, user: UserId)
    requires trace <= more && CountedBelow(cfg, trace, from, c, user)
    ensures CountedBelow(cfg, more, from, c, user)
  {
    var k :| from <= k < |trace| && trace[k] == Count(c)
             && Active(Run(cfg, trace[..k]).world.jobs, user) < if cfg.maxActive < 1 then 1 else cfg.maxActive;
    assert more[..k] == trace[..k] && more[k] == trace[k];
  }

  /** The SELECT before any gate answered with the job. */
  ghost predicate FoundFirst(trace: seq<Action>, from: nat, c: CallId, id: JobId) {
    exists k :: from <= k < |trace| && trace[k] == Lookup(c, Some(id))
  }

  /** The call's UPDATE found a row of the user that had failed, was cancelled, was
      partial or had no engine, and put it back in the queue with its cancel request
      taken back. */
  ghost predicate Requeued(cfg: Config, trace: seq<Action>, from: nat, c: CallId, user: UserId, job: JobId) {
    exists k :: from <= k < |trace| && trace[k] == UpdateRetry(c)
                && var jobs, after := Run(cfg, trace[..k]).world.jobs, Run(cfg, trace[..k + 1]).world.jobs;
                   && job in jobs && jobs[job].user == user
                   && jobs[job].status in {Failed, Cancelled, Partial, EngineUnavailable}
                   && after == jobs[job := jobs[job].(status := Queued, cancelRequested := false)]
  }

  /** An accepted answer names the row that an earlier state already had. */
  lemma FoundAgain(cfg: Config, s: Db, trace: seq<Action>, c: CallId, d: DeliveryId)
    requires Later(s, Run(cfg, trace)) && c in Run(cfg, trace).calls && Run(cfg, trace).calls[c].delivery == Some(d)
    ensures var call := Run(cfg, trace).calls[c];
            call.stage.Replied? && call.stage.reply.Accepted? ==>
              && Delivered(Run(cfg, trace).world.jobs, call.stage.reply.id, d)
              && forall j :: Delivered(s.world.jobs, j, d) ==> j == call.stage.reply.id
    ensures forall j :: Delivered(s.world.jobs, j, d) ==> Delivered(Run(cfg, trace).world.jobs, j, d)
  {
    RunIsGood(cfg, trace);
    assert CallOk(cfg, Run(cfg, trace).world, c, Run(cfg, trace).calls[c]);
    assert forall j :: Delivered(s.world.jobs, j, d) ==> Delivered(Run(cfg, trace).world.jobs, j, d);
  }

  /** At some moment the job was not the user's, or not in a state to be retried. */
  ghost predicate WasUnfit(cfg: Config, trace: seq<Action>, from: nat, user: UserId, job: JobId) {
    exists k :: from <= k <= |trace|
                && var jobs := Run(cfg, trace[..k]).world.jobs;
                   !(job in jobs && jobs[job].user == user
                     && jobs[job].status in {Failed, Cancelled, Partial, EngineUnavailable})
  }

  /** Unfit just before the last action. */
  lemma UnfitBefore(cfg: Config, trace: seq<Action>, from: nat, user: UserId, job: JobId)
    requires from < |trace|
    requires var jobs := Run(cfg, trace[..|trace| - 1]).world.jobs;
             !(job in jobs && jobs[job].user == user
               && jobs[job].status in {Failed, Cancelled, Partial, EngineUnavailable})
    ensures WasUnfit(cfg, trace, from, user, job)
  {
  }

  lemma AcceptedNames(cfg: Config, trace: seq<Action>, c: CallId)
    requires c in Run(cfg, trace).calls
    ensures var s := Run(cfg, trace); var call := s.calls[c];
            call.stage.Replied? && call.stage.reply.Accepted? ==>
              && call.stage.reply.id in s.world.jobs
              && (call.delivery.None? ==> s.world.jobs[call.stage.reply.id].user == call.user)
              && (call.delivery.Some? ==> Delivered(s.world.jobs, call.stage.reply.id, call.delivery.value))
  {
    RunIsGood(cfg, trace);
    assert CallOk(cfg, Run(cfg, trace).world, c, Run(cfg, trace).calls[c]);
  }

  class Store {
    const cfg: Config
    var db: Db
    ghost var trace: seq<Action>

    ghost predicate Valid()
      reads this
    {
      db == Run(cfg, trace)
    }

    constructor (cfg: Config)
      ensures Valid() && trace == [] && this.cfg == cfg
    {
      this.cfg, db, trace := cfg, EMPTY, [];
    }

    method Perform(a: Action)
      requires Valid()
      modifies this`db, this`trace
      ensures Valid() && trace == old(trace) + [a]
      ensures db == Step(cfg, old(db), a) && Later(old(db), db)
    {
      ghost var before := db;
      db := Step(cfg, db, a);
      Performed(cfg, before, trace, a, db);
      trace := trace + [a];
    }

    /** An action of anyone but call `c`. */
    method PerformOther(a: Action, c: CallId)
      requires Valid() && !By(a, c)
      modifies this`db, this`trace
      ensures Valid() && old(trace) <= trace && Later(old(db), db)
      ensures c in db.calls <==> c in old(db.calls)
      ensures c in db.calls ==> db.calls[c] == old(db.calls)[c]
    {
      CallUntouched(cfg, db, a, c);
      Perform(a);
    }

    /** A call arrives. */
    method Receive(c: CallId, a: Action)
      requires Valid() && c !in db.calls && (a.Arrive? || a.ArriveRetry?) && a.c == c
      modifies this`db, this`trace
      ensures Valid() && trace == old(trace) + [a] && db.world == old(db.world)
      ensures c in db.calls
      ensures a.Arrive? ==>
                db.calls[c] == Call(a.user, a.delivery, if a.delivery.Some? then Arrived else Looked)
      ensures a.ArriveRetry? ==> db.calls[c] == Call(a.user, None, RetryArrived(a.job))
    {
      Perform(a);
    }

    /** Any number of actions of anyone but call `c`. */
    method Others(c: CallId)
      requires Valid()
      modifies this`db, this`trace
      ensures Valid() && old(trace) <= trace && Later(old(db), db)
      ensures c in db.calls <==> c in old(db.calls)
      ensures c in db.calls ==> db.calls[c] == old(db.calls)[c]
    {
      var rounds: nat := *;
      while rounds > 0
        invariant Valid() && old(trace) <= trace && Later(old(db), db)
        invariant c in db.calls <==> c in old(db.calls)
        invariant c in db.calls ==> db.calls[c] == old(db.calls)[c]
      {
        var a: Action := *;
        if !By(a, c) {
          PerformOther(a, c);
        }
        rounds := rounds - 1;
      }
    }

    /** `SELECT id FROM audit_jobs WHERE webhook_delivery_id = d`. */
    method SelectDelivery(d: DeliveryId) returns (found: Option<JobId>)
      ensures Answers(db.world.jobs, d, found)
    {
      found := None;
      var rest := db.world.jobs.Keys;
      while rest != {}
        invariant rest <= db.world.jobs.Keys
        invariant match found
                  case Some(j) => Delivered(db.world.jobs, j, d)
                  case None => forall j :: j in db.world.jobs && j !in rest ==> db.world.jobs[j].delivery != Some(d)
        decreases rest
      {
        var j :| j in rest;
        if db.world.jobs[j].delivery == Some(d) {
          found := Some(j);
        }
        rest := rest - {j};
      }
    }

    /** The connection is lost: the transaction, if any, rolls back. */
    method Lose(c: CallId) returns (reply: Reply)
      requires Valid() && c in db.calls && !db.calls[c].stage.Replied?
      modifies this`db, this`trace
      ensures Valid() && old(trace) <= trace && Later(old(db), db)
      ensures reply == Refused(DatabaseError)
      ensures c in db.calls && db.calls[c] == old(db.calls)[c].(stage := Replied(reply))
    {
      reply := Refused(DatabaseError);
      Perform(Abort(c));
    }

    /** Waits, at most `patience` times, for the advisory lock. */
    method Lock(c: CallId, patience: nat) returns (locked: bool)
      requires Valid() && c in db.calls && db.calls[c].stage == Looked
      modifies this`db, this`trace
      ensures Valid() && old(trace) <= trace && Later(old(db), db)
      ensures c in db.calls && db.calls[c] == old(db.calls)[c].(stage := if locked then Locked else Looked)
      ensures !locked ==> Tries(trace, c) >= Tries(old(trace), c) + patience
    {
      var waits: nat := patience;
      locked := false;
      while !locked && waits > 0
        invariant Valid() && old(trace) <= trace && Later(old(db), db)
        invariant waits <= patience && Tries(trace, c) >= Tries(old(trace), c) + (patience - waits)
        invariant c in db.calls && db.calls[c] == old(db.calls)[c].(stage := if locked then Locked else Looked)
      {
        ghost var before := trace;
        Others(c);
        TriesGrow(before, trace, c);
        OneMoreTry(trace, TakeLock(c), c);
        Perform(TakeLock(c));
        locked := db.calls[c].stage == Locked;
        waits := waits - 1;
      }
    }

    /** The count under the lock. */
    method CountJobs(c: CallId) returns (room: bool)
      requires Valid() && c in db.calls && db.calls[c].stage == Locked
      modifies this`db, this`trace
      ensures Valid() && old(trace) <= trace && Later(old(db), db)
      ensures c in db.calls
           && db.calls[c] == old(db.calls)[c].(stage := if room then Counted else Replied(Refused(TooManyActive)))
      ensures !room ==> RefusedAtCap(cfg, trace, |old(trace)|, c, old(db.calls)[c].user)
      ensures room ==> CountedBelow(cfg, trace, |old(trace)|, c, old(db.calls)[c].user)
    {
      Others(c);
      ActiveIsLive(db.world.jobs, db.calls[c].user);
      room := |LiveJobs(db.world.jobs, db.calls[c].user)| < Cap(cfg);
      ghost var counted := trace;
      Perform(Count(c));
      assert trace[|counted|] == Count(c) && trace[..|counted|] == counted;
    }

    /** The INSERT: waits while another transaction holds a row with this delivery.
        An id that was drawn before breaks the primary key. */
    method InsertJob(c: CallId, patience: nat) returns (done: bool)
      requires Valid() && c in db.calls && db.calls[c].stage == Counted
      modifies this`db, this`trace
      ensures Valid() && old(trace) <= trace && Later(old(db), db)
      ensures c in db.calls && db.calls[c] == old(db.calls)[c].(stage := db.calls[c].stage)
      ensures if done then (db.calls[c].stage.Inserted? || db.calls[c].stage.Conflicted?) else db.calls[c].stage == Counted
      ensures done ==> db.calls[c].stage.id !in old(db.world.drawn)
      ensures db.calls[c].stage.Conflicted? ==> db.calls[c].delivery.Some?
      ensures !done ==> Tries(trace, c) >= Tries(old(trace), c) + patience
    {
      var id: JobId := *;
      var waits: nat := patience;
      done := false;
      while !done && waits > 0
        invariant Valid() && old(trace) <= trace && Later(old(db), db)
        invariant c in db.calls && db.calls[c] == old(db.calls)[c].(stage := db.calls[c].stage)
        invariant if done then (db.calls[c].stage.Inserted? || db.calls[c].stage.Conflicted?)
                               && db.calls[c].stage.id !in old(db.world.drawn)
                  else db.calls[c].stage == Counted
        invariant db.calls[c].stage.Conflicted? ==> db.calls[c].delivery.Some?
        invariant waits <= patience && Tries(trace, c) >= Tries(old(trace), c) + (patience - waits)
      {
        ghost var before := trace;
        Others(c);
        TriesGrow(before, trace, c);
        OneMoreTry(trace, Insert(c, id), c);
        Perform(Insert(c, id));
        done := db.calls[c].stage != Counted;
        waits := waits - 1;
      }
    }

    /** The SELECT before any gate: a redelivery finds its job. */
    method FindExisting(c: CallId, faults: set<Point>) returns (reply: Reply, answered: bool)
      requires Valid() && c in db.calls && db.calls[c].stage == Arrived && db.calls[c].delivery.Some?
      modifies this`db, this`trace
      ensures Valid() && old(trace) <= trace && Later(old(db), db)
      ensures c in db.calls
           && db.calls[c] == old(db.calls)[c].(stage := if answered then Replied(reply) else Looked)
      ensures answered && reply.Refused? ==> reply == Refused(DatabaseError) && AtLookup in faults
      ensures answered && reply.Accepted? ==> Delivered(db.world.jobs, reply.id, old(db.calls)[c].delivery.value)
      ensures answered && reply.Accepted? ==> FoundFirst(trace, |old(trace)|, c, reply.id)
      ensures AtLookup !in faults ==>
                forall j :: Delivered(old(db.world.jobs), j, old(db.calls)[c].delivery.value) ==>
                              answered && reply == Accepted(j)
    {
      Others(c);
      answered := true;
      if AtLookup in faults {
        reply := Lose(c);
        return;
      }
      var found := SelectDelivery(db.calls[c].delivery.value);
      Perform(Lookup(c, found));
      FoundAgain(cfg, old(db), trace, c, db.calls[c].delivery.value);
      answered := found.Some?;
      reply := if answered then Accepted(found.value) else Refused(DatabaseError);
    }

    /** `create_audit_job_attributed`. `gaveUp` tells a wait that ran out. */
    method CreateAuditJob(c: CallId, user: UserId, delivery: Option<DeliveryId>, faults: set<Point>, patience: nat)
      returns (reply: Reply, gaveUp: bool)
      requires Valid() && c !in db.calls
      modifies this`db, this`trace
      ensures Valid() && old(trace) <= trace && Later(old(db), db)
      ensures c in db.calls && db.calls[c] == Call(user, delivery, Replied(reply))
      ensures reply.Accepted? && delivery.None? ==>
                && reply.id in db.world.jobs && db.world.jobs[reply.id].user == user
                && reply.id !in old(db.world.jobs)
      ensures reply.Accepted? && delivery.Some? ==> Delivered(db.world.jobs, reply.id, delivery.value)
      ensures reply == Refused(TooManyActive) ==> RefusedAtCap(cfg, trace, |old(trace)|, c, user)
      ensures reply.Accepted? ==>
                || CountedBelow(cfg, trace, |old(trace)|, c, user)
                || (delivery.Some? && FoundFirst(trace, |old(trace)|, c, reply.id))
      ensures reply.Refused? ==> reply.why == TooManyActive || (reply.why == DatabaseError && (faults != {} || gaveUp))
      ensures gaveUp ==> Tries(trace, c) >= Tries(old(trace), c) + patience
      ensures forall d, j :: delivery == Some(d) && Delivered(old(db.world.jobs), j, d) && AtLookup !in faults ==>
                reply == Accepted(j)
    {
      gaveUp := false;
      Receive(c, Arrive(c, user, delivery));
      if delivery.Some? {
        var answered;
        reply, answered := FindExisting(c, faults);
        if answered {
          return;
        }
      }
      TriesGrow(old(trace), trace, c);
      reply, gaveUp := Submit(c, faults, patience);
    }

    /** Ends the call after a wait or a fault. */
    method GiveUp(c: CallId) returns (reply: Reply)
      requires Valid() && c in db.calls && !db.calls[c].stage.Replied?
      modifies this`db, this`trace
      ensures Valid() && old(trace) <= trace && Later(old(db), db)
      ensures reply == Refused(DatabaseError) && Tries(trace, c) >= Tries(old(trace), c)
      ensures c in db.calls && db.calls[c] == old(db.calls)[c].(stage := Replied(reply))
    {
      reply := Lose(c);
      TriesGrow(old(trace), trace, c);
    }

    /** The transaction: lock, count, insert, commit. */
    method Submit(c: CallId, faults: set<Point>, patience: nat) returns (reply: Reply, gaveUp: bool)
      requires Valid() && c in db.calls && db.calls[c].stage == Looked
      modifies this`db, this`trace
      ensures Valid() && old(trace) <= trace && Later(old(db), db)
      ensures c in db.calls && db.calls[c] == old(db.calls)[c].(stage := Replied(reply))
      ensures reply.Accepted? && old(db.calls)[c].delivery.None? ==>
                && reply.id in db.world.jobs && db.world.jobs[reply.id].user == old(db.calls)[c].user
                && reply.id !in old(db.world.jobs)
      ensures reply.Accepted? && old(db.calls)[c].delivery.Some? ==>
                Delivered(db.world.jobs, reply.id, old(db.calls)[c].delivery.value)
      ensures reply == Refused(TooManyActive) ==> RefusedAtCap(cfg, trace, |old(trace)|, c, old(db.calls)[c].user)
      ensures reply.Accepted? ==> CountedBelow(cfg, trace, |old(trace)|, c, old(db.calls)[c].user)
      ensures reply.Refused? ==> reply.why == TooManyActive || (reply.why == DatabaseError && (faults != {} || gaveUp))
      ensures gaveUp ==> Tries(trace, c) >= Tries(old(trace), c) + patience
    {
      gaveUp := false;
      if AtBegin in faults {
        reply := Lose(c);
        return;
      }
      var locked := Lock(c, patience);
      if !locked || AtCount in faults {
        gaveUp := !locked;
        reply := GiveUp(c);
        return;
      }
      ghost var locking := trace;
      TriesGrow(old(trace), locking, c);
      var room := CountJobs(c);
      if !room {
        reply := Refused(TooManyActive);
        return;
      }
      TriesGrow(locking, trace, c);
      ghost var counted := trace;
      reply, gaveUp := Write(c, faults, patience);
      TriesGrow(locking, counted, c);
      if reply.Accepted? {
        CountStays(cfg, counted, trace, |old(trace)|, c, old(db.calls)[c].user);
      }
    }

    /** The rest of the transaction, under the lock: insert and commit. */
    method Write(c: CallId, faults: set<Point>, patience: nat) returns (reply: Reply, gaveUp: bool)
      requires Valid() && c in db.calls && db.calls[c].stage == Counted
      modifies this`db, this`trace
      ensures Valid() && old(trace) <= trace && Later(old(db), db)
      ensures c in db.calls && db.calls[c] == old(db.calls)[c].(stage := Replied(reply))
      ensures reply.Accepted? && old(db.calls)[c].delivery.None? ==>
                && reply.id in db.world.jobs && db.world.jobs[reply.id].user == old(db.calls)[c].user
                && reply.id !in old(db.world.jobs)
      ensures reply.Accepted? && old(db.calls)[c].delivery.Some? ==>
                Delivered(db.world.jobs, reply.id, old(db.calls)[c].delivery.value)
      ensures reply.Refused? ==> reply.why == DatabaseError && (faults != {} || gaveUp)
      ensures Tries(trace, c) >= Tries(old(trace), c) + (if gaveUp then patience else 0)
    {
      gaveUp := false;
      var done := InsertJob(c, patience);
      ghost var inserted := trace;
      TriesGrow(old(trace), trace, c);
      if !done || AtInsert in faults || AtCommit in faults {
        gaveUp := !done;
        reply := GiveUp(c);
        return;
      }
      Others(c);
      reply := Finish(c, faults);
      TriesGrow(old(trace), trace, c);
      AcceptedNames(cfg, trace, c);
      RunIsGood(cfg, old(trace));
    }

    /** COMMIT, and when the row was already there, the second SELECT. */
    method Finish(c: CallId, faults: set<Point>) returns (reply: Reply)
      requires Valid() && c in db.calls && (db.calls[c].stage.Inserted? || db.calls[c].stage.Conflicted?)
      requires db.calls[c].stage.Conflicted? ==> db.calls[c].delivery.Some?
      modifies this`db, this`trace
      ensures Valid() && old(trace) <= trace && Later(old(db), db)
      ensures c in db.calls && db.calls[c] == old(db.calls)[c].(stage := Replied(reply))
      ensures old(db.calls)[c].stage.Inserted? && reply.Accepted? ==> reply.id == old(db.calls)[c].stage.id
      ensures old(db.calls)[c].stage.Inserted? ==> old(db.calls)[c].stage.id in db.world.jobs
      ensures reply.Refused? ==> reply.why == DatabaseError && faults != {}
    {
      var id := db.calls[c].stage.id;
      Perform(Commit(c, AtCommitReply !in faults));
      if db.calls[c].stage.Unmatched? {
        Others(c);
        if AtFallback in faults {
          reply := Lose(c);
          return;
        }
        var found := SelectDelivery(db.calls[c].delivery.value);
        Perform(Fallback(c, found));
        reply := Accepted(if found.Some? then found.value else id);
      } else {
        reply := if AtCommitReply in faults then Refused(DatabaseError) else Accepted(id);
      }
    }

    /** `retry_job`: two reads, the second of the running executions, then an
        UPDATE guarded by the status. No lock is taken and nothing is counted. */
    method RetryJob(c: CallId, user: UserId, job: JobId, busy: bool, faults: set<Point>) returns (reply: Reply)
      requires Valid() && c !in db.calls
      modifies this`db, this`trace
      ensures Valid() && old(trace) <= trace && Later(old(db), db)
      ensures c in db.calls && db.calls[c] == Call(user, None, Replied(reply))
      ensures reply.Accepted? ==> reply.id == job && !busy && Requeued(cfg, trace, |old(trace)|, c, user, job)
      ensures reply == Refused(CannotRetry) ==> busy || WasUnfit(cfg, trace, |old(trace)|, user, job)
      ensures reply == Refused(NotFound) ==>
                job !in old(db.world.jobs) || old(db.world.jobs)[job].user != user
      ensures reply == Refused(DatabaseError) ==> faults != {}
      ensures reply != Refused(TooManyActive)
    {
      Receive(c, ArriveRetry(c, user, job));
      var answered;
      reply, answered := ReadJobRow(c, faults);
      if answered {
        return;
      }
      NoteExecutions(c, busy);
      if busy {
        reply := Refused(CannotRetry);
        return;
      }
      reply := RequeueJob(c, faults);
    }

    /** `SELECT * FROM audit_jobs WHERE id = job AND user_id = user`, and what the row
        settles at once. */
    method ReadJobRow(c: CallId, faults: set<Point>) returns (reply: Reply, answered: bool)
      requires Valid() && c in db.calls && db.calls[c].stage.RetryArrived?
      modifies this`db, this`trace
      ensures Valid() && old(trace) <= trace && Later(old(db), db)
      ensures var call := old(db.calls)[c];
              && c in db.calls
              && db.calls[c] == call.(stage := if answered then Replied(reply) else RetryRead(call.stage.job))
              && (answered ==>
                    match reply
                    case Accepted(_) => false
                    case Refused(NotFound) =>
                      call.stage.job !in old(db.world.jobs) || old(db.world.jobs)[call.stage.job].user != call.user
                    case Refused(CannotRetry) => WasUnfit(cfg, trace, |old(trace)|, call.user, call.stage.job)
                    case Refused(why) => why == DatabaseError && faults != {})
    {
      answered := true;
      Others(c);
      if AtRead in faults {
        reply := Lose(c);
        return;
      }
      Perform(ReadJob(c));
      answered := db.calls[c].stage.Replied?;
      reply := if answered then db.calls[c].stage.reply else Refused(CannotRetry);
      if answered {
        UnfitBefore(cfg, trace, |old(trace)|, old(db.calls)[c].user, old(db.calls)[c].stage.job);
      }
    }

    /** The count of running executions, whose rows are outside this table. */
    method NoteExecutions(c: CallId, busy: bool)
      requires Valid() && c in db.calls && db.calls[c].stage.RetryRead?
      modifies this`db, this`trace
      ensures Valid() && old(trace) <= trace && Later(old(db), db)
      ensures var call := old(db.calls)[c];
              && c in db.calls
              && db.calls[c] == call.(stage := if busy then Replied(Refused(CannotRetry)) else RetryChecked(call.stage.job))
    {
      Others(c);
      Perform(CheckExecutions(c, busy));
    }

    /** The guarded UPDATE. */
    method RequeueJob(c: CallId, faults: set<Point>) returns (reply: Reply)
      requires Valid() && c in db.calls && db.calls[c].stage.RetryChecked?
      modifies this`db, this`trace
      ensures Valid() && old(trace) <= trace && Later(old(db), db)
      ensures c in db.calls && db.calls[c] == old(db.calls)[c].(stage := Replied(reply))
      ensures var user, job := old(db.calls)[c].user, old(db.calls)[c].stage.job;
              match reply
              case Accepted(id) => id == job && Requeued(cfg, trace, |old(trace)|, c, user, job)
              case Refused(why) =>
                || (why == CannotRetry && WasUnfit(cfg, trace, |old(trace)|, user, job))
                || (why == DatabaseError && faults != {})
    {
      Others(c);
      if AtUpdate in faults {
        reply := Lose(c);
        return;
      }
      ghost var before := trace;
      RowsWritten(cfg, db, c, true);
      Perform(UpdateRetry(c));
      assert trace[|before|] == UpdateRetry(c) && trace[..|before|] == before && trace[..|before| + 1] == trace;
      reply := db.calls[c].stage.reply;
    }

    /** `cancel_job` records a request; the status of the job does not move. */
    method CancelJob(user: UserId, job: JobId) returns (found: bool)
      requires Valid()
      modifies this`db, this`trace
      ensures Valid() && trace == old(trace) + [Cancel(user, job)]
      ensures found <==> job in old(db.world.jobs) && old(db.world.jobs)[job].user == user
                         && (old(db.world.jobs)[job].status.Queued? || old(db.world.jobs)[job].status.Running?)
      ensures db == (if found
                     then old(db).(world := old(db.world).(jobs :=
                            old(db.world.jobs)[job := old(db.world.jobs)[job].(cancelRequested := true)]))
                     else old(db))
    {
      found := job in db.world.jobs && db.world.jobs[job].user == user && Live(db.world.jobs[job].status);
      Perform(Cancel(user, job));
    }
  }
}
