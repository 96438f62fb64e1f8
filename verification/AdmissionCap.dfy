/** Exactly when a user stays within the cap: jobs that were made live again, by
    `retry_job` (backend/src/api/routes_audit.rs:321-421) or by a worker opening an
    execution (backend/src/orchestrator/execution.rs:76-104), against the room that
    admissions have counted (backend/src/api/routes_audit.rs:173-236). */
module AdmissionCap {
  import opened Text
  import opened Admission

  // ---- revivals ----------------------------------------------------------------------

  /** A continuation from a state. */
  function RunOn(cfg: Config, s: Db, more: seq<Action>): Db {
    if more == [] then s else Step(cfg, RunOn(cfg, s, more[..|more| - 1]), more[|more| - 1])
  }

  lemma {:induction false} RunConcat(cfg: Config, trace: seq<Action>, more: seq<Action>)
    ensures Run(cfg, trace + more) == RunOn(cfg, Run(cfg, trace), more)
  {
    if more == [] {
      assert trace + more == trace;
    } else {
      var front, last := more[..|more| - 1], more[|more| - 1];
      RunConcat(cfg, trace, front);
      RunThen(cfg, trace + front, last);
      assert trace + more == trace + front + [last];
    }
  }

  /** A finished job of the user became live. */
  predicate Revives(before: map<JobId, Job>, after: map<JobId, Job>, u: UserId) {
    exists j | j in before :: before[j].user == u && !Live(before[j].status) && j in after && Live(after[j].status)
  }

  /** How many steps of a continuation revive a job of the user. */
  function Revivals(cfg: Config, s: Db, more: seq<Action>, u: UserId): nat {
    if more == [] then 0
    else
      var front, last := more[..|more| - 1], more[|more| - 1];
      var mid := RunOn(cfg, s, front);
      Revivals(cfg, s, front, u) + (if Revives(mid.world.jobs, Step(cfg, mid, last).world.jobs, u) then 1 else 0)
  }

  lemma RevivalsThen(cfg: Config, s: Db, front: seq<Action>, a: Action, u: UserId)
    ensures RunOn(cfg, s, front + [a]) == Step(cfg, RunOn(cfg, s, front), a)
    ensures var mid := RunOn(cfg, s, front);
            Revivals(cfg, s, front + [a], u) == Revivals(cfg, s, front, u)
              + (if Revives(mid.world.jobs, Step(cfg, mid, a).world.jobs, u) then 1 else 0)
  {
    assert (front + [a])[..|front + [a]| - 1] == front;
  }

  /** A row is added, for a call whose insert was done. */
  predicate Adds(s: Db, after: map<JobId, Job>, j: JobId, c: CallId) {
    && j !in s.world.jobs && c in s.calls && s.calls[c].stage == Inserted(j)
    && after == s.world.jobs[j := NewJob(c, s.calls[c])]
  }

  /** A row changes, but neither its user nor its delivery. */
  predicate Changes(before: map<JobId, Job>, after: map<JobId, Job>, j: JobId) {
    && j in before && j in after && after == before[j := after[j]]
    && after[j].user == before[j].user && after[j].delivery == before[j].delivery
  }

  predicate OfRow(a: Action) { a.UpdateRetry? || a.Cancel? || a.Progress? }

  /** The rows of a step: a commit adds one, a requeue, cancel or progress changes
      one, and nothing else touches them. */
  lemma RowsAfter(cfg: Config, s: Db, a: Action) returns (j: JobId)
    requires Good(cfg, s)
    ensures var after := Step(cfg, s, a).world.jobs;
            || after == s.world.jobs
            || (a.Commit? && Adds(s, after, j, a.c))
            || (OfRow(a) && Changes(s.world.jobs, after, j))
  {
    j := 0;
    if a.Commit? {
      j := CommitRows(cfg, s, a);
    } else if OfRow(a) {
      j := ChangedRows(cfg, s, a);
    } else if !a.Arrive? && !a.ArriveRetry? && a.c in s.calls {
      RowsUntouched(cfg, s, a);
    }
  }

  lemma RowsUntouched(cfg: Config, s: Db, a: Action)
    requires !a.Arrive? && !a.ArriveRetry? && !a.Commit? && !OfRow(a) && a.c in s.calls
    ensures CallStep(cfg, s, a).world.jobs == s.world.jobs
    ensures CallStep(cfg, s, a).world.retries == s.world.retries && CallStep(cfg, s, a).world.reopens == s.world.reopens
  {
  }

  lemma CommitRows(cfg: Config, s: Db, a: Action) returns (j: JobId)
    requires Good(cfg, s) && a.Commit?
    ensures Step(cfg, s, a).world.jobs == s.world.jobs || Adds(s, Step(cfg, s, a).world.jobs, j, a.c)
  {
    j := 0;
    if a.c in s.calls && s.calls[a.c].stage.Inserted? {
      assert CallOk(cfg, s.world, a.c, s.calls[a.c]);
      j := s.calls[a.c].stage.id;
    }
  }

  lemma ChangedRows(cfg: Config, s: Db, a: Action) returns (j: JobId)
    requires OfRow(a)
    ensures Step(cfg, s, a).world.jobs == s.world.jobs || Changes(s.world.jobs, Step(cfg, s, a).world.jobs, j)
  {
    j := if a.Cancel? || a.Progress? then a.job
         else if a.c in s.calls && s.calls[a.c].stage.RetryChecked? then s.calls[a.c].stage.job
         else 0;
  }

  function Excess(w: World, u: UserId): nat { w.retries[u] + w.reopens[u] }

  /** A revival is counted, once. */
  lemma ChangeCounts(s: Db, j: JobId, job: Job, retried: bool, u: UserId)
    requires j in s.world.jobs && job.user == s.world.jobs[j].user
    ensures var after := ChangeRow(s, j, job, retried).world;
            Excess(after, u) == Excess(s.world, u) + (if Revives(s.world.jobs, after.jobs, u) then 1 else 0)
  {
    var before, after := s.world.jobs, ChangeRow(s, j, job, retried).world.jobs;
    assert forall i :: i in before && i != j ==> after[i] == before[i];
    assert Revives(before, after, u) <==> job.user == u && !Live(before[j].status) && Live(job.status);
  }

  lemma RetryCounts(cfg: Config, s: Db, c: CallId, u: UserId)
    requires c in s.calls
    ensures var after := CallStep(cfg, s, UpdateRetry(c)).world;
            Excess(after, u) == Excess(s.world, u) + (if Revives(s.world.jobs, after.jobs, u) then 1 else 0)
  {
    if s.calls[c].stage.RetryChecked? {
      var j, jobs := s.calls[c].stage.job, s.world.jobs;
      if j in jobs && jobs[j].user == s.calls[c].user && Retryable(jobs[j].status) {
        ChangeCounts(s, j, jobs[j].(status := Queued, cancelRequested := false), true, u);
      }
    }
  }

  lemma RowCounts(cfg: Config, s: Db, a: Action, u: UserId)
    requires a.Cancel? || a.Progress?
    ensures var after := Step(cfg, s, a).world;
            Excess(after, u) == Excess(s.world, u) + (if Revives(s.world.jobs, after.jobs, u) then 1 else 0)
  {
    var j, jobs := a.job, s.world.jobs;
    if j in jobs {
      ChangeCounts(s, j, if a.Cancel? then jobs[j].(cancelRequested := true) else jobs[j].(status := a.to), false, u);
    }
  }

  lemma CommitCounts(cfg: Config, s: Db, a: Action, u: UserId)
    requires Good(cfg, s) && a.Commit?
    ensures Excess(Step(cfg, s, a).world, u) == Excess(s.world, u) && !Revives(s.world.jobs, Step(cfg, s, a).world.jobs, u)
  {
    var j := CommitRows(cfg, s, a);
  }

  lemma StepCounts(cfg: Config, s: Db, a: Action, u: UserId)
    requires Good(cfg, s)
    ensures var after := Step(cfg, s, a).world;
            Excess(after, u) == Excess(s.world, u) + (if Revives(s.world.jobs, after.jobs, u) then 1 else 0)
  {
    if a.Cancel? || a.Progress? {
      RowCounts(cfg, s, a, u);
    } else if a.Commit? {
      CommitCounts(cfg, s, a, u);
    } else if !a.Arrive? && !a.ArriveRetry? && a.c in s.calls {
      assert Step(cfg, s, a) == CallStep(cfg, s, a);
      if a.UpdateRetry? {
        RetryCounts(cfg, s, a.c, u);
      } else {
        RowsUntouched(cfg, s, a);
      }
    }
  }

  /** The excess of a user is exactly how often a finished job of that user was made
      live again, whatever happened to anybody else's. */
  lemma {:induction false} ExcessIsRevivals(cfg: Config, trace: seq<Action>, u: UserId)
    ensures Excess(Run(cfg, trace).world, u) == Revivals(cfg, EMPTY, trace, u)
  {
    if trace != [] {
      var front, last := trace[..|trace| - 1], trace[|trace| - 1];
      ExcessIsRevivals(cfg, front, u);
      RunIsGood(cfg, front);
      StepCounts(cfg, Run(cfg, front), last, u);
      RunConcat(cfg, [], front);
      assert [] + front == front;
    }
  }

  // ---- room that is spoken for ---------------------------------------------------------

  /** The call has counted and can still bring a row: its insert is done, or its
      delivery has no row yet. */
  predicate WillCommit(jobs: map<JobId, Job>, call: Call) {
    call.stage.Inserted? || (call.stage.Counted? && (call.delivery.Some? ==> Answers(jobs, call.delivery.value, None)))
  }

  function Committing(s: Db, u: UserId): set<CallId> {
    set c | c in s.calls && s.calls[c].user == u && WillCommit(s.world.jobs, s.calls[c])
  }

  function LiveCount(s: Db, u: UserId): nat { |LiveJobs(s.world.jobs, u)| }

  /** The advisory lock lets one call of a user count at a time. */
  lemma OneCommits(cfg: Config, s: Db, c: CallId, u: UserId)
    requires Good(cfg, s) && c in s.calls && s.calls[c].user == u && InTransaction(s.calls[c].stage)
    ensures Committing(s, u) <= {c}
    ensures |Committing(s, u)| == if WillCommit(s.world.jobs, s.calls[c]) then 1 else 0
  {
    forall o | o in Committing(s, u)
      ensures o == c
    {
      assert CallOk(cfg, s.world, o, s.calls[o]) && CallOk(cfg, s.world, c, s.calls[c]);
    }
    assert Committing(s, u) == if WillCommit(s.world.jobs, s.calls[c]) then {c} else {};
  }

  /** Rows stay and keep their delivery, so no call gains a right to insert by them. */
  lemma WillCommitBefore(before: map<JobId, Job>, after: map<JobId, Job>, call: Call)
    requires forall j :: j in before ==> j in after && after[j].delivery == before[j].delivery
    ensures WillCommit(after, call) ==> WillCommit(before, call)
  {
  }

  /** Only a count below the cap makes a call one that will commit. */
  lemma OwnCallWillCommit(cfg: Config, s: Db, a: Action)
    requires !a.Arrive? && !a.ArriveRetry? && !a.Cancel? && !a.Progress? && a.c in s.calls
    requires !WillCommit(s.world.jobs, s.calls[a.c])
    ensures a.c in CallStep(cfg, s, a).calls
    ensures WillCommit(s.world.jobs, CallStep(cfg, s, a).calls[a.c]) ==>
              && a.Count? && s.calls[a.c].stage.Locked? && LiveCount(s, s.calls[a.c].user) < Cap(cfg)
              && CallStep(cfg, s, a) == At(s, a.c, Counted)
  {
  }

  lemma OthersUntouched(cfg: Config, s: Db, a: Action)
    requires !a.Arrive? && !a.ArriveRetry? && !a.Cancel? && !a.Progress? && a.c in s.calls
    ensures a.c in CallStep(cfg, s, a).calls && CallStep(cfg, s, a).calls[a.c].user == s.calls[a.c].user
    ensures CallStep(cfg, s, a).calls == s.calls[a.c := CallStep(cfg, s, a).calls[a.c]]
  {
  }

  predicate CountsNow(cfg: Config, s: Db, a: Action, u: UserId) {
    a.Count? && a.c in s.calls && s.calls[a.c].user == u && s.calls[a.c].stage.Locked? && LiveCount(s, u) < Cap(cfg)
  }

  lemma CommittingAfter(cfg: Config, s: Db, a: Action, u: UserId)
    requires Good(cfg, s) && !CountsNow(cfg, s, a, u)
    ensures Committing(Step(cfg, s, a), u) <= Committing(s, u)
  {
    var t := Step(cfg, s, a);
    var j := RowsAfter(cfg, s, a);
    forall c | c in Committing(t, u)
      ensures c in Committing(s, u)
    {
      WillCommitBefore(s.world.jobs, t.world.jobs, t.calls[c]);
      if a.Arrive? || a.ArriveRetry? || a.Cancel? || a.Progress? {
        CallsKept(cfg, s, a, c);
      } else if a.c in s.calls {
        OthersUntouched(cfg, s, a);
        if c == a.c && !WillCommit(s.world.jobs, s.calls[c]) {
          OwnCallWillCommit(cfg, s, a);
        }
      }
    }
  }

  lemma CallsKept(cfg: Config, s: Db, a: Action, c: CallId)
    requires a.Arrive? || a.ArriveRetry? || a.Cancel? || a.Progress?
    requires c in Step(cfg, s, a).calls && WillCommit(s.world.jobs, Step(cfg, s, a).calls[c])
    ensures c in s.calls && Step(cfg, s, a).calls[c] == s.calls[c]
  {
  }

  ghost predicate Room(cfg: Config, s: Db, u: UserId) { LiveCount(s, u) + |Committing(s, u)| <= Cap(cfg) }

  lemma CountKeepsRoom(cfg: Config, s: Db, a: Action, u: UserId)
    requires Good(cfg, s) && CountsNow(cfg, s, a, u)
    ensures Room(cfg, Step(cfg, s, a), u)
  {
    var t := Step(cfg, s, a);
    StepKeepsGood(cfg, s, a);
    assert t.calls[a.c].stage == Counted && t.calls[a.c].user == u && t.world == s.world;
    OneCommits(cfg, t, a.c, u);
  }

  /** A commit turns the room its call had counted into a live job. */
  lemma CommitKeepsRoom(cfg: Config, s: Db, c: CallId, heard: bool, u: UserId)
    requires Good(cfg, s) && Room(cfg, s, u) && c in s.calls && s.calls[c].stage.Inserted? && s.calls[c].user == u
    ensures Room(cfg, Step(cfg, s, Commit(c, heard)), u)
  {
    var t := Step(cfg, s, Commit(c, heard));
    var id := s.calls[c].stage.id;
    assert CallOk(cfg, s.world, c, s.calls[c]);
    OneCommits(cfg, s, c, u);
    CommittingAfter(cfg, s, Commit(c, heard), u);
    OthersUntouched(cfg, s, Commit(c, heard));
    assert c !in Committing(t, u);
    assert Committing(t, u) == {};
    assert t.world.jobs == s.world.jobs[id := NewJob(c, s.calls[c])];
    LiveChange(s.world.jobs, id, NewJob(c, s.calls[c]), u);
  }

  lemma StepKeepsRoom(cfg: Config, s: Db, a: Action, u: UserId)
    requires Good(cfg, s) && Room(cfg, s, u) && !Revives(s.world.jobs, Step(cfg, s, a).world.jobs, u)
    ensures Room(cfg, Step(cfg, s, a), u)
  {
    var t := Step(cfg, s, a);
    if CountsNow(cfg, s, a, u) {
      CountKeepsRoom(cfg, s, a, u);
    } else if a.Commit? && a.c in s.calls && s.calls[a.c].stage.Inserted? && s.calls[a.c].user == u {
      CommitKeepsRoom(cfg, s, a.c, a.heard, u);
    } else {
      CommittingAfter(cfg, s, a, u);
      SmallerSet(Committing(t, u), Committing(s, u));
      var j := RowsAfter(cfg, s, a);
      if t.world.jobs != s.world.jobs {
        LiveChange(s.world.jobs, j, t.world.jobs[j], u);
      }
    }
  }

  lemma {:induction false} RoomStays(cfg: Config, s: Db, more: seq<Action>, u: UserId)
    requires Good(cfg, s) && Room(cfg, s, u) && Revivals(cfg, s, more, u) == 0
    ensures Good(cfg, RunOn(cfg, s, more)) && Room(cfg, RunOn(cfg, s, more), u)
  {
    if more != [] {
      var front, last := more[..|more| - 1], more[|more| - 1];
      RoomStays(cfg, s, front, u);
      var mid := RunOn(cfg, s, front);
      QuietStep(cfg, mid, Step(cfg, mid, last), last, u);
    }
  }

  lemma QuietStep(cfg: Config, s: Db, t: Db, a: Action, u: UserId)
    requires Good(cfg, s) && Room(cfg, s, u) && t == Step(cfg, s, a) && !Revives(s.world.jobs, t.world.jobs, u)
    ensures Good(cfg, t) && Room(cfg, t, u)
  {
    StepKeepsGood(cfg, s, a);
    StepKeepsRoom(cfg, s, a, u);
  }

  // ---- using the room up -----------------------------------------------------------------

  lemma {:induction false} FreshId(drawn: set<JobId>) returns (id: JobId)
    ensures id !in drawn && forall j :: j in drawn ==> j < id
  {
    if drawn == {} {
      id := 0;
    } else {
      var j :| j in drawn;
      var above := FreshId(drawn - {j});
      assert forall k :: k in drawn ==> k == j || k in drawn - {j};
      id := if above > j then above else j + 1;
    }
  }

  predicate SameRows(s: Db, t: Db, c: CallId) {
    t.world.jobs == s.world.jobs && c in t.calls && c in s.calls && t.calls[c] == s.calls[c]
  }

  /** A call that counted can insert once no other transaction holds its delivery;
      that one can abort. */
  lemma ClearDelivery(cfg: Config, s: Db, c: CallId) returns (more: seq<Action>)
    requires Good(cfg, s) && c in s.calls && s.calls[c].stage.Counted?
    ensures var t := RunOn(cfg, s, more);
            && Good(cfg, t) && SameRows(s, t, c)
            && (s.calls[c].delivery.Some? ==> !DeliveryPending(t.calls, c, s.calls[c].delivery.value))
    ensures forall u :: Revivals(cfg, s, more, u) == 0
  {
    var d := s.calls[c].delivery;
    if d.Some? && DeliveryPending(s.calls, c, d.value) {
      var o :| o in s.calls && o != c && s.calls[o].stage.Inserted? && s.calls[o].delivery == d;
      more := [] + [Abort(o)];
      StepKeepsGood(cfg, s, Abort(o));
      OthersUntouched(cfg, s, Abort(o));
      AbortAlone(cfg, s, c, o, d.value);
      forall u
        ensures Revivals(cfg, s, more, u) == 0
      {
        RevivalsThen(cfg, s, [], Abort(o), u);
      }
      RevivalsThen(cfg, s, [], Abort(o), "");
    } else {
      more := [];
    }
  }

  lemma AbortAlone(cfg: Config, s: Db, c: CallId, o: CallId, d: DeliveryId)
    requires Good(cfg, s) && c in s.calls && o in s.calls && o != c
    requires s.calls[o].stage.Inserted? && s.calls[o].delivery == Some(d)
    ensures SameRows(s, Step(cfg, s, Abort(o)), c) && !DeliveryPending(Step(cfg, s, Abort(o)).calls, c, d)
  {
    var t := Step(cfg, s, Abort(o));
    OthersUntouched(cfg, s, Abort(o));
    assert forall x :: x in s.calls && x != o && s.calls[x].stage.Inserted? ==> s.calls[x].delivery != Some(d);
  }

  lemma InsertsNow(cfg: Config, s: Db, c: CallId, id: JobId)
    requires c in s.calls && s.calls[c].stage.Counted? && WillCommit(s.world.jobs, s.calls[c]) && id !in s.world.drawn
    requires s.calls[c].delivery.Some? ==> !DeliveryPending(s.calls, c, s.calls[c].delivery.value)
    ensures var t := Step(cfg, s, Insert(c, id));
            && t.world.jobs == s.world.jobs && c in t.calls && t.calls[c] == s.calls[c].(stage := Inserted(id))
  {
  }

  /** A pending row becomes one more live job. */
  lemma CommitsNow(cfg: Config, s: Db, c: CallId, u: UserId)
    requires Good(cfg, s) && c in s.calls && s.calls[c].stage.Inserted? && s.calls[c].user == u
    ensures var t := Step(cfg, s, Commit(c, true));
            LiveCount(t, u) == LiveCount(s, u) + 1 && !Revives(s.world.jobs, t.world.jobs, u)
  {
    assert CallOk(cfg, s.world, c, s.calls[c]);
    LiveAfter(s.world.jobs, s.calls[c].stage.id, NewJob(c, s.calls[c]), u);
  }

  /** A call that will commit can do so without any revival. */
  lemma CommitPath(cfg: Config, s: Db, c: CallId, u: UserId) returns (more: seq<Action>)
    requires Good(cfg, s) && c in Committing(s, u)
    ensures Revivals(cfg, s, more, u) == 0 && LiveCount(RunOn(cfg, s, more), u) == LiveCount(s, u) + 1
  {
    var front: seq<Action> := [];
    if s.calls[c].stage.Counted? {
      var clear := ClearDelivery(cfg, s, c);
      var t := RunOn(cfg, s, clear);
      var id := FreshId(t.world.drawn);
      InsertsNow(cfg, t, c, id);
      StepKeepsGood(cfg, t, Insert(c, id));
      RevivalsThen(cfg, s, clear, Insert(c, id), u);
      front := clear + [Insert(c, id)];
    }
    CommitsNow(cfg, RunOn(cfg, s, front), c, u);
    RevivalsThen(cfg, s, front, Commit(c, true), u);
    more := front + [Commit(c, true)];
  }

  // ---- the exact condition -----------------------------------------------------------------

  /** The user's live jobs stay within the cap as long as none of that user's finished
      jobs is made live again. */
  ghost predicate Safe(cfg: Config, trace: seq<Action>, u: UserId) {
    forall more :: Revivals(cfg, Run(cfg, trace), more, u) == 0 ==> LiveCount(Run(cfg, trace + more), u) <= Cap(cfg)
  }

  /** Exactly when: the live jobs and the call that has counted and will commit, if
      there is one, fit under the cap together. */
  lemma SafeExactlyWhen(cfg: Config, trace: seq<Action>, u: UserId)
    ensures Safe(cfg, trace, u) <==> Room(cfg, Run(cfg, trace), u)
  {
    var s := Run(cfg, trace);
    RunIsGood(cfg, trace);
    if Room(cfg, s, u) {
      forall more | Revivals(cfg, s, more, u) == 0
        ensures LiveCount(Run(cfg, trace + more), u) <= Cap(cfg)
      {
        RoomStays(cfg, s, more, u);
        RunConcat(cfg, trace, more);
      }
    } else if LiveCount(s, u) > Cap(cfg) {
      assert trace + [] == trace;
      assert Revivals(cfg, s, [], u) == 0;
    } else {
      var c :| c in Committing(s, u);
      assert CallOk(cfg, s.world, c, s.calls[c]);
      OneCommits(cfg, s, c, u);
      var more := CommitPath(cfg, s, c, u);
      RunConcat(cfg, trace, more);
    }
  }

  /** Without a revival of a job of the user, whatever is revived for others, the cap
      is never exceeded. */
  lemma CapHoldsWithoutRevivals(cfg: Config, trace: seq<Action>, u: UserId)
    requires Revivals(cfg, EMPTY, trace, u) == 0
    ensures LiveCount(Run(cfg, trace), u) <= Cap(cfg)
  {
    assert LiveJobs(EMPTY.world.jobs, u) == {} && Committing(EMPTY, u) == {};
    SafeExactlyWhen(cfg, [], u);
    assert [] + trace == trace;
  }

  lemma RevivalAddsOne(cfg: Config, s: Db, a: Action, u: UserId)
    requires Good(cfg, s) && Revives(s.world.jobs, Step(cfg, s, a).world.jobs, u)
    ensures LiveCount(Step(cfg, s, a), u) == LiveCount(s, u) + 1
  {
    var t := Step(cfg, s, a);
    var j := RowsAfter(cfg, s, a);
    LiveAfter(s.world.jobs, j, t.world.jobs[j], u);
  }

  lemma RevivalKeepsCommitting(cfg: Config, s: Db, a: Action, u: UserId)
    requires Good(cfg, s) && Revives(s.world.jobs, Step(cfg, s, a).world.jobs, u)
    ensures Committing(Step(cfg, s, a), u) == Committing(s, u)
  {
    var t := Step(cfg, s, a);
    var j := RowsAfter(cfg, s, a);
    CommittingAfter(cfg, s, a, u);
    forall c | c in Committing(s, u)
      ensures c in Committing(t, u)
    {
      WillCommitBefore(t.world.jobs, s.world.jobs, s.calls[c]);
      RevivalLeavesCalls(cfg, s, a, c, u);
    }
  }

  lemma RevivalLeavesCalls(cfg: Config, s: Db, a: Action, c: CallId, u: UserId)
    requires Good(cfg, s) && Revives(s.world.jobs, Step(cfg, s, a).world.jobs, u) && c in Committing(s, u)
    ensures c in Step(cfg, s, a).calls && Step(cfg, s, a).calls[c] == s.calls[c]
  {
    var j := RowsAfter(cfg, s, a);
    if a.UpdateRetry? && a.c in s.calls {
      OthersUntouched(cfg, s, a);
    }
  }

  /** What a retry or a worker would have to check before it makes a finished job
      live: the user stays within the cap afterwards, as long as no further job is
      revived, exactly when the live jobs and the call about to commit are strictly
      fewer than the cap. */
  lemma RevivalIsSafeExactlyWhen(cfg: Config, trace: seq<Action>, a: Action, u: UserId)
    requires Revives(Run(cfg, trace).world.jobs, Run(cfg, trace + [a]).world.jobs, u)
    ensures Safe(cfg, trace + [a], u)
       <==> LiveCount(Run(cfg, trace), u) + |Committing(Run(cfg, trace), u)| < Cap(cfg)
  {
    RunIsGood(cfg, trace);
    RunThen(cfg, trace, a);
    RevivalAddsOne(cfg, Run(cfg, trace), a, u);
    RevivalKeepsCommitting(cfg, Run(cfg, trace), a, u);
    SafeExactlyWhen(cfg, trace + [a], u);
  }

  // ---- the bound is attained ---------------------------------------------------------------

  /** One undisturbed submission; the call and its job share a number. */
  function Submission(n: nat, u: UserId): seq<Action> {
    [Arrive(n, u, None), TakeLock(n), Count(n), Insert(n, n), Commit(n, true)]
  }

  /** `s` with call `n` of user `u` at `stage`, and with the locks and ids given. */
  function Amid(s: Db, n: nat, u: UserId, stage: Stage, locks: map<int, CallId>, drawn: set<JobId>): Db {
    s.(calls := s.calls[n := Call(u, None, stage)], world := s.world.(locks := locks, drawn := drawn))
  }

  /** `s` after the submission. */
  function Submitted(s: Db, n: nat, u: UserId): Db {
    Db(s.world.(locks := map[], drawn := s.world.drawn + {n}, jobs := s.world.jobs[n := Job(u, Queued, None, false, n)]),
       s.calls[n := Call(u, None, Replied(Accepted(n)))])
  }

  predicate Idle(cfg: Config, s: Db, n: nat, u: UserId) {
    n !in s.calls && s.world.locks == map[] && n !in s.world.drawn && LiveCount(s, u) < Cap(cfg)
  }

  lemma SubmissionReachesCount(cfg: Config, s: Db, n: nat, u: UserId)
    requires Idle(cfg, s, n, u)
    ensures Step(cfg, s, Arrive(n, u, None)) == Amid(s, n, u, Looked, map[], s.world.drawn)
    ensures Step(cfg, Amid(s, n, u, Looked, map[], s.world.drawn), TakeLock(n))
         == Amid(s, n, u, Locked, map[cfg.key(u) := n], s.world.drawn)
    ensures Step(cfg, Amid(s, n, u, Locked, map[cfg.key(u) := n], s.world.drawn), Count(n))
         == Amid(s, n, u, Counted, map[cfg.key(u) := n], s.world.drawn)
  {
    assert Step(cfg, s, Arrive(n, u, None)).world == Amid(s, n, u, Looked, map[], s.world.drawn).world;
  }

  lemma SubmissionLeavesCount(cfg: Config, s: Db, n: nat, u: UserId)
    requires Idle(cfg, s, n, u)
    ensures var locks, drawn := map[cfg.key(u) := n], s.world.drawn + {n};
            && Step(cfg, Amid(s, n, u, Counted, locks, s.world.drawn), Insert(n, n))
               == Amid(s, n, u, Inserted(n), locks, drawn)
            && Step(cfg, Amid(s, n, u, Inserted(n), locks, drawn), Commit(n, true))
               == Submitted(s, n, u)
  {
    assert map[cfg.key(u) := n] - {cfg.key(u)} == map[];
  }

  /** A submission up to its count. */
  lemma CountReached(cfg: Config, trace: seq<Action>, n: nat, u: UserId)
    requires Idle(cfg, Run(cfg, trace), n, u)
    ensures Run(cfg, trace + [Arrive(n, u, None)] + [TakeLock(n)] + [Count(n)])
         == Amid(Run(cfg, trace), n, u, Counted, map[cfg.key(u) := n], Run(cfg, trace).world.drawn)
  {
    var s, locks := Run(cfg, trace), map[cfg.key(u) := n];
    SubmissionReachesCount(cfg, s, n, u);
    var t1 := trace + [Arrive(n, u, None)];
    var t2 := t1 + [TakeLock(n)];
    RunFrom(cfg, trace, s, Arrive(n, u, None), Amid(s, n, u, Looked, map[], s.world.drawn));
    RunFrom(cfg, t1, Amid(s, n, u, Looked, map[], s.world.drawn), TakeLock(n), Amid(s, n, u, Locked, locks, s.world.drawn));
    RunFrom(cfg, t2, Amid(s, n, u, Locked, locks, s.world.drawn), Count(n), Amid(s, n, u, Counted, locks, s.world.drawn));
  }

  lemma SubmissionAdds(cfg: Config, trace: seq<Action>, n: nat, u: UserId)
    requires Idle(cfg, Run(cfg, trace), n, u)
    ensures Run(cfg, trace + Submission(n, u)) == Submitted(Run(cfg, trace), n, u)
  {
    var s := Run(cfg, trace);
    var locks, drawn := map[cfg.key(u) := n], s.world.drawn + {n};
    CountReached(cfg, trace, n, u);
    SubmissionLeavesCount(cfg, s, n, u);
    var t3 := trace + [Arrive(n, u, None)] + [TakeLock(n)] + [Count(n)];
    var t4 := t3 + [Insert(n, n)];
    RunFrom(cfg, t3, Amid(s, n, u, Counted, locks, s.world.drawn), Insert(n, n), Amid(s, n, u, Inserted(n), locks, drawn));
    RunFrom(cfg, t4, Amid(s, n, u, Inserted(n), locks, drawn), Commit(n, true), Submitted(s, n, u));
    assert t4 + [Commit(n, true)] == trace + Submission(n, u);
  }

  /** No lock is taken, calls and ids from `next` on are unused, the first `failed`
      jobs have failed, `live` jobs are live, and so many were revived. */
  ghost predicate Prepared(s: Db, u: UserId, failed: nat, live: nat, next: nat, retries: nat, reopens: nat) {
    && s.world.locks == map[] && failed <= next
    && (forall c :: c in s.calls ==> c < next) && (forall j :: j in s.world.drawn ==> j < next)
    && s.world.jobs.Keys <= s.world.drawn
    && (forall j: nat :: j < failed ==> j in s.world.jobs && s.world.jobs[j] == Job(u, Failed, None, false, j))
    && LiveCount(s, u) == live && s.world.retries[u] == retries && s.world.reopens[u] == reopens
  }

  lemma OneMoreLive(cfg: Config, trace: seq<Action>, u: UserId, failed: nat, live: nat, next: nat)
    requires Prepared(Run(cfg, trace), u, failed, live, next, 0, 0) && live < Cap(cfg)
    ensures Prepared(Run(cfg, trace + Submission(next, u)), u, failed, live + 1, next + 1, 0, 0)
    ensures next in Run(cfg, trace + Submission(next, u)).world.jobs
    ensures Run(cfg, trace + Submission(next, u)).world.jobs[next] == Job(u, Queued, None, false, next)
  {
    var s := Run(cfg, trace);
    SubmissionAdds(cfg, trace, next, u);
    LiveAfter(s.world.jobs, next, Job(u, Queued, None, false, next), u);
  }

  /** A status change that revives nothing. */
  lemma ProgressStep(cfg: Config, s: Db, j: JobId, to: Status)
    requires j in s.world.jobs && Legal(s.world.jobs[j].status, to) && Live(s.world.jobs[j].status)
    ensures Step(cfg, s, Progress(j, to)) == s.(world := s.world.(jobs := s.world.jobs[j := s.world.jobs[j].(status := to)]))
  {
  }

  lemma JobFails(cfg: Config, s: Db, u: UserId, j: JobId, live: nat)
    requires Prepared(s, u, j, live + 1, j + 1, 0, 0) && j in s.world.jobs && s.world.jobs[j] == Job(u, Queued, None, false, j)
    ensures Prepared(Step(cfg, Step(cfg, s, Progress(j, Running)), Progress(j, Failed)), u, j + 1, live, j + 1, 0, 0)
  {
    var jobs := s.world.jobs;
    var failed := jobs[j := Job(u, Failed, None, false, j)];
    ProgressStep(cfg, s, j, Running);
    ProgressStep(cfg, Step(cfg, s, Progress(j, Running)), j, Failed);
    LiveAfter(jobs, j, Job(u, Failed, None, false, j), u);
    assert Step(cfg, Step(cfg, s, Progress(j, Running)), Progress(j, Failed)) == s.(world := s.world.(jobs := failed));
    FailedPrepared(s, s.(world := s.world.(jobs := failed)), u, j, live);
  }

  lemma FailedPrepared(s: Db, t: Db, u: UserId, j: JobId, live: nat)
    requires Prepared(s, u, j, live + 1, j + 1, 0, 0) && j in s.world.jobs && s.world.jobs[j] == Job(u, Queued, None, false, j)
    requires t == s.(world := s.world.(jobs := s.world.jobs[j := Job(u, Failed, None, false, j)]))
    requires LiveJobs(t.world.jobs, u) == LiveJobs(s.world.jobs, u) - {j}
    ensures Prepared(t, u, j + 1, live, j + 1, 0, 0)
  {
    assert j in LiveJobs(s.world.jobs, u);
  }

  /** `failed` jobs were submitted one after another and each failed. */
  lemma {:induction false} Failures(cfg: Config, u: UserId, failed: nat) returns (trace: seq<Action>)
    ensures Prepared(Run(cfg, trace), u, failed, 0, failed, 0, 0)
  {
    if failed == 0 {
      trace := [];
      assert LiveJobs(EMPTY.world.jobs, u) == {};
    } else {
      var front := Failures(cfg, u, failed - 1);
      OneMoreLive(cfg, front, u, failed - 1, 0, failed - 1);
      var t := front + Submission(failed - 1, u);
      JobFails(cfg, Run(cfg, t), u, failed - 1, 0);
      RunThen(cfg, t, Progress(failed - 1, Running));
      RunThen(cfg, t + [Progress(failed - 1, Running)], Progress(failed - 1, Failed));
      trace := t + [Progress(failed - 1, Running)] + [Progress(failed - 1, Failed)];
    }
  }

  /** Then `live` jobs more were submitted. */
  lemma {:induction false} Filled(cfg: Config, u: UserId, failed: nat, live: nat) returns (trace: seq<Action>)
    requires live <= Cap(cfg)
    ensures Prepared(Run(cfg, trace), u, failed, live, failed + live, 0, 0)
  {
    if live == 0 {
      trace := Failures(cfg, u, failed);
    } else {
      var front := Filled(cfg, u, failed, live - 1);
      OneMoreLive(cfg, front, u, failed, live - 1, failed + live - 1);
      trace := front + Submission(failed + live - 1, u);
    }
  }

  /** A worker's write of `queued` over a failed job. */
  lemma ReopenRow(cfg: Config, s: Db, u: UserId, j: JobId)
    requires j in s.world.jobs && s.world.jobs[j] == Job(u, Failed, None, false, j)
    ensures Step(cfg, s, Progress(j, Queued))
         == s.(world := s.world.(jobs := s.world.jobs[j := Job(u, Queued, None, false, j)],
                                 reopens := s.world.reopens + multiset{u}))
  {
  }

  lemma ReopenStep(cfg: Config, s: Db, u: UserId, j: JobId, live: nat, next: nat, retries: nat, reopens: nat)
    requires Prepared(s, u, j + 1, live, next, retries, reopens)
    ensures Prepared(Step(cfg, s, Progress(j, Queued)), u, j, live + 1, next, retries, reopens + 1)
  {
    ReopenRow(cfg, s, u, j);
    LiveAfter(s.world.jobs, j, Job(u, Queued, None, false, j), u);
  }

  /** An undisturbed retry of job `j`. */
  function Retrying(s: Db, c: CallId, u: UserId, stage: Stage): Db { s.(calls := s.calls[c := Call(u, None, stage)]) }

  predicate RetryReady(s: Db, c: CallId, u: UserId, j: JobId) {
    c !in s.calls && j in s.world.jobs && s.world.jobs[j] == Job(u, Failed, None, false, j)
  }

  lemma RetryStarts(cfg: Config, s: Db, c: CallId, u: UserId, j: JobId)
    requires RetryReady(s, c, u, j)
    ensures Step(cfg, s, ArriveRetry(c, u, j)) == Retrying(s, c, u, RetryArrived(j))
    ensures Step(cfg, Retrying(s, c, u, RetryArrived(j)), ReadJob(c)) == Retrying(s, c, u, RetryRead(j))
    ensures Step(cfg, Retrying(s, c, u, RetryRead(j)), CheckExecutions(c, false)) == Retrying(s, c, u, RetryChecked(j))
  {
  }

  function RetryUpToUpdate(trace: seq<Action>, c: CallId, u: UserId, j: JobId): seq<Action> {
    trace + [ArriveRetry(c, u, j)] + [ReadJob(c)] + [CheckExecutions(c, false)]
  }

  lemma RetryChecks(cfg: Config, trace: seq<Action>, c: CallId, u: UserId, j: JobId)
    requires RetryReady(Run(cfg, trace), c, u, j)
    ensures Run(cfg, RetryUpToUpdate(trace, c, u, j)) == Retrying(Run(cfg, trace), c, u, RetryChecked(j))
  {
    var s := Run(cfg, trace);
    RetryStarts(cfg, s, c, u, j);
    var t1 := trace + [ArriveRetry(c, u, j)];
    var t2 := t1 + [ReadJob(c)];
    RunFrom(cfg, trace, s, ArriveRetry(c, u, j), Retrying(s, c, u, RetryArrived(j)));
    RunFrom(cfg, t1, Retrying(s, c, u, RetryArrived(j)), ReadJob(c), Retrying(s, c, u, RetryRead(j)));
    RunFrom(cfg, t2, Retrying(s, c, u, RetryRead(j)), CheckExecutions(c, false), Retrying(s, c, u, RetryChecked(j)));
  }

  lemma RetryUpdates(cfg: Config, s: Db, c: CallId, u: UserId, j: JobId)
    requires RetryReady(s, c, u, j)
    ensures var t := Step(cfg, Retrying(s, c, u, RetryChecked(j)), UpdateRetry(c));
            && t.calls == s.calls[c := Call(u, None, Replied(Accepted(j)))]
            && t.world == s.world.(jobs := s.world.jobs[j := Job(u, Queued, None, false, j)],
                                   retries := s.world.retries + multiset{u})
            && Revives(s.world.jobs, t.world.jobs, u)
  {
    assert Live(s.world.jobs[j := Job(u, Queued, None, false, j)][j].status);
  }

  lemma RetryStep(cfg: Config, trace: seq<Action>, u: UserId, j: JobId, live: nat, next: nat, retries: nat, reopens: nat)
    requires Prepared(Run(cfg, trace), u, j + 1, live, next, retries, reopens)
    ensures Prepared(Run(cfg, RetryUpToUpdate(trace, next, u, j) + [UpdateRetry(next)]), u, j, live + 1, next + 1,
                     retries + 1, reopens)
  {
    var s := Run(cfg, trace);
    RetryChecks(cfg, trace, next, u, j);
    RetryUpdates(cfg, s, next, u, j);
    RunThen(cfg, RetryUpToUpdate(trace, next, u, j), UpdateRetry(next));
    LiveAfter(s.world.jobs, j, Job(u, Queued, None, false, j), u);
  }

  lemma {:induction false} Reopened(cfg: Config, u: UserId, failed: nat, reopens: nat)
      returns (trace: seq<Action>, next: nat)
    ensures Prepared(Run(cfg, trace), u, failed, Cap(cfg) + reopens, next, 0, reopens)
    decreases reopens
  {
    if reopens == 0 {
      trace := Filled(cfg, u, failed, Cap(cfg));
      next := failed + Cap(cfg);
    } else {
      var front;
      front, next := Reopened(cfg, u, failed + 1, reopens - 1);
      ReopenStep(cfg, Run(cfg, front), u, failed, Cap(cfg) + reopens - 1, next, 0, reopens - 1);
      RunThen(cfg, front, Progress(failed, Queued));
      trace := front + [Progress(failed, Queued)];
    }
  }

  lemma {:induction false} Retried(cfg: Config, u: UserId, failed: nat, retries: nat, reopens: nat)
      returns (trace: seq<Action>, next: nat)
    ensures Prepared(Run(cfg, trace), u, failed, Cap(cfg) + retries + reopens, next, retries, reopens)
    decreases retries
  {
    if retries == 0 {
      trace, next := Reopened(cfg, u, failed, reopens);
    } else {
      var front, c := Retried(cfg, u, failed + 1, retries - 1, reopens);
      RetryStep(cfg, front, u, failed, Cap(cfg) + (retries - 1) + reopens, c, retries - 1, reopens);
      trace, next := RetryUpToUpdate(front, c, u, failed) + [UpdateRetry(c)], c + 1;
    }
  }

  /** The bound is attained: for every configured limit, and any numbers of retries and
      of worker reopenings, some run has exactly that many live jobs above the limit. */
  lemma BoundIsAttained(cfg: Config, u: UserId, retries: nat, reopens: nat)
    ensures exists trace ::
              var w := Run(cfg, trace).world;
              && Active(w.jobs, u) == (if cfg.maxActive < 1 then 1 else cfg.maxActive) + retries + reopens
              && w.retries[u] == retries && w.reopens[u] == reopens
  {
    var trace, next := Retried(cfg, u, 0, retries, reopens);
    ActiveIsLive(Run(cfg, trace).world.jobs, u);
    assert Active(Run(cfg, trace).world.jobs, u) == (if cfg.maxActive < 1 then 1 else cfg.maxActive) + retries + reopens;
  }

  // ---- below the cap is not enough -----------------------------------------------------------

  /** One below the cap, a failed job 0, and a call that has counted. */
  lemma Brink(cfg: Config, u: UserId) returns (trace: seq<Action>, n: nat)
    ensures var s := Run(cfg, trace);
            && Good(cfg, s) && LiveCount(s, u) == Cap(cfg) - 1 && Excess(s.world, u) == 0
            && RetryReady(s, n + 1, u, 0) && Committing(s, u) == {n}
  {
    var front := Filled(cfg, u, 1, Cap(cfg) - 1);
    n := Cap(cfg);
    CountReached(cfg, front, n, u);
    trace := front + [Arrive(n, u, None)] + [TakeLock(n)] + [Count(n)];
    RunIsGood(cfg, trace);
    OneCommits(cfg, Run(cfg, trace), n, u);
    assert n in Committing(Run(cfg, trace), u);
  }

  /** The action revives a job of the user for the first time, finds the live jobs
      below the cap and leaves them within it, and yet the cap can be passed later
      without any further revival. */
  ghost predicate NotEnough(cfg: Config, trace: seq<Action>, a: Action, u: UserId) {
    && LiveCount(Run(cfg, trace), u) < Cap(cfg) && LiveCount(Run(cfg, trace + [a]), u) <= Cap(cfg)
    && Revivals(cfg, EMPTY, trace, u) == 0 && !Safe(cfg, trace + [a], u)
    && Revives(Run(cfg, trace).world.jobs, Run(cfg, trace + [a]).world.jobs, u)
  }

  lemma RevivedAtBrink(cfg: Config, trace: seq<Action>, a: Action, u: UserId)
    requires LiveCount(Run(cfg, trace), u) == Cap(cfg) - 1 && |Committing(Run(cfg, trace), u)| == 1
    requires Excess(Run(cfg, trace).world, u) == 0
    requires Revives(Run(cfg, trace).world.jobs, Run(cfg, trace + [a]).world.jobs, u)
    ensures NotEnough(cfg, trace, a, u)
  {
    ExcessIsRevivals(cfg, trace, u);
    RevivalIsSafeExactlyWhen(cfg, trace, a, u);
    RunIsGood(cfg, trace);
    RunThen(cfg, trace, a);
    RevivalAddsOne(cfg, Run(cfg, trace), a, u);
  }

  lemma ReopenAtBrink(cfg: Config, u: UserId) returns (trace: seq<Action>)
    ensures NotEnough(cfg, trace, Progress(0, Queued), u)
  {
    var n;
    trace, n := Brink(cfg, u);
    var s := Run(cfg, trace);
    RunThen(cfg, trace, Progress(0, Queued));
    ReopenRow(cfg, s, u, 0);
    assert Live(s.world.jobs[0 := Job(u, Queued, None, false, 0)][0].status);
    RevivedAtBrink(cfg, trace, Progress(0, Queued), u);
  }

  lemma RetryAtBrink(cfg: Config, u: UserId) returns (trace: seq<Action>, c: CallId)
    ensures NotEnough(cfg, trace, UpdateRetry(c), u)
  {
    var brink, n := Brink(cfg, u);
    var s := Run(cfg, brink);
    c, trace := n + 1, RetryUpToUpdate(brink, n + 1, u, 0);
    RetryChecks(cfg, brink, c, u, 0);
    RetryUpdates(cfg, s, c, u, 0);
    RunThen(cfg, trace, UpdateRetry(c));
    RetryLeavesCommitting(s, c, u);
    RevivedAtBrink(cfg, trace, UpdateRetry(c), u);
  }

  lemma RetryLeavesCommitting(s: Db, c: CallId, u: UserId)
    requires c !in s.calls
    ensures Committing(Retrying(s, c, u, RetryChecked(0)), u) == Committing(s, u)
  {
  }

  /** Checking that the live jobs are below the cap is not enough, neither for a
      retry nor for a worker: another call may have counted. */
  lemma BelowCapIsNotEnough(cfg: Config, u: UserId)
    ensures exists trace, c :: NotEnough(cfg, trace, UpdateRetry(c), u)
    ensures exists trace, j :: NotEnough(cfg, trace, Progress(j, Queued), u)
  {
    var retry, c := RetryAtBrink(cfg, u);
    var reopen := ReopenAtBrink(cfg, u);
  }
}
