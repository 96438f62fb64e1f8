/** `sse_job` as its loop: subscribe, read the row once, then receive until the
    stream is over (backend/src/api/routes_sse.rs:60-191). Between any two of its
    steps the rows, the publishers and the channel move as they like. */
module SseHandler {
  import opened JobStream

  /** The answers of `rx.recv()`. */
  datatype Received = Got(msg: Msg) | Lagged | Closed | Nothing

  predicate OfWorld(a: Action) {
    a.Create? || a.Finish? || a.Requeue? || a.Read? || a.Send? || a.Close?
  }

  lemma JobIsThere(j: JobId, trace: seq<Action>, s: State)
    requires Run(Start(j), trace) == s && (s.stream.stage.CatchingUp? || s.stream.stage.Streaming?)
    ensures j in s.world.rows
  {
    RunIsGood(j, trace);
  }

  /** How many turns the loop took: a receive or an authorization check each. */
  function Turns(trace: seq<Action>): nat {
    if trace == [] then 0
    else Turns(trace[..|trace| - 1]) + (if trace[|trace| - 1].Recv? || trace[|trace| - 1].Revalidate? then 1 else 0)
  }

  lemma TurnsAfter(trace: seq<Action>, a: Action)
    ensures Turns(trace + [a]) == Turns(trace) + (if a.Recv? || a.Revalidate? then 1 else 0)
  {
    assert (trace + [a])[..|trace + [a]| - 1] == trace;
  }

  class Handler {
    const job: JobId
    var world: World
    var stage: Stage
    var next: nat
    var yielded: seq<Event>
    var missedRead: bool
    ghost var trace: seq<Action>

    ghost function Abstract(): State
      reads this
    {
      State(world, Stream(job, stage, next, yielded, missedRead))
    }

    ghost predicate Valid()
      reads this
    {
      Run(Start(job), trace) == Abstract()
    }

    constructor (job: JobId)
      ensures Valid() && this.job == job && stage == Fresh && trace == [] && yielded == []
    {
      this.job, world, stage, next := job, World(map[], map[], [], false), Fresh, 0;
      yielded, missedRead, trace := [], false, [];
    }

    /** Anything that the workers, the retries and the publishers do meanwhile. */
    method Others()
      requires Valid()
      modifies this`world, this`trace
      ensures Valid() && old(trace) <= trace && Turns(trace) == Turns(old(trace))
    {
      var rounds: nat := *;
      while rounds > 0
        invariant Valid() && old(trace) <= trace && Turns(trace) == Turns(old(trace))
        modifies this`world, this`trace
      {
        var a: Action := *;
        if OfWorld(a) {
          RunThen(Start(job), trace, a);
          TurnsAfter(trace, a);
          world, trace := WorldStep(world, a), trace + [a];
        }
        rounds := rounds - 1;
      }
    }

    method Subscribe()
      requires Valid() && stage == Fresh
      modifies this`stage, this`next, this`trace
      ensures Valid() && old(trace) <= trace && stage == Subscribed && next == |world.sent|
      ensures Turns(trace) == Turns(old(trace))
    {
      TurnsAfter(trace, Action.Subscribe);
      RunThen(Start(job), trace, Action.Subscribe);
      stage, next, trace := Subscribed, |world.sent|, trace + [Action.Subscribe];
    }

    /** Yields the event that a row or a message calls for. */
    method Emit(msg: Msg)
      modifies this`stage, this`yielded
      ensures yielded == old(yielded) + [if msg.row.terminal then Completed(msg) else Update(msg)]
      ensures stage == if msg.row.terminal then Ended else Streaming
    {
      if msg.row.terminal {
        stage, yielded := Ended, yielded + [Completed(msg)];
      } else {
        stage, yielded := Streaming, yielded + [Update(msg)];
      }
    }

    /** The one read on connection. */
    method ReadSnapshot(ok: bool)
      requires Valid() && stage == Subscribed
      modifies this`stage, this`yielded, this`trace
      ensures Valid() && old(trace) <= trace && (stage == Streaming || stage == Ended)
      ensures Turns(trace) == Turns(old(trace))
      ensures ok && job in world.rows ==>
                yielded == old(yielded) + [if world.rows[job].terminal then Completed(Msg(job, world.rows[job]))
                                           else Update(Msg(job, world.rows[job]))]
      ensures !(ok && job in world.rows) ==> yielded == old(yielded) + [Error] && stage == Ended
    {
      RunThen(Start(job), trace, Snapshot(ok));
      TurnsAfter(trace, Snapshot(ok));
      if ok && job in world.rows {
        Emit(Msg(job, world.rows[job]));
      } else {
        stage, yielded := Ended, yielded + [Error];
      }
      trace := trace + [Snapshot(ok)];
    }

    /** The channel's receive: it moves the cursor and nothing else. */
    method RecvMessage() returns (r: Received)
      modifies this`next
      ensures old(next) + 1024 < |world.sent| ==> r == Lagged && next == |world.sent| - 1024
      ensures old(next) < |world.sent| <= old(next) + 1024 ==> r == Got(world.sent[old(next)]) && next == old(next) + 1
      ensures old(next) >= |world.sent| ==> next == old(next) && r == if world.closed then Closed else Nothing
    {
      if next < Oldest(world) {
        next := Oldest(world);
        r := Lagged;
      } else if next < |world.sent| {
        r := Got(world.sent[next]);
        next := next + 1;
      } else {
        r := if world.closed then Closed else Nothing;
      }
    }

    /** The receive branch of the loop: more than 1024 messages behind it lags, else it
        takes the next message, and one of its job is yielded as one event. */
    method HandleMessage() returns (lagged: bool)
      requires Valid() && stage == Streaming
      modifies this`stage, this`next, this`yielded, this`trace
      ensures Valid() && trace == old(trace) + [Recv]
      ensures lagged <==> old(next) + 1024 < |world.sent|
      ensures lagged ==> stage == CatchingUp && next == |world.sent| - 1024 && yielded == old(yielded)
      ensures old(next) < |world.sent| <= old(next) + 1024 ==>
                var msg := world.sent[old(next)];
                && next == old(next) + 1
                && (msg.job != job ==> yielded == old(yielded) && stage == Streaming)
                && (msg.job == job && msg.row.terminal ==> yielded == old(yielded) + [Completed(msg)] && stage == Ended)
                && (msg.job == job && !msg.row.terminal ==> yielded == old(yielded) + [Update(msg)] && stage == Streaming)
      ensures old(next) >= |world.sent| ==>
                next == old(next) && yielded == old(yielded) && stage == if world.closed then Ended else Streaming
      ensures Turns(trace) == Turns(old(trace)) + 1
    {
      TurnsAfter(trace, Recv);
      RunThen(Start(job), trace, Recv);
      var r := RecvMessage();
      lagged := false;
      match r {
        case Got(msg) =>
          if msg.job == job {
            Emit(msg);
          }
        case Lagged =>
          stage, lagged := CatchingUp, true;
        case Closed =>
          stage := Ended;
        case Nothing =>
      }
      trace := trace + [Recv];
    }

    /** After a lag: the latest row, once; a failed read yields nothing. */
    method ReadLatest(ok: bool)
      requires Valid() && stage == CatchingUp
      modifies this`stage, this`yielded, this`missedRead, this`trace
      ensures Valid() && old(trace) <= trace && job in world.rows
      ensures ok && world.rows[job].terminal ==>
                yielded == old(yielded) + [Completed(Msg(job, world.rows[job]))] && stage == Ended
      ensures ok && !world.rows[job].terminal ==>
                yielded == old(yielded) + [Update(Msg(job, world.rows[job]))] && stage == Streaming
      ensures !ok ==> yielded == old(yielded) && stage == Streaming
      ensures missedRead == !ok && Turns(trace) == Turns(old(trace))
    {
      TurnsAfter(trace, CatchUp(ok));
      JobIsThere(job, trace, Abstract());
      RunThen(Start(job), trace, CatchUp(ok));
      missedRead := !ok;
      if ok {
        Emit(Msg(job, world.rows[job]));
      } else {
        stage := Streaming;
      }
      trace := trace + [CatchUp(ok)];
    }

    /** The minute's authorization check. */
    method CheckAuthorization(valid: bool)
      requires Valid() && stage == Streaming
      modifies this`stage, this`trace
      ensures Valid() && old(trace) <= trace && stage == if valid then Streaming else Ended
      ensures Turns(trace) == Turns(old(trace)) + 1
    {
      TurnsAfter(trace, Revalidate(valid));
      RunThen(Start(job), trace, Revalidate(valid));
      if !valid {
        stage := Ended;
      }
      trace := trace + [Revalidate(valid)];
    }

    /** The stream, for as long as it is polled; each catch-up read may work or fail.
        Unless it has no snapshot, it yields one event for every row and message that
        reached it, and without a lag these are the snapshot and every message of the
        job that the channel carried from the subscription to the cursor. */
    method Serve(snapshotOk: bool, polls: nat)
      requires Valid() && stage == Fresh && yielded == [] && !missedRead
      modifies this
      ensures Valid() && old(trace) <= trace
      ensures stage == Streaming || stage == Ended
      ensures forall i :: 0 <= i < |yielded| - 1 ==> yielded[i].Update?
      ensures yielded != [] && (yielded[|yielded| - 1].Update? || stage == Ended)
      ensures forall i :: 0 <= i < |yielded| && !yielded[i].Error? ==> yielded[i].msg.job == job
      ensures yielded == [Error] || yielded == EventsOf(Tally(job, trace).heard)
      ensures var t := Tally(job, trace);
              t.lags == 0 && t.heard != [] ==>
                t.first <= next <= |world.sent| && yielded == EventsOf([t.heard[0]] + Mine(job, world.sent[t.first..next]))
      ensures stage == Streaming ==> Turns(trace) == Turns(old(trace)) + polls
      ensures stage == Streaming && !missedRead && Announced(world, job) ==>
                next < Oldest(world) || exists i :: next <= i < |world.sent| && Final(world, job, world.sent[i])
      ensures stage == Streaming && Announced(world, job) ==>
                ((exists n: nat :: Delivered(Polls(Abstract(), n))) <==> Ahead(Abstract()))
    {
      Others();
      Subscribe();
      Others();
      RunIsGood(job, trace);
      ReadSnapshot(snapshotOk);
      var left: nat := polls;
      while left > 0 && stage == Streaming
        invariant Valid() && old(trace) <= trace
        invariant stage == Streaming || stage == Ended
        invariant yielded != []
        invariant left <= polls && (stage == Streaming ==> Turns(trace) == Turns(old(trace)) + (polls - left))
      {
        Others();
        PollOnce();
        left := left - 1;
      }
      RunIsGood(job, trace);
      YieldsExactly(job, trace);
      if stage == Streaming && Announced(world, job) {
        DeliveredIffAhead(Abstract());
      }
    }

    /** One turn of the loop: the ticker or the receiver, whichever is ready. */
    method PollOnce()
      requires Valid() && stage == Streaming && yielded != []
      modifies this
      ensures Valid() && old(trace) <= trace
      ensures stage == Streaming || stage == Ended
      ensures yielded != [] && Turns(trace) == Turns(old(trace)) + 1
    {
      var tick, valid, readable: bool := *, *, *;
      if tick {
        CheckAuthorization(valid);
        return;
      }
      var lagged := HandleMessage();
      if lagged {
        Others();
        ReadLatest(readable);
      }
    }
  }
}
