/** `login_mfa` and `try_consume_recovery_code` as the statements they run, one after
    the other, while any number of other redemptions, code changes and clock ticks
    happen between two statements. Every run of them is a run of Mfa. */
module MfaStore {
  import opened Text
  import opened Mfa

  /** The statements that may fail with a store error. */
  datatype Point = AtLookup | AtLockout | AtConfig | AtFlip | AtIncrement | AtClear | AtClaim

  datatype Answer = SessionIssued | NoSession(why: Refusal)

  datatype Consumed = Yes | No | Broken(why: Refusal)

  predicate OfOther(a: Action, c: CallId) { (OfCall(a) || a.Ask?) ==> a.c != c }

  /** The claim found the challenge consumed. */
  ghost predicate LostTheRace(cfg: Config, trace: seq<Action>, from: nat, c: CallId, ch: ChallengeId) {
    exists k :: from <= k < |trace| && trace[k] == Claim(c) && ch in Run(cfg, trace[..k]).world.revoked
  }

  /** At some moment the challenge was not minted, was 300 seconds and the leeway old,
      was another user's, or was seen to be revoked. */
  ghost predicate Unacceptable(cfg: Config, trace: seq<Action>, from: nat, user: UserId, ch: ChallengeId, blind: bool) {
    exists k :: from <= k <= |trace|
                && var w := Run(cfg, trace[..k]).world;
                   || ch !in w.challenges || w.now > w.challenges[ch].mintedAt + 300 + cfg.leeway
                   || w.challenges[ch].user != user || (ch in w.revoked && !blind)
  }

  /** Every code that the call spent was inserted under the configuration its user is
      enrolled with, and with this hash. */
  ghost predicate SpentOwn(cfg: Config, trace: seq<Action>, w: World, user: UserId, hash: Hash, spent: set<RowId>) {
    forall r :: r in spent ==> user in w.configs && InsertedAs(cfg, trace, r, w.configs[user], hash)
  }

  lemma SpentIsOwn(cfg: Config, trace: seq<Action>, c: CallId)
    requires c in Run(cfg, trace).calls
    ensures var w, call := Run(cfg, trace).world, Run(cfg, trace).calls[c];
            SpentOwn(cfg, trace, w, call.user, call.hash, call.spent)
  {
    var call := Run(cfg, trace).calls[c];
    forall r | r in call.spent
      ensures call.user in Run(cfg, trace).world.configs
      ensures InsertedAs(cfg, trace, r, Run(cfg, trace).world.configs[call.user], call.hash)
    {
      SpendsOwnCodes(cfg, trace, c, r);
    }
  }

  lemma NoCodeNow(cfg: Config, trace: seq<Action>, from: nat, user: UserId, hash: Hash, k: nat)
    requires from <= k <= |trace| && NoCodeOf(Run(cfg, trace[..k]).world, user, hash)
    ensures HadNoCode(cfg, trace, from, user, hash)
  {
  }

  class Store {
    const cfg: Config
    var db: Db
    ghost var trace: seq<Action>

    ghost predicate Valid()
      reads this
    {
      db == Run(cfg, trace)
    }

    constructor (cfg: Config)
      ensures Valid() && trace == [] && this.cfg == cfg
    {
      this.cfg, db, trace := cfg, EMPTY, [];
    }

    method Perform(a: Action)
      requires Valid()
      modifies this`db, this`trace
      ensures Valid() && trace == old(trace) + [a] && db == Step(cfg, old(db), a)
    {
      RunThen(cfg, trace, a);
      db, trace := Step(cfg, db, a), trace + [a];
    }

    method PerformOther(a: Action, c: CallId)
      requires Valid() && OfOther(a, c)
      modifies this`db, this`trace
      ensures Valid() && old(trace) <= trace
      ensures c in db.calls <==> c in old(db.calls)
      ensures c in db.calls ==> db.calls[c] == old(db.calls)[c]
    {
      if OfCall(a) && a.c in db.calls {
        OthersUntouched(cfg, db, a);
      }
      Perform(a);
    }

    /** Any number of actions of anyone but call `c`. */
    method Others(c: CallId)
      requires Valid()
      modifies this`db, this`trace
      ensures Valid() && old(trace) <= trace
      ensures c in db.calls <==> c in old(db.calls)
      ensures c in db.calls ==> db.calls[c] == old(db.calls)[c]
    {
      var rounds: nat := *;
      while rounds > 0
        invariant Valid() && old(trace) <= trace
        invariant c in db.calls <==> c in old(db.calls)
        invariant c in db.calls ==> db.calls[c] == old(db.calls)[c]
      {
        var a: Action := *;
        if OfOther(a, c) {
          PerformOther(a, c);
        }
        rounds := rounds - 1;
      }
    }

    /** A store error before the call is over. */
    method Break(c: CallId) returns (why: Refusal)
      requires Valid() && c in db.calls
      requires !db.calls[c].stage.Session? && !db.calls[c].stage.Done? && !db.calls[c].stage.Refused?
      modifies this`db, this`trace
      ensures Valid() && old(trace) <= trace
      ensures why == if old(db.calls)[c].stage.Flipped? then CounterLost else StoreError
      ensures c in db.calls && db.calls[c] == old(db.calls)[c].(stage := Refused(why))
    {
      why := if db.calls[c].stage.Flipped? then CounterLost else StoreError;
      Perform(Fail(c));
    }

    /** `try_consume_recovery_code`: read the configuration, flip the matching rows,
        then increment the counter in a statement of its own. */
    method TryConsumeRecoveryCode(c: CallId, faults: set<Point>) returns (r: Consumed)
      requires Valid() && c in db.calls && db.calls[c].stage.Cleared? && db.calls[c].spent == {} && !db.calls[c].counted
      modifies this`db, this`trace
      ensures Valid() && old(trace) <= trace && c in db.calls
      ensures var before, after := old(db.calls)[c], db.calls[c];
              && after.user == before.user && after.challenge == before.challenge && after.hash == before.hash
              && after.totp == before.totp && after.claimedAt == before.claimedAt
              && match r
                 case Yes => after.spent != {} && after.counted
                             && after.stage == if before.challenge.Some? then Proven else Done
                 case No =>
                   && after.spent == {} && !after.counted && after.stage == Refused(WrongCode)
                   && HadNoCode(cfg, trace, |old(trace)|, after.user, after.hash)
                 case Broken(why) =>
                   && after.stage == Refused(why) && !after.counted && faults != {}
                   && (why == CounterLost <==> after.spent != {}) && (why == CounterLost || why == StoreError)
      ensures SpentOwn(cfg, trace, db.world, db.calls[c].user, db.calls[c].hash, db.calls[c].spent)
    {
      r := SpendCode(c, faults);
      SpentIsOwn(cfg, trace, c);
    }

    method SpendCode(c: CallId, faults: set<Point>) returns (r: Consumed)
      requires Valid() && c in db.calls && db.calls[c].stage.Cleared? && db.calls[c].spent == {} && !db.calls[c].counted
      modifies this`db, this`trace
      ensures Valid() && old(trace) <= trace && c in db.calls
      ensures var before, after := old(db.calls)[c], db.calls[c];
              && after.user == before.user && after.challenge == before.challenge && after.hash == before.hash
              && after.totp == before.totp && after.claimedAt == before.claimedAt
              && match r
                 case Yes => after.spent != {} && after.counted
                             && after.stage == if before.challenge.Some? then Proven else Done
                 case No =>
                   && after.spent == {} && !after.counted && after.stage == Refused(WrongCode)
                   && HadNoCode(cfg, trace, |old(trace)|, after.user, after.hash)
                 case Broken(why) =>
                   && after.stage == Refused(why) && !after.counted && faults != {}
                   && (why == CounterLost <==> after.spent != {}) && (why == CounterLost || why == StoreError)
    {
      r := ReadConfiguration(c, faults);
      if !r.Yes? {
        return;
      }
      r := FlipCode(c, faults);
      if !r.Yes? {
        return;
      }
      Others(c);
      if AtIncrement in faults {
        var why := Break(c);
        return Broken(why);
      }
      Perform(Increment(c, true));
    }

    method ReadConfiguration(c: CallId, faults: set<Point>) returns (r: Consumed)
      requires Valid() && c in db.calls && db.calls[c].stage.Cleared?
      modifies this`db, this`trace
      ensures Valid() && old(trace) <= trace && c in db.calls
      ensures match r
              case Yes => db.calls[c] == old(db.calls)[c].(stage := Configured, config := db.calls[c].config)
              case No =>
                && db.calls[c] == old(db.calls)[c].(stage := Refused(WrongCode))
                && HadNoCode(cfg, trace, |old(trace)|, db.calls[c].user, db.calls[c].hash)
              case Broken(why) =>
                why == StoreError && faults != {} && db.calls[c] == old(db.calls)[c].(stage := Refused(why))
    {
      Others(c);
      if AtConfig in faults {
        var why := Break(c);
        return Broken(why);
      }
      ghost var before, was := trace, db;
      RunIsTraced(cfg, trace);
      Perform(ReadConfig(c));
      assert trace[..|before|] == before;
      if db.calls[c].stage == Refused(WrongCode) {
        WrongCodeNow(cfg, was, ReadConfig(c), c);
        NoCodeNow(cfg, trace, |old(trace)|, was.calls[c].user, was.calls[c].hash, |before|);
      }
      r := if db.calls[c].stage.Configured? then Yes else No;
    }

    method FlipCode(c: CallId, faults: set<Point>) returns (r: Consumed)
      requires Valid() && c in db.calls && db.calls[c].stage.Configured?
      modifies this`db, this`trace
      ensures Valid() && old(trace) <= trace && c in db.calls
      ensures match r
              case Yes =>
                db.calls[c] == old(db.calls)[c].(stage := Flipped, spent := db.calls[c].spent) && db.calls[c].spent != {}
              case No =>
                && db.calls[c] == old(db.calls)[c].(stage := Refused(WrongCode))
                && HadNoCode(cfg, trace, |old(trace)|, db.calls[c].user, db.calls[c].hash)
              case Broken(why) =>
                why == StoreError && faults != {} && db.calls[c] == old(db.calls)[c].(stage := Refused(why))
    {
      Others(c);
      if AtFlip in faults {
        var why := Break(c);
        return Broken(why);
      }
      ghost var before, was := trace, db;
      RunIsTraced(cfg, trace);
      Perform(Flip(c));
      assert trace[..|before|] == before;
      if db.calls[c].stage == Refused(WrongCode) {
        WrongCodeNow(cfg, was, Flip(c), c);
        NoCodeNow(cfg, trace, |old(trace)|, was.calls[c].user, was.calls[c].hash, |before|);
      }
      r := if db.calls[c].stage.Flipped? then Yes else No;
    }

    /** Signature, expiry and revocation of the token. */
    method AcceptToken(c: CallId, user: UserId, ch: ChallengeId, hash: Hash, blind: bool) returns (accepted: bool)
      requires Valid() && c !in db.calls
      modifies this`db, this`trace
      ensures Valid() && old(trace) <= trace && c in db.calls
      ensures var call := db.calls[c];
              call == Call(user, Some(ch), hash, if accepted then Validated else Refused(TokenRejected),
                           call.validatedAt, call.blind, "", false, {}, false, None)
      ensures !accepted ==> Unacceptable(cfg, trace, |old(trace)|, user, ch, blind)
    {
      Perform(Ask(c, user, Some(ch), hash));
      Others(c);
      ghost var before := trace;
      Perform(Validate(c, blind));
      assert trace[..|before|] == before;
      accepted := db.calls[c].stage.Validated?;
    }

    /** Token, account and lockout: everything before the factor. */
    method Admit(c: CallId, user: UserId, ch: ChallengeId, hash: Hash, blind: bool, allowed: bool, faults: set<Point>)
      returns (answer: Answer)
      requires Valid() && c !in db.calls
      modifies this`db, this`trace
      ensures Valid() && old(trace) <= trace && c in db.calls
      ensures var call := db.calls[c];
              && call == Call(user, Some(ch), hash, call.stage, call.validatedAt, call.blind, "", false, {}, false, None)
              && match answer
                 case SessionIssued => call.stage == Cleared && allowed
                 case NoSession(why) =>
                   && call.stage == Refused(why)
                   && ((why == TokenRejected && Unacceptable(cfg, trace, |old(trace)|, user, ch, blind))
                       || (why == AccountRefused && !allowed) || (why == StoreError && faults != {}))
    {
      var accepted := AcceptToken(c, user, ch, hash, blind);
      if !accepted {
        return NoSession(TokenRejected);
      }
      Others(c);
      if AtLookup in faults || AtLockout in faults {
        var why := Break(c);
        return NoSession(why);
      }
      Perform(Clear(c, allowed));
      answer := if allowed then SessionIssued else NoSession(AccountRefused);
    }

    /** The factor: the TOTP if it matches, else a recovery code. */
    method ProveFactor(c: CallId, totp: bool, faults: set<Point>) returns (answer: Answer)
      requires Valid() && c in db.calls && db.calls[c].stage.Cleared? && db.calls[c].challenge.Some?
      requires db.calls[c].spent == {} && !db.calls[c].counted && !db.calls[c].totp
      modifies this`db, this`trace
      ensures Valid() && old(trace) <= trace && c in db.calls
      ensures var before, after := old(db.calls)[c], db.calls[c];
              && after.user == before.user && after.challenge == before.challenge && after.hash == before.hash
              && after.claimedAt == before.claimedAt && after.totp == totp && (totp ==> after.spent == {})
              && match answer
                 case SessionIssued => after.stage == Proven && (totp || after.spent != {})
                 case NoSession(why) =>
                   && after.stage == Refused(why) && !totp
                   && (why == WrongCode || (faults != {} && (why == CounterLost || why == StoreError)))
                   && (why == CounterLost <==> after.spent != {})
                   && (why == WrongCode ==> HadNoCode(cfg, trace, |old(trace)|, after.user, after.hash))
    {
      if totp {
        Perform(CheckTotp(c, true));
        return SessionIssued;
      }
      var r := TryConsumeRecoveryCode(c, faults);
      answer := match r
        case Yes => SessionIssued
        case No => NoSession(WrongCode)
        case Broken(why) => NoSession(why);
    }

    /** The claim and what follows it. */
    method ClaimAndIssue(c: CallId, wrote: bool, faults: set<Point>) returns (answer: Answer)
      requires Valid() && c in db.calls && db.calls[c].stage.Proven? && db.calls[c].challenge.Some?
      requires db.calls[c].claimedAt.None?
      modifies this`db, this`trace
      ensures Valid() && old(trace) <= trace && c in db.calls
      ensures var before, after := old(db.calls)[c], db.calls[c];
              && after == before.(stage := after.stage, claimedAt := after.claimedAt)
              && match answer
                 case SessionIssued => after.stage == Session && after.claimedAt.Some?
                 case NoSession(why) =>
                   && after.stage == Refused(why) && after.claimedAt == None
                   && (why == ChallengeTaken ==> LostTheRace(cfg, trace, |old(trace)|, c, before.challenge.value))
                   && (why == ChallengeTaken || (why == StoreError && faults != {}))
    {
      Others(c);
      if AtClear in faults || AtClaim in faults {
        var why := Break(c);
        return NoSession(why);
      }
      ghost var before := trace;
      Perform(Claim(c));
      assert trace[|before|] == Claim(c) && trace[..|before|] == before;
      if db.calls[c].stage.Refused? {
        return NoSession(ChallengeTaken);
      }
      answer := Finish(c, wrote);
    }

    method Finish(c: CallId, wrote: bool) returns (answer: Answer)
      requires Valid() && c in db.calls && db.calls[c].stage.Claimed? && db.calls[c].challenge.Some?
      modifies this`db, this`trace
      ensures Valid() && old(trace) <= trace && c in db.calls
      ensures answer == SessionIssued && db.calls[c] == old(db.calls)[c].(stage := Session)
    {
      Others(c);
      Perform(Revoke(c, wrote));
      Others(c);
      Perform(Issue(c));
      answer := SessionIssued;
    }

    /** `login_mfa`. `allowed` is the account's and the lockout's answer, `totp` the
        code's, `wrote` whether the revocation writes after the claim succeeded. A
        lost race costs the recovery code that proved the factor. */
    method LoginMfa(c: CallId, user: UserId, ch: ChallengeId, hash: Hash,
                    blind: bool, allowed: bool, totp: bool, wrote: bool, faults: set<Point>)
      returns (answer: Answer)
      requires Valid() && c !in db.calls
      modifies this`db, this`trace
      ensures Valid() && old(trace) <= trace && c in db.calls
      ensures var call := db.calls[c];
              && call.user == user && call.challenge == Some(ch)
              && match answer
                 case SessionIssued => call.stage == Session && call.claimedAt.Some? && allowed && (totp || call.spent != {})
                 case NoSession(why) =>
                   && call.stage == Refused(why) && call.claimedAt == None
                   && (why == TokenRejected ==> Unacceptable(cfg, trace, |old(trace)|, user, ch, blind))
                   && (why == AccountRefused ==> !allowed)
                   && (why == WrongCode ==>
                         !totp && call.spent == {} && HadNoCode(cfg, trace, |old(trace)|, user, hash))
                   && (why == ChallengeTaken ==>
                         LostTheRace(cfg, trace, |old(trace)|, c, ch) && (totp || call.spent != {}))
                   && (why == CounterLost ==> call.spent != {})
                   && (why == CounterLost || why == StoreError ==> faults != {})
      ensures SpentOwn(cfg, trace, db.world, user, db.calls[c].hash, db.calls[c].spent) && db.calls[c].hash == hash
      ensures answer == SessionIssued ==> ch in db.world.challenges && db.world.challenges[ch].user == user
    {
      answer := Attempt(c, user, ch, hash, blind, allowed, totp, wrote, faults);
      SpentIsOwn(cfg, trace, c);
      if answer == SessionIssued {
        SessionIsForItsUser(cfg, trace, c);
      }
    }

    method Attempt(c: CallId, user: UserId, ch: ChallengeId, hash: Hash,
                   blind: bool, allowed: bool, totp: bool, wrote: bool, faults: set<Point>)
      returns (answer: Answer)
      requires Valid() && c !in db.calls
      modifies this`db, this`trace
      ensures Valid() && old(trace) <= trace && c in db.calls
      ensures var call := db.calls[c];
              && call.user == user && call.challenge == Some(ch) && call.hash == hash
              && match answer
                 case SessionIssued => call.stage == Session && call.claimedAt.Some? && allowed && (totp || call.spent != {})
                 case NoSession(why) =>
                   && call.stage == Refused(why) && call.claimedAt == None
                   && (why == TokenRejected ==> Unacceptable(cfg, trace, |old(trace)|, user, ch, blind))
                   && (why == AccountRefused ==> !allowed)
                   && (why == WrongCode ==> !totp && call.spent == {} && HadNoCode(cfg, trace, |old(trace)|, user, hash))
                   && (why == ChallengeTaken ==>
                         LostTheRace(cfg, trace, |old(trace)|, c, ch) && (totp || call.spent != {}))
                   && (why == CounterLost ==> call.spent != {})
                   && (why == CounterLost || why == StoreError ==> faults != {})
    {
      answer := Admit(c, user, ch, hash, blind, allowed, faults);
      if answer.NoSession? {
        return;
      }
      answer := ProveFactor(c, totp, faults);
      if answer.NoSession? {
        return;
      }
      answer := ClaimAndIssue(c, wrote, faults);
    }
  }
}
