/** Redemption of login challenges and recovery codes
    (backend/src/api/routes_auth.rs:746-898, backend/src/api/routes_mfa.rs:294-337
    and backend/src/services/auth.rs:187-352) as steps over one database, one
    revocation store and one clock: any number of requests may overlap. */
module Mfa {
  import opened Text

  type UserId = string
  type ChallengeId = nat
  type ConfigId = string
  type RowId = nat
  type Hash = string
  type CallId = nat

  const MFA_CHALLENGE_TTL_SECONDS: nat := 300
  const CLAIM_TTL_SECONDS: nat := MFA_CHALLENGE_TTL_SECONDS + 3600

  /** A recovery code row. */
  datatype Code = Code(config: ConfigId, hash: Hash, used: bool)

  datatype Challenge = Challenge(user: UserId, mintedAt: nat)

  datatype Refusal =
    | TokenRejected
    | AccountRefused
    | WrongCode
    | CounterLost
    | ChallengeTaken
    | StoreError

  /** Where a redemption is; `Done` is the authenticated recovery endpoint's success. */
  datatype Stage =
    | Asked
    | Validated
    | Cleared
    | Configured
    | Flipped
    | Proven
    | Claimed
    | Session
    | Done
    | Refused(why: Refusal)

  /** A redemption: at login (with a challenge) or at the recovery endpoint. What it
      did on the way is recorded: when its token was accepted, which rows its UPDATE
      flipped, whether it incremented the counter, when it claimed its challenge. */
  datatype Call = Call(user: UserId, challenge: Option<ChallengeId>, hash: Hash, stage: Stage,
                       validatedAt: nat, blind: bool, config: ConfigId, totp: bool, spent: set<RowId>, counted: bool,
                       claimedAt: Option<nat>)

  /** `revoked` maps a consumed challenge to its expiry. `flipped` remembers every row
      whose `used_at` was ever set, `counters` is `backup_codes_consumed`. */
  datatype World = World(now: nat, challenges: map<ChallengeId, Challenge>, revoked: map<ChallengeId, nat>,
                         configs: map<UserId, ConfigId>, codes: map<RowId, Code>, drawn: set<RowId>,
                         flipped: map<RowId, ConfigId>, counters: multiset<ConfigId>)

  datatype Db = Db(world: World, calls: map<CallId, Call>)

  const EMPTY: Db := Db(World(0, map[], map[], map[], map[], {}, map[], multiset{}), map[])

  /** Answers that are not ours to compute travel with the action: whether the
      revocation read missed what the claim had written (a Redis error, and no row in
      the database yet), whether the account may go on, whether the
      TOTP matched, whether a statement failed. */
  datatype Action =
    | Tick(seconds: nat)
    | Mint(ch: ChallengeId, user: UserId)
    | Enroll(user: UserId, config: ConfigId)
    | InsertCode(row: RowId, config: ConfigId, hash: Hash)
    | DeleteCodes(config: ConfigId)
    | Expire(ch: ChallengeId)
    | Ask(c: CallId, user: UserId, challenge: Option<ChallengeId>, hash: Hash)
    | Validate(c: CallId, blind: bool)
    | Clear(c: CallId, allowed: bool)
    | CheckTotp(c: CallId, ok: bool)
    | ReadConfig(c: CallId)
    | Flip(c: CallId)
    | Increment(c: CallId, ok: bool)
    | Claim(c: CallId)
    | Revoke(c: CallId, wrote: bool)
    | Issue(c: CallId)
    | Fail(c: CallId)

  // ---- statements --------------------------------------------------------------------

  /** The rows that the UPDATE of `try_consume_recovery_code` matches. */
  function Matching(codes: map<RowId, Code>, config: ConfigId, hash: Hash): set<RowId> {
    set r | r in codes && codes[r].config == config && codes[r].hash == hash && !codes[r].used
  }

  function MarkUsed(codes: map<RowId, Code>, rows: set<RowId>): map<RowId, Code> {
    map r | r in codes :: if r in rows then codes[r].(used := true) else codes[r]
  }

  function At(s: Db, c: CallId, call: Call): Db { s.(calls := s.calls[c := call]) }

  /** The UPDATE that consumes the code: every matching unused row, or nothing. */
  function FlipRows(s: Db, c: CallId): Db
    requires c in s.calls
  {
    var call, w := s.calls[c], s.world;
    var rows := Matching(w.codes, call.config, call.hash);
    if rows == {} then At(s, c, call.(stage := Refused(WrongCode)))
    else
      At(s, c, call.(stage := Flipped, spent := rows))
      .(world := w.(codes := MarkUsed(w.codes, rows), flipped := w.flipped + map r | r in rows :: call.config))
  }

  /** The counter's UPDATE; a call that came from the recovery endpoint is done. */
  function CountRows(s: Db, c: CallId, ok: bool): Db
    requires c in s.calls
  {
    var call := s.calls[c];
    if ok then
      At(s, c, call.(stage := if call.challenge.Some? then Proven else Done, counted := true))
      .(world := s.world.(counters := s.world.counters + multiset{call.config}))
    else At(s, c, call.(stage := Refused(CounterLost)))
  }

  /** `consume_jti_once`: only one call can add an absent key. */
  function ClaimChallenge(s: Db, c: CallId): Db
    requires c in s.calls && s.calls[c].challenge.Some?
  {
    var call, ch, w := s.calls[c], s.calls[c].challenge.value, s.world;
    if ch in w.revoked then At(s, c, call.(stage := Refused(ChallengeTaken)))
    else
      At(s, c, call.(stage := Claimed, claimedAt := Some(w.now)))
      .(world := w.(revoked := w.revoked[ch := w.now + CLAIM_TTL_SECONDS]))
  }

  predicate Unexpired(cfg: Config, w: World, ch: ChallengeId) {
    ch in w.challenges && w.now <= w.challenges[ch].mintedAt + MFA_CHALLENGE_TTL_SECONDS + cfg.leeway
  }

  /** The challenge is the user's, unexpired, and not seen to be revoked. */
  predicate Acceptable(cfg: Config, w: World, user: UserId, ch: ChallengeId, blind: bool) {
    Unexpired(cfg, w, ch) && w.challenges[ch].user == user && (ch !in w.revoked || blind)
  }

  /** The clock leeway of the token library. */
  datatype Config = Config(leeway: nat)

  /** One action; an action that is not enabled changes nothing. */
  function Step(cfg: Config, s: Db, a: Action): Db {
    var w := s.world;
    match a
    case Tick(seconds) => s.(world := w.(now := w.now + seconds))
    case Mint(ch, user) =>
      if ch in w.challenges then s else s.(world := w.(challenges := w.challenges[ch := Challenge(user, w.now)]))
    case Enroll(user, config) =>
      if user in w.configs then s else s.(world := w.(configs := w.configs[user := config]))
    case InsertCode(row, config, hash) =>
      if row in w.drawn then s
      else s.(world := w.(codes := w.codes[row := Code(config, hash, false)], drawn := w.drawn + {row}))
    case DeleteCodes(config) =>
      s.(world := w.(codes := map r | r in w.codes && w.codes[r].config != config :: w.codes[r]))
    case Expire(ch) =>
      if ch in w.revoked && w.revoked[ch] <= w.now then s.(world := w.(revoked := w.revoked - {ch})) else s
    case Ask(c, user, challenge, hash) =>
      if c in s.calls then s
      else At(s, c, Call(user, challenge, hash, if challenge.Some? then Asked else Cleared, 0, false, "", false, {}, false, None))
    case _ => if a.c in s.calls then CallStep(cfg, s, a) else s
  }

  predicate OfCall(a: Action) {
    !a.Tick? && !a.Mint? && !a.Enroll? && !a.InsertCode? && !a.DeleteCodes? && !a.Expire? && !a.Ask?
  }

  function CallStep(cfg: Config, s: Db, a: Action): Db
    requires OfCall(a) && a.c in s.calls
  {
    var c, call, w := a.c, s.calls[a.c], s.world;
    match a
    case Validate(_, blind) =>
      if !call.stage.Asked? || call.challenge.None? then s
      else if Acceptable(cfg, w, call.user, call.challenge.value, blind) then At(s, c, call.(stage := Validated, validatedAt := w.now, blind := blind))
      else At(s, c, call.(stage := Refused(TokenRejected)))
    case Clear(_, allowed) =>
      if call.stage.Validated? then At(s, c, call.(stage := if allowed then Cleared else Refused(AccountRefused))) else s
    case CheckTotp(_, ok) =>
      if call.stage.Cleared? && call.challenge.Some? && ok then At(s, c, call.(stage := Proven, totp := true)) else s
    case ReadConfig(_) =>
      if !call.stage.Cleared? then s
      else if call.user in w.configs then At(s, c, call.(stage := Configured, config := w.configs[call.user]))
      else At(s, c, call.(stage := Refused(WrongCode)))
    case Flip(_) => if call.stage.Configured? then FlipRows(s, c) else s
    case Increment(_, ok) => if call.stage.Flipped? then CountRows(s, c, ok) else s
    case Claim(_) => if call.stage.Proven? && call.challenge.Some? then ClaimChallenge(s, c) else s
    case Revoke(_, wrote) =>
      if call.stage.Claimed? && call.challenge.Some? && wrote
      then s.(world := w.(revoked := w.revoked[call.challenge.value := w.now + CLAIM_TTL_SECONDS]))
      else s
    case Issue(_) => if call.stage.Claimed? then At(s, c, call.(stage := Session)) else s
    case Fail(_) =>
      if call.stage.Flipped? then CountRows(s, c, false)
      else if call.stage.Session? || call.stage.Done? || call.stage.Refused? then s
      else At(s, c, call.(stage := Refused(StoreError)))
  }

  function Run(cfg: Config, trace: seq<Action>): Db {
    if trace == [] then EMPTY else Step(cfg, Run(cfg, trace[..|trace| - 1]), trace[|trace| - 1])
  }

  lemma RunThen(cfg: Config, trace: seq<Action>, a: Action)
    ensures Run(cfg, trace + [a]) == Step(cfg, Run(cfg, trace), a)
  {
    assert (trace + [a])[..|trace + [a]| - 1] == trace;
  }

  // ---- invariants -----------------------------------------------------------------------

  /** The call's token was accepted and the call is not over, or it claimed. */
  predicate Past(call: Call) {
    call.claimedAt.Some? || call.stage.Validated? || call.stage.Cleared? || call.stage.Configured?
    || call.stage.Flipped? || call.stage.Proven?
  }

  /** What a call's record says about the clock and the revocation store: its token
      was accepted in time, and its claim stays recorded for the claim's whole life. */
  ghost predicate Timely(cfg: Config, w: World, call: Call) {
    && (Past(call) && call.challenge.Some? ==>
            && call.challenge.value in w.challenges
            && w.challenges[call.challenge.value].mintedAt <= call.validatedAt <= w.now
            && call.validatedAt <= w.challenges[call.challenge.value].mintedAt + MFA_CHALLENGE_TTL_SECONDS + cfg.leeway)
    && (call.claimedAt.Some? ==>
          && call.challenge.Some?
          && call.validatedAt <= call.claimedAt.value <= w.now
          && ((call.challenge.value in w.revoked
               && call.claimedAt.value + CLAIM_TTL_SECONDS <= w.revoked[call.challenge.value])
              || call.claimedAt.value + CLAIM_TTL_SECONDS <= w.now))
  }

  /** What a call's record says about its factor: a claim and a session rest on a
      TOTP match or on rows the call itself flipped; rows without an increment mean
      that the call is between its two updates or lost the second. */
  ghost predicate Factored(w: World, call: Call) {
    && (call.stage.Proven? || call.claimedAt.Some? ==> call.totp || call.counted)
    && (call.stage.Claimed? || call.stage.Session? ==> call.claimedAt.Some?)
    && (call.claimedAt.Some? ==> call.stage.Claimed? || call.stage.Session? || call.stage == Refused(StoreError))
    && (call.stage.Asked? || call.stage.Validated? || call.stage.Cleared? || call.stage.Configured? ==>
          call.spent == {} && !call.counted)
    && (call.counted ==> call.spent != {})
    && (call.spent != {} && !call.counted <==> call.stage.Flipped? || call.stage == Refused(CounterLost))
    && (forall r :: r in call.spent ==> r in w.flipped && w.flipped[r] == call.config)
  }

  /** Flipped rows are rows that were inserted, none is unused again, and no claim is
      kept longer than its life from now. */
  ghost predicate StoreOk(w: World) {
    && w.codes.Keys <= w.drawn && w.flipped.Keys <= w.drawn
    && (forall r :: r in w.codes && r in w.flipped ==> w.codes[r].used)
    && (forall r :: r in w.codes && w.codes[r].used ==> r in w.flipped && w.flipped[r] == w.codes[r].config)
    && (forall ch :: ch in w.revoked ==> w.revoked[ch] <= w.now + CLAIM_TTL_SECONDS)
    && (forall ch :: ch in w.challenges ==> w.challenges[ch].mintedAt <= w.now)
  }

  predicate SameClaim(a: Call, b: Call) {
    a.challenge.Some? && a.challenge == b.challenge && a.claimedAt.Some? && b.claimedAt.Some?
  }

  /** A validation that saw the store happened before the other call's claim, or
      after that claim was dropped. */
  predicate SawNoClaim(a: Call, b: Call) {
    a.challenge.Some? && a.challenge == b.challenge && Past(a) && !a.blind && b.claimedAt.Some? ==>
      a.validatedAt <= b.claimedAt.value || b.claimedAt.value + CLAIM_TTL_SECONDS <= a.validatedAt
  }

  /** Two calls spend different rows, and two claims of one challenge are a claim's
      whole life apart. */
  ghost predicate Apart(a: Call, b: Call) {
    && a.spent !! b.spent
    && SawNoClaim(a, b) && SawNoClaim(b, a)
    && (SameClaim(a, b) ==>
          || a.claimedAt.value + CLAIM_TTL_SECONDS <= b.claimedAt.value
          || b.claimedAt.value + CLAIM_TTL_SECONDS <= a.claimedAt.value)
  }

  ghost predicate Pairwise(calls: map<CallId, Call>) {
    forall c, o :: c in calls && o in calls && c != o ==> Apart(calls[c], calls[o])
  }

  ghost predicate Good(cfg: Config, s: Db) {
    && StoreOk(s.world)
    && Each(cfg, s.world, s.calls)
    && Pairwise(s.calls)
  }

  // ---- every step, every run ---------------------------------------------------------------

  /** The clock goes on, challenges and flips stay, and a claim is dropped only when
      its life is over. */
  ghost predicate Onward(w: World, v: World) {
    && w.now <= v.now
    && (forall ch :: ch in w.challenges ==> ch in v.challenges && v.challenges[ch] == w.challenges[ch])
    && (forall r :: r in w.flipped ==> r in v.flipped && v.flipped[r] == w.flipped[r])
    && (forall ch :: ch in w.revoked ==>
          (ch in v.revoked && w.revoked[ch] <= v.revoked[ch]) || w.revoked[ch] <= v.now)
  }

  lemma CallStays(cfg: Config, w: World, v: World, call: Call)
    requires Onward(w, v) && Timely(cfg, w, call) && Factored(w, call)
    ensures Timely(cfg, v, call) && Factored(v, call)
  {
  }

  lemma FlipMovesOnward(s: Db, c: CallId)
    requires c in s.calls && StoreOk(s.world)
    ensures Onward(s.world, FlipRows(s, c).world) && StoreOk(FlipRows(s, c).world)
  {
  }

  lemma CallMovesOnward(cfg: Config, s: Db, a: Action)
    requires StoreOk(s.world) && OfCall(a) && a.c in s.calls
    ensures Onward(s.world, CallStep(cfg, s, a).world) && StoreOk(CallStep(cfg, s, a).world)
  {
    if a.Flip? {
      FlipMovesOnward(s, a.c);
    }
  }

  lemma StepMovesOnward(cfg: Config, s: Db, a: Action)
    requires StoreOk(s.world)
    ensures Onward(s.world, Step(cfg, s, a).world) && StoreOk(Step(cfg, s, a).world)
  {
    if OfCall(a) && a.c in s.calls {
      CallMovesOnward(cfg, s, a);
    }
  }

  /** Only validation and the claim write times. */
  lemma TimesKept(cfg: Config, s: Db, a: Action)
    requires OfCall(a) && a.c in s.calls && !a.Validate? && !a.Claim?
    ensures a.c in CallStep(cfg, s, a).calls
    ensures var before, after := s.calls[a.c], CallStep(cfg, s, a).calls[a.c];
            && after.challenge == before.challenge && after.validatedAt == before.validatedAt
            && after.claimedAt == before.claimedAt && after.blind == before.blind && (Past(after) ==> Past(before))
  {
  }

  lemma OwnCallTimely(cfg: Config, s: Db, a: Action)
    requires StoreOk(s.world) && OfCall(a) && a.c in s.calls
    requires Timely(cfg, s.world, s.calls[a.c]) && Factored(s.world, s.calls[a.c])
    ensures a.c in CallStep(cfg, s, a).calls && Timely(cfg, CallStep(cfg, s, a).world, CallStep(cfg, s, a).calls[a.c])
  {
    if a.Validate? || a.Claim? {
      GateTimely(cfg, s, a);
    } else {
      TimesKept(cfg, s, a);
      CallMovesOnward(cfg, s, a);
      CallStays(cfg, s.world, CallStep(cfg, s, a).world, s.calls[a.c]);
    }
  }

  lemma GateTimely(cfg: Config, s: Db, a: Action)
    requires StoreOk(s.world) && (a.Validate? || a.Claim?) && a.c in s.calls
    requires Timely(cfg, s.world, s.calls[a.c]) && Factored(s.world, s.calls[a.c])
    ensures a.c in CallStep(cfg, s, a).calls && Timely(cfg, CallStep(cfg, s, a).world, CallStep(cfg, s, a).calls[a.c])
  {
  }

  lemma OwnCallFactored(cfg: Config, s: Db, a: Action)
    requires StoreOk(s.world) && OfCall(a) && a.c in s.calls
    requires Factored(s.world, s.calls[a.c])
    ensures a.c in CallStep(cfg, s, a).calls && Factored(CallStep(cfg, s, a).world, CallStep(cfg, s, a).calls[a.c])
  {
    if a.Flip? {
      FlipFactored(cfg, s, a.c);
    } else if a.Increment? || a.Fail? {
      CountFactored(cfg, s, a);
    } else {
      assert CallStep(cfg, s, a).world.flipped == s.world.flipped;
    }
  }

  lemma FlipFactored(cfg: Config, s: Db, c: CallId)
    requires StoreOk(s.world) && c in s.calls && Factored(s.world, s.calls[c])
    ensures c in CallStep(cfg, s, Flip(c)).calls
         && Factored(CallStep(cfg, s, Flip(c)).world, CallStep(cfg, s, Flip(c)).calls[c])
  {
  }

  lemma CountFactored(cfg: Config, s: Db, a: Action)
    requires (a.Increment? || a.Fail?) && a.c in s.calls
    requires Factored(s.world, s.calls[a.c])
    ensures a.c in CallStep(cfg, s, a).calls && Factored(CallStep(cfg, s, a).world, CallStep(cfg, s, a).calls[a.c])
  {
  }

  lemma OthersUntouched(cfg: Config, s: Db, a: Action)
    requires OfCall(a) && a.c in s.calls
    ensures CallStep(cfg, s, a).calls == s.calls[a.c := CallStep(cfg, s, a).calls[a.c]]
  {
  }

  lemma OwnCallApart(cfg: Config, s: Db, a: Action, o: CallId)
    requires Good(cfg, s) && OfCall(a) && a.c in s.calls && o in s.calls && o != a.c
    ensures a.c in CallStep(cfg, s, a).calls && Apart(CallStep(cfg, s, a).calls[a.c], s.calls[o])
  {
    assert Apart(s.calls[a.c], s.calls[o]);
    if a.Flip? {
      FlippedApart(cfg, s, a.c, o);
    } else if a.Claim? {
      ClaimedApart(cfg, s, a.c, o);
    } else if a.Validate? {
      ValidatedApart(cfg, s, a, o);
    } else {
      TimesKept(cfg, s, a);
      assert CallStep(cfg, s, a).calls[a.c].spent == s.calls[a.c].spent;
    }
  }

  lemma ValidatedApart(cfg: Config, s: Db, a: Action, o: CallId)
    requires Good(cfg, s) && a.Validate? && a.c in s.calls && o in s.calls && o != a.c
    ensures a.c in CallStep(cfg, s, a).calls && Apart(CallStep(cfg, s, a).calls[a.c], s.calls[o])
  {
    assert Apart(s.calls[a.c], s.calls[o]) && Timely(cfg, s.world, s.calls[o]) && Factored(s.world, s.calls[a.c]);
  }

  /** The rows it flips were unused, so no other call spent them. */
  lemma FlippedApart(cfg: Config, s: Db, c: CallId, o: CallId)
    requires Good(cfg, s) && c in s.calls && o in s.calls && o != c
    ensures c in CallStep(cfg, s, Flip(c)).calls && Apart(CallStep(cfg, s, Flip(c)).calls[c], s.calls[o])
  {
    assert Apart(s.calls[c], s.calls[o]) && Factored(s.world, s.calls[o]);
    TimesKept(cfg, s, Flip(c));
  }

  /** A claim that succeeds finds no earlier one whose life is not over. */
  lemma ClaimedApart(cfg: Config, s: Db, c: CallId, o: CallId)
    requires Good(cfg, s) && c in s.calls && o in s.calls && o != c
    ensures c in CallStep(cfg, s, Claim(c)).calls && Apart(CallStep(cfg, s, Claim(c)).calls[c], s.calls[o])
  {
    assert Apart(s.calls[c], s.calls[o]) && Timely(cfg, s.world, s.calls[o]) && Timely(cfg, s.world, s.calls[c]);
  }

  ghost predicate Each(cfg: Config, w: World, calls: map<CallId, Call>) {
    forall c :: c in calls ==> Timely(cfg, w, calls[c]) && Factored(w, calls[c])
  }

  lemma EachStays(cfg: Config, w: World, v: World, calls: map<CallId, Call>)
    requires Onward(w, v) && Each(cfg, w, calls)
    ensures Each(cfg, v, calls)
  {
    forall c | c in calls
      ensures Timely(cfg, v, calls[c]) && Factored(v, calls[c])
    {
      CallStays(cfg, w, v, calls[c]);
    }
  }

  /** One call's record moved, the world went on, and the call is still apart from
      the others. */
  lemma GoodAfter(cfg: Config, s: Db, t: Db, c: CallId)
    requires Good(cfg, s) && c in s.calls && c in t.calls && t.calls == s.calls[c := t.calls[c]]
    requires Onward(s.world, t.world) && StoreOk(t.world)
    requires Timely(cfg, t.world, t.calls[c]) && Factored(t.world, t.calls[c])
    requires forall o :: o in s.calls && o != c ==> Apart(t.calls[c], s.calls[o])
    ensures Good(cfg, t)
  {
    EachStays(cfg, s.world, t.world, s.calls);
  }

  lemma CallStepKeepsGood(cfg: Config, s: Db, a: Action)
    requires Good(cfg, s) && OfCall(a) && a.c in s.calls
    ensures Good(cfg, CallStep(cfg, s, a))
  {
    var t := CallStep(cfg, s, a);
    assert Onward(s.world, t.world) && StoreOk(t.world) by { CallMovesOnward(cfg, s, a); }
    assert a.c in t.calls && Timely(cfg, t.world, t.calls[a.c]) by { OwnCallTimely(cfg, s, a); }
    assert Factored(t.world, t.calls[a.c]) by { OwnCallFactored(cfg, s, a); }
    assert t.calls == s.calls[a.c := t.calls[a.c]] by { OthersUntouched(cfg, s, a); }
    forall o | o in s.calls && o != a.c
      ensures Apart(t.calls[a.c], s.calls[o])
    {
      OwnCallApart(cfg, s, a, o);
    }
    GoodAfter(cfg, s, t, a.c);
  }

  lemma WorldStepKeepsGood(cfg: Config, s: Db, a: Action)
    requires Good(cfg, s) && !OfCall(a) && !a.Ask?
    ensures Good(cfg, Step(cfg, s, a))
  {
    StepMovesOnward(cfg, s, a);
    EachStays(cfg, s.world, Step(cfg, s, a).world, s.calls);
  }

  lemma AskKeepsGood(cfg: Config, s: Db, a: Action)
    requires Good(cfg, s) && a.Ask? && a.c !in s.calls
    ensures Good(cfg, Step(cfg, s, a))
  {
    var call := Step(cfg, s, a).calls[a.c];
    assert Timely(cfg, s.world, call) && Factored(s.world, call);
    assert forall o :: o in s.calls ==> Apart(call, s.calls[o]) && Apart(s.calls[o], call);
  }

  lemma StepKeepsGood(cfg: Config, s: Db, a: Action)
    requires Good(cfg, s)
    ensures Good(cfg, Step(cfg, s, a))
  {
    if OfCall(a) && a.c in s.calls {
      CallStepKeepsGood(cfg, s, a);
      assert Step(cfg, s, a) == CallStep(cfg, s, a);
    } else if a.Ask? && a.c !in s.calls {
      AskKeepsGood(cfg, s, a);
    } else if OfCall(a) || a.Ask? {
      assert Step(cfg, s, a) == s;
    } else {
      WorldStepKeepsGood(cfg, s, a);
    }
  }

  lemma {:induction false} RunIsGood(cfg: Config, trace: seq<Action>)
    ensures Good(cfg, Run(cfg, trace))
  {
    if trace != [] {
      RunIsGood(cfg, trace[..|trace| - 1]);
      StepKeepsGood(cfg, Run(cfg, trace[..|trace| - 1]), trace[|trace| - 1]);
    }
  }

  // ---- one session per challenge ------------------------------------------------------------

  /** The seconds from the acceptance of the token to the claim. */
  function Took(call: Call): int
    requires call.claimedAt.Some?
  {
    call.claimedAt.value - call.validatedAt
  }

  /** The second of two claims of one challenge was made by a request that was under
      way for as long as a claim lives, or, if its own revocation read failed, for the
      claim's hour beyond the challenge's life, less the leeway. */
  lemma SecondClaimIsLate(cfg: Config, trace: seq<Action>, c: CallId, o: CallId)
    requires c in Run(cfg, trace).calls && o in Run(cfg, trace).calls && c != o
    requires SameClaim(Run(cfg, trace).calls[c], Run(cfg, trace).calls[o])
    requires cfg.leeway < 3600
    ensures exists x | x in {c, o} ::
              var call := Run(cfg, trace).calls[x];
              Took(call) >= (if call.blind then 3600 - cfg.leeway else 3900)
  {
    RunIsGood(cfg, trace);
    var s := Run(cfg, trace);
    assert Apart(s.calls[c], s.calls[o]);
    assert Timely(cfg, s.world, s.calls[c]) && Timely(cfg, s.world, s.calls[o]);
    var x := if s.calls[c].claimedAt.value <= s.calls[o].claimedAt.value then o else c;
    assert x in {c, o};
  }

  predicate Prompt(cfg: Config, call: Call) {
    call.claimedAt.Some? ==> Took(call) < (if call.blind then 3600 - cfg.leeway else 3900)
  }

  /** When neither of two redemptions takes its limit, however long others take, one
      challenge gives at most one of them a session, and a session rests on a TOTP
      match or on codes that no other session spent. */
  lemma OneSessionPerChallenge(cfg: Config, trace: seq<Action>, c: CallId, o: CallId)
    requires cfg.leeway < 3600 && c in Run(cfg, trace).calls && o in Run(cfg, trace).calls
    requires Run(cfg, trace).calls[c].stage.Session? && Run(cfg, trace).calls[o].stage.Session?
    ensures var s := Run(cfg, trace);
            && s.calls[c].challenge.Some?
            && (s.calls[c].totp || s.calls[c].spent != {})
            && (c != o ==> s.calls[c].spent !! s.calls[o].spent)
            && (Prompt(cfg, s.calls[c]) && Prompt(cfg, s.calls[o]) && s.calls[c].challenge == s.calls[o].challenge ==> c == o)
  {
    RunIsGood(cfg, trace);
    var s := Run(cfg, trace);
    assert Timely(cfg, s.world, s.calls[c]) && Factored(s.world, s.calls[c]) && Factored(s.world, s.calls[o]);
    if c != o {
      assert Apart(s.calls[c], s.calls[o]);
      if s.calls[c].challenge == s.calls[o].challenge {
        SecondClaimIsLate(cfg, trace, c, o);
      }
    }
  }

  // ---- codes and their counter ------------------------------------------------------------

  function Spenders(s: Db, g: ConfigId): set<CallId> {
    set c | c in s.calls && s.calls[c].spent != {} && s.calls[c].config == g
  }

  function Counted(s: Db, g: ConfigId): set<CallId> {
    set c | c in s.calls && s.calls[c].counted && s.calls[c].config == g
  }

  /** Calls between their two updates, or whose second update failed. */
  function Uncounted(s: Db, g: ConfigId): set<CallId> {
    set c | c in s.calls && s.calls[c].config == g && (s.calls[c].stage.Flipped? || s.calls[c].stage == Refused(CounterLost))
  }

  function FlippedRows(w: World, g: ConfigId): set<RowId> { set r | r in w.flipped && w.flipped[r] == g }

  ghost predicate FlipsOwned(s: Db) {
    forall r :: r in s.world.flipped ==> exists c :: c in s.calls && r in s.calls[c].spent
  }

  /** Every flip has its call, and the counter counts the calls that incremented it. */
  ghost predicate Booked(s: Db) {
    && FlipsOwned(s)
    && (forall g :: s.world.counters[g] == |Counted(s, g)|)
  }

  lemma StepKeepsBooked(cfg: Config, s: Db, a: Action)
    requires Good(cfg, s) && Booked(s)
    ensures Booked(Step(cfg, s, a))
  {
    StepKeepsFlipsOwned(cfg, s, a);
    forall g
      ensures Step(cfg, s, a).world.counters[g] == |Counted(Step(cfg, s, a), g)|
    {
      CounterKept(cfg, s, a, g);
    }
  }

  /** A call's own step never takes back what it spent; only the counter's UPDATE
      counts it. */
  lemma OwnRecordKept(cfg: Config, s: Db, a: Action)
    requires OfCall(a) && a.c in s.calls && Factored(s.world, s.calls[a.c])
    ensures a.c in CallStep(cfg, s, a).calls
    ensures var before, after := s.calls[a.c], CallStep(cfg, s, a).calls[a.c];
            && before.spent <= after.spent
            && (!a.Increment? ==> after.counted == before.counted && (before.counted ==> after.config == before.config))
  {
  }

  lemma RecordKept(cfg: Config, s: Db, a: Action, c: CallId)
    requires c in s.calls && Factored(s.world, s.calls[c])
    ensures c in Step(cfg, s, a).calls
    ensures var before, after := s.calls[c], Step(cfg, s, a).calls[c];
            && before.spent <= after.spent
            && (!a.Increment? ==> after.counted == before.counted && (before.counted ==> after.config == before.config))
  {
    if OfCall(a) && a.c in s.calls {
      OthersUntouched(cfg, s, a);
      if a.c == c {
        OwnRecordKept(cfg, s, a);
      }
    }
  }

  lemma NewFlips(cfg: Config, s: Db, a: Action, r: RowId)
    requires r in Step(cfg, s, a).world.flipped && r !in s.world.flipped
    ensures a.Flip? && a.c in Step(cfg, s, a).calls && r in Step(cfg, s, a).calls[a.c].spent
  {
  }

  lemma StepKeepsFlipsOwned(cfg: Config, s: Db, a: Action)
    requires Good(cfg, s) && Booked(s)
    ensures FlipsOwned(Step(cfg, s, a))
  {
    var after := Step(cfg, s, a);
    forall r | r in after.world.flipped
      ensures exists c :: c in after.calls && r in after.calls[c].spent
    {
      if r in s.world.flipped {
        var c :| c in s.calls && r in s.calls[c].spent;
        RecordKept(cfg, s, a, c);
      } else {
        NewFlips(cfg, s, a, r);
      }
    }
  }

  lemma CounterKept(cfg: Config, s: Db, a: Action, g: ConfigId)
    requires Good(cfg, s) && s.world.counters[g] == |Counted(s, g)|
    ensures Step(cfg, s, a).world.counters[g] == |Counted(Step(cfg, s, a), g)|
  {
    if a.Increment? {
      IncrementCounts(cfg, s, a, g);
    } else {
      var after := Step(cfg, s, a);
      CounterUnmoved(cfg, s, a);
      forall c | c in s.calls
        ensures c in Counted(after, g) <==> c in Counted(s, g)
      {
        RecordKept(cfg, s, a, c);
      }
      assert Counted(after, g) == Counted(s, g);
    }
  }

  lemma CounterUnmoved(cfg: Config, s: Db, a: Action)
    requires !a.Increment?
    ensures Step(cfg, s, a).world.counters == s.world.counters
    ensures forall c :: c in Step(cfg, s, a).calls && c !in s.calls ==> !Step(cfg, s, a).calls[c].counted
  {
    if OfCall(a) && a.c in s.calls {
      OthersUntouched(cfg, s, a);
    }
  }

  lemma IncrementCounts(cfg: Config, s: Db, a: Action, g: ConfigId)
    requires Good(cfg, s) && s.world.counters[g] == |Counted(s, g)| && a.Increment?
    ensures Step(cfg, s, a).world.counters[g] == |Counted(Step(cfg, s, a), g)|
  {
    if a.c in s.calls && s.calls[a.c].stage.Flipped? {
      assert Factored(s.world, s.calls[a.c]);
      CountedAfter(s, a.c, a.ok, g);
    } else {
      assert Step(cfg, s, a) == s;
    }
  }

  lemma CountedAfter(s: Db, c: CallId, ok: bool, g: ConfigId)
    requires c in s.calls && !s.calls[c].counted
    ensures var counts := ok && s.calls[c].config == g;
            && Counted(CountRows(s, c, ok), g) == (if counts then Counted(s, g) + {c} else Counted(s, g))
            && c !in Counted(s, g)
            && CountRows(s, c, ok).world.counters[g] == s.world.counters[g] + (if counts then 1 else 0)
  {
  }

  lemma {:induction false} RunIsBooked(cfg: Config, trace: seq<Action>)
    ensures Booked(Run(cfg, trace))
  {
    if trace == [] {
      assert forall g :: Counted(EMPTY, g) == {};
    } else {
      RunIsGood(cfg, trace[..|trace| - 1]);
      RunIsBooked(cfg, trace[..|trace| - 1]);
      StepKeepsBooked(cfg, Run(cfg, trace[..|trace| - 1]), trace[|trace| - 1]);
    }
  }

  function Union(f: map<CallId, set<RowId>>): set<RowId> { set c, r | c in f && r in f[c] :: r }

  ghost predicate Disjoint(f: map<CallId, set<RowId>>) {
    && (forall c :: c in f ==> f[c] != {})
    && (forall c, o :: c in f && o in f && c != o ==> f[c] !! f[o])
  }

  ghost predicate AllSingle(f: map<CallId, set<RowId>>) { forall c :: c in f ==> |f[c]| == 1 }

  lemma RestIsDisjoint(f: map<CallId, set<RowId>>, c: CallId, rest: map<CallId, set<RowId>>)
    requires Disjoint(f) && c in f && rest == f - {c}
    ensures Disjoint(rest) && f.Keys == rest.Keys + {c} && c !in rest
    ensures AllSingle(f) <==> AllSingle(rest) && |f[c]| == 1
  {
    assert forall o :: o in f && o != c ==> o in rest && rest[o] == f[o];
  }

  lemma UnionSplits(f: map<CallId, set<RowId>>, c: CallId, rest: map<CallId, set<RowId>>)
    requires Disjoint(f) && c in f && rest == f - {c}
    ensures Union(f) == Union(rest) + f[c] && Union(rest) !! f[c]
  {
    forall r | r in Union(f)
      ensures r in Union(rest) + f[c]
    {
      var o :| o in f && r in f[o];
      assert o != c ==> o in rest && r in rest[o];
    }
    forall r | r in Union(rest)
      ensures r in Union(f) && r !in f[c]
    {
      var o :| o in rest && r in rest[o];
      assert o in f && r in f[o] && o != c;
    }
  }

  lemma UnionRemove(f: map<CallId, set<RowId>>, c: CallId, rest: map<CallId, set<RowId>>)
    requires Disjoint(f) && c in f && rest == f - {c}
    ensures Disjoint(rest) && |f.Keys| == |rest.Keys| + 1
    ensures |Union(f)| == |Union(rest)| + |f[c]| && |f[c]| >= 1
    ensures AllSingle(f) <==> AllSingle(rest) && |f[c]| == 1
  {
    RestIsDisjoint(f, c, rest);
    UnionSplits(f, c, rest);
    AtLeastOne(f[c]);
  }

  lemma AtLeastOne(rows: set<RowId>)
    requires rows != {}
    ensures |rows| >= 1
  {
    var r :| r in rows;
    assert rows == rows - {r} + {r};
  }

  /** Disjoint non-empty sets have at least as many elements as there are sets, and
      exactly as many when each has one. */
  lemma {:induction false} UnionAtLeast(f: map<CallId, set<RowId>>)
    requires Disjoint(f)
    ensures |Union(f)| >= |f.Keys|
    ensures |Union(f)| == |f.Keys| <==> AllSingle(f)
    decreases |f.Keys|
  {
    if f.Keys == {} {
      assert Union(f) == {};
    } else {
      var c :| c in f.Keys;
      UnionRemove(f, c, f - {c});
      UnionAtLeast(f - {c});
    }
  }

  function SpentBy(s: Db, g: ConfigId): map<CallId, set<RowId>> { map c | c in Spenders(s, g) :: s.calls[c].spent }

  /** In every run: a configuration's rows that were ever used are at least the
      counter plus the redemptions that are between their two updates or lost the
      second; and they are exactly that many if and only if every redemption's
      UPDATE matched a single row. */
  lemma CounterTracksCodes(cfg: Config, trace: seq<Action>, g: ConfigId)
    ensures var s := Run(cfg, trace);
            && |FlippedRows(s.world, g)| >= s.world.counters[g] + |Uncounted(s, g)|
            && (|FlippedRows(s.world, g)| == s.world.counters[g] + |Uncounted(s, g)| <==> AllSingle(SpentBy(s, g)))
  {
    RunIsGood(cfg, trace);
    RunIsBooked(cfg, trace);
    CounterTracksFlips(cfg, Run(cfg, trace), g);
  }

  lemma CounterTracksFlips(cfg: Config, s: Db, g: ConfigId)
    requires Good(cfg, s) && Booked(s)
    ensures |FlippedRows(s.world, g)| >= s.world.counters[g] + |Uncounted(s, g)|
    ensures |FlippedRows(s.world, g)| == s.world.counters[g] + |Uncounted(s, g)| <==> AllSingle(SpentBy(s, g))
  {
    SpendersAreCountedOrNot(cfg, s, g);
    SpentIsFlipped(cfg, s, g);
    assert SpentBy(s, g).Keys == Spenders(s, g);
    UnionAtLeast(SpentBy(s, g));
  }

  lemma SpendersAreCountedOrNot(cfg: Config, s: Db, g: ConfigId)
    requires Good(cfg, s)
    ensures |Spenders(s, g)| == |Counted(s, g)| + |Uncounted(s, g)|
  {
    assert forall c :: c in s.calls ==> Factored(s.world, s.calls[c]);
    assert Spenders(s, g) == Counted(s, g) + Uncounted(s, g);
    assert Counted(s, g) !! Uncounted(s, g);
  }

  lemma SpentIsFlipped(cfg: Config, s: Db, g: ConfigId)
    requires Good(cfg, s) && Booked(s)
    ensures Disjoint(SpentBy(s, g)) && Union(SpentBy(s, g)) == FlippedRows(s.world, g)
  {
    assert forall c :: c in s.calls ==> Factored(s.world, s.calls[c]);
    forall c, o | c in SpentBy(s, g) && o in SpentBy(s, g) && c != o
      ensures SpentBy(s, g)[c] !! SpentBy(s, g)[o]
    {
      assert Apart(s.calls[c], s.calls[o]);
    }
    forall r | r in FlippedRows(s.world, g)
      ensures r in Union(SpentBy(s, g))
    {
      var c :| c in s.calls && r in s.calls[c].spent;
      assert c in SpentBy(s, g);
    }
  }

  /** No two rows of one configuration have the same hash. */
  ghost predicate Distinct(codes: map<RowId, Code>) {
    forall r, q :: r in codes && q in codes && codes[r].config == codes[q].config && codes[r].hash == codes[q].hash ==> r == q
  }

  ghost predicate FreshHash(codes: map<RowId, Code>, a: Action) {
    a.InsertCode? ==> forall q :: q in codes ==> codes[q].config != a.config || codes[q].hash != a.hash
  }

  /** Every code was inserted under a hash that its configuration did not have. */
  ghost predicate FreshInserts(cfg: Config, trace: seq<Action>) {
    trace == [] ||
    (FreshInserts(cfg, trace[..|trace| - 1]) && FreshHash(Run(cfg, trace[..|trace| - 1]).world.codes, trace[|trace| - 1]))
  }

  ghost predicate SpendOne(calls: map<CallId, Call>) { forall c :: c in calls ==> |calls[c].spent| <= 1 }

  lemma StepKeepsDistinct(cfg: Config, s: Db, a: Action)
    requires Distinct(s.world.codes) && FreshHash(s.world.codes, a) && SpendOne(s.calls)
    ensures Distinct(Step(cfg, s, a).world.codes) && SpendOne(Step(cfg, s, a).calls)
  {
    if OfCall(a) && a.c in s.calls {
      CallKeepsDistinct(cfg, s, a);
    }
  }

  lemma CallKeepsDistinct(cfg: Config, s: Db, a: Action)
    requires Distinct(s.world.codes) && SpendOne(s.calls) && OfCall(a) && a.c in s.calls
    ensures Distinct(CallStep(cfg, s, a).world.codes) && SpendOne(CallStep(cfg, s, a).calls)
  {
    if a.Flip? {
      FlipKeepsDistinct(s, a.c);
    } else {
      OthersUntouched(cfg, s, a);
      assert CallStep(cfg, s, a).calls[a.c].spent == s.calls[a.c].spent;
      assert CallStep(cfg, s, a).world.codes == s.world.codes;
    }
  }

  lemma FlipKeepsDistinct(s: Db, c: CallId)
    requires Distinct(s.world.codes) && SpendOne(s.calls) && c in s.calls
    ensures Distinct(FlipRows(s, c).world.codes) && SpendOne(FlipRows(s, c).calls)
  {
    MatchesOne(s.world.codes, s.calls[c].config, s.calls[c].hash);
  }

  lemma MatchesOne(codes: map<RowId, Code>, config: ConfigId, hash: Hash)
    requires Distinct(codes)
    ensures |Matching(codes, config, hash)| <= 1
  {
    var rows := Matching(codes, config, hash);
    if rows != {} {
      var r :| r in rows;
      assert rows == {r};
    }
  }

  lemma {:induction false} FreshInsertsSpendOne(cfg: Config, trace: seq<Action>)
    requires FreshInserts(cfg, trace)
    ensures Distinct(Run(cfg, trace).world.codes) && SpendOne(Run(cfg, trace).calls)
  {
    if trace != [] {
      FreshInsertsSpendOne(cfg, trace[..|trace| - 1]);
      StepKeepsDistinct(cfg, Run(cfg, trace[..|trace| - 1]), trace[|trace| - 1]);
    }
  }

  lemma FlippedRowStays(cfg: Config, s: Db, a: Action)
    requires s.world.flipped.Keys <= s.world.codes.Keys && !a.DeleteCodes?
    ensures Step(cfg, s, a).world.flipped.Keys <= Step(cfg, s, a).world.codes.Keys
  {
  }

  lemma {:induction false} FlippedRowsStay(cfg: Config, trace: seq<Action>)
    requires forall a :: a in trace ==> !a.DeleteCodes?
    ensures Run(cfg, trace).world.flipped.Keys <= Run(cfg, trace).world.codes.Keys
  {
    if trace != [] {
      var most, last := trace[..|trace| - 1], trace[|trace| - 1];
      FlippedRowsStay(cfg, most);
      FlippedRowStays(cfg, Run(cfg, most), last);
    }
  }

  function UsedRows(w: World, g: ConfigId): set<RowId> {
    set r | r in w.codes && w.codes[r].used && w.codes[r].config == g
  }

  /** Without deletions and without equal hashes: the used codes are the counter plus
      the redemptions between their two updates or whose second update was lost. */
  lemma UsedCodesMatchCounter(cfg: Config, trace: seq<Action>, g: ConfigId)
    requires FreshInserts(cfg, trace) && forall a :: a in trace ==> !a.DeleteCodes?
    ensures var s := Run(cfg, trace);
            |UsedRows(s.world, g)| == s.world.counters[g] + |Uncounted(s, g)|
  {
    var s := Run(cfg, trace);
    RunIsGood(cfg, trace);
    FlippedRowsStay(cfg, trace);
    FreshInsertsSpendOne(cfg, trace);
    CounterTracksCodes(cfg, trace, g);
    assert UsedRows(s.world, g) == FlippedRows(s.world, g);
    forall c | c in SpentBy(s, g)
      ensures |SpentBy(s, g)[c]| == 1
    {
      AtLeastOne(s.calls[c].spent);
    }
  }

  /** Two unused rows with the hash of one code: redeeming it leaves the counter short
      for good. */
  lemma EqualHashesDrift(cfg: Config, trace: seq<Action>, c: CallId)
    requires var s := Run(cfg, trace);
             && c in s.calls && s.calls[c].stage.Configured?
             && |Matching(s.world.codes, s.calls[c].config, s.calls[c].hash)| > 1
    ensures var s, g := Run(cfg, trace + [Flip(c)]), Run(cfg, trace).calls[c].config;
            |FlippedRows(s.world, g)| > s.world.counters[g] + |Uncounted(s, g)|
  {
    RunThen(cfg, trace, Flip(c));
    var before, after := Run(cfg, trace), Run(cfg, trace + [Flip(c)]);
    var g, rows := before.calls[c].config, Matching(before.world.codes, before.calls[c].config, before.calls[c].hash);
    CounterTracksCodes(cfg, trace + [Flip(c)], g);
    assert rows != {};
    assert after == FlipRows(before, c);
    assert SpentBy(after, g)[c] == rows;
  }

  // ---- whose codes and whose challenge ---------------------------------------------------------

  /** The row was inserted with this configuration and hash. */
  ghost predicate InsertedAs(cfg: Config, trace: seq<Action>, r: RowId, config: ConfigId, hash: Hash) {
    exists i :: 0 <= i < |trace| && trace[i] == InsertCode(r, config, hash) && r !in Run(cfg, trace[..i]).world.drawn
  }

  lemma InsertionStays(cfg: Config, trace: seq<Action>, more: seq<Action>, r: RowId, config: ConfigId, hash: Hash)
    requires trace <= more && InsertedAs(cfg, trace, r, config, hash)
    ensures InsertedAs(cfg, more, r, config, hash)
  {
    var i :| 0 <= i < |trace| && trace[i] == InsertCode(r, config, hash) && r !in Run(cfg, trace[..i]).world.drawn;
    assert more[..i] == trace[..i] && more[i] == trace[i];
  }

  /** The configuration a call read is its user's, and its challenge was minted for
      its user. */
  ghost predicate OfItsUser(w: World, call: Call) {
    && (call.stage.Configured? || call.spent != {} ==> call.user in w.configs && call.config == w.configs[call.user])
    && (Past(call) && call.challenge.Some? ==>
          call.challenge.value in w.challenges && w.challenges[call.challenge.value].user == call.user)
  }

  /** Every row is what was inserted, and a call spent rows of its user's configuration
      with its hash. */
  ghost predicate RowsTraced(cfg: Config, trace: seq<Action>, w: World) {
    forall r :: r in w.codes ==> InsertedAs(cfg, trace, r, w.codes[r].config, w.codes[r].hash)
  }

  ghost predicate SpentTraced(cfg: Config, trace: seq<Action>, call: Call) {
    forall r :: r in call.spent ==> InsertedAs(cfg, trace, r, call.config, call.hash)
  }

  ghost predicate Traced(cfg: Config, trace: seq<Action>, s: Db) {
    && RowsTraced(cfg, trace, s.world)
    && forall c :: c in s.calls ==> OfItsUser(s.world, s.calls[c]) && SpentTraced(cfg, trace, s.calls[c])
  }

  /** Enrolments and challenges stay as they are, and rows keep what was inserted. */
  ghost predicate Keeps(w: World, v: World) {
    && (forall u :: u in w.configs ==> u in v.configs && v.configs[u] == w.configs[u])
    && (forall ch :: ch in w.challenges ==> ch in v.challenges && v.challenges[ch] == w.challenges[ch])
    && (forall r :: r in v.codes && r in w.codes ==> v.codes[r].config == w.codes[r].config && v.codes[r].hash == w.codes[r].hash)
  }

  lemma CallStepKeeps(cfg: Config, s: Db, a: Action)
    requires OfCall(a) && a.c in s.calls
    ensures Keeps(s.world, CallStep(cfg, s, a).world)
    ensures CallStep(cfg, s, a).world.codes.Keys == s.world.codes.Keys
  {
  }

  /** Only an insertion brings in a row, and one with a fresh id. */
  ghost predicate Brings(w: World, v: World, a: Action) {
    forall r :: r in v.codes && r !in w.codes ==>
      a.InsertCode? && a.row == r && r !in w.drawn && v.codes[r] == Code(a.config, a.hash, false)
  }

  lemma InsertKeeps(cfg: Config, s: Db, a: Action)
    requires s.world.codes.Keys <= s.world.drawn && a.InsertCode?
    ensures Keeps(s.world, Step(cfg, s, a).world) && Brings(s.world, Step(cfg, s, a).world, a)
  {
  }

  lemma StepKeeps(cfg: Config, s: Db, a: Action)
    requires s.world.codes.Keys <= s.world.drawn
    ensures Keeps(s.world, Step(cfg, s, a).world) && Brings(s.world, Step(cfg, s, a).world, a)
  {
    if a.InsertCode? {
      InsertKeeps(cfg, s, a);
    } else if OfCall(a) {
      if a.c in s.calls {
        CallStepKeeps(cfg, s, a);
      }
    } else {
      OtherKeeps(cfg, s, a);
    }
  }

  lemma OtherKeeps(cfg: Config, s: Db, a: Action)
    requires !OfCall(a) && !a.InsertCode?
    ensures Keeps(s.world, Step(cfg, s, a).world) && Brings(s.world, Step(cfg, s, a).world, a)
  {
  }

  lemma OwnCallOfItsUser(cfg: Config, s: Db, a: Action)
    requires OfCall(a) && a.c in s.calls && OfItsUser(s.world, s.calls[a.c]) && Factored(s.world, s.calls[a.c])
    ensures a.c in CallStep(cfg, s, a).calls
    ensures OfItsUser(s.world, CallStep(cfg, s, a).calls[a.c])
  {
  }

  /** What a call newly spends are rows of the table that its configuration and its
      hash select. */
  ghost predicate SpendsOnly(w: World, before: Call, after: Call) {
    && after.hash == before.hash && after.user == before.user
    && forall r :: r in after.spent ==>
         || (r in before.spent && after.config == before.config)
         || (r in w.codes && w.codes[r].config == after.config && w.codes[r].hash == after.hash)
  }

  lemma OwnCallSpends(cfg: Config, s: Db, a: Action)
    requires OfCall(a) && a.c in s.calls && Factored(s.world, s.calls[a.c])
    ensures a.c in CallStep(cfg, s, a).calls
    ensures SpendsOnly(s.world, s.calls[a.c], CallStep(cfg, s, a).calls[a.c])
  {
  }

  lemma CallAdvances(cfg: Config, s: Db, a: Action, c: CallId)
    requires c in s.calls && OfItsUser(s.world, s.calls[c]) && Factored(s.world, s.calls[c])
    ensures c in Step(cfg, s, a).calls
    ensures OfItsUser(s.world, Step(cfg, s, a).calls[c])
    ensures SpendsOnly(s.world, s.calls[c], Step(cfg, s, a).calls[c])
  {
    if OfCall(a) && a.c in s.calls {
      OthersUntouched(cfg, s, a);
      if a.c == c {
        OwnCallOfItsUser(cfg, s, a);
        OwnCallSpends(cfg, s, a);
      }
    }
  }

  lemma SpentStaysTraced(cfg: Config, trace: seq<Action>, a: Action, w: World, before: Call, after: Call)
    requires RowsTraced(cfg, trace, w) && SpentTraced(cfg, trace, before) && SpendsOnly(w, before, after)
    ensures SpentTraced(cfg, trace + [a], after)
  {
    forall r | r in after.spent
      ensures InsertedAs(cfg, trace + [a], r, after.config, after.hash)
    {
      assert InsertedAs(cfg, trace, r, after.config, after.hash);
      InsertionStays(cfg, trace, trace + [a], r, after.config, after.hash);
    }
  }

  lemma StaysOfItsUser(w: World, v: World, call: Call)
    requires Keeps(w, v) && OfItsUser(w, call)
    ensures OfItsUser(v, call)
  {
  }

  lemma CallTraced(cfg: Config, trace: seq<Action>, a: Action, c: CallId)
    requires var s := Run(cfg, trace); Good(cfg, s) && Traced(cfg, trace, s) && c in s.calls
    ensures var t := Run(cfg, trace + [a]); c in t.calls && OfItsUser(t.world, t.calls[c]) && SpentTraced(cfg, trace + [a], t.calls[c])
  {
    var s := Run(cfg, trace);
    RunThen(cfg, trace, a);
    assert Factored(s.world, s.calls[c]);
    CallAdvances(cfg, s, a, c);
    StepKeeps(cfg, s, a);
    StaysOfItsUser(s.world, Step(cfg, s, a).world, Step(cfg, s, a).calls[c]);
    SpentStaysTraced(cfg, trace, a, s.world, s.calls[c], Step(cfg, s, a).calls[c]);
  }

  lemma RowTraced(cfg: Config, trace: seq<Action>, a: Action, r: RowId)
    requires var s := Run(cfg, trace); Good(cfg, s) && RowsTraced(cfg, trace, s.world)
    requires r in Run(cfg, trace + [a]).world.codes
    ensures var code := Run(cfg, trace + [a]).world.codes[r]; InsertedAs(cfg, trace + [a], r, code.config, code.hash)
  {
    var s, code := Run(cfg, trace), Run(cfg, trace + [a]).world.codes[r];
    RunThen(cfg, trace, a);
    StepKeeps(cfg, s, a);
    if r in s.world.codes {
      InsertionStays(cfg, trace, trace + [a], r, code.config, code.hash);
    } else {
      assert (trace + [a])[..|trace|] == trace && (trace + [a])[|trace|] == a;
    }
  }

  lemma {:induction false} RunIsTraced(cfg: Config, trace: seq<Action>)
    ensures Traced(cfg, trace, Run(cfg, trace))
  {
    if trace != [] {
      var front, a := trace[..|trace| - 1], trace[|trace| - 1];
      assert trace == front + [a];
      RunIsGood(cfg, front);
      RunIsTraced(cfg, front);
      RunThen(cfg, front, a);
      forall r | r in Run(cfg, trace).world.codes
        ensures InsertedAs(cfg, trace, r, Run(cfg, trace).world.codes[r].config, Run(cfg, trace).world.codes[r].hash)
      {
        RowTraced(cfg, front, a, r);
      }
      forall c | c in Run(cfg, trace).calls
        ensures OfItsUser(Run(cfg, trace).world, Run(cfg, trace).calls[c]) && SpentTraced(cfg, trace, Run(cfg, trace).calls[c])
      {
        if c in Run(cfg, front).calls {
          CallTraced(cfg, front, a, c);
        } else {
          NewCall(cfg, Run(cfg, front), a, c);
        }
      }
    }
  }

  lemma NewCall(cfg: Config, s: Db, a: Action, c: CallId)
    requires c !in s.calls && c in Step(cfg, s, a).calls
    ensures var call := Step(cfg, s, a).calls[c];
            && call.spent == {} && !call.stage.Configured? && (call.challenge.Some? ==> !Past(call))
  {
    if OfCall(a) && a.c in s.calls {
      OthersUntouched(cfg, s, a);
    }
  }

  /** In every run a redemption spends codes only that were inserted under the
      configuration its user is enrolled with, and with the hash that it presented. */
  lemma SpendsOwnCodes(cfg: Config, trace: seq<Action>, c: CallId, r: RowId)
    requires c in Run(cfg, trace).calls && r in Run(cfg, trace).calls[c].spent
    ensures var w, call := Run(cfg, trace).world, Run(cfg, trace).calls[c];
            call.user in w.configs && InsertedAs(cfg, trace, r, w.configs[call.user], call.hash)
  {
    RunIsTraced(cfg, trace);
  }

  /** A session's challenge was minted for its user, and its token was accepted before
      it was 300 seconds and the leeway old. */
  lemma SessionIsForItsUser(cfg: Config, trace: seq<Action>, c: CallId)
    requires c in Run(cfg, trace).calls && Run(cfg, trace).calls[c].stage.Session?
    ensures var w, call := Run(cfg, trace).world, Run(cfg, trace).calls[c];
            && call.challenge.Some? && call.challenge.value in w.challenges
            && w.challenges[call.challenge.value].user == call.user
            && w.challenges[call.challenge.value].mintedAt <= call.validatedAt
            && call.validatedAt <= w.challenges[call.challenge.value].mintedAt + 300 + cfg.leeway
  {
    RunIsGood(cfg, trace);
    RunIsTraced(cfg, trace);
    var s := Run(cfg, trace);
    assert Timely(cfg, s.world, s.calls[c]) && Factored(s.world, s.calls[c]);
  }

  /** The user has no enrolment, or no unused code with the hash under it. */
  predicate NoCodeOf(w: World, user: UserId, hash: Hash) {
    || user !in w.configs
    || forall r :: r in w.codes ==>
         w.codes[r].config != w.configs[user] || w.codes[r].hash != hash || w.codes[r].used
  }

  ghost predicate HadNoCode(cfg: Config, trace: seq<Action>, from: nat, user: UserId, hash: Hash) {
    exists k :: from <= k <= |trace| && NoCodeOf(Run(cfg, trace[..k]).world, user, hash)
  }

  lemma EmptyFlipHasNoCode(s: Db, c: CallId)
    requires c in s.calls && s.calls[c].stage.Configured? && OfItsUser(s.world, s.calls[c])
    requires FlipRows(s, c).calls[c].stage == Refused(WrongCode)
    ensures NoCodeOf(s.world, s.calls[c].user, s.calls[c].hash)
  {
    assert Matching(s.world.codes, s.calls[c].config, s.calls[c].hash) == {};
    assert forall r :: r in s.world.codes ==> r !in Matching(s.world.codes, s.calls[c].config, s.calls[c].hash);
  }

  lemma FlipOwn(s: Db, c: CallId)
    requires c in s.calls
    ensures c in FlipRows(s, c).calls && FlipRows(s, c).calls[c].user == s.calls[c].user && FlipRows(s, c).calls[c].hash == s.calls[c].hash
  {
  }

  lemma OwnWrongCode(cfg: Config, s: Db, a: Action)
    requires OfCall(a) && a.c in s.calls && OfItsUser(s.world, s.calls[a.c])
    ensures var call := CallStep(cfg, s, a).calls[a.c];
            && call.user == s.calls[a.c].user && call.hash == s.calls[a.c].hash
            && (call.stage == Refused(WrongCode) ==>
                  s.calls[a.c].stage == Refused(WrongCode) || NoCodeOf(s.world, call.user, call.hash))
  {
    if a.Flip? {
      FlipOwn(s, a.c);
      if s.calls[a.c].stage.Configured? && FlipRows(s, a.c).calls[a.c].stage == Refused(WrongCode) {
        EmptyFlipHasNoCode(s, a.c);
      }
    }
  }

  /** A refusal for a wrong code comes from a moment at which there was none. */
  lemma WrongCodeNow(cfg: Config, s: Db, a: Action, c: CallId)
    requires c in s.calls && OfItsUser(s.world, s.calls[c])
    requires c in Step(cfg, s, a).calls && Step(cfg, s, a).calls[c].stage == Refused(WrongCode)
    ensures s.calls[c].stage == Refused(WrongCode) || NoCodeOf(s.world, s.calls[c].user, s.calls[c].hash)
    ensures Step(cfg, s, a).calls[c].user == s.calls[c].user && Step(cfg, s, a).calls[c].hash == s.calls[c].hash
  {
    if OfCall(a) && a.c in s.calls {
      OthersUntouched(cfg, s, a);
      if a.c == c {
        OwnWrongCode(cfg, s, a);
      }
    }
  }

  lemma {:induction false} WrongCodeIsTrue(cfg: Config, trace: seq<Action>, c: CallId)
    requires c in Run(cfg, trace).calls && Run(cfg, trace).calls[c].stage == Refused(WrongCode)
    ensures HadNoCode(cfg, trace, 0, Run(cfg, trace).calls[c].user, Run(cfg, trace).calls[c].hash)
  {
    var front, a := trace[..|trace| - 1], trace[|trace| - 1];
    var s := Run(cfg, front);
    RunIsTraced(cfg, front);
    if c !in s.calls {
      NewCall(cfg, s, a, c);
      NewIsNotRefused(cfg, s, a, c);
    } else {
      WrongCodeNow(cfg, s, a, c);
      if s.calls[c].stage == Refused(WrongCode) {
        WrongCodeIsTrue(cfg, front, c);
        var k :| 0 <= k <= |front| && NoCodeOf(Run(cfg, front[..k]).world, s.calls[c].user, s.calls[c].hash);
        assert trace[..k] == front[..k];
      } else {
        assert NoCodeOf(Run(cfg, trace[..|front|]).world, s.calls[c].user, s.calls[c].hash);
      }
    }
  }

  lemma NewIsNotRefused(cfg: Config, s: Db, a: Action, c: CallId)
    requires c !in s.calls && c in Step(cfg, s, a).calls
    ensures !Step(cfg, s, a).calls[c].stage.Refused?
  {
    if OfCall(a) && a.c in s.calls {
      OthersUntouched(cfg, s, a);
    }
  }

  /** And a code that is there is taken, with every row that shares its hash: afterwards
      no unused one is left, every other row is as it was, and the call has them. */
  lemma FlipTakesAll(cfg: Config, s: Db, c: CallId)
    requires c in s.calls && s.calls[c].stage.Configured? && OfItsUser(s.world, s.calls[c])
    requires !NoCodeOf(s.world, s.calls[c].user, s.calls[c].hash)
    ensures var t, user, hash := Step(cfg, s, Flip(c)), s.calls[c].user, s.calls[c].hash;
            && NoCodeOf(t.world, user, hash) && c in t.calls && t.calls[c].stage.Flipped?
            && t.world.codes.Keys == s.world.codes.Keys
            && forall r :: r in s.world.codes ==>
                 var mine := s.world.codes[r].config == s.world.configs[user] && s.world.codes[r].hash == hash && !s.world.codes[r].used;
                 && (r in t.calls[c].spent <==> mine)
                 && t.world.codes[r] == if mine then s.world.codes[r].(used := true) else s.world.codes[r]
  {
    var rows := Matching(s.world.codes, s.calls[c].config, s.calls[c].hash);
    var r :| r in s.world.codes && s.world.codes[r].config == s.world.configs[s.calls[c].user]
             && s.world.codes[r].hash == s.calls[c].hash && !s.world.codes[r].used;
    assert r in rows;
  }

  // ---- exactly when two sessions come of one challenge ----------------------------------------

  /** A continuation from a state. */
  function RunOn(cfg: Config, s: Db, more: seq<Action>): Db {
    if more == [] then s else Step(cfg, RunOn(cfg, s, more[..|more| - 1]), more[|more| - 1])
  }

  lemma RunOnThen(cfg: Config, s: Db, more: seq<Action>, a: Action)
    ensures RunOn(cfg, s, more + [a]) == Step(cfg, RunOn(cfg, s, more), a)
  {
    assert (more + [a])[..|more + [a]| - 1] == more;
  }

  lemma {:induction false} RunConcat(cfg: Config, trace: seq<Action>, more: seq<Action>)
    ensures Run(cfg, trace + more) == RunOn(cfg, Run(cfg, trace), more)
  {
    if more == [] {
      assert trace + more == trace;
    } else {
      var front, last := more[..|more| - 1], more[|more| - 1];
      RunConcat(cfg, trace, front);
      RunThen(cfg, trace + front, last);
      assert trace + more == trace + front + [last];
    }
  }

  /** The seconds that pass in a run. */
  function Elapsed(more: seq<Action>): nat {
    if more == [] then 0
    else Elapsed(more[..|more| - 1]) + (if more[|more| - 1].Tick? then more[|more| - 1].seconds else 0)
  }

  lemma ElapsedThen(more: seq<Action>, a: Action)
    ensures Elapsed(more + [a]) == Elapsed(more) + (if a.Tick? then a.seconds else 0)
  {
    assert (more + [a])[..|more + [a]| - 1] == more;
  }

  predicate ClaimedSince(s: Db, c: CallId, since: nat) {
    c in s.calls && (s.calls[c].claimedAt.Some? ==> s.calls[c].claimedAt.value >= since)
  }

  lemma StepClaimsNow(cfg: Config, s: Db, a: Action, c: CallId, since: nat)
    requires ClaimedSince(s, c, since) && since <= s.world.now
    ensures ClaimedSince(Step(cfg, s, a), c, since)
  {
    if OfCall(a) && a.c in s.calls {
      OthersUntouched(cfg, s, a);
      if a.c == c && !a.Validate? && !a.Claim? {
        TimesKept(cfg, s, a);
      }
    }
  }

  lemma StepClock(cfg: Config, s: Db, a: Action)
    ensures Step(cfg, s, a).world.now == s.world.now + (if a.Tick? then a.seconds else 0)
  {
  }

  lemma {:induction false} ClaimsComeLater(cfg: Config, s: Db, more: seq<Action>, c: CallId)
    requires c in s.calls && s.calls[c].claimedAt.None?
    ensures RunOn(cfg, s, more).world.now == s.world.now + Elapsed(more)
    ensures ClaimedSince(RunOn(cfg, s, more), c, s.world.now)
  {
    if more != [] {
      var front, last := more[..|more| - 1], more[|more| - 1];
      ClaimsComeLater(cfg, s, front, c);
      StepClock(cfg, RunOn(cfg, s, front), last);
      StepClaimsNow(cfg, RunOn(cfg, s, front), last, c, s.world.now);
    }
  }

  predicate BothSessions(s: Db, c: CallId, o: CallId) {
    c in s.calls && o in s.calls && s.calls[c].stage.Session? && s.calls[o].stage.Session?
  }

  /** Two requests whose factor is proven for one challenge that nobody claimed. */
  predicate BothProven(s: Db, c: CallId, o: CallId, ch: ChallengeId) {
    && c in s.calls && o in s.calls && c != o && ch !in s.world.revoked
    && s.calls[c].stage.Proven? && s.calls[o].stage.Proven?
    && s.calls[c].challenge == Some(ch) && s.calls[o].challenge == Some(ch)
  }

  /** In less time than a claim lives they never both get a session. */
  lemma TwoSessionsTakeALife(cfg: Config, trace: seq<Action>, more: seq<Action>, c: CallId, o: CallId, ch: ChallengeId)
    requires BothProven(Run(cfg, trace), c, o, ch) && BothSessions(Run(cfg, trace + more), c, o)
    ensures Elapsed(more) >= CLAIM_TTL_SECONDS
  {
    var s, t := Run(cfg, trace), Run(cfg, trace + more);
    RunIsGood(cfg, trace);
    assert Factored(s.world, s.calls[c]) && Factored(s.world, s.calls[o]);
    RunConcat(cfg, trace, more);
    ClaimsComeLater(cfg, s, more, c);
    ClaimsComeLater(cfg, s, more, o);
    ChallengesKept(cfg, s, more, c);
    ChallengesKept(cfg, s, more, o);
    RunIsGood(cfg, trace + more);
    assert Apart(t.calls[c], t.calls[o]);
    assert Timely(cfg, t.world, t.calls[c]) && Timely(cfg, t.world, t.calls[o]);
    assert Factored(t.world, t.calls[c]) && Factored(t.world, t.calls[o]);
  }

  lemma StepKeepsChallenge(cfg: Config, s: Db, a: Action, c: CallId)
    requires c in s.calls
    ensures c in Step(cfg, s, a).calls && Step(cfg, s, a).calls[c].challenge == s.calls[c].challenge
  {
    if OfCall(a) && a.c in s.calls {
      OthersUntouched(cfg, s, a);
    }
  }

  lemma {:induction false} ChallengesKept(cfg: Config, s: Db, more: seq<Action>, c: CallId)
    requires c in s.calls
    ensures c in RunOn(cfg, s, more).calls && RunOn(cfg, s, more).calls[c].challenge == s.calls[c].challenge
  {
    if more != [] {
      ChallengesKept(cfg, s, more[..|more| - 1], c);
      StepKeepsChallenge(cfg, RunOn(cfg, s, more[..|more| - 1]), more[|more| - 1], c);
    }
  }

  /** The second request waits for as long as a claim lives. */
  function Wait(c: CallId, o: CallId, ch: ChallengeId): seq<Action> {
    [Claim(c), Issue(c)] + [Tick(CLAIM_TTL_SECONDS)] + [Expire(ch), Claim(o), Issue(o)]
  }

  lemma RunOnThree(cfg: Config, s: Db, more: seq<Action>, x: Action, y: Action, z: Action)
    ensures RunOn(cfg, s, more + [x, y, z]) == Step(cfg, Step(cfg, Step(cfg, RunOn(cfg, s, more), x), y), z)
    ensures Elapsed(more + [x, y, z]) >= Elapsed(more)
    ensures !x.Tick? && !y.Tick? && !z.Tick? ==> Elapsed(more + [x, y, z]) == Elapsed(more)
  {
    assert more + [x, y, z] == more + [x] + [y] + [z];
    RunOnThen(cfg, s, more, x);
    RunOnThen(cfg, s, more + [x], y);
    RunOnThen(cfg, s, more + [x] + [y], z);
    ElapsedThen(more, x);
    ElapsedThen(more + [x], y);
    ElapsedThen(more + [x] + [y], z);
  }

  lemma FirstClaim(cfg: Config, s: Db, c: CallId, ch: ChallengeId)
    requires c in s.calls && s.calls[c].stage.Proven? && s.calls[c].challenge == Some(ch) && ch !in s.world.revoked
    ensures var t := Step(cfg, Step(cfg, Step(cfg, s, Claim(c)), Issue(c)), Tick(CLAIM_TTL_SECONDS));
            && c in t.calls && t.calls[c].stage.Session? && t.calls == s.calls[c := t.calls[c]]
            && ch in t.world.revoked && t.world.revoked[ch] <= t.world.now
  {
  }

  lemma LateClaim(cfg: Config, s: Db, o: CallId, ch: ChallengeId)
    requires ch in s.world.revoked && s.world.revoked[ch] <= s.world.now
    requires o in s.calls && s.calls[o].stage.Proven? && s.calls[o].challenge == Some(ch)
    ensures var t := Step(cfg, Step(cfg, Step(cfg, s, Expire(ch)), Claim(o)), Issue(o));
            && o in t.calls && t.calls == s.calls[o := t.calls[o]]
            && t.calls[o] == s.calls[o].(stage := Session, claimedAt := Some(s.world.now))
  {
  }

  lemma WaitGivesBoth(cfg: Config, s: Db, c: CallId, o: CallId, ch: ChallengeId)
    requires BothProven(s, c, o, ch)
    ensures BothSessions(RunOn(cfg, s, Wait(c, o, ch)), c, o) && Elapsed(Wait(c, o, ch)) == CLAIM_TTL_SECONDS
  {
    var first := [] + [Claim(c), Issue(c), Tick(CLAIM_TTL_SECONDS)];
    assert Wait(c, o, ch) == first + [Expire(ch), Claim(o), Issue(o)];
    assert first == [Claim(c)] + [Issue(c)] + [Tick(CLAIM_TTL_SECONDS)];
    RunOnThree(cfg, s, [], Claim(c), Issue(c), Tick(CLAIM_TTL_SECONDS));
    ElapsedThen([], Claim(c));
    ElapsedThen([Claim(c)], Issue(c));
    ElapsedThen([Claim(c)] + [Issue(c)], Tick(CLAIM_TTL_SECONDS));
    RunOnThree(cfg, s, first, Expire(ch), Claim(o), Issue(o));
    FirstClaim(cfg, s, c, ch);
    LateClaim(cfg, RunOn(cfg, s, first), o, ch);
  }

  /** From two proven requests for one unclaimed challenge, some continuation of at
      most `limit` seconds gives both a session exactly when that is as long as a
      claim lives. */
  lemma TwoSessionsExactlyWhen(cfg: Config, trace: seq<Action>, c: CallId, o: CallId, ch: ChallengeId, limit: nat)
    requires BothProven(Run(cfg, trace), c, o, ch)
    ensures (exists more :: Elapsed(more) <= limit && BothSessions(Run(cfg, trace + more), c, o))
       <==> limit >= 3900
  {
    forall more | Elapsed(more) <= limit && BothSessions(Run(cfg, trace + more), c, o)
      ensures limit >= CLAIM_TTL_SECONDS
    {
      TwoSessionsTakeALife(cfg, trace, more, c, o, ch);
    }
    if limit >= CLAIM_TTL_SECONDS {
      WaitGivesBoth(cfg, Run(cfg, trace), c, o, ch);
      RunConcat(cfg, trace, Wait(c, o, ch));
    }
  }

  /** A request up to its matching TOTP. */
  function Proof(c: CallId, user: UserId, ch: ChallengeId, blind: bool): seq<Action> {
    [Ask(c, user, Some(ch), "")] + [Validate(c, blind), Clear(c, true), CheckTotp(c, true)]
  }

  /** The call it leaves. */
  function ProvenCall(user: UserId, ch: ChallengeId, blind: bool, now: nat): Call {
    Call(user, Some(ch), "", Proven, now, blind, "", true, {}, false, None)
  }

  lemma ProofSteps(cfg: Config, s: Db, c: CallId, user: UserId, ch: ChallengeId, blind: bool)
    requires c !in s.calls && Acceptable(cfg, s.world, user, ch, blind)
    ensures var asked := Step(cfg, s, Ask(c, user, Some(ch), ""));
            var cleared := Step(cfg, Step(cfg, asked, Validate(c, blind)), Clear(c, true));
            Step(cfg, cleared, CheckTotp(c, true)) == At(s, c, ProvenCall(user, ch, blind, s.world.now))
  {
  }

  lemma ProofRuns(cfg: Config, trace: seq<Action>, c: CallId, user: UserId, ch: ChallengeId, blind: bool)
    requires c !in Run(cfg, trace).calls && Acceptable(cfg, Run(cfg, trace).world, user, ch, blind)
    ensures var s := Run(cfg, trace);
            Run(cfg, trace + Proof(c, user, ch, blind)) == At(s, c, ProvenCall(user, ch, blind, s.world.now))
  {
    var s := Run(cfg, trace);
    RunConcat(cfg, trace, Proof(c, user, ch, blind));
    RunOnThen(cfg, s, [], Ask(c, user, Some(ch), ""));
    assert [] + [Ask(c, user, Some(ch), "")] == [Ask(c, user, Some(ch), "")];
    RunOnThree(cfg, s, [Ask(c, user, Some(ch), "")], Validate(c, blind), Clear(c, true), CheckTotp(c, true));
    ProofSteps(cfg, s, c, user, ch, blind);
  }

  /** Two such requests are reached from the empty database. */
  lemma BothProvenIsReachable(cfg: Config, user: UserId, c: CallId, o: CallId, ch: ChallengeId)
    requires c != o
    ensures exists trace :: BothProven(Run(cfg, trace), c, o, ch) && !Run(cfg, trace).calls[o].blind
  {
    var minted := [] + [Mint(ch, user)];
    MintFirst(cfg, user, ch);
    ProofRuns(cfg, minted, c, user, ch, false);
    var one := minted + Proof(c, user, ch, false);
    ProofRuns(cfg, one, o, user, ch, false);
    assert BothProven(Run(cfg, one + Proof(o, user, ch, false)), c, o, ch);
  }

  /** A failed revocation read needs less: a reachable run gives one challenge two
      sessions, the second to a request that took exactly its shorter limit. */
  lemma BlindLimitIsAttained(cfg: Config, user: UserId, c: CallId, o: CallId, ch: ChallengeId)
    requires c != o && cfg.leeway <= 3600
    ensures exists trace ::
              var s := Run(cfg, trace);
              && BothSessions(s, c, o) && s.calls[c].challenge == Some(ch) == s.calls[o].challenge
              && s.calls[o].blind && s.calls[o].claimedAt.Some? && Took(s.calls[o]) == 3600 - cfg.leeway
  {
    var first := SessionAtOnce(cfg, user, c, ch);
    var waited := first + [Tick(MFA_CHALLENGE_TTL_SECONDS + cfg.leeway)];
    RunThen(cfg, first, Tick(MFA_CHALLENGE_TTL_SECONDS + cfg.leeway));
    ProofRuns(cfg, waited, o, user, ch, true);
    var again := waited + Proof(o, user, ch, true);
    var more := SecondAfter(cfg, again, c, o, ch, 3600 - cfg.leeway);
    assert BothSessions(Run(cfg, again + more), c, o);
  }

  lemma ClaimAndIssue(cfg: Config, s: Db, c: CallId, ch: ChallengeId)
    requires c in s.calls && s.calls[c].stage.Proven? && s.calls[c].challenge == Some(ch) && ch !in s.world.revoked
    ensures var w, t := s.world, Step(cfg, Step(cfg, s, Claim(c)), Issue(c));
            && t.world == w.(revoked := w.revoked[ch := w.now + CLAIM_TTL_SECONDS])
            && t.calls == s.calls[c := s.calls[c].(stage := Session, claimedAt := Some(w.now))]
  {
  }

  lemma MintFirst(cfg: Config, user: UserId, ch: ChallengeId)
    ensures Run(cfg, [] + [Mint(ch, user)]) == EMPTY.(world := EMPTY.world.(challenges := map[ch := Challenge(user, 0)]))
  {
    RunThen(cfg, [], Mint(ch, user));
  }

  /** A session in the second its challenge was minted. */
  lemma SessionAtOnce(cfg: Config, user: UserId, c: CallId, ch: ChallengeId) returns (trace: seq<Action>)
    ensures Run(cfg, trace)
         == Db(EMPTY.world.(challenges := map[ch := Challenge(user, 0)], revoked := map[ch := CLAIM_TTL_SECONDS]),
               map[c := ProvenCall(user, ch, false, 0).(stage := Session, claimedAt := Some(0))])
  {
    var minted := [] + [Mint(ch, user)];
    MintFirst(cfg, user, ch);
    ProofRuns(cfg, minted, c, user, ch, false);
    var proven := minted + Proof(c, user, ch, false);
    RunThen(cfg, proven, Claim(c));
    RunThen(cfg, proven + [Claim(c)], Issue(c));
    ClaimAndIssue(cfg, Run(cfg, proven), c, ch);
    trace := proven + [Claim(c)] + [Issue(c)];
  }

  /** Waiting until the claim is over, then claiming again. */
  lemma SecondAfter(cfg: Config, trace: seq<Action>, c: CallId, o: CallId, ch: ChallengeId, seconds: nat)
      returns (more: seq<Action>)
    requires var s := Run(cfg, trace);
             && c in s.calls && o in s.calls && c != o && s.calls[c].stage.Session? && s.calls[o].stage.Proven?
             && s.calls[o].challenge == Some(ch) && ch in s.world.revoked
             && s.world.revoked[ch] <= s.world.now + seconds && s.calls[o].validatedAt == s.world.now
    ensures var s, t := Run(cfg, trace), Run(cfg, trace + more);
            && BothSessions(t, c, o) && t.calls[c] == s.calls[c]
            && t.calls[o].challenge == Some(ch) && t.calls[o].blind == s.calls[o].blind
            && t.calls[o].claimedAt.Some? && Took(t.calls[o]) == seconds
  {
    var s := Run(cfg, trace);
    more := [Tick(seconds)] + [Expire(ch), Claim(o), Issue(o)];
    RunConcat(cfg, trace, more);
    RunOnThen(cfg, s, [], Tick(seconds));
    assert [] + [Tick(seconds)] == [Tick(seconds)];
    RunOnThree(cfg, s, [Tick(seconds)], Expire(ch), Claim(o), Issue(o));
    LateClaim(cfg, Step(cfg, s, Tick(seconds)), o, ch);
  }
}
