/** `cached_read` and `cache_invalidate` on one key: a refill is written only if no
    invalidate happened since its token was read, as long as the invalidation token
    outlives the load (core/cache.py). Clocks and expiry are in seconds. */
module GuardedRefill {
  import opened Wrappers

  type Token = nat
  type LoaderId = nat
  type Value = string

  const GUARD_TTL := 60.0

  /** A stored payload: a usable JSON value (the null marker included), or something
      that does not parse or is JSON null. */
  datatype Stored = Usable(value: Value) | Unusable

  datatype Phase = TokenRead | Loading | Checked | Ready

  /** `dirty`: a watched key was written since WATCH. `missed` is history: an
      invalidate committed since the token was read. */
  datatype Loader = Loader(
    phase: Phase, token: Option<Token>, tokenAt: real, startedAt: real, checkedAt: real, watchedAt: real,
    dirty: bool, missed: bool)

  datatype State = State(
    now: real, stored: Option<Stored>, token: Option<Token>, tokenExpiry: real,
    loaders: map<LoaderId, Loader>, issued: set<Token>)

  datatype Step =
    | Tick(to: real)
    | Invalidate(token: Token)
    | Expire
    | Overwrite(stored: Stored)       // any other write of the key
    | ReadToken(id: LoaderId)
    | StartClock(id: LoaderId)
    | CheckElapsed(id: LoaderId)
    | Watch(id: LoaderId)             // WATCH and the two reads
    | Fill(id: LoaderId, value: Value) // MULTI / SET / EXEC
    | GiveUp(id: LoaderId)

  /** The token a reader sees now. */
  function VisibleToken(s: State): Option<Token> {
    if s.token.Some? && s.now < s.tokenExpiry then s.token else None
  }

  predicate Phased(s: State, id: LoaderId, phase: Phase) {
    id in s.loaders && s.loaders[id].phase == phase
  }

  predicate Enabled(s: State, a: Step) {
    match a
    case Tick(to) => s.now <= to
    case Invalidate(token) => token !in s.issued
    case Expire => true
    case Overwrite(_) => true
    case ReadToken(id) => id !in s.loaders
    case StartClock(id) => Phased(s, id, TokenRead)
    case CheckElapsed(id) => Phased(s, id, Loading)
    case Watch(id) => Phased(s, id, Checked)
    case Fill(id, _) => Phased(s, id, Ready)
    case GiveUp(id) => id in s.loaders
  }

  function Touch(loaders: map<LoaderId, Loader>, invalidated: bool): map<LoaderId, Loader> {
    map id | id in loaders :: loaders[id].(dirty := true, missed := loaders[id].missed || invalidated)
  }

  /** The refill may go on: same token, and nothing usable stored. */
  predicate Admits(s: State, l: Loader) {
    VisibleToken(s) == l.token && !(s.stored.Some? && s.stored.value.Usable?)
  }

  function Next(s: State, a: Step): State
    requires Enabled(s, a)
  {
    match a
    case Tick(to) => s.(now := to)
    case Invalidate(token) =>
      s.(stored := None, token := Some(token), tokenExpiry := s.now + GUARD_TTL,
         issued := s.issued + {token}, loaders := Touch(s.loaders, true))
    case Expire => s.(stored := None)
    case Overwrite(stored) => s.(stored := Some(stored), loaders := Touch(s.loaders, false))
    case ReadToken(id) =>
      s.(loaders := s.loaders[id := Loader(TokenRead, VisibleToken(s), s.now, 0.0, 0.0, 0.0, false, false)])
    case StartClock(id) => s.(loaders := s.loaders[id := s.loaders[id].(phase := Loading, startedAt := s.now)])
    case CheckElapsed(id) =>
      if s.now - s.loaders[id].startedAt >= GUARD_TTL then s.(loaders := s.loaders - {id})
      else s.(loaders := s.loaders[id := s.loaders[id].(phase := Checked, checkedAt := s.now)])
    case Watch(id) =>
      if Admits(s, s.loaders[id])
      then s.(loaders := s.loaders[id := s.loaders[id].(phase := Ready, watchedAt := s.now, dirty := false)])
      else s.(loaders := s.loaders - {id})
    case Fill(id, value) =>
      if s.loaders[id].dirty then s.(loaders := s.loaders - {id})
      else s.(stored := Some(Usable(value)), loaders := Touch(s.loaders - {id}, false))
    case GiveUp(id) => s.(loaders := s.loaders - {id})
  }

  /** The step writes the loader's value. */
  predicate Commits(s: State, a: Step) {
    a.Fill? && Phased(s, a.id, Ready) && !s.loaders[a.id].dirty
  }

  // ---- Invariant -------------------------------------------------------------------------

  predicate LoaderOk(s: State, l: Loader) {
    && l.tokenAt <= s.now
    && (l.token.Some? ==> l.token.value in s.issued)
    && (l.missed ==> s.token.Some? && s.token != l.token && s.tokenExpiry >= l.tokenAt + GUARD_TTL)
    && (l.phase != TokenRead ==> l.tokenAt <= l.startedAt <= s.now)
    && (l.phase == Checked || l.phase == Ready ==> l.startedAt <= l.checkedAt <= s.now && l.checkedAt - l.startedAt < GUARD_TTL)
    && (l.phase == Ready ==> l.checkedAt <= l.watchedAt <= s.now)
    && (l.phase == Ready && !l.dirty ==>
        && (l.missed ==> l.token.None? && l.watchedAt >= l.tokenAt + GUARD_TTL)
        && !(s.stored.Some? && s.stored.value.Usable?))
  }

  ghost predicate Inv(s: State) {
    && (s.token.Some? ==> s.token.value in s.issued)
    && (forall id :: id in s.loaders ==> LoaderOk(s, s.loaders[id]))
  }

  /** What an invalidate, or any other write of the key, leaves of a loader. */
  lemma TouchedIsOk(s: State, t: State, l: Loader, invalidated: bool)
    requires LoaderOk(s, l) && t.now == s.now && s.issued <= t.issued
    requires if invalidated then t.token.Some? && t.token.value !in s.issued && t.tokenExpiry == s.now + GUARD_TTL
             else t.token == s.token && t.tokenExpiry == s.tokenExpiry
    ensures LoaderOk(t, l.(dirty := true, missed := l.missed || invalidated))
  {
  }

  lemma InvalidateKeepsInv(s: State, token: Token)
    requires Inv(s) && Enabled(s, Invalidate(token))
    ensures Inv(Next(s, Invalidate(token)))
  {
    var t := Next(s, Invalidate(token));
    forall id | id in t.loaders ensures LoaderOk(t, t.loaders[id]) {
      TouchedIsOk(s, t, s.loaders[id], true);
    }
  }

  lemma OverwriteKeepsInv(s: State, stored: Stored)
    requires Inv(s)
    ensures Inv(Next(s, Overwrite(stored)))
  {
    var t := Next(s, Overwrite(stored));
    forall id | id in t.loaders ensures LoaderOk(t, t.loaders[id]) {
      TouchedIsOk(s, t, s.loaders[id], false);
    }
  }

  lemma FillKeepsInv(s: State, id: LoaderId, value: Value)
    requires Inv(s) && Enabled(s, Fill(id, value))
    ensures Inv(Next(s, Fill(id, value)))
  {
    var t := Next(s, Fill(id, value));
    if !s.loaders[id].dirty {
      forall x | x in t.loaders ensures LoaderOk(t, t.loaders[x]) {
        TouchedIsOk(s, t, s.loaders[x], false);
      }
    }
  }

  lemma OwnStepKeepsInv(s: State, a: Step)
    requires Inv(s) && Enabled(s, a)
    requires a.ReadToken? || a.StartClock? || a.CheckElapsed? || a.Watch? || a.GiveUp?
    ensures Inv(Next(s, a))
  {
    var t := Next(s, a);
    forall x | x in t.loaders ensures LoaderOk(t, t.loaders[x]) {
      if x in s.loaders { assert LoaderOk(s, s.loaders[x]); }
    }
  }

  lemma StepKeepsInv(s: State, a: Step)
    requires Inv(s) && Enabled(s, a)
    ensures Inv(Next(s, a))
  {
    match a
    case Invalidate(token) => InvalidateKeepsInv(s, token);
    case Overwrite(stored) => OverwriteKeepsInv(s, stored);
    case Fill(id, value) => FillKeepsInv(s, id, value);
    case Tick(to) => assert forall id :: id in s.loaders ==> LoaderOk(s, s.loaders[id]);
    case Expire => assert forall id :: id in s.loaders ==> LoaderOk(s, s.loaders[id]);
    case _ => OwnStepKeepsInv(s, a);
  }

  ghost predicate IsRun(states: seq<State>, steps: seq<Step>) {
    && |states| == |steps| + 1
    && states[0] == State(states[0].now, states[0].stored, None, 0.0, map[], {})
    && forall i :: 0 <= i < |steps| ==> Enabled(states[i], steps[i]) && states[i + 1] == Next(states[i], steps[i])
  }

  ghost predicate RunTo(states: seq<State>, steps: seq<Step>, s: State) {
    IsRun(states, steps) && states[|states| - 1] == s
  }

  ghost predicate Reachable(s: State) {
    exists states, steps :: RunTo(states, steps, s)
  }

  lemma {:induction false} RunKeepsInv(states: seq<State>, steps: seq<Step>)
    requires IsRun(states, steps)
    ensures Inv(states[|states| - 1])
    decreases |steps|
  {
    if steps != [] {
      var k := |steps| - 1;
      RunKeepsInv(states[..k + 1], steps[..k]);
      assert states[..k + 1][k] == states[k];
      assert Enabled(states[k], steps[k]) && states[k + 1] == Next(states[k], steps[k]);
      StepKeepsInv(states[k], steps[k]);
    }
  }

  lemma ReachableInv(s: State)
    requires Reachable(s)
    ensures Inv(s)
  {
    var states, steps :| RunTo(states, steps, s);
    RunKeepsInv(states, steps);
  }

  // ---- What the guard promises ---------------------------------------------------------------

  /** A refill commits only if no invalidate of the key committed since its token was
      read, provided its WATCH comes less than the guard TTL after that read. */
  lemma FillFollowsNoInvalidate(s: State, a: Step)
    requires Reachable(s) && Commits(s, a)
    requires s.loaders[a.id].watchedAt - s.loaders[a.id].tokenAt < GUARD_TTL
    ensures !s.loaders[a.id].missed
  {
    ReachableInv(s);
    assert LoaderOk(s, s.loaders[a.id]);
  }

  /** The elapsed check gives that bound when the token read and the clock start are
      one instant, and the check and the WATCH read are one instant. */
  lemma InstantReadsAreSafe(s: State, a: Step)
    requires Reachable(s) && Commits(s, a)
    requires s.loaders[a.id].startedAt == s.loaders[a.id].tokenAt
    requires s.loaders[a.id].watchedAt == s.loaders[a.id].checkedAt
    ensures !s.loaders[a.id].missed
  {
    ReachableInv(s);
    assert LoaderOk(s, s.loaders[a.id]);
  }

  /** A refill never replaces a usable value. */
  lemma FillReplacesNothingUsable(s: State, a: Step)
    requires Reachable(s) && Commits(s, a)
    ensures s.stored.Some? ==> s.stored.value.Unusable?
    ensures Next(s, a).stored == Some(Usable(a.value))
  {
    ReachableInv(s);
    assert LoaderOk(s, s.loaders[a.id]);
  }

  // ---- The bound is exact ------------------------------------------------------------------------

  /** Loader `id` stands before a commit although an invalidate came since its token
      read. Counted from that read, its clock started after `start`, its elapsed check
      ran after `check`, and its WATCH after `watch` seconds. */
  predicate MissedCommit(s: State, id: LoaderId, start: real, check: real, watch: real) {
    && Phased(s, id, Ready) && !s.loaders[id].dirty && s.loaders[id].missed
    && s.loaders[id].startedAt - s.loaders[id].tokenAt == start
    && s.loaders[id].checkedAt - s.loaders[id].tokenAt == check
    && s.loaders[id].watchedAt - s.loaders[id].tokenAt == watch
  }

  /** Only a loader that saw no token can be deceived: a token once seen never returns. */
  lemma OnlyTokenlessLoadersMiss(s: State, id: LoaderId, start: real, check: real, watch: real)
    requires Reachable(s) && MissedCommit(s, id, start, check, watch)
    ensures s.loaders[id].token == None
  {
    ReachableInv(s);
    assert LoaderOk(s, s.loaders[id]);
  }

  lemma StepTo(s: State, a: Step) returns (t: State)
    requires Reachable(s) && Enabled(s, a)
    ensures Reachable(t) && t == Next(s, a)
  {
    t := Next(s, a);
    var states, steps :| RunTo(states, steps, s);
    var more, done := states + [t], steps + [a];
    forall i | 0 <= i < |done| ensures Enabled(more[i], done[i]) && more[i + 1] == Next(more[i], done[i]) {
      if i < |steps| { assert Enabled(states[i], steps[i]) && states[i + 1] == Next(states[i], steps[i]); }
    }
    assert RunTo(more, done, t);
  }

  /** The only loader, in a given phase, reading its token at 0 and invalidated at once. */
  function OnlyLoader(phase: Phase, start: real, check: real, watch: real, missed: bool): map<LoaderId, Loader> {
    map[0 := Loader(phase, None, 0.0, if phase == TokenRead then 0.0 else start,
                    if phase == Checked || phase == Ready then check else 0.0,
                    if phase == Ready then watch else 0.0, phase != Ready && missed, missed)]
  }

  lemma DeceivedLoad(start: real, check: real, watch: real) returns (s: State)
    requires 0.0 <= start <= check <= watch && check - start < GUARD_TTL <= watch
    ensures Reachable(s) && s.loaders == OnlyLoader(Loading, start, check, watch, true)
    ensures s.now == start && s.token.Some? && s.tokenExpiry == GUARD_TTL && s.stored == None
  {
    var s0 := State(0.0, None, None, 0.0, map[], {});
    assert RunTo([s0], [], s0);
    var s1 := StepTo(s0, ReadToken(0));
    assert s1.loaders == OnlyLoader(TokenRead, start, check, watch, false);
    var s2 := StepTo(s1, Invalidate(0));
    assert s2.loaders == OnlyLoader(TokenRead, start, check, watch, true);
    var s3 := StepTo(s2, Tick(start));
    s := StepTo(s3, StartClock(0));
    assert s.loaders == OnlyLoader(Loading, start, check, watch, true);
  }

  lemma DeceivedCommit(start: real, check: real, watch: real) returns (s: State)
    requires 0.0 <= start <= check <= watch && check - start < GUARD_TTL <= watch
    ensures Reachable(s) && MissedCommit(s, 0, start, check, watch)
  {
    var s4 := DeceivedLoad(start, check, watch);
    var s5 := StepTo(s4, Tick(check));
    var s6 := StepTo(s5, CheckElapsed(0));
    assert s6.loaders == OnlyLoader(Checked, start, check, watch, true);
    var s7 := StepTo(s6, Tick(watch));
    assert VisibleToken(s7) == None;
    s := StepTo(s7, Watch(0));
    assert s.loaders == OnlyLoader(Ready, start, check, watch, true);
  }

  /** A refill can commit over a missed invalidate exactly when its WATCH comes a guard
      TTL or more after the token read while the check still passes: because the clock
      started late, because the WATCH followed the check late, or both. */
  lemma MissedCommitIffLate(start: real, check: real, watch: real)
    ensures (exists s, id :: Reachable(s) && MissedCommit(s, id, start, check, watch))
      <==> 0.0 <= start <= check <= watch && check - start < GUARD_TTL <= watch
  {
    if 0.0 <= start <= check <= watch && check - start < GUARD_TTL <= watch {
      var s := DeceivedCommit(start, check, watch);
    }
    forall s, id | Reachable(s) && MissedCommit(s, id, start, check, watch)
      ensures 0.0 <= start <= check <= watch && check - start < GUARD_TTL <= watch
    {
      ReachableInv(s);
      assert LoaderOk(s, s.loaders[id]);
    }
  }
}
