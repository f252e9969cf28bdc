/** The in-process circuit breaker in front of the AUTH service, over every order
    of calls, late reports included, with fixed settings
    (auth/circuit_breaker.py). Clock readings are arguments. */
module CircuitBreaker {
  import opened Wrappers

  datatype Mode = Closed | Open | HalfOpen

  datatype State = State(mode: Mode, failures: nat, openedAt: real, probing: bool)

  datatype Settings = Settings(configuredThreshold: int, configuredReset: real)

  function Threshold(c: Settings): int {
    if c.configuredThreshold < 1 then 1 else c.configuredThreshold
  }

  function ResetSeconds(c: Settings): real {
    if c.configuredReset < 0.0 then 0.0 else c.configuredReset
  }

  const INITIAL := State(Closed, 0, 0.0, false)

  // ---- The class -------------------------------------------------------------------

  class Breaker {
    const c: Settings
    var mode: Mode
    var failures: nat
    var openedAt: real
    var probing: bool

    function Now(): State
      reads this
    {
      State(mode, failures, openedAt, probing)
    }

    constructor (c: Settings)
      ensures this.c == c && Now() == INITIAL
    {
      this.c := c;
      mode, failures, openedAt, probing := Closed, 0, 0.0, false;
    }

    method Allow(now: real) returns (granted: bool)
      modifies this
      ensures (Now(), granted) == AfterAllow(c, old(Now()), now)
    {
      if mode.Closed? {
        return true;
      }
      if mode.Open? {
        if now - openedAt >= ResetSeconds(c) {
          mode := HalfOpen;
          probing := true;
          return true;
        }
        return false;
      }
      if probing {
        return false;
      }
      probing := true;
      return true;
    }

    method RecordSuccess()
      modifies this
      ensures Now() == INITIAL
    {
      mode, failures, openedAt, probing := Closed, 0, 0.0, false;
    }

    method RecordFailure(now: real)
      modifies this
      ensures Now() == AfterFailure(c, old(Now()), now)
    {
      if mode.HalfOpen? {
        mode, probing, openedAt := Open, false, now;
        return;
      }
      failures := failures + 1;
      if failures >= Threshold(c) {
        mode, openedAt := Open, now;
      }
    }
  }

  function AfterAllow(c: Settings, s: State, now: real): (State, bool) {
    match s.mode
    case Closed => (s, true)
    case Open => if now - s.openedAt >= ResetSeconds(c) then (s.(mode := HalfOpen, probing := true), true) else (s, false)
    case HalfOpen => (s.(probing := true), !s.probing)
  }

  function AfterFailure(c: Settings, s: State, now: real): State {
    if s.mode.HalfOpen? then s.(mode := Open, probing := false, openedAt := now)
    else if s.failures + 1 >= Threshold(c) then s.(failures := s.failures + 1, mode := Open, openedAt := now)
    else s.(failures := s.failures + 1)
  }

  // ---- Call sequences -----------------------------------------------------------------

  /** Any call, in any order: reports need not follow the call they belong to.
      `Success` also stands for `reset`, which does the same. */
  datatype Call = Ask(now: real) | Success | Failure(now: real)

  function After(c: Settings, s: State, a: Call): State {
    match a
    case Ask(now) => AfterAllow(c, s, now).0
    case Success => INITIAL
    case Failure(now) => AfterFailure(c, s, now)
  }

  predicate Granted(c: Settings, s: State, a: Call) {
    a.Ask? && AfterAllow(c, s, a.now).1
  }

  /** The state after the first n calls. */
  function At(c: Settings, calls: seq<Call>, n: nat): State
    requires n <= |calls|
  {
    if n == 0 then INITIAL else After(c, At(c, calls, n - 1), calls[n - 1])
  }

  /** The time of the last failure reported among the first n calls. */
  function LastFailure(calls: seq<Call>, n: nat): Option<real>
    requires n <= |calls|
  {
    if n == 0 then None
    else if calls[n - 1].Failure? then Some(calls[n - 1].now)
    else LastFailure(calls, n - 1)
  }

  predicate Consistent(c: Settings, s: State) {
    match s.mode
    case Closed => s.failures < Threshold(c) && !s.probing
    case Open => s.failures >= Threshold(c) && !s.probing
    case HalfOpen => s.failures >= Threshold(c) && s.probing
  }

  /** Closed exactly while the failure count is below the threshold, and half-open
      exactly while a probe is marked, after every call sequence. */
  lemma {:induction false} AlwaysConsistent(c: Settings, calls: seq<Call>, n: nat)
    requires n <= |calls|
    ensures Consistent(c, At(c, calls, n))
  {
    if n > 0 { AlwaysConsistent(c, calls, n - 1); }
  }

  /** Unless closed, `openedAt` is the time of the last reported failure. */
  lemma {:induction false} OpenedAtIsLastFailure(c: Settings, calls: seq<Call>, n: nat)
    requires n <= |calls| && !At(c, calls, n).mode.Closed?
    ensures LastFailure(calls, n) == Some(At(c, calls, n).openedAt)
  {
    if n > 0 {
      AlwaysConsistent(c, calls, n - 1);
      if !At(c, calls, n - 1).mode.Closed? { OpenedAtIsLastFailure(c, calls, n - 1); }
    }
  }

  /** A half-open episode: entered by call i, still half-open after call j. */
  ghost predicate Episode(c: Settings, calls: seq<Call>, i: nat, j: nat) {
    && i < j <= |calls|
    && !At(c, calls, i).mode.HalfOpen?
    && forall k :: i < k <= j ==> At(c, calls, k).mode.HalfOpen?
  }

  /** Each half-open episode grants exactly one call: the one that enters it. */
  lemma HalfOpenGrantsExactlyOne(c: Settings, calls: seq<Call>, i: nat, j: nat)
    requires Episode(c, calls, i, j)
    ensures forall k :: i <= k < j ==> (Granted(c, At(c, calls, k), calls[k]) <==> k == i)
  {
    AlwaysConsistent(c, calls, i);
    assert At(c, calls, i + 1) == After(c, At(c, calls, i), calls[i]);
    forall k | i < k < j ensures !Granted(c, At(c, calls, k), calls[k]) {
      AlwaysConsistent(c, calls, k);
    }
  }

  /** A granted call finds the breaker closed, or finds it open with the cooldown over
      since the last reported failure. */
  lemma GrantMeansClosedOrCooledDown(c: Settings, calls: seq<Call>, n: nat)
    requires n < |calls| && Granted(c, At(c, calls, n), calls[n])
    ensures At(c, calls, n).mode.Closed? ||
      (LastFailure(calls, n).Some? && calls[n].now - LastFailure(calls, n).value >= ResetSeconds(c))
  {
    AlwaysConsistent(c, calls, n);
    if !At(c, calls, n).mode.Closed? { OpenedAtIsLastFailure(c, calls, n); }
  }

  /** Only a success closes the breaker. */
  lemma {:induction false} StaysOpenWithoutSuccess(c: Settings, calls: seq<Call>, i: nat, j: nat)
    requires i <= j <= |calls| && !At(c, calls, i).mode.Closed?
    requires forall k :: i <= k < j ==> !calls[k].Success?
    ensures !At(c, calls, j).mode.Closed?
    decreases j
  {
    if i < j { StaysOpenWithoutSuccess(c, calls, i, j - 1); }
  }

  /** Once open and as long as no success is reported, no call is granted before the
      cooldown has passed since the last reported failure, late reports included. */
  lemma NoGrantBeforeCooldown(c: Settings, calls: seq<Call>, i: nat, j: nat)
    requires i <= j < |calls| && !At(c, calls, i).mode.Closed?
    requires forall k :: i <= k < j ==> !calls[k].Success?
    requires Granted(c, At(c, calls, j), calls[j])
    ensures LastFailure(calls, j).Some? && calls[j].now - LastFailure(calls, j).value >= ResetSeconds(c)
  {
    StaysOpenWithoutSuccess(c, calls, i, j);
    GrantMeansClosedOrCooledDown(c, calls, j);
  }
}
