/** The relay's leader lease: one Redis key with an expiry, taken by SET NX EX, renewed
    and released by WATCH/MULTI only while it still holds the own token
    (core/outbox_relay.py). Times are the server's; one Redis lifetime. */
module LeaderLease {
  type Relay = nat
  type Token = nat

  datatype Lease = NoLease | Held(token: Token, expireAt: real)

  /** What a relay was last told: it leads with `token` until `until`. */
  datatype Belief = Belief(token: Token, until: real)

  /** `version` counts changes of the key: a watch is good while it has not moved. */
  datatype State = State(now: real, lease: Lease, version: nat, issued: set<Token>,
                         beliefs: map<Relay, Belief>, watches: map<Relay, nat>)

  datatype Step =
    | Tick(to: real)
    | Acquire(relay: Relay, token: Token, ttl: nat)
    | Watch(relay: Relay)
    | ExecRenew(relay: Relay, ttl: nat)
    | ExecRelease(relay: Relay)
    | GiveUp(relay: Relay)

  /** `max(1, int(ttl_s))` */
  function Seconds(ttl: nat): (r: real)
    ensures r >= 1.0
  {
    if ttl == 0 then 1.0 else ttl as real
  }

  predicate Mine(s: State, r: Relay) {
    r in s.beliefs && s.lease.Held? && s.lease.token == s.beliefs[r].token
  }

  predicate Enabled(s: State, a: Step) {
    match a
    case Tick(to) => s.now <= to
    case Acquire(r, token, _) => r !in s.beliefs && r !in s.watches && token !in s.issued
    case Watch(r) => r in s.beliefs && r !in s.watches
    case ExecRenew(r, _) => r in s.watches && r in s.beliefs
    case ExecRelease(r) => r in s.watches && r in s.beliefs
    case GiveUp(r) => r in s.beliefs
  }

  function Changed(s: State, lease: Lease): State {
    s.(lease := lease, version := s.version + 1)
  }

  function Forget(s: State, r: Relay): State {
    s.(beliefs := s.beliefs - {r}, watches := s.watches - {r})
  }

  predicate WatchHolds(s: State, r: Relay) {
    r in s.watches && s.watches[r] == s.version
  }

  function Next(s: State, a: Step): State
    requires Enabled(s, a)
  {
    match a
    case Tick(to) =>
      var t := s.(now := to);
      if s.lease.Held? && s.lease.expireAt <= to then Changed(t, NoLease) else t
    case Acquire(r, token, ttl) =>
      var t := s.(issued := s.issued + {token});
      if s.lease.Held? then t
      else Changed(t, Held(token, s.now + Seconds(ttl))).(beliefs := s.beliefs[r := Belief(token, s.now + Seconds(ttl))])
    case Watch(r) => if Mine(s, r) then s.(watches := s.watches[r := s.version]) else Forget(s, r)
    case ExecRenew(r, ttl) =>
      var t := s.(watches := s.watches - {r});
      var b := Belief(s.beliefs[r].token, s.now + Seconds(ttl));
      if WatchHolds(s, r) then Changed(t, Held(b.token, b.until)).(beliefs := s.beliefs[r := b]) else t
    case ExecRelease(r) =>
      if WatchHolds(s, r) then Changed(Forget(s, r), NoLease) else s.(watches := s.watches - {r})
    case GiveUp(r) => Forget(s, r)
  }

  function Run(s: State, steps: seq<Step>): State
    requires IsRun(s, steps)
    decreases |steps|
  {
    if steps == [] then s else Run(Next(s, steps[0]), steps[1..])
  }

  predicate IsRun(s: State, steps: seq<Step>)
    decreases |steps|
  {
    steps == [] || (Enabled(s, steps[0]) && IsRun(Next(s, steps[0]), steps[1..]))
  }

  predicate Initial(s: State) {
    s.lease.NoLease? && s.issued == {} && s.beliefs == map[] && s.watches == map[]
  }

  // ---- Invariant -----------------------------------------------------------------------------

  predicate LeaseOk(s: State) {
    s.lease.Held? ==> s.now < s.lease.expireAt && s.lease.token in s.issued
  }

  /** A belief that has not run out is the lease. */
  predicate BeliefOk(s: State, r: Relay) {
    r in s.beliefs ==>
      && s.beliefs[r].token in s.issued
      && (s.now < s.beliefs[r].until ==> s.lease == Held(s.beliefs[r].token, s.beliefs[r].until))
  }

  /** A watch that still holds was set on the relay's own lease. */
  predicate WatchOk(s: State, r: Relay) {
    r in s.watches ==> r in s.beliefs && s.watches[r] <= s.version && (WatchHolds(s, r) ==> Mine(s, r))
  }

  predicate Distinct(s: State) {
    forall r, q :: r in s.beliefs && q in s.beliefs && s.beliefs[r].token == s.beliefs[q].token ==> r == q
  }

  ghost predicate Inv(s: State) {
    LeaseOk(s) && Distinct(s) && forall r :: BeliefOk(s, r) && WatchOk(s, r)
  }

  lemma StepKeepsRelay(s: State, a: Step, r: Relay)
    requires Inv(s) && Enabled(s, a)
    ensures BeliefOk(Next(s, a), r) && WatchOk(Next(s, a), r)
  {
    assert BeliefOk(s, r) && WatchOk(s, r);
    if a.ExecRenew? || a.ExecRelease? {
      assert BeliefOk(s, a.relay) && WatchOk(s, a.relay);
    }
  }

  lemma StepKeepsInv(s: State, a: Step)
    requires Inv(s) && Enabled(s, a)
    ensures Inv(Next(s, a))
  {
    forall r ensures BeliefOk(Next(s, a), r) && WatchOk(Next(s, a), r) {
      StepKeepsRelay(s, a, r);
    }
    assert forall r :: r in s.beliefs ==> BeliefOk(s, r);
    if a.ExecRenew? { assert WatchOk(s, a.relay); }
  }

  lemma {:induction false} RunKeepsInv(s: State, steps: seq<Step>)
    requires Inv(s) && IsRun(s, steps)
    ensures Inv(Run(s, steps))
    decreases |steps|
  {
    if steps != [] {
      StepKeepsInv(s, steps[0]);
      RunKeepsInv(Next(s, steps[0]), steps[1..]);
    }
  }

  // ---- Main results -------------------------------------------------------------------------

  /** At no moment of any run are two relays within the time they were promised. */
  lemma OneLeader(start: State, steps: seq<Step>, r: Relay, q: Relay)
    requires Initial(start) && IsRun(start, steps) && r != q
    requires var s := Run(start, steps); r in s.beliefs && q in s.beliefs
    ensures var s := Run(start, steps); !(s.now < s.beliefs[r].until && s.now < s.beliefs[q].until)
  {
    RunKeepsInv(start, steps);
    var s := Run(start, steps);
    assert BeliefOk(s, r) && BeliefOk(s, q);
  }

  /** Whoever acts, the key of a relay within its time changes only by its own renewal
      or release: no acquisition, and no late renewal or release of a former leader. */
  lemma OnlyTheLeaderTouches(start: State, steps: seq<Step>, a: Step, r: Relay)
    requires Initial(start) && IsRun(start, steps) && Enabled(Run(start, steps), a)
    requires var s := Run(start, steps); r in s.beliefs && s.now < s.beliefs[r].until
    requires a.Tick? ==> a.to < Run(start, steps).beliefs[r].until
    requires (a.ExecRenew? || a.ExecRelease?) ==> a.relay != r
    ensures Next(Run(start, steps), a).lease == Run(start, steps).lease
  {
    RunKeepsInv(start, steps);
    var s := Run(start, steps);
    assert BeliefOk(s, r);
    if a.ExecRenew? || a.ExecRelease? {
      assert WatchOk(s, a.relay);
    }
  }

  // ---- The functions -------------------------------------------------------------------------

  class LeaseKey {
    var s: State

    constructor (s: State)
      requires Initial(s)
      ensures this.s == s && Inv(s)
    {
      this.s := s;
    }

    /** Other relays and the clock between two commands of relay r: r's own belief and
        watch stay. (The body is the case where nothing happens.) */
    method Await(r: Relay)
      requires Inv(s)
      modifies this
      ensures Inv(s) && Own(s, r) == old(Own(s, r)) && old(s.now) <= s.now
    {
    }

    /** `_acquire_lease` */
    method AcquireLease(r: Relay, token: Token, ttl: nat) returns (ok: bool)
      requires Inv(s) && Enabled(s, Acquire(r, token, ttl))
      modifies this
      ensures s == Next(old(s), Acquire(r, token, ttl)) && Inv(s)
      ensures ok <==> old(s.lease).NoLease?
      ensures ok ==> r in s.beliefs && s.beliefs[r] == Belief(token, s.now + Seconds(ttl)) && Mine(s, r)
    {
      StepKeepsInv(s, Acquire(r, token, ttl));
      ok := s.lease.NoLease?;
      s := Next(s, Acquire(r, token, ttl));
    }

    /** `_renew_lease`: at most three rounds of WATCH, compare, MULTI/EXEC. True means
        that the lease was the relay's own and now runs `ttl` from the exec. */
    method RenewLease(r: Relay, ttl: nat) returns (ok: bool)
      requires Inv(s) && Enabled(s, Watch(r))
      modifies this
      ensures Inv(s) && r !in s.watches
      ensures ok ==> r in s.beliefs && s.beliefs[r] == Belief(old(s.beliefs[r].token), s.now + Seconds(ttl)) && Mine(s, r)
    {
      var attempt := 0;
      while attempt < 3
        invariant Inv(s) && Enabled(s, Watch(r)) && s.beliefs[r] == old(s.beliefs[r])
      {
        StepKeepsInv(s, Watch(r));
        s := Next(s, Watch(r));
        if r !in s.watches {
          return false;
        }
        Await(r);
        StepKeepsInv(s, ExecRenew(r, ttl));
        ok := WatchHolds(s, r);
        s := Next(s, ExecRenew(r, ttl));
        if ok {
          return true;
        }
        attempt := attempt + 1;
      }
      ok := false;
    }

    /** `_release_lease`: it deletes the key only if it is still the relay's own; `at` is
        the moment of the delete. */
    method ReleaseLease(r: Relay) returns (deleted: bool, ghost at: State)
      requires Inv(s) && Enabled(s, Watch(r))
      modifies this
      ensures Inv(s) && r !in s.watches
      ensures deleted ==> Mine(at, r) && at.beliefs[r] == old(s.beliefs[r]) && Enabled(at, ExecRelease(r))
      ensures deleted ==> s == Next(at, ExecRelease(r)) && s.lease.NoLease? && r !in s.beliefs
    {
      at := s;
      var attempt := 0;
      while attempt < 3
        invariant Inv(s) && Enabled(s, Watch(r)) && s.beliefs[r] == old(s.beliefs[r])
      {
        StepKeepsInv(s, Watch(r));
        s := Next(s, Watch(r));
        if r !in s.watches {
          return false, at;
        }
        Await(r);
        StepKeepsInv(s, ExecRelease(r));
        deleted := WatchHolds(s, r);
        at := s;
        assert WatchOk(at, r);
        s := Next(s, ExecRelease(r));
        if deleted {
          return;
        }
        attempt := attempt + 1;
      }
      deleted := false;
    }
  }

  /** What others leave alone. */
  function Own(s: State, r: Relay): (bool, bool, Belief, nat) {
    (r in s.beliefs, r in s.watches, if r in s.beliefs then s.beliefs[r] else Belief(0, 0.0),
     if r in s.watches then s.watches[r] else 0)
  }

  /** The await contract is what other relays' steps and the clock satisfy. */
  lemma OthersKeepOwn(s: State, a: Step, r: Relay)
    requires Inv(s) && Enabled(s, a) && (a.Tick? || a.relay != r)
    ensures Inv(Next(s, a)) && Own(Next(s, a), r) == Own(s, r) && s.now <= Next(s, a).now
  {
    StepKeepsInv(s, a);
  }
}
