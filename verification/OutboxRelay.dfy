/** `relay_poll` and `archive_published` as a relay process runs them: loops of
    transactions with everything else happening in between. Each takes steps of
    the `Outbox` machine only, so its theorems cover any number of such relays. */
module OutboxRelay {
  import opened Wrappers
  import opened Outbox

  ghost predicate IsTrace(c: Config, states: seq<State>, steps: seq<Step>, s: State, t: State) {
    && |states| == |steps| + 1 && states[0] == s && states[|steps|] == t
    && forall i :: 0 <= i < |steps| ==> Enabled(c, states[i], steps[i]) && states[i + 1] == Next(c, states[i], steps[i])
  }

  ghost predicate Leads(c: Config, s: State, t: State) {
    exists states, steps :: IsTrace(c, states, steps, s, t)
  }

  /** Whatever led to s leads on to t. */
  ghost predicate Onward(c: Config, s: State, t: State) {
    forall x :: Leads(c, x, s) ==> Leads(c, x, t)
  }

  lemma LeadsSelf(c: Config, s: State)
    ensures Leads(c, s, s)
  {
    assert IsTrace(c, [s], [], s, s);
  }

  lemma LeadsStep(c: Config, s: State, t: State, a: Step)
    requires Leads(c, s, t) && Enabled(c, t, a)
    ensures Leads(c, s, Next(c, t, a))
  {
    var states, steps :| IsTrace(c, states, steps, s, t);
    var more, done := states + [Next(c, t, a)], steps + [a];
    forall i | 0 <= i < |done| ensures Enabled(c, more[i], done[i]) && more[i + 1] == Next(c, more[i], done[i]) {
      if i < |steps| { assert Enabled(c, states[i], steps[i]) && states[i + 1] == Next(c, states[i], steps[i]); }
    }
    assert IsTrace(c, more, done, s, Next(c, t, a));
  }

  /** A run that is continued by such steps is a run. */
  lemma LeadsKeepsReachable(c: Config, s: State, t: State)
    requires Reachable(c, s) && Leads(c, s, t)
    ensures Reachable(c, t)
  {
    var states, steps :| IsTrace(c, states, steps, s, t);
    ReachableAlong(c, states, steps, s, t);
  }

  lemma {:induction false} ReachableAlong(c: Config, states: seq<State>, steps: seq<Step>, s: State, t: State)
    requires IsTrace(c, states, steps, s, t) && Reachable(c, s)
    ensures Reachable(c, t)
    decreases |steps|
  {
    if steps != [] {
      assert Enabled(c, states[0], steps[0]) && states[0 + 1] == Next(c, states[0], steps[0]);
      ReachableStep(c, s, steps[0]);
      var rest, left := states[1..], steps[1..];
      forall i | 0 <= i < |left| ensures Enabled(c, rest[i], left[i]) && rest[i + 1] == Next(c, rest[i], left[i]) {
        assert Enabled(c, states[i + 1], steps[i + 1]) && states[i + 1 + 1] == Next(c, states[i + 1], steps[i + 1]);
      }
      ReachableAlong(c, rest, left, states[1], t);
    }
  }

  /** The relay's own claim is `k`; `None` when it holds none. */
  predicate Carries(s: State, w: Relay, k: Option<Claim>) {
    if k.Some? then w in s.claims && s.claims[w] == k.value else w !in s.claims
  }

  /** What the await contract below rests on: others leave a relay's claim alone. */
  lemma OthersLeaveClaim(c: Config, s: State, a: Step, w: Relay, k: Option<Claim>)
    requires Enabled(c, s, a) && Carries(s, w, k)
    requires a.Enqueue? || a.Tick? || a.Sweep? || a.relay != w
    ensures Carries(Next(c, s, a), w, k)
    ensures s.accepted <= Next(c, s, a).accepted
  {
    var t := Next(c, s, a);
    if a.Settle? {
      assert t.claims == s.claims - {a.relay} && t.accepted == s.accepted;
    } else if a.FoldPoison? {
      assert t.claims == s.claims - {a.relay} && t.accepted == s.accepted;
    } else {
      PlainStepLeavesClaim(c, s, a, w);
    }
  }

  lemma PlainStepLeavesClaim(c: Config, s: State, a: Step, w: Relay)
    requires Enabled(c, s, a) && !a.Settle? && !a.FoldPoison?
    requires a.Enqueue? || a.Tick? || a.Sweep? || a.relay != w
    ensures var t := Next(c, s, a); SameOn(s.claims, t.claims, w) && s.accepted <= t.accepted
  {
  }

  // ---- Rows published stay published or archived ------------------------------------------

  predicate PublishedOrArchived(s: State, id: RowId) {
    (id in s.rows && s.rows[id].status == Published) || id in s.archive
  }

  lemma StepKeepsPublished(c: Config, s: State, a: Step, id: RowId)
    requires Inv(c, s) && Enabled(c, s, a) && PublishedOrArchived(s, id)
    ensures PublishedOrArchived(Next(c, s, a), id)
  {
    if id in s.rows {
      assert RowOk(c, s, id, s.rows[id]);
    }
    if a.Settle? {
      if id in s.rows && id !in s.archive { SettleTouchesOwnRow(c, s, a.relay, id); }
    } else if a.FoldPoison? {
      if id in s.rows && id !in s.archive { FoldTouchesOwnRow(s, a.relay, id); }
    } else {
      PlainStepKeepsPublished(c, s, a, id);
    }
  }

  lemma PlainStepKeepsPublished(c: Config, s: State, a: Step, id: RowId)
    requires Enabled(c, s, a) && !a.Settle? && !a.FoldPoison? && PublishedOrArchived(s, id)
    requires a.Enqueue? && id in s.rows ==> id in s.enqueued
    requires a.Release? && id in s.rows ==> s.rows[id].lockedBy.None? || s.rows[id].status != Published
    ensures PublishedOrArchived(Next(c, s, a), id)
  {
  }

  lemma {:induction false} PublishedAlong(c: Config, states: seq<State>, steps: seq<Step>, s: State, t: State, id: RowId)
    requires c.maxTries >= 1 && IsTrace(c, states, steps, s, t) && Reachable(c, s) && PublishedOrArchived(s, id)
    ensures PublishedOrArchived(t, id)
    decreases |steps|
  {
    if steps != [] {
      assert Enabled(c, states[0], steps[0]) && states[0 + 1] == Next(c, states[0], steps[0]);
      ReachableInv(c, s);
      StepKeepsPublished(c, s, steps[0], id);
      ReachableStep(c, s, steps[0]);
      var rest, left := states[1..], steps[1..];
      forall i | 0 <= i < |left| ensures Enabled(c, rest[i], left[i]) && rest[i + 1] == Next(c, rest[i], left[i]) {
        assert Enabled(c, states[i + 1], steps[i + 1]) && states[i + 1 + 1] == Next(c, states[i + 1], steps[i + 1]);
      }
      PublishedAlong(c, rest, left, states[1], t, id);
    }
  }

  /** Whatever others and later rounds do, a row once published is not pending again. */
  lemma PublishedStays(c: Config, s: State, t: State, id: RowId)
    requires Sound(c, s) && Onward(c, s, t) && PublishedOrArchived(s, id)
    ensures PublishedOrArchived(t, id)
  {
    LeadsSelf(c, s);
    var states, steps :| IsTrace(c, states, steps, s, t);
    PublishedAlong(c, states, steps, s, t, id);
  }

  /** The state arose in a run of the outbox machine. */
  ghost predicate Sound(c: Config, s: State) {
    c.maxTries >= 1 && Reachable(c, s)
  }

  lemma StaysSound(c: Config, s: State, t: State)
    requires Sound(c, s) && Onward(c, s, t)
    ensures Sound(c, t)
  {
    LeadsSelf(c, s);
    LeadsKeepsReachable(c, s, t);
  }

  lemma ClaimableIsNotPublished(c: Config, s: State, id: RowId)
    requires Sound(c, s) && id in s.rows && Claimable(c, s.now, s.rows[id])
    ensures !PublishedOrArchived(s, id)
  {
    ReachableInv(c, s);
    assert RowOk(c, s, id, s.rows[id]) && InOneTable(s, id);
  }

  /** The row's own event was accepted by the broker. */
  predicate OwnEventAccepted(s: State, id: RowId) {
    (id in s.rows && (id, s.rows[id].event) in s.accepted) || (id in s.archive && (id, s.archive[id].event) in s.accepted)
  }

  /** The rows are different ones, all published or archived, each with its own event
      accepted. */
  ghost predicate AllDelivered(s: State, done: seq<RowId>) {
    && (forall i, j :: 0 <= i < j < |done| ==> done[i] != done[j])
    && (forall id :: id in done ==> PublishedOrArchived(s, id))
  }

  lemma DeliveredLater(c: Config, s: State, t: State, done: seq<RowId>)
    requires Sound(c, s) && Onward(c, s, t) && AllDelivered(s, done)
    ensures AllDelivered(t, done)
  {
    forall id | id in done ensures PublishedOrArchived(t, id) {
      PublishedStays(c, s, t, id);
    }
  }

  lemma OneMoreDelivered(s: State, t: State, done: seq<RowId>, row: RowId)
    requires AllDelivered(s, done) && AllDelivered(t, done) && !PublishedOrArchived(s, row) && PublishedOrArchived(t, row)
    ensures AllDelivered(t, done + [row])
  {
    assert row !in done;
  }

  lemma DeliveredWereAccepted(c: Config, s: State, done: seq<RowId>)
    requires Sound(c, s) && AllDelivered(s, done)
    ensures forall id :: id in done ==> OwnEventAccepted(s, id)
  {
    forall id | id in done ensures OwnEventAccepted(s, id) {
      PublishedWasAccepted(c, s, id);
    }
  }

  /** The row the scan would return: claimable, with fewest attempts, then lowest id. */
  predicate FirstClaimable(c: Config, s: State, id: RowId) {
    && id in s.rows && Claimable(c, s.now, s.rows[id])
    && forall x :: x in s.rows && Claimable(c, s.now, s.rows[x]) ==>
         s.rows[id].attempts < s.rows[x].attempts || (s.rows[id].attempts == s.rows[x].attempts && id <= x)
  }

  datatype RoundResult = Stop | Delivered(row: RowId) | NotDelivered

  class Database {
    const c: Config
    var s: State

    constructor (c: Config, s: State)
      ensures this.c == c && this.s == s
    {
      this.c := c;
      this.s := s;
    }

    method Act(a: Step)
      requires Enabled(c, s, a)
      modifies this
      ensures s == Next(c, old(s), a) && Onward(c, old(s), s)
    {
      forall x | Leads(c, x, s) ensures Leads(c, x, Next(c, s, a)) { LeadsStep(c, x, s, a); }
      s := Next(c, s, a);
    }

    /** An await of relay w: any steps of others, who do not touch its claim and never
        take an acceptance back. (The body is the case of no step.) */
    method Await(w: Relay, k: Option<Claim>)
      requires Carries(s, w, k)
      modifies this
      ensures Onward(c, old(s), s) && Carries(s, w, k) && old(s).accepted <= s.accepted
    {
    }

    /** The await from the claim to the publish call, under the delay hypothesis. */
    method AwaitPromptly(w: Relay, k: Claim)
      requires Carries(s, w, Some(k)) && s.now == k.lockedAt && 0.0 <= c.claimDelay
      modifies this
      ensures Onward(c, old(s), s) && Carries(s, w, Some(k)) && old(s).accepted <= s.accepted
      ensures s.now <= k.lockedAt + c.claimDelay
    {
    }

    /** A fresh claim id. */
    method NewToken() returns (t: Token)
      ensures t !in s.issued
    {
      t := 0;
      ghost var rest := s.issued.Keys;
      while t in s.issued
        invariant forall x :: x in s.issued && x >= t ==> x in rest
        decreases rest
      {
        rest := rest - {t};
        t := t + 1;
      }
    }

    method ScanClaimable() returns (found: Option<RowId>)
      ensures found.Some? ==> FirstClaimable(c, s, found.value)
      ensures found.None? ==> forall id :: id in s.rows ==> !Claimable(c, s.now, s.rows[id])
    {
      found := None;
      var rest := s.rows.Keys;
      while rest != {}
        invariant rest <= s.rows.Keys
        invariant found.Some? ==> found.value in s.rows && Claimable(c, s.now, s.rows[found.value])
        invariant forall x :: x in s.rows && x !in rest && Claimable(c, s.now, s.rows[x]) ==>
          found.Some? && (s.rows[found.value].attempts < s.rows[x].attempts
                          || (s.rows[found.value].attempts == s.rows[x].attempts && found.value <= x))
        decreases rest
      {
        var id :| id in rest;
        rest := rest - {id};
        if Claimable(c, s.now, s.rows[id]) {
          if found.None? || s.rows[id].attempts < s.rows[found.value].attempts
             || (s.rows[id].attempts == s.rows[found.value].attempts && id < found.value) {
            found := Some(id);
          }
        }
      }
    }

    /** The publish call, whose answer is the broker's. */
    method Publish(w: Relay, held: Claim) returns (k: Claim)
      requires Carries(s, w, Some(held)) && held.Holding? && !c.poison(held.event)
      requires s.now <= held.lockedAt + c.claimDelay
      modifies this
      ensures Onward(c, old(s), s) && Carries(s, w, Some(k)) && old(s).accepted <= s.accepted
      ensures k.PublishEnded? && k.row == held.row && k.event == held.event
      ensures k.ok ==> (held.row, held.event) in s.accepted
    {
      Act(BeginPublish(w));
      k := s.claims[w];
      Await(w, Some(k));
      var ok: bool := *;
      Act(EndPublish(w, ok));
      k := s.claims[w];
    }

    /** Publish outside any transaction, then settle only while the claim stands. */
    method PublishAndSettle(w: Relay, held: Claim) returns (settled: bool)
      requires Carries(s, w, Some(held)) && held.Holding? && !c.poison(held.event)
      requires s.now <= held.lockedAt + c.claimDelay
      modifies this
      ensures Onward(c, old(s), s) && Carries(s, w, None) && old(s).accepted <= s.accepted
      ensures settled ==> (held.row, held.event) in s.accepted
      ensures settled ==> held.row in s.rows && s.rows[held.row].status == Published
    {
      var k := Publish(w, held);
      Await(w, Some(k));
      settled := k.ok && Owns(s, k);
      Act(Settle(w));
    }

    /** One round of the loop: claim a row and see it through. */
    method Round(w: Relay) returns (r: RoundResult)
      requires Carries(s, w, None) && 0.0 <= c.claimDelay
      modifies this
      ensures Onward(c, old(s), s) && Carries(s, w, None) && old(s).accepted <= s.accepted
      ensures r.Delivered? ==> PublishedOrArchived(s, r.row)
      ensures r.Delivered? && Sound(c, old(s)) ==> !PublishedOrArchived(old(s), r.row)
    {
      var found := ScanClaimable();
      if found.None? {
        return Stop;
      }
      if Sound(c, s) { ClaimableIsNotPublished(c, s, found.value); }
      var token := NewToken();
      Act(TakeClaim(w, found.value, token));
      var k := s.claims[w];
      AwaitPromptly(w, k);
      var leader: bool := *;
      if !leader {
        Act(Release(w));
        return Stop;
      }
      if c.poison(k.event) {
        Act(FoldPoison(w));
        return NotDelivered;
      }
      var settled := PublishAndSettle(w, k);
      r := if settled then Delivered(k.row) else NotDelivered;
    }

    /** `relay_poll`: at most `batch` rounds while the relay may publish. Returns how
        many rows it settled as published: `done` lists them, different rows, each now
        published or archived and its own event accepted by the broker. */
    method RelayPoll(w: Relay, batch: nat) returns (succeeded: nat, ghost done: seq<RowId>)
      requires Carries(s, w, None) && 0.0 <= c.claimDelay
      modifies this
      ensures Onward(c, old(s), s) && Carries(s, w, None)
      ensures succeeded == |done| <= batch
      ensures Sound(c, old(s)) ==> AllDelivered(s, done) && forall id :: id in done ==> OwnEventAccepted(s, id)
    {
      succeeded, done := 0, [];
      ghost var start := s;
      var i := 0;
      while i < batch
        invariant 0 <= i <= batch
        invariant Onward(c, old(s), s) && Carries(s, w, None)
        invariant succeeded == |done| <= i
        invariant Sound(c, old(s)) ==> Sound(c, s) && AllDelivered(s, done)
      {
        ghost var roundStart := s;
        i := i + 1;
        var leader: bool := *;
        if !leader {
          break;
        }
        Await(w, None);
        ghost var before := s;
        var r := Round(w);
        if Sound(c, start) {
          StaysSound(c, start, before);
          StaysSound(c, start, s);
          DeliveredLater(c, roundStart, before, done);
          DeliveredLater(c, before, s, done);
        }
        if r.Stop? {
          break;
        }
        if r.Delivered? {
          if Sound(c, start) { OneMoreDelivered(before, s, done, r.row); }
          succeeded, done := succeeded + 1, done + [r.row];
        }
      }
      if Sound(c, start) { DeliveredWereAccepted(c, s, done); }
    }

    /** The lowest id among the archivable rows outside `taken`. */
    method LowestArchivable(cutoff: real, taken: set<RowId>) returns (found: Option<RowId>)
      ensures found.Some? ==> Archivable(s, found.value, cutoff) && found.value !in taken
      ensures forall x :: x !in taken && Archivable(s, x, cutoff) ==> found.Some? && found.value <= x
    {
      found := None;
      var rest := s.rows.Keys - taken;
      while rest != {}
        invariant rest <= s.rows.Keys - taken
        invariant found.Some? ==> Archivable(s, found.value, cutoff) && found.value !in taken
        invariant forall x :: x !in taken && x !in rest && Archivable(s, x, cutoff) ==> found.Some? && found.value <= x
        decreases rest
      {
        var id :| id in rest;
        rest := rest - {id};
        if Archivable(s, id, cutoff) && (found.None? || id < found.value) {
          found := Some(id);
        }
      }
    }

    /** The first `limit` archivable rows by id. */
    method PickArchivable(cutoff: real, limit: nat) returns (ids: set<RowId>)
      ensures FirstArchivable(s, ids, cutoff, limit)
    {
      ids := {};
      var exhausted := false;
      while |ids| < limit && !exhausted
        invariant |ids| <= limit
        invariant forall id :: id in ids ==> Archivable(s, id, cutoff)
        invariant forall x, y :: x !in ids && Archivable(s, x, cutoff) && y in ids ==> y < x
        invariant exhausted ==> forall x :: x !in ids ==> !Archivable(s, x, cutoff)
        decreases !exhausted, limit - |ids|
      {
        var found := LowestArchivable(cutoff, ids);
        if found.None? {
          exhausted := true;
        } else {
          ids := ids + {found.value};
        }
      }
    }

    /** `archive_published`: move the first `limit` rows that were published before the
        retention cutoff to the archive, as they are. */
    method ArchivePublished(retention: real, limit: nat) returns (ids: set<RowId>)
      requires 0.0 <= retention
      modifies this
      ensures Onward(c, old(s), s)
      ensures FirstArchivable(old(s), ids, old(s).now - retention, limit)
      ensures Swept(old(s), s, ids)
    {
      var cutoff := s.now - retention;
      ids := PickArchivable(cutoff, limit);
      Act(Sweep(ids, cutoff));
    }
  }

  /** At most `limit` archivable rows, none skipped for a later one, and all of them
      if they are fewer. */
  ghost predicate FirstArchivable(s: State, ids: set<RowId>, cutoff: real, limit: nat) {
    && |ids| <= limit
    && (forall id :: id in ids ==> Archivable(s, id, cutoff))
    && (forall x, y :: x !in ids && Archivable(s, x, cutoff) && y in ids ==> y < x)
    && (|ids| < limit ==> forall x :: x !in ids ==> !Archivable(s, x, cutoff))
  }

  /** Exactly the rows `ids` left the outbox, each now in the archive with its content. */
  ghost predicate Swept(s: State, t: State, ids: set<RowId>) {
    && ids <= s.rows.Keys
    && t.rows == s.rows - ids
    && (forall id :: id in ids ==> id in t.archive && t.archive[id].event == s.rows[id].event)
    && (forall id :: id in s.archive && id !in ids ==> id in t.archive && t.archive[id] == s.archive[id])
  }
}
