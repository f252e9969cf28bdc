/** The transactional outbox and its relays as a state machine: one step per
    committed transaction, per publish call event and per clock tick, with any
    number of relays that may crash between any two steps
    (core/outbox_relay.py, core/db/outbox.py). */
module Outbox {
  import opened Wrappers

  type RowId = nat
  type Relay = nat
  type Token = nat

  datatype Event = Event(eventId: string, routingKey: string, payload: string)

  datatype Status = Pending | Published

  datatype Row = Row(
    event: Event, status: Status, attempts: nat, nextRetryAt: real,
    publishedAt: Option<real>, lockedAt: Option<real>, lockedBy: Option<Token>)

  datatype Folded = Folded(event: Event, attempts: nat, exhausted: bool)

  datatype Archived = Archived(event: Event, attempts: nat, publishedAt: real)

  /** What a relay carries between two transactions of one round. */
  datatype Claim =
    | Holding(row: RowId, event: Event, token: Token, lockedAt: real)
    | Publishing(row: RowId, event: Event, token: Token, lockedAt: real, since: real)
    | PublishEnded(row: RowId, event: Event, token: Token, lockedAt: real, ok: bool)

  /** `maxTries` and `backoffCap` are MAX_TRIES and _BACKOFF_CAP_S; `poison` says
      which events can never be published; `claimDelay` bounds the time from the
      lock time stamp to the start of the publish call. */
  datatype Config = Config(
    maxTries: nat, backoffCap: nat, lockTtl: real, operationTimeout: real, claimDelay: real, poison: Event -> bool)

  /** The tables, the relays in flight and, from `enqueued` on, pure history:
      what was enqueued, which publish calls returned true for which row, how many
      settlements of a row failed, whom each token was issued for, and how often it
      settled. */
  datatype State = State(
    now: real, rows: map<RowId, Row>, failures: map<RowId, Folded>, archive: map<RowId, Archived>,
    claims: map<Relay, Claim>,
    enqueued: map<RowId, Event>, accepted: set<(RowId, Event)>, failed: map<RowId, nat>,
    issued: map<Token, RowId>, settled: map<Token, nat>)

  function Max(a: real, b: real): real { if a < b then b else a }
  function Min(a: real, b: real): real { if a < b then a else b }
  function Power2(n: nat): nat { if n == 0 then 1 else 2 * Power2(n - 1) }

  /** After this long without settlement a claim counts as abandoned. */
  function StaleWindow(c: Config): real {
    Max(c.lockTtl, c.operationTimeout + 10.0)
  }

  /** The longest a publish call can run. */
  function PublishTimeout(c: Config): real {
    Min(c.operationTimeout + 5.0, Max(0.1, c.lockTtl / 2.0))
  }

  function Backoff(c: Config, attempts: nat): real {
    (if Power2(attempts) < c.backoffCap then Power2(attempts) else c.backoffCap) as real
  }

  predicate Claimable(c: Config, now: real, r: Row) {
    && r.status == Pending
    && r.nextRetryAt <= now
    && (r.lockedAt.None? || r.lockedAt.value < now - StaleWindow(c))
  }

  /** The fencing check: only the current claimant may touch the row. */
  predicate Owns(s: State, k: Claim) {
    k.row in s.rows && s.rows[k.row].lockedBy == Some(k.token)
  }

  predicate Archivable(s: State, id: RowId, cutoff: real) {
    && id in s.rows && s.rows[id].status == Published
    && s.rows[id].publishedAt.Some? && s.rows[id].publishedAt.value < cutoff
  }

  datatype Step =
    | Enqueue(id: RowId, event: Event)
    | Tick(to: real)
    | TakeClaim(relay: Relay, id: RowId, token: Token)
    | Release(relay: Relay)
    | BeginPublish(relay: Relay)
    | EndPublish(relay: Relay, ok: bool)
    | Settle(relay: Relay)
    | FoldPoison(relay: Relay)
    | Crash(relay: Relay)
    | Sweep(ids: set<RowId>, cutoff: real)

  predicate Enabled(c: Config, s: State, a: Step) {
    match a
    case Enqueue(id, _) => id !in s.enqueued
    case Tick(to) => s.now <= to &&
      (forall w :: w in s.claims && s.claims[w].Publishing? ==> to <= s.claims[w].since + PublishTimeout(c))
    case TakeClaim(w, id, token) => w !in s.claims && token !in s.issued && id in s.rows && Claimable(c, s.now, s.rows[id])
    case Release(w) => w in s.claims && s.claims[w].Holding?
    case BeginPublish(w) => w in s.claims && s.claims[w].Holding? && !c.poison(s.claims[w].event)
      && s.now <= s.claims[w].lockedAt + c.claimDelay
    case EndPublish(w, _) => w in s.claims && s.claims[w].Publishing?
    case Settle(w) => w in s.claims && s.claims[w].PublishEnded?
    case FoldPoison(w) => w in s.claims && s.claims[w].Holding? && c.poison(s.claims[w].event)
    case Crash(w) => w in s.claims
    case Sweep(ids, cutoff) => cutoff <= s.now && forall id :: id in ids ==> Archivable(s, id, cutoff)
  }

  function Count(m: map<nat, nat>, k: nat): nat {
    if k in m then m[k] else 0
  }

  function Unlocked(r: Row): Row {
    r.(lockedAt := None, lockedBy := None)
  }

  /** Move a row to event_failures. */
  function Fold(s: State, id: RowId, attempts: nat, exhausted: bool): State
    requires id in s.rows
  {
    s.(rows := s.rows - {id}, failures := s.failures[id := Folded(s.rows[id].event, attempts, exhausted)])
  }

  /** The settlement that the owner of claim k has just committed. */
  function Settled(s: State, w: Relay): State
    requires w in s.claims
  {
    var k := s.claims[w];
    s.(claims := s.claims - {w}, settled := s.settled[k.token := Count(s.settled, k.token) + 1])
  }

  /** What a settlement leaves alone, apart from dropping the claim. */
  predicate Beside(s: State, t: State, w: Relay) {
    && t.now == s.now && t.enqueued == s.enqueued && t.archive == s.archive && t.issued == s.issued
    && t.accepted == s.accepted && t.claims == s.claims - {w}
  }

  /** No token locks the row, if it is still there. */
  predicate Unclaimed(t: State, id: RowId) {
    id in t.rows ==> t.rows[id].lockedBy.None?
  }

  function AfterSuccess(s: State, w: Relay): (t: State)
    requires w in s.claims && Owns(s, s.claims[w])
    ensures Beside(s, t, w) && Unclaimed(t, s.claims[w].row)
  {
    var id := s.claims[w].row;
    Settled(s, w).(rows := s.rows[id := Unlocked(s.rows[id]).(status := Published, publishedAt := Some(s.now))])
  }

  function AfterRetry(c: Config, s: State, w: Relay): (t: State)
    requires w in s.claims && Owns(s, s.claims[w])
    ensures Beside(s, t, w) && Unclaimed(t, s.claims[w].row)
  {
    var id := s.claims[w].row;
    var attempts := s.rows[id].attempts + 1;
    Settled(s, w).(
      rows := s.rows[id := Unlocked(s.rows[id]).(attempts := attempts, nextRetryAt := s.now + Backoff(c, attempts))],
      failed := s.failed[id := Count(s.failed, id) + 1])
  }

  function AfterExhaustion(s: State, w: Relay): (t: State)
    requires w in s.claims && Owns(s, s.claims[w])
    ensures Beside(s, t, w) && Unclaimed(t, s.claims[w].row)
  {
    var id := s.claims[w].row;
    Fold(Settled(s, w).(failed := s.failed[id := Count(s.failed, id) + 1]), id, s.rows[id].attempts + 1, true)
  }

  function AfterSettle(c: Config, s: State, w: Relay): (t: State)
    requires w in s.claims && s.claims[w].PublishEnded?
    ensures Beside(s, t, w) && (Owns(s, s.claims[w]) ==> Unclaimed(t, s.claims[w].row))
  {
    var k := s.claims[w];
    if !Owns(s, k) then s.(claims := s.claims - {w})
    else if k.ok then AfterSuccess(s, w)
    else if s.rows[k.row].attempts + 1 >= c.maxTries then AfterExhaustion(s, w)
    else AfterRetry(c, s, w)
  }

  function AfterFoldPoison(s: State, w: Relay): (t: State)
    requires w in s.claims
    ensures Beside(s, t, w) && (Owns(s, s.claims[w]) ==> Unclaimed(t, s.claims[w].row))
  {
    var k := s.claims[w];
    if !Owns(s, k) then s.(claims := s.claims - {w})
    else Fold(Settled(s, w), k.row, s.rows[k.row].attempts, false)
  }

  function ArchiveRow(s: State, id: RowId, cutoff: real): Archived
    requires Archivable(s, id, cutoff)
  {
    Archived(s.rows[id].event, s.rows[id].attempts, s.rows[id].publishedAt.value)
  }

  function AfterSweep(s: State, ids: set<RowId>, cutoff: real): State
    requires forall id :: id in ids ==> Archivable(s, id, cutoff)
  {
    var moved := map id | id in ids :: ArchiveRow(s, id, cutoff);
    s.(rows := s.rows - ids, archive := s.archive + moved)
  }

  function Next(c: Config, s: State, a: Step): State
    requires Enabled(c, s, a)
  {
    match a
    case Enqueue(id, event) =>
      s.(rows := s.rows[id := Row(event, Pending, 0, s.now, None, None, None)], enqueued := s.enqueued[id := event])
    case Tick(to) => s.(now := to)
    case TakeClaim(w, id, token) =>
      s.(rows := s.rows[id := s.rows[id].(lockedAt := Some(s.now), lockedBy := Some(token))],
         claims := s.claims[w := Holding(id, s.rows[id].event, token, s.now)],
         issued := s.issued[token := id])
    case Release(w) =>
      var k := s.claims[w];
      s.(claims := s.claims - {w},
         rows := if Owns(s, k) then s.rows[k.row := Unlocked(s.rows[k.row])] else s.rows)
    case BeginPublish(w) =>
      var k := s.claims[w];
      s.(claims := s.claims[w := Publishing(k.row, k.event, k.token, k.lockedAt, s.now)])
    case EndPublish(w, ok) =>
      var k := s.claims[w];
      s.(claims := s.claims[w := PublishEnded(k.row, k.event, k.token, k.lockedAt, ok)],
         accepted := if ok then s.accepted + {(k.row, k.event)} else s.accepted)
    case Settle(w) => AfterSettle(c, s, w)
    case FoldPoison(w) => AfterFoldPoison(s, w)
    case Crash(w) => s.(claims := s.claims - {w})
    case Sweep(ids, cutoff) => AfterSweep(s, ids, cutoff)
  }

  predicate Initial(s: State) {
    s == State(s.now, map[], map[], map[], map[], map[], {}, map[], map[], map[])
  }

  // ---- The invariant -----------------------------------------------------------------

  predicate RowOk(c: Config, s: State, id: RowId, r: Row) {
    && id in s.enqueued && r.event == s.enqueued[id]
    && (r.status == Published ==> (id, r.event) in s.accepted && r.lockedBy.None? && r.publishedAt.Some?)
    && r.attempts == Count(s.failed, id) && r.attempts < c.maxTries
    && (r.lockedBy.Some? ==> r.lockedBy.value in s.issued && s.issued[r.lockedBy.value] == id
                             && r.lockedBy.value !in s.settled && r.lockedAt.Some?)
    && (r.lockedBy.None? ==> r.lockedAt.None?)
  }

  predicate FailureOk(c: Config, s: State, id: RowId, f: Folded) {
    && id in s.enqueued && f.event == s.enqueued[id]
    && f.attempts == Count(s.failed, id)
    && (if f.exhausted then f.attempts == c.maxTries else f.attempts < c.maxTries)
  }

  predicate ArchivedOk(c: Config, s: State, id: RowId, a: Archived) {
    && id in s.enqueued && a.event == s.enqueued[id] && (id, a.event) in s.accepted
    && Count(s.failed, id) == a.attempts && a.attempts < c.maxTries
  }

  predicate ClaimOk(s: State, k: Claim) {
    && k.row in s.enqueued && k.event == s.enqueued[k.row]
    && k.token in s.issued && s.issued[k.token] == k.row
    && (k.PublishEnded? && k.ok ==> (k.row, k.event) in s.accepted)
  }

  ghost predicate TablesOk(c: Config, s: State) {
    && (forall id :: id in s.rows ==> RowOk(c, s, id, s.rows[id]))
    && (forall id :: id in s.failures ==> FailureOk(c, s, id, s.failures[id]))
    && (forall id :: id in s.archive ==> ArchivedOk(c, s, id, s.archive[id]))
  }

  /** The row is in exactly one table. */
  predicate InOneTable(s: State, id: RowId) {
    && (id in s.rows || id in s.failures || id in s.archive)
    && !(id in s.rows && id in s.failures)
    && !(id in s.rows && id in s.archive)
    && !(id in s.failures && id in s.archive)
  }

  ghost predicate Partitioned(s: State) {
    forall id :: id in s.enqueued ==> InOneTable(s, id)
  }

  ghost predicate ClaimsOk(s: State) {
    && (forall w :: w in s.claims ==> ClaimOk(s, s.claims[w]))
    && (forall v, w :: v in s.claims && w in s.claims && v != w ==> s.claims[v].token != s.claims[w].token)
  }

  ghost predicate HistoryOk(s: State) {
    && (forall t :: t in s.settled ==> s.settled[t] == 1 && t in s.issued)
    && s.failed.Keys <= s.enqueued.Keys
  }

  ghost predicate Inv(c: Config, s: State) {
    TablesOk(c, s) && Partitioned(s) && ClaimsOk(s) && HistoryOk(s)
  }

  // ---- Each kind of step keeps the invariant -------------------------------------------

  ghost predicate SameOn<K, V>(m: map<K, V>, n: map<K, V>, k: K) {
    (k in m <==> k in n) && (k in m && k in n ==> m[k] == n[k])
  }

  ghost predicate Extends<K, V>(m: map<K, V>, n: map<K, V>) {
    forall k :: k in m ==> k in n && n[k] == m[k]
  }

  /** From s to t only row `id` is touched; history grows, and only tokens issued
      for `id` may settle. */
  ghost predicate OnlyRow(s: State, t: State, id: RowId) {
    && (forall x :: x != id ==> SameOn(s.rows, t.rows, x) && SameOn(s.failures, t.failures, x) && SameOn(s.archive, t.archive, x))
    && (forall x :: x != id ==> Count(t.failed, x) == Count(s.failed, x))
    && (forall x :: x != id ==> (x in s.enqueued <==> x in t.enqueued))
    && Extends(s.enqueued, t.enqueued) && Extends(s.issued, t.issued)
    && s.accepted <= t.accepted
    && (forall k :: k in t.settled && k !in s.settled ==> k in s.issued && s.issued[k] == id)
  }

  predicate PlaceOk(c: Config, s: State, id: RowId) {
    && (id in s.rows ==> RowOk(c, s, id, s.rows[id]))
    && (id in s.failures ==> FailureOk(c, s, id, s.failures[id]))
    && (id in s.archive ==> ArchivedOk(c, s, id, s.archive[id]))
    && (id in s.enqueued ==> InOneTable(s, id))
  }

  lemma ElsewhereOk(c: Config, s: State, t: State, id: RowId, x: RowId)
    requires TablesOk(c, s) && Partitioned(s) && OnlyRow(s, t, id) && x != id
    ensures PlaceOk(c, t, x)
  {
    assert SameOn(s.rows, t.rows, x) && SameOn(s.failures, t.failures, x) && SameOn(s.archive, t.archive, x);
  }

  /** So the tables stay in order if the one place that changed does. */
  lemma OnlyRowKeepsTables(c: Config, s: State, t: State, id: RowId)
    requires TablesOk(c, s) && Partitioned(s) && OnlyRow(s, t, id) && PlaceOk(c, t, id)
    ensures TablesOk(c, t) && Partitioned(t)
  {
    forall x | x in t.rows ensures RowOk(c, t, x, t.rows[x]) {
      if x != id { ElsewhereOk(c, s, t, id, x); }
    }
    forall x | x in t.failures ensures FailureOk(c, t, x, t.failures[x]) {
      if x != id { ElsewhereOk(c, s, t, id, x); }
    }
    forall x | x in t.archive ensures ArchivedOk(c, t, x, t.archive[x]) {
      if x != id { ElsewhereOk(c, s, t, id, x); }
    }
    forall x | x in t.enqueued ensures InOneTable(t, x) {
      if x != id { ElsewhereOk(c, s, t, id, x); }
    }
  }

  /** From s to t only clock, claims and acceptances change, and acceptances grow. */
  predicate TablesSame(s: State, t: State) {
    && t.rows == s.rows && t.failures == s.failures && t.archive == s.archive && t.enqueued == s.enqueued
    && t.failed == s.failed && t.issued == s.issued && t.settled == s.settled && s.accepted <= t.accepted
  }

  lemma TablesSameKeeps(c: Config, s: State, t: State)
    requires Inv(c, s) && TablesSame(s, t)
    ensures TablesOk(c, t) && Partitioned(t) && HistoryOk(t)
  {
    forall id | id in s.enqueued ensures InOneTable(t, id) { assert InOneTable(s, id); }
  }

  lemma ClaimStays(s: State, t: State, k: Claim)
    requires TablesSame(s, t) && ClaimOk(s, k)
    ensures ClaimOk(t, k)
  {
  }

  lemma EnqueueTouchesRow(c: Config, s: State, id: RowId, event: Event)
    requires Enabled(c, s, Enqueue(id, event))
    ensures OnlyRow(s, Next(c, s, Enqueue(id, event)), id)
  {
  }

  lemma EnqueueKeepsPlace(c: Config, s: State, id: RowId, event: Event)
    requires c.maxTries >= 1 && Inv(c, s) && Enabled(c, s, Enqueue(id, event))
    ensures PlaceOk(c, Next(c, s, Enqueue(id, event)), id)
  {
    assert id in s.failures ==> FailureOk(c, s, id, s.failures[id]);
    assert id in s.archive ==> ArchivedOk(c, s, id, s.archive[id]);
  }

  lemma EnqueueKeepsInv(c: Config, s: State, id: RowId, event: Event)
    requires c.maxTries >= 1 && Inv(c, s) && Enabled(c, s, Enqueue(id, event))
    ensures Inv(c, Next(c, s, Enqueue(id, event)))
  {
    EnqueueTouchesRow(c, s, id, event);
    EnqueueKeepsPlace(c, s, id, event);
    OnlyRowKeepsTables(c, s, Next(c, s, Enqueue(id, event)), id);
    assert forall w :: w in s.claims ==> ClaimOk(s, s.claims[w]);
  }

  lemma TakeClaimKeepsClaims(c: Config, s: State, w: Relay, id: RowId, token: Token)
    requires Inv(c, s) && Enabled(c, s, TakeClaim(w, id, token))
    ensures ClaimsOk(Next(c, s, TakeClaim(w, id, token))) && HistoryOk(Next(c, s, TakeClaim(w, id, token)))
  {
    assert RowOk(c, s, id, s.rows[id]);
    var t := Next(c, s, TakeClaim(w, id, token));
    forall v | v in t.claims ensures ClaimOk(t, t.claims[v]) {
      if v != w { assert ClaimOk(s, s.claims[v]); }
    }
  }

  lemma TakeClaimKeepsInv(c: Config, s: State, w: Relay, id: RowId, token: Token)
    requires c.maxTries >= 1 && Inv(c, s) && Enabled(c, s, TakeClaim(w, id, token))
    ensures Inv(c, Next(c, s, TakeClaim(w, id, token)))
  {
    TakeClaimKeepsClaims(c, s, w, id, token);
    var t := Next(c, s, TakeClaim(w, id, token));
    assert RowOk(c, s, id, s.rows[id]) && InOneTable(s, id);
    assert token !in s.settled;
    assert PlaceOk(c, t, id);
    OnlyRowKeepsTables(c, s, t, id);
  }

  lemma ReleaseKeepsInv(c: Config, s: State, w: Relay)
    requires c.maxTries >= 1 && Inv(c, s) && Enabled(c, s, Release(w))
    ensures Inv(c, Next(c, s, Release(w)))
  {
    var t := Next(c, s, Release(w));
    var id := s.claims[w].row;
    if Owns(s, s.claims[w]) {
      assert RowOk(c, s, id, s.rows[id]) && InOneTable(s, id);
      assert PlaceOk(c, t, id);
      OnlyRowKeepsTables(c, s, t, id);
    } else {
      OneClaimMoves(c, s, t, w);
    }
  }

  lemma TickKeepsInv(c: Config, s: State, to: real)
    requires c.maxTries >= 1 && Inv(c, s) && Enabled(c, s, Tick(to))
    ensures Inv(c, Next(c, s, Tick(to)))
  {
  }

  lemma OneClaimMoves(c: Config, s: State, t: State, w: Relay)
    requires Inv(c, s) && TablesSame(s, t) && w in s.claims && t.claims.Keys <= s.claims.Keys
    requires forall v :: v in t.claims && v != w ==> t.claims[v] == s.claims[v]
    requires w in t.claims ==> ClaimOk(t, t.claims[w]) && t.claims[w].token == s.claims[w].token
    ensures Inv(c, t)
  {
    TablesSameKeeps(c, s, t);
    forall v | v in t.claims ensures ClaimOk(t, t.claims[v]) {
      if v != w { ClaimStays(s, t, s.claims[v]); }
    }
  }

  lemma BeginPublishKeepsInv(c: Config, s: State, w: Relay)
    requires c.maxTries >= 1 && Inv(c, s) && Enabled(c, s, BeginPublish(w))
    ensures Inv(c, Next(c, s, BeginPublish(w)))
  {
    OneClaimMoves(c, s, Next(c, s, BeginPublish(w)), w);
  }

  lemma EndPublishKeepsInv(c: Config, s: State, w: Relay, ok: bool)
    requires c.maxTries >= 1 && Inv(c, s) && Enabled(c, s, EndPublish(w, ok))
    ensures Inv(c, Next(c, s, EndPublish(w, ok)))
  {
    assert ClaimOk(s, s.claims[w]);
    OneClaimMoves(c, s, Next(c, s, EndPublish(w, ok)), w);
  }

  lemma CrashKeepsInv(c: Config, s: State, w: Relay)
    requires c.maxTries >= 1 && Inv(c, s) && Enabled(c, s, Crash(w))
    ensures Inv(c, Next(c, s, Crash(w)))
  {
    OneClaimMoves(c, s, Next(c, s, Crash(w)), w);
  }

  lemma SweepKeepsPlace(c: Config, s: State, ids: set<RowId>, cutoff: real, x: RowId)
    requires c.maxTries >= 1 && TablesOk(c, s) && Partitioned(s) && Enabled(c, s, Sweep(ids, cutoff))
    ensures PlaceOk(c, AfterSweep(s, ids, cutoff), x)
  {
    if x in s.rows { assert RowOk(c, s, x, s.rows[x]); }
    if x in s.enqueued { assert InOneTable(s, x); }
  }

  lemma SweepKeepsInv(c: Config, s: State, ids: set<RowId>, cutoff: real)
    requires c.maxTries >= 1 && Inv(c, s) && Enabled(c, s, Sweep(ids, cutoff))
    ensures Inv(c, Next(c, s, Sweep(ids, cutoff)))
  {
    PlacesMakeTables(c, s, ids, cutoff);
    assert forall w :: w in s.claims ==> ClaimOk(s, s.claims[w]);
  }

  lemma PlacesMakeTables(c: Config, s: State, ids: set<RowId>, cutoff: real)
    requires c.maxTries >= 1 && TablesOk(c, s) && Partitioned(s) && Enabled(c, s, Sweep(ids, cutoff))
    ensures TablesOk(c, AfterSweep(s, ids, cutoff)) && Partitioned(AfterSweep(s, ids, cutoff))
  {
    var t := AfterSweep(s, ids, cutoff);
    forall x: RowId ensures PlaceOk(c, t, x) {
      SweepKeepsPlace(c, s, ids, cutoff, x);
    }
    assert forall x :: x in t.rows ==> PlaceOk(c, t, x);
    assert forall x :: x in t.failures ==> PlaceOk(c, t, x);
    assert forall x :: x in t.archive ==> PlaceOk(c, t, x);
    assert forall x :: x in t.enqueued ==> PlaceOk(c, t, x);
  }

  lemma SuccessTouchesRow(s: State, w: Relay)
    requires w in s.claims && Owns(s, s.claims[w])
    requires s.claims[w].token in s.issued && s.issued[s.claims[w].token] == s.claims[w].row
    ensures OnlyRow(s, AfterSuccess(s, w), s.claims[w].row)
  {
  }

  lemma SuccessKeepsPlace(c: Config, s: State, w: Relay)
    requires c.maxTries >= 1 && Inv(c, s) && w in s.claims && Owns(s, s.claims[w]) && s.claims[w].PublishEnded? && s.claims[w].ok
    ensures PlaceOk(c, AfterSuccess(s, w), s.claims[w].row)
  {
    var id := s.claims[w].row;
    assert RowOk(c, s, id, s.rows[id]) && InOneTable(s, id) && ClaimOk(s, s.claims[w]);
  }

  lemma SuccessKeepsInv(c: Config, s: State, w: Relay)
    requires c.maxTries >= 1 && Inv(c, s) && w in s.claims && Owns(s, s.claims[w]) && s.claims[w].PublishEnded? && s.claims[w].ok
    ensures Inv(c, AfterSuccess(s, w))
  {
    SettledHistory(c, s, w);
    SuccessKeepsPlace(c, s, w);
    SuccessTouchesRow(s, w);
    OnlyRowKeepsTables(c, s, AfterSuccess(s, w), s.claims[w].row);
  }

  lemma RetryTouchesRow(c: Config, s: State, w: Relay)
    requires w in s.claims && Owns(s, s.claims[w])
    requires s.claims[w].token in s.issued && s.issued[s.claims[w].token] == s.claims[w].row
    ensures OnlyRow(s, AfterRetry(c, s, w), s.claims[w].row)
  {
  }

  lemma RetryKeepsPlace(c: Config, s: State, w: Relay)
    requires c.maxTries >= 1 && Inv(c, s) && w in s.claims && Owns(s, s.claims[w]) && s.rows[s.claims[w].row].attempts + 1 < c.maxTries
    ensures PlaceOk(c, AfterRetry(c, s, w), s.claims[w].row)
  {
    var id := s.claims[w].row;
    assert RowOk(c, s, id, s.rows[id]) && InOneTable(s, id) && ClaimOk(s, s.claims[w]);
  }

  lemma RetryKeepsInv(c: Config, s: State, w: Relay)
    requires c.maxTries >= 1 && Inv(c, s) && w in s.claims && Owns(s, s.claims[w]) && s.rows[s.claims[w].row].attempts + 1 < c.maxTries
    ensures Inv(c, AfterRetry(c, s, w))
  {
    SettledHistory(c, s, w);
    RetryKeepsPlace(c, s, w);
    RetryTouchesRow(c, s, w);
    OnlyRowKeepsTables(c, s, AfterRetry(c, s, w), s.claims[w].row);
  }

  lemma ExhaustionTouchesRow(s: State, w: Relay)
    requires w in s.claims && Owns(s, s.claims[w])
    requires s.claims[w].token in s.issued && s.issued[s.claims[w].token] == s.claims[w].row
    ensures OnlyRow(s, AfterExhaustion(s, w), s.claims[w].row)
  {
  }

  lemma ExhaustionKeepsPlace(c: Config, s: State, w: Relay)
    requires c.maxTries >= 1 && Inv(c, s) && w in s.claims && Owns(s, s.claims[w]) && s.rows[s.claims[w].row].attempts + 1 >= c.maxTries
    ensures PlaceOk(c, AfterExhaustion(s, w), s.claims[w].row)
  {
    var id := s.claims[w].row;
    assert RowOk(c, s, id, s.rows[id]) && InOneTable(s, id) && ClaimOk(s, s.claims[w]);
  }

  lemma ExhaustionKeepsInv(c: Config, s: State, w: Relay)
    requires c.maxTries >= 1 && Inv(c, s) && w in s.claims && Owns(s, s.claims[w]) && s.rows[s.claims[w].row].attempts + 1 >= c.maxTries
    ensures Inv(c, AfterExhaustion(s, w))
  {
    SettledHistory(c, s, w);
    ExhaustionKeepsPlace(c, s, w);
    ExhaustionTouchesRow(s, w);
    OnlyRowKeepsTables(c, s, AfterExhaustion(s, w), s.claims[w].row);
  }

  lemma FoldPoisonTouchesRow(s: State, w: Relay)
    requires w in s.claims && Owns(s, s.claims[w])
    requires s.claims[w].token in s.issued && s.issued[s.claims[w].token] == s.claims[w].row
    ensures OnlyRow(s, AfterFoldPoison(s, w), s.claims[w].row)
  {
  }

  lemma FoldPoisonKeepsPlace(c: Config, s: State, w: Relay)
    requires c.maxTries >= 1 && Inv(c, s) && w in s.claims && Owns(s, s.claims[w])
    ensures PlaceOk(c, AfterFoldPoison(s, w), s.claims[w].row)
  {
    var id := s.claims[w].row;
    assert RowOk(c, s, id, s.rows[id]) && InOneTable(s, id) && ClaimOk(s, s.claims[w]);
  }

  lemma FoldPoisonKeepsInv(c: Config, s: State, w: Relay)
    requires c.maxTries >= 1 && Inv(c, s) && w in s.claims && Owns(s, s.claims[w])
    ensures Inv(c, AfterFoldPoison(s, w))
  {
    SettledHistory(c, s, w);
    FoldPoisonKeepsPlace(c, s, w);
    FoldPoisonTouchesRow(s, w);
    OnlyRowKeepsTables(c, s, AfterFoldPoison(s, w), s.claims[w].row);
  }

  lemma SettledHistory(c: Config, s: State, w: Relay)
    requires Inv(c, s) && w in s.claims && Owns(s, s.claims[w])
    ensures s.claims[w].token !in s.settled
    ensures ClaimsOk(Settled(s, w)) && HistoryOk(Settled(s, w))
  {
    assert RowOk(c, s, s.claims[w].row, s.rows[s.claims[w].row]);
  }

  lemma SettleKeepsInv(c: Config, s: State, w: Relay)
    requires c.maxTries >= 1 && Inv(c, s) && w in s.claims && s.claims[w].PublishEnded?
    ensures Inv(c, AfterSettle(c, s, w))
  {
    if !Owns(s, s.claims[w]) { CrashKeepsInv(c, s, w); }
    else if s.claims[w].ok { SuccessKeepsInv(c, s, w); }
    else if s.rows[s.claims[w].row].attempts + 1 >= c.maxTries { ExhaustionKeepsInv(c, s, w); }
    else { RetryKeepsInv(c, s, w); }
  }

  lemma FoldKeepsInv(c: Config, s: State, w: Relay)
    requires c.maxTries >= 1 && Inv(c, s) && w in s.claims
    ensures Inv(c, AfterFoldPoison(s, w))
  {
    if !Owns(s, s.claims[w]) { CrashKeepsInv(c, s, w); } else { FoldPoisonKeepsInv(c, s, w); }
  }

  lemma StepKeepsInv(c: Config, s: State, a: Step)
    requires c.maxTries >= 1 && Inv(c, s) && Enabled(c, s, a)
    ensures Inv(c, Next(c, s, a))
  {
    match a
    case Enqueue(id, event) => EnqueueKeepsInv(c, s, id, event);
    case Tick(to) => TickKeepsInv(c, s, to);
    case TakeClaim(w, id, token) => TakeClaimKeepsInv(c, s, w, id, token);
    case Release(w) => ReleaseKeepsInv(c, s, w);
    case BeginPublish(w) => BeginPublishKeepsInv(c, s, w);
    case EndPublish(w, ok) => EndPublishKeepsInv(c, s, w, ok);
    case Settle(w) => SettleKeepsInv(c, s, w);
    case FoldPoison(w) => FoldKeepsInv(c, s, w);
    case Crash(w) => CrashKeepsInv(c, s, w);
    case Sweep(ids, cutoff) => SweepKeepsInv(c, s, ids, cutoff);
  }

  // ---- Runs -----------------------------------------------------------------------------

  ghost predicate IsRun(c: Config, states: seq<State>, steps: seq<Step>) {
    && |states| == |steps| + 1
    && Initial(states[0])
    && forall i :: 0 <= i < |steps| ==> Enabled(c, states[i], steps[i]) && states[i + 1] == Next(c, states[i], steps[i])
  }

  ghost predicate RunTo(c: Config, states: seq<State>, steps: seq<Step>, s: State) {
    IsRun(c, states, steps) && states[|states| - 1] == s
  }

  ghost predicate Reachable(c: Config, s: State) {
    exists states, steps :: RunTo(c, states, steps, s)
  }

  lemma ReachableStart(c: Config, s: State)
    requires Initial(s)
    ensures Reachable(c, s)
  {
    assert RunTo(c, [s], [], s);
  }

  lemma ReachableStep(c: Config, s: State, a: Step)
    requires Reachable(c, s) && Enabled(c, s, a)
    ensures Reachable(c, Next(c, s, a))
  {
    var states, steps :| RunTo(c, states, steps, s);
    var more, done := states + [Next(c, s, a)], steps + [a];
    forall i | 0 <= i < |done| ensures Enabled(c, more[i], done[i]) && more[i + 1] == Next(c, more[i], done[i]) {
      if i < |steps| { assert Enabled(c, states[i], steps[i]) && states[i + 1] == Next(c, states[i], steps[i]); }
    }
    assert RunTo(c, more, done, Next(c, s, a));
  }

  lemma {:induction false} RunKeepsInv(c: Config, states: seq<State>, steps: seq<Step>)
    requires c.maxTries >= 1 && IsRun(c, states, steps)
    ensures Inv(c, states[|states| - 1])
    decreases |steps|
  {
    if steps != [] {
      var k := |steps| - 1;
      RunKeepsInv(c, states[..k + 1], steps[..k]);
      assert states[..k + 1][k] == states[k];
      assert Enabled(c, states[k], steps[k]) && states[k + 1] == Next(c, states[k], steps[k]);
      StepKeepsInv(c, states[k], steps[k]);
    }
  }

  lemma ReachableInv(c: Config, s: State)
    requires c.maxTries >= 1 && Reachable(c, s)
    ensures Inv(c, s)
  {
    var states, steps :| RunTo(c, states, steps, s);
    RunKeepsInv(c, states, steps);
  }

  // ---- Conservation -----------------------------------------------------------------------

  function Content(s: State, id: RowId): Option<Event> {
    if id in s.rows then Some(s.rows[id].event)
    else if id in s.failures then Some(s.failures[id].event)
    else if id in s.archive then Some(s.archive[id].event)
    else None
  }

  /** Conservation: after any run with any number of relays, crashes and takeovers,
      every enqueued event is in exactly one of outbox, event_failures and archive,
      with id, routing key and payload as enqueued, and nothing else is there. */
  lemma Conservation(c: Config, s: State, id: RowId)
    requires c.maxTries >= 1 && Reachable(c, s)
    ensures Content(s, id) == if id in s.enqueued then Some(s.enqueued[id]) else None
    ensures id in s.enqueued ==> InOneTable(s, id)
  {
    ReachableInv(c, s);
    if id in s.enqueued { assert InOneTable(s, id); }
    assert id in s.rows ==> RowOk(c, s, id, s.rows[id]);
    assert id in s.failures ==> FailureOk(c, s, id, s.failures[id]);
    assert id in s.archive ==> ArchivedOk(c, s, id, s.archive[id]);
  }

  /** A row marked published, or archived, was accepted by the broker: some publish
      call of exactly this event for this row returned true. */
  lemma PublishedWasAccepted(c: Config, s: State, id: RowId)
    requires c.maxTries >= 1 && Reachable(c, s)
    ensures id in s.rows && s.rows[id].status == Published ==> (id, s.rows[id].event) in s.accepted
    ensures id in s.archive ==> (id, s.archive[id].event) in s.accepted
  {
    ReachableInv(c, s);
    assert id in s.rows ==> RowOk(c, s, id, s.rows[id]);
    assert id in s.archive ==> ArchivedOk(c, s, id, s.archive[id]);
  }

  /** Retries are bounded: whatever is still in the outbox, or left it by being
      published, failed fewer than `maxTries` settlements, and a row reaches the
      bound exactly when it is folded as exhausted. */
  lemma RetriesAreBounded(c: Config, s: State, id: RowId)
    requires c.maxTries >= 1 && Reachable(c, s)
    ensures id in s.rows ==> s.rows[id].attempts == Count(s.failed, id) < c.maxTries
    ensures Count(s.failed, id) <= c.maxTries
    ensures Count(s.failed, id) == c.maxTries <==> id in s.failures && s.failures[id].exhausted
  {
    ReachableInv(c, s);
    assert id in s.rows ==> RowOk(c, s, id, s.rows[id]);
    assert id in s.failures ==> FailureOk(c, s, id, s.failures[id]);
    assert id in s.archive ==> ArchivedOk(c, s, id, s.archive[id]);
    if id in s.enqueued { assert InOneTable(s, id); }
  }

  // ---- Fencing ------------------------------------------------------------------------------

  /** Each claim token settles its row at most once over a whole run. */
  lemma TokenSettlesOnce(c: Config, s: State, token: Token)
    requires c.maxTries >= 1 && Reachable(c, s)
    ensures Count(s.settled, token) <= 1
  {
    ReachableInv(c, s);
  }

  /** A claimant that has been superseded changes no table, whatever it does. */
  lemma SupersededChangesNothing(c: Config, s: State, a: Step)
    requires Enabled(c, s, a)
    requires a.Release? || a.BeginPublish? || a.EndPublish? || a.Settle? || a.FoldPoison? || a.Crash?
    requires !Owns(s, s.claims[a.relay])
    ensures Next(c, s, a).rows == s.rows && Next(c, s, a).failures == s.failures && Next(c, s, a).archive == s.archive
  {
  }

  /** Once superseded, a claim never owns its row again. */
  lemma LostClaimStaysLost(c: Config, s: State, a: Step, w: Relay)
    requires ClaimsOk(s) && Enabled(c, s, a)
    requires w in s.claims && !Owns(s, s.claims[w])
    requires w in Next(c, s, a).claims
    ensures !Owns(Next(c, s, a), Next(c, s, a).claims[w])
  {
    if a.Settle? {
      LostClaimSurvivesSettle(c, s, a.relay, w);
    } else if a.FoldPoison? {
      LostClaimSurvivesFold(s, a.relay, w);
    } else {
      assert ClaimOk(s, s.claims[w]);
      LostClaimSurvivesOther(c, s, a, w);
    }
  }

  lemma LostClaimSurvivesOther(c: Config, s: State, a: Step, w: Relay)
    requires Enabled(c, s, a) && !a.Settle? && !a.FoldPoison?
    requires w in s.claims && !Owns(s, s.claims[w]) && ClaimOk(s, s.claims[w])
    requires w in Next(c, s, a).claims
    ensures !Owns(Next(c, s, a), Next(c, s, a).claims[w])
  {
  }

  lemma LostClaimSurvivesSettle(c: Config, s: State, v: Relay, w: Relay)
    requires v in s.claims && s.claims[v].PublishEnded? && v != w
    requires w in s.claims && !Owns(s, s.claims[w])
    ensures !Owns(AfterSettle(c, s, v), s.claims[w])
  {
  }

  lemma LostClaimSurvivesFold(s: State, v: Relay, w: Relay)
    requires v in s.claims && v != w
    requires w in s.claims && !Owns(s, s.claims[w])
    ensures !Owns(AfterFoldPoison(s, v), s.claims[w])
  {
  }

  /** A token, once its row is not locked by it, never locks it again: tokens are given
      out once. */
  lemma LostTokenStaysLost(c: Config, s: State, a: Step, k: Claim)
    requires Enabled(c, s, a) && k.token in s.issued && !Owns(s, k)
    ensures k.token in Next(c, s, a).issued && !Owns(Next(c, s, a), k)
  {
    if a.Settle? {
      LostAcrossSettle(c, s, a.relay, k);
    } else if a.FoldPoison? {
      LostAcrossFold(s, a.relay, k);
    } else {
      LostAcrossOther(c, s, a, k);
    }
  }

  lemma LostAcrossSettle(c: Config, s: State, w: Relay, k: Claim)
    requires w in s.claims && s.claims[w].PublishEnded? && !Owns(s, k)
    ensures AfterSettle(c, s, w).issued == s.issued && !Owns(AfterSettle(c, s, w), k)
  {
    if k.row != s.claims[w].row || !Owns(s, s.claims[w]) {
      SettleTouchesOwnRow(c, s, w, k.row);
    }
  }

  lemma LostAcrossFold(s: State, w: Relay, k: Claim)
    requires w in s.claims && !Owns(s, k)
    ensures AfterFoldPoison(s, w).issued == s.issued && !Owns(AfterFoldPoison(s, w), k)
  {
    if k.row != s.claims[w].row || !Owns(s, s.claims[w]) {
      FoldTouchesOwnRow(s, w, k.row);
    }
  }

  lemma LostAcrossOther(c: Config, s: State, a: Step, k: Claim)
    requires Enabled(c, s, a) && !a.Settle? && !a.FoldPoison? && k.token in s.issued && !Owns(s, k)
    ensures k.token in Next(c, s, a).issued && !Owns(Next(c, s, a), k)
  {
  }

  /** Over any run: a claim that has lost its row never owns it again, whatever its
      relay and all others go on to do. */
  lemma LostClaimNeverReturns(c: Config, states: seq<State>, steps: seq<Step>, i: nat, j: nat, w: Relay)
    requires c.maxTries >= 1 && IsRun(c, states, steps) && i <= j < |states|
    requires w in states[i].claims && !Owns(states[i], states[i].claims[w])
    ensures !Owns(states[j], states[i].claims[w])
  {
    RunPrefix(c, states, steps, i);
    RunKeepsInv(c, states[..i + 1], steps[..i]);
    assert ClaimOk(states[i], states[i].claims[w]);
    var k := states[i].claims[w];
    forall x | i <= x < j ensures StaysLost(states[x], states[x + 1], k) {
      RunStaysLost(c, states, steps, x, k);
    }
    LostAlong(states, i, j, k);
  }

  predicate Lost(s: State, k: Claim) {
    k.token in s.issued && !Owns(s, k)
  }

  predicate StaysLost(s: State, t: State, k: Claim) {
    Lost(s, k) ==> Lost(t, k)
  }

  lemma RunStaysLost(c: Config, states: seq<State>, steps: seq<Step>, x: nat, k: Claim)
    requires IsRun(c, states, steps) && x < |steps|
    ensures StaysLost(states[x], states[x + 1], k)
  {
    assert Enabled(c, states[x], steps[x]) && states[x + 1] == Next(c, states[x], steps[x]);
    if Lost(states[x], k) { LostTokenStaysLost(c, states[x], steps[x], k); }
  }

  lemma {:induction false} LostAlong(states: seq<State>, i: nat, j: nat, k: Claim)
    requires i <= j < |states| && Lost(states[i], k)
    requires forall x :: i <= x < j ==> StaysLost(states[x], states[x + 1], k)
    ensures Lost(states[j], k)
    decreases j - i
  {
    if i < j {
      LostAlong(states, i, j - 1, k);
      assert StaysLost(states[j - 1], states[j - 1 + 1], k);
    }
  }

  lemma RunPrefix(c: Config, states: seq<State>, steps: seq<Step>, i: nat)
    requires IsRun(c, states, steps) && i < |states|
    ensures IsRun(c, states[..i + 1], steps[..i]) && states[..i + 1][i] == states[i]
  {
    forall x | 0 <= x < i
      ensures Enabled(c, states[..i + 1][x], steps[..i][x]) && states[..i + 1][x + 1] == Next(c, states[..i + 1][x], steps[..i][x])
    {
      assert Enabled(c, states[x], steps[x]) && states[x + 1] == Next(c, states[x], steps[x]);
    }
  }

  // ---- No overlapping publish calls ------------------------------------------------------------

  /** Of a claim that has not ended its publish: it still owns the row with its own
      time stamp, or its time stamp is already out of the stale window. */
  predicate ClaimTimely(c: Config, s: State, k: Claim) {
    && k.lockedAt <= s.now
    && (k.Holding? ==> (Owns(s, k) && s.rows[k.row].lockedAt == Some(k.lockedAt))
                       || !Owns(s, k))
    && (k.Holding? && !Owns(s, k) ==> k.lockedAt + StaleWindow(c) < s.now)
    && (k.Publishing? ==>
        && k.since <= k.lockedAt + c.claimDelay
        && k.since <= s.now <= k.since + PublishTimeout(c)
        && Owns(s, k) && s.rows[k.row].lockedAt == Some(k.lockedAt))
  }

  ghost predicate Timely(c: Config, s: State) {
    forall w :: w in s.claims ==> ClaimTimely(c, s, s.claims[w])
  }

  /** A publish call ends before its claim can be taken over. */
  predicate WindowsFit(c: Config) {
    c.claimDelay + PublishTimeout(c) <= StaleWindow(c) && 0.0 <= PublishTimeout(c)
  }

  lemma TakeoverIsTimely(c: Config, s: State, v: Relay, id: RowId, token: Token, k: Claim)
    requires WindowsFit(c) && ClaimTimely(c, s, k) && ClaimOk(s, k)
    requires Enabled(c, s, TakeClaim(v, id, token))
    ensures ClaimTimely(c, Next(c, s, TakeClaim(v, id, token)), k)
  {
  }

  lemma BeginIsTimely(c: Config, s: State, w: Relay)
    requires WindowsFit(c) && Enabled(c, s, BeginPublish(w)) && ClaimTimely(c, s, s.claims[w])
    ensures ClaimTimely(c, Next(c, s, BeginPublish(w)), Next(c, s, BeginPublish(w)).claims[w])
  {
  }

  lemma SuccessTouchesOwnRow(s: State, w: Relay, id: RowId)
    requires w in s.claims && Owns(s, s.claims[w]) && id != s.claims[w].row
    ensures SameOn(s.rows, AfterSuccess(s, w).rows, id) && AfterSuccess(s, w).now == s.now
  {
  }

  lemma ExhaustionTouchesOwnRow(s: State, w: Relay, id: RowId)
    requires w in s.claims && Owns(s, s.claims[w]) && id != s.claims[w].row
    ensures SameOn(s.rows, AfterExhaustion(s, w).rows, id) && AfterExhaustion(s, w).now == s.now
  {
  }

  lemma RetryTouchesOwnRow(c: Config, s: State, w: Relay, id: RowId)
    requires w in s.claims && Owns(s, s.claims[w]) && id != s.claims[w].row
    ensures SameOn(s.rows, AfterRetry(c, s, w).rows, id) && AfterRetry(c, s, w).now == s.now
  {
  }

  /** A release or settlement touches the claim's own row, and only while it owns it. */
  lemma SettleTouchesOwnRow(c: Config, s: State, w: Relay, id: RowId)
    requires w in s.claims && s.claims[w].PublishEnded?
    requires id != s.claims[w].row || !Owns(s, s.claims[w])
    ensures SameOn(s.rows, AfterSettle(c, s, w).rows, id) && AfterSettle(c, s, w).now == s.now
  {
    var k := s.claims[w];
    if Owns(s, k) {
      if k.ok { SuccessTouchesOwnRow(s, w, id); }
      else if s.rows[k.row].attempts + 1 >= c.maxTries { ExhaustionTouchesOwnRow(s, w, id); }
      else { RetryTouchesOwnRow(c, s, w, id); }
    }
  }

  lemma FoldTouchesOwnRow(s: State, w: Relay, id: RowId)
    requires w in s.claims
    requires id != s.claims[w].row || !Owns(s, s.claims[w])
    ensures SameOn(s.rows, AfterFoldPoison(s, w).rows, id) && AfterFoldPoison(s, w).now == s.now
  {
    var k := s.claims[w];
    assert AfterFoldPoison(s, w).rows == if Owns(s, k) then s.rows - {k.row} else s.rows;
  }

  lemma TimelyByRow(c: Config, s: State, t: State, k: Claim)
    requires ClaimTimely(c, s, k) && t.now == s.now && SameOn(s.rows, t.rows, k.row)
    ensures ClaimTimely(c, t, k)
  {
  }

  /** When another claim settles the row of k, k did not own it any more. */
  lemma TimelyAfterLoss(c: Config, s: State, t: State, k: Claim)
    requires ClaimTimely(c, s, k) && t.now == s.now && !Owns(s, k) && !Owns(t, k)
    ensures ClaimTimely(c, t, k)
  {
  }

  lemma OtherSettlementIsTimely(c: Config, s: State, a: Step, w: Relay)
    requires ClaimsOk(s) && Enabled(c, s, a) && (a.Release? || a.Settle? || a.FoldPoison?)
    requires w in s.claims && w != a.relay && ClaimTimely(c, s, s.claims[w])
    requires w in Next(c, s, a).claims && Next(c, s, a).claims[w] == s.claims[w]
    ensures ClaimTimely(c, Next(c, s, a), s.claims[w])
  {
    var k, v := s.claims[w], s.claims[a.relay];
    if v.row != k.row || !Owns(s, v) {
      if a.Settle? { SettleTouchesOwnRow(c, s, a.relay, k.row); }
      if a.FoldPoison? { FoldTouchesOwnRow(s, a.relay, k.row); }
      TimelyByRow(c, s, Next(c, s, a), k);
    } else {
      assert v.token != k.token && !Owns(s, k);
      LostClaimStaysLost(c, s, a, w);
      if a.Settle? { SettleTouchesOwnRow(c, s, a.relay, k.row + 1); }
      if a.FoldPoison? { FoldTouchesOwnRow(s, a.relay, k.row + 1); }
      TimelyAfterLoss(c, s, Next(c, s, a), k);
    }
  }

  lemma QuietIsTimely(c: Config, s: State, a: Step, w: Relay)
    requires Enabled(c, s, a) && w in s.claims && w in Next(c, s, a).claims
    requires ClaimTimely(c, s, s.claims[w]) && ClaimOk(s, s.claims[w])
    requires s.claims[w].row in s.rows ==> RowOk(c, s, s.claims[w].row, s.rows[s.claims[w].row])
    requires a.Enqueue? || a.Tick? || a.EndPublish? || a.Crash? || a.Sweep? || (a.BeginPublish? && a.relay != w)
    ensures ClaimTimely(c, Next(c, s, a), Next(c, s, a).claims[w])
  {
  }

  /** A claim that is still there is as before, unless it is the one that moves on. */
  lemma OtherClaimsUnchanged(c: Config, s: State, a: Step, w: Relay)
    requires Enabled(c, s, a) && w in Next(c, s, a).claims
    requires a.Release? || a.Settle? || a.FoldPoison? || a.TakeClaim?
    ensures a.relay == w ==> a.TakeClaim?
    ensures a.relay != w ==> w in s.claims && Next(c, s, a).claims[w] == s.claims[w]
  {
  }

  lemma ClaimStaysTimely(c: Config, s: State, a: Step, w: Relay)
    requires WindowsFit(c) && ClaimsOk(s) && Enabled(c, s, a)
    requires w in s.claims && w in Next(c, s, a).claims && ClaimTimely(c, s, s.claims[w])
    requires s.claims[w].row in s.rows ==> RowOk(c, s, s.claims[w].row, s.rows[s.claims[w].row])
    ensures ClaimTimely(c, Next(c, s, a), Next(c, s, a).claims[w])
  {
    assert ClaimOk(s, s.claims[w]);
    if a.TakeClaim? {
      OtherClaimsUnchanged(c, s, a, w);
      TakeoverIsTimely(c, s, a.relay, a.id, a.token, s.claims[w]);
    } else if a.BeginPublish? && a.relay == w {
      BeginIsTimely(c, s, w);
    } else if a.Release? || a.Settle? || a.FoldPoison? {
      OtherClaimsUnchanged(c, s, a, w);
      OtherSettlementIsTimely(c, s, a, w);
    } else {
      QuietIsTimely(c, s, a, w);
    }
  }

  lemma StepKeepsTimely(c: Config, s: State, a: Step)
    requires WindowsFit(c) && Inv(c, s) && Timely(c, s) && Enabled(c, s, a)
    ensures Timely(c, Next(c, s, a))
  {
    var t := Next(c, s, a);
    forall w | w in t.claims ensures ClaimTimely(c, t, t.claims[w]) {
      if w in s.claims {
        assert ClaimTimely(c, s, s.claims[w]);
        ClaimStaysTimely(c, s, a, w);
      } else {
        NewClaimIsTimely(c, s, a, w);
      }
    }
  }

  lemma NewClaimIsTimely(c: Config, s: State, a: Step, w: Relay)
    requires Enabled(c, s, a) && w !in s.claims && w in Next(c, s, a).claims
    ensures ClaimTimely(c, Next(c, s, a), Next(c, s, a).claims[w])
  {
    assert a.TakeClaim? && a.relay == w;
  }

  lemma {:induction false} RunKeepsTimely(c: Config, states: seq<State>, steps: seq<Step>)
    requires c.maxTries >= 1 && WindowsFit(c) && IsRun(c, states, steps)
    ensures Timely(c, states[|states| - 1])
    decreases |steps|
  {
    if steps != [] {
      var k := |steps| - 1;
      RunKeepsTimely(c, states[..k + 1], steps[..k]);
      RunKeepsInv(c, states[..k + 1], steps[..k]);
      assert states[..k + 1][k] == states[k];
      assert Enabled(c, states[k], steps[k]) && states[k + 1] == Next(c, states[k], steps[k]);
      StepKeepsTimely(c, states[k], steps[k]);
    }
  }

  /** Two different relays are inside a publish call for the same row. */
  ghost predicate Overlap(s: State) {
    exists v, w :: v in s.claims && w in s.claims && v != w
      && s.claims[v].Publishing? && s.claims[w].Publishing? && s.claims[v].row == s.claims[w].row
  }

  lemma NoOverlap(c: Config, s: State)
    requires c.maxTries >= 1 && WindowsFit(c) && Reachable(c, s)
    ensures !Overlap(s)
  {
    var states, steps :| RunTo(c, states, steps, s);
    RunKeepsTimely(c, states, steps);
    ReachableInv(c, s);
  }

  /** With the source's windows and a claim-to-publish delay of at most five seconds,
      publish calls for one row never overlap, for any lock TTL. */
  lemma FiveSecondsSuffice(c: Config, s: State)
    requires c.maxTries >= 1 && 0.0 <= c.operationTimeout && c.claimDelay <= 5.0
    requires Reachable(c, s)
    ensures !Overlap(s)
  {
    NoOverlap(c, s);
  }

  lemma StepTo(c: Config, s: State, a: Step) returns (t: State)
    requires Reachable(c, s) && Enabled(c, s, a)
    ensures Reachable(c, t) && t == Next(c, s, a)
  {
    ReachableStep(c, s, a);
    t := Next(c, s, a);
  }

  /** One event claimed at time 0 and being published since the last allowed moment. */
  lemma FirstPublish(c: Config, e: Event) returns (s: State)
    requires 0.0 <= c.claimDelay && !c.poison(e)
    ensures Reachable(c, s) && s.now == c.claimDelay
    ensures s.claims == map[0 := Publishing(0, e, 0, 0.0, c.claimDelay)] && s.issued == map[0 := 0]
    ensures s.rows == map[0 := Row(e, Pending, 0, 0.0, None, Some(0.0), Some(0))]
  {
    var s0 := State(0.0, map[], map[], map[], map[], map[], {}, map[], map[], map[]);
    ReachableStart(c, s0);
    var s1 := StepTo(c, s0, Enqueue(0, e));
    var s2 := StepTo(c, s1, TakeClaim(0, 0, 0));
    assert s2.claims == map[0 := Holding(0, e, 0, 0.0)];
    var s3 := StepTo(c, s2, Tick(c.claimDelay));
    s := StepTo(c, s3, BeginPublish(0));
  }

  /** The bound is exact: if the delay and the publish timeout together exceed the
      stale window, a second relay can take the row over while the first call runs. */
  lemma OverlapWhenWindowsDoNotFit(c: Config, e: Event)
    requires 0.0 <= c.claimDelay && 0.0 <= PublishTimeout(c) && !c.poison(e)
    requires c.claimDelay + PublishTimeout(c) > StaleWindow(c)
    ensures exists s :: Reachable(c, s) && Overlap(s)
  {
    var s1 := FirstPublish(c, e);
    var s2 := StepTo(c, s1, Tick(c.claimDelay + PublishTimeout(c)));
    var s3 := StepTo(c, s2, TakeClaim(1, 0, 1));
    var s := StepTo(c, s3, BeginPublish(1));
    assert 0 in s.claims && 1 in s.claims;
    assert Overlap(s);
  }

  /** So overlap is possible exactly when the windows do not fit. */
  lemma OverlapIffWindowsDoNotFit(c: Config, e: Event)
    requires c.maxTries >= 1 && 0.0 <= c.claimDelay && 0.0 <= PublishTimeout(c) && !c.poison(e)
    ensures (exists s :: Reachable(c, s) && Overlap(s)) <==> !WindowsFit(c)
  {
    if !WindowsFit(c) {
      OverlapWhenWindowsDoNotFit(c, e);
    } else {
      forall s | Reachable(c, s) ensures !Overlap(s) { NoOverlap(c, s); }
    }
  }
}
