/** When a load in flight is dangerous: the epoch guard of `write_if_newer` across Redis
    restarts (core/user_cache.py). The questions are about a load already in flight and
    what can still become of it without a further restart. */
module SnapshotEpochs {
  import opened Wrappers
  import opened SnapshotCache

  // ---- Futures ---------------------------------------------------------------------------

  /** Anything but a restart, a change whose invalidate came before it, and a new load
      under the same id. */
  predicate Ordinary(e: Event, id: TaskId) {
    !e.Restart? && !e.CommitLate? && !(e.Capture? && e.id == id)
  }

  predicate AllOrdinary(actions: seq<Action>, u: User, id: TaskId) {
    forall i :: 0 <= i < |actions| ==> OrdinaryAction(actions[i], u, id)
  }

  predicate OrdinaryAction(a: Action, u: User, id: TaskId) {
    a.At? && a.user == u ==> Ordinary(a.event, id)
  }

  function RunActions(y: System, actions: seq<Action>): Option<System>
    decreases |actions|
  {
    if actions == [] then Some(y)
    else if !CanDo(y, actions[0]) then None
    else RunActions(Do(y, actions[0]), actions[1..])
  }

  /** The load is about to be committed: its EXEC will succeed. */
  predicate AboutToCommit(s: Shard, id: TaskId) {
    id in s.loaders && s.loaders[id].phase == Ready && !s.loaders[id].dirty
  }

  /** ... although an invalidate came after its capture. */
  predicate LateNow(y: System, u: User, id: TaskId) {
    u in y.users && AboutToCommit(y.users[u], id) && y.users[u].loaders[id].stamp != y.users[u].invalidations
  }

  /** ... with a row that is no longer the user's, and nothing awaiting that would clear
      the entry again. */
  predicate OutdatedNow(y: System, u: User, id: TaskId) {
    && u in y.users && AboutToCommit(y.users[u], id) && y.users[u].loaders[id].row.Present?
    && y.users[u].db != y.users[u].loaders[id].row && y.users[u].awaiting == 0
  }

  ghost predicate LateAhead(y: System, u: User, id: TaskId) {
    exists actions :: LateAfter(y, actions, u, id)
  }

  predicate LateAfter(y: System, actions: seq<Action>, u: User, id: TaskId) {
    AllOrdinary(actions, u, id) && RunActions(y, actions).Some? && LateNow(RunActions(y, actions).value, u, id)
  }

  ghost predicate OutdatedAhead(y: System, u: User, id: TaskId) {
    exists actions :: OutdatedAfter(y, actions, u, id)
  }

  predicate OutdatedAfter(y: System, actions: seq<Action>, u: User, id: TaskId) {
    AllOrdinary(actions, u, id) && RunActions(y, actions).Some? && OutdatedNow(RunActions(y, actions).value, u, id)
  }

  // ---- The two conditions --------------------------------------------------------------------

  /** The captured epoch is behind the current one, or is it and nothing was invalidated
      since. */
  predicate Behind(s: Shard, l: Loader) {
    l.epoch < EpochValue(s) || (l.epoch == EpochValue(s) && l.stamp == s.invalidations)
  }

  /** The writes still to be invalidated, and one more if the load holds, or will fetch,
      the row as it is. */
  function Owed(s: Shard, l: Loader): nat {
    s.awaiting + if l.phase == Captured || s.db == l.row then 1 else 0
  }

  /** As many invalidates fit before the current epoch reaches the captured one. */
  predicate WithinGap(s: Shard, l: Loader) {
    Owed(s, l) <= l.epoch - EpochValue(s)
  }

  /** It can still get to its commit: before its WATCH, or with a retry left and no guard
      failed yet. */
  predicate Alive(l: Loader) {
    match l.phase
    case Captured => true
    case Fetched => true
    case Watching => l.tries + 1 < MAX_CAS_RETRY
    case EpochRead => l.tries + 1 < MAX_CAS_RETRY && l.seenEpoch == l.epoch
    case EntryRead => l.tries + 1 < MAX_CAS_RETRY && Admits(l)
    case Ready => l.tries + 1 < MAX_CAS_RETRY
    case Committed => false
  }

  // ---- What ordinary steps keep -------------------------------------------------------------

  /** The same load, perhaps further on. */
  predicate SameLoad(l: Loader, m: Loader) {
    && m.epoch == l.epoch && m.stamp == l.stamp && m.process == l.process
    && (l.phase != Captured ==> m.phase != Captured && m.row == l.row)
  }

  lemma LoadStays(n: Node, e: Event, id: TaskId)
    requires Enabled(n, e) && !(e.Capture? && e.id == id)
    requires id in Next(n, e).shard.loaders
    ensures id in n.shard.loaders && SameLoad(n.shard.loaders[id], Next(n, e).shard.loaders[id])
  {
    if !OwnStep(e, id) && !Disturbs(n, e) {
      QuietLoader(n, e, id);
    }
  }

  lemma EpochMoves(n: Node, e: Event)
    requires Enabled(n, e) && Sane(n.shard) && !e.Restart?
    ensures var s, t := n.shard, Next(n, e).shard;
      || (EpochValue(t) == EpochValue(s) && t.invalidations == s.invalidations)
      || EpochValue(t) > EpochValue(s)
  {
  }

  /** Only a restart can put a load before the epoch again: not a seed, nor an INCR on a
      lost key. */
  lemma BehindStays(n: Node, e: Event, id: TaskId)
    requires Sane(n.shard) && Enabled(n, e) && Ordinary(e, id)
    requires id in Next(n, e).shard.loaders
    ensures id in n.shard.loaders
    ensures Behind(n.shard, n.shard.loaders[id]) ==> Behind(Next(n, e).shard, Next(n, e).shard.loaders[id])
  {
    LoadStays(n, e, id);
    EpochMoves(n, e);
  }

  lemma CaptureIsBehind(n: Node, id: TaskId, p: Process, failed: bool)
    requires Sane(n.shard) && Enabled(n, Capture(id, p, failed))
    ensures Behind(Next(n, Capture(id, p, failed)).shard, Next(n, Capture(id, p, failed)).shard.loaders[id])
  {
  }

  /** What the step changes of row, debt and epoch. */
  lemma OwedMoves(n: Node, e: Event, id: TaskId)
    requires Sane(n.shard) && Enabled(n, e) && Ordinary(e, id)
    ensures var s, t := n.shard, Next(n, e).shard;
      || (t.db == s.db && t.awaiting == s.awaiting && EpochValue(t) >= EpochValue(s))
      || (t.awaiting == s.awaiting + 1 && EpochValue(t) == EpochValue(s))
      || (s.db.Absent? && t.awaiting == s.awaiting && EpochValue(t) == EpochValue(s))
      || (t.db == s.db && t.awaiting + 1 >= s.awaiting && EpochValue(t) == EpochValue(s) + 1)
  {
  }

  /** No ordinary step brings a load within the gap that was not within it before. */
  lemma GapNeverOpens(n: Node, e: Event, id: TaskId)
    requires Sane(n.shard) && Enabled(n, e) && Ordinary(e, id)
    requires id in Next(n, e).shard.loaders && WithinGap(Next(n, e).shard, Next(n, e).shard.loaders[id])
    requires Next(n, e).shard.loaders[id].phase == Captured || Next(n, e).shard.loaders[id].row.Present?
    ensures id in n.shard.loaders && WithinGap(n.shard, n.shard.loaders[id])
    ensures n.shard.loaders[id].phase == Captured || n.shard.loaders[id].row.Present?
  {
    LoadStays(n, e, id);
    OwedMoves(n, e, id);
    FetchHoldsRow(n, e, id);
  }

  lemma FetchHoldsRow(n: Node, e: Event, id: TaskId)
    requires Enabled(n, e) && id in n.shard.loaders && id in Next(n, e).shard.loaders && !(e.Capture? && e.id == id)
    ensures n.shard.loaders[id].phase == Captured && Next(n, e).shard.loaders[id].phase != Captured ==>
      Next(n, e).shard.db == n.shard.db == Next(n, e).shard.loaders[id].row
      && Next(n, e).shard.awaiting == n.shard.awaiting && EpochValue(Next(n, e).shard) == EpochValue(n.shard)
  {
    if !OwnStep(e, id) && !Disturbs(n, e) {
      QuietLoader(n, e, id);
    }
  }

  // ---- Along whole futures --------------------------------------------------------------------

  lemma {:induction false} NoLateFromBehind(y: System, actions: seq<Action>, u: User, id: TaskId)
    requires SystemInv(y) && AllOrdinary(actions, u, id) && RunActions(y, actions).Some?
    requires LateNow(RunActions(y, actions).value, u, id)
    ensures u in y.users && id in y.users[u].loaders && !Behind(y.users[u], y.users[u].loaders[id])
    decreases |actions|
  {
    if actions == [] {
      assert Inv(Node(y.users[u], y.revisions));
      assert LoaderSane(y.users[u], y.users[u].loaders[id]);
    } else {
      var a := actions[0];
      assert OrdinaryAction(a, u, id);
      ActionKeepsInv(y, a);
      NoLateFromBehind(Do(y, a), actions[1..], u, id);
      if a.At? && a.user == u {
        assert Inv(Node(y.users[u], y.revisions));
        BehindStays(Node(y.users[u], y.revisions), a.event, id);
      }
    }
  }

  lemma {:induction false} OutdatedFromGap(y: System, actions: seq<Action>, u: User, id: TaskId)
    requires SystemInv(y) && AllOrdinary(actions, u, id) && RunActions(y, actions).Some?
    requires OutdatedNow(RunActions(y, actions).value, u, id)
    ensures u in y.users && id in y.users[u].loaders && WithinGap(y.users[u], y.users[u].loaders[id])
    ensures y.users[u].loaders[id].phase == Captured || y.users[u].loaders[id].row.Present?
    decreases |actions|
  {
    if actions == [] {
      assert Inv(Node(y.users[u], y.revisions));
      assert LoaderSane(y.users[u], y.users[u].loaders[id]);
    } else {
      var a := actions[0];
      assert OrdinaryAction(a, u, id);
      ActionKeepsInv(y, a);
      OutdatedFromGap(Do(y, a), actions[1..], u, id);
      if a.At? && a.user == u {
        assert Inv(Node(y.users[u], y.revisions));
        GapNeverOpens(Node(y.users[u], y.revisions), a.event, id);
      }
    }
  }

  // ---- Building a future ----------------------------------------------------------------------

  function RunEvents(n: Node, events: seq<Event>): Option<Node>
    decreases |events|
  {
    if events == [] then Some(n)
    else if !Enabled(n, events[0]) then None
    else RunEvents(Next(n, events[0]), events[1..])
  }

  predicate EventsLead(n: Node, events: seq<Event>, m: Node, id: TaskId) {
    (forall i :: 0 <= i < |events| ==> Ordinary(events[i], id)) && RunEvents(n, events) == Some(m)
  }

  /** Ordinary steps for one user lead from n to m. */
  ghost predicate Future(n: Node, m: Node, id: TaskId) {
    exists events :: EventsLead(n, events, m, id)
  }

  lemma FutureSelf(n: Node, id: TaskId)
    ensures Future(n, n, id)
  {
    assert EventsLead(n, [], n, id);
  }

  lemma {:induction false} RunOneMore(n: Node, events: seq<Event>, e: Event)
    requires RunEvents(n, events).Some? && Enabled(RunEvents(n, events).value, e)
    ensures RunEvents(n, events + [e]) == Some(Next(RunEvents(n, events).value, e))
    decreases |events|
  {
    if events == [] {
      assert [] + [e] == [e] && [e][1..] == [];
      assert RunEvents(Next(n, e), []) == Some(Next(n, e));
    } else {
      assert (events + [e])[1..] == events[1..] + [e];
      RunOneMore(Next(n, events[0]), events[1..], e);
    }
  }

  lemma FutureStep(n: Node, m: Node, e: Event, id: TaskId)
    requires Future(n, m, id) && Enabled(m, e) && Ordinary(e, id)
    ensures Future(n, Next(m, e), id)
  {
    var events :| EventsLead(n, events, m, id);
    RunOneMore(n, events, e);
    assert EventsLead(n, events + [e], Next(m, e), id);
  }

  function OnUser(u: User, events: seq<Event>): (r: seq<Action>)
    ensures |r| == |events| && forall i :: 0 <= i < |r| ==> r[i] == At(u, events[i])
  {
    seq(|events|, i requires 0 <= i < |events| => At(u, events[i]))
  }

  lemma {:induction false} Lift(y: System, u: User, events: seq<Event>)
    requires u in y.users && RunEvents(Node(y.users[u], y.revisions), events).Some?
    ensures var m := RunEvents(Node(y.users[u], y.revisions), events).value;
      RunActions(y, OnUser(u, events)).Some?
      && u in RunActions(y, OnUser(u, events)).value.users
      && RunActions(y, OnUser(u, events)).value.users[u] == m.shard
    decreases |events|
  {
    if events != [] {
      var n := Node(y.users[u], y.revisions);
      var z := Do(y, At(u, events[0]));
      assert Node(z.users[u], z.revisions) == Next(n, events[0]);
      Lift(z, u, events[1..]);
      assert OnUser(u, events)[1..] == OnUser(u, events[1..]);
    }
  }

  // ---- The future that does the harm ---------------------------------------------------------

  /** The load `l` of task `id` stands here and its process is there. */
  predicate Stands(n: Node, id: TaskId, l: Loader) {
    id in n.shard.loaders && n.shard.loaders[id] == l && l.process in n.revisions
  }

  /** Row, debt and count of invalidates are as before. */
  predicate Undisturbed(n: Node, m: Node) {
    m.shard.db == n.shard.db && m.shard.awaiting == n.shard.awaiting && m.shard.invalidations == n.shard.invalidations
    && EpochValue(m.shard) == EpochValue(n.shard)
  }

  /** About to commit the very load. */
  predicate Arrived(n: Node, m: Node, id: TaskId, l: Loader) {
    && Undisturbed(n, m) && AboutToCommit(m.shard, id)
    && m.shard.loaders[id].row == l.row && m.shard.loaders[id].stamp == l.stamp
  }

  lemma OwnMove(n0: Node, n: Node, id: TaskId, e: Event, l: Loader, m: Loader) returns (next: Node)
    requires Future(n0, n, id) && Stands(n, id, l) && Enabled(n, e) && Ordinary(e, id) && m.process == l.process
    requires Next(n, e) == n.(shard := n.shard.(loaders := n.shard.loaders[id := m]))
    ensures Future(n0, next, id) && Stands(next, id, m) && Undisturbed(n, next) && next == Next(n, e)
  {
    FutureStep(n0, n, e, id);
    next := Next(n, e);
  }

  lemma FromEntryRead(n0: Node, n: Node, id: TaskId, l: Loader) returns (m: Node, r: Loader)
    requires Future(n0, n, id) && Stands(n, id, l) && l.phase == EntryRead && Admits(l)
    ensures Future(n0, m, id) && Stands(m, id, r) && Undisturbed(n, m)
    ensures r == l.(phase := Ready, revision := r.revision)
  {
    r := l.(phase := Ready, revision := n.revisions[l.process]);
    m := OwnMove(n0, n, id, Check(id), l, r);
  }

  lemma Emptied(n0: Node, n: Node, id: TaskId, l: Loader) returns (m: Node)
    requires Future(n0, n, id) && Stands(n, id, l)
    ensures Future(n0, m, id) && Stands(m, id, l) && Undisturbed(n, m) && m.shard.l2.None?
  {
    FutureStep(n0, n, Expire, id);
    m := Next(n, Expire);
  }

  lemma FromEpochRead(n0: Node, n: Node, id: TaskId, l: Loader) returns (m: Node, r: Loader)
    requires Future(n0, n, id) && Stands(n, id, l) && l.phase == EpochRead && l.seenEpoch == l.epoch
    ensures Future(n0, m, id) && Stands(m, id, r) && Undisturbed(n, m)
    ensures r == l.(phase := Ready, seenEntry := None, revision := r.revision)
  {
    var n1 := Emptied(n0, n, id, l);
    var l2 := l.(phase := EntryRead, seenEntry := None);
    var n2 := OwnMove(n0, n1, id, ReadEntry(id), l, l2);
    m, r := FromEntryRead(n0, n2, id, l2);
  }

  lemma FromWatching(n0: Node, n: Node, id: TaskId, l: Loader) returns (m: Node, r: Loader)
    requires Future(n0, n, id) && Stands(n, id, l) && l.phase == Watching && l.epoch == EpochValue(n.shard)
    ensures Future(n0, m, id) && Stands(m, id, r) && Undisturbed(n, m)
    ensures r == l.(phase := Ready, seenEpoch := l.epoch, seenEntry := None, revision := r.revision)
  {
    var l1 := l.(phase := EpochRead, seenEpoch := l.epoch);
    var n1 := OwnMove(n0, n, id, ReadEpoch(id), l, l1);
    m, r := FromEpochRead(n0, n1, id, l1);
  }

  lemma FromFetched(n0: Node, n: Node, id: TaskId, l: Loader) returns (m: Node)
    requires Future(n0, n, id) && Stands(n, id, l) && l.phase == Fetched && l.epoch == EpochValue(n.shard)
    ensures Future(n0, m, id) && Arrived(n, m, id, l)
  {
    var l1 := l.(phase := Watching, dirty := false);
    var n1 := OwnMove(n0, n, id, Watch(id), l, l1);
    var r;
    m, r := FromWatching(n0, n1, id, l1);
  }

  lemma FromReady(n0: Node, n: Node, id: TaskId, l: Loader) returns (m: Node)
    requires Future(n0, n, id) && Stands(n, id, l) && l.phase == Ready && l.epoch == EpochValue(n.shard)
    requires l.tries + 1 < MAX_CAS_RETRY
    ensures Future(n0, m, id) && Arrived(n, m, id, l)
  {
    if l.dirty {
      var l1 := l.(phase := Fetched, tries := l.tries + 1);
      var n1 := OwnMove(n0, n, id, Exec(id), l, l1);
      m := FromFetched(n0, n1, id, l1);
    } else {
      m := n;
    }
  }

  /** Once the epoch matches, any live load past its fetch gets to its commit. */
  lemma ReachesCommit(n0: Node, n: Node, id: TaskId, l: Loader) returns (m: Node)
    requires Future(n0, n, id) && Stands(n, id, l) && Alive(l) && l.phase != Captured && l.epoch == EpochValue(n.shard)
    ensures Future(n0, m, id) && Arrived(n, m, id, l)
  {
    var k, r := n, l;
    match l.phase {
      case Fetched => m := FromFetched(n0, n, id, l); return;
      case Watching => k, r := FromWatching(n0, n, id, l);
      case EpochRead => k, r := FromEpochRead(n0, n, id, l);
      case EntryRead => k, r := FromEntryRead(n0, n, id, l);
      case Ready =>
    }
    m := FromReady(n0, k, id, r);
  }

  /** The same load but for the soiled watch. */
  predicate SameButDirty(l: Loader, m: Loader) {
    m == l || m == l.(dirty := true)
  }

  /** Invalidates raise the epoch and settle what they can. */
  lemma {:induction false} Raised(n0: Node, n: Node, id: TaskId, l: Loader, k: nat) returns (m: Node, r: Loader)
    requires Sane(n.shard) && Future(n0, n, id) && Stands(n, id, l)
    ensures Future(n0, m, id) && Stands(m, id, r) && SameButDirty(l, r)
    ensures m.shard.db == n.shard.db && EpochValue(m.shard) == EpochValue(n.shard) + k
    ensures m.shard.invalidations == n.shard.invalidations + k
    ensures m.shard.awaiting == if n.shard.awaiting <= k then 0 else n.shard.awaiting - k
    decreases k
  {
    if k == 0 {
      return n, l;
    }
    var e := Invalidate(n.shard.awaiting > 0);
    StepKeepsSane(n, e);
    FutureStep(n0, n, e, id);
    m, r := Raised(n0, Next(n, e), id, l.(dirty := true), k - 1);
  }

  lemma FetchNow(n0: Node, n: Node, id: TaskId, l: Loader) returns (m: Node, r: Loader)
    requires Sane(n.shard) && Future(n0, n, id) && Stands(n, id, l) && l.phase == Captured && n.shard.db.Present?
    ensures Future(n0, m, id) && Stands(m, id, r) && Undisturbed(n, m) && Sane(m.shard)
    ensures r == l.(phase := Fetched, row := n.shard.db, seen := n.shard.silent)
  {
    r := l.(phase := Fetched, row := n.shard.db, seen := n.shard.silent);
    StepKeepsSane(n, Fetch(id));
    m := OwnMove(n0, n, id, Fetch(id), l, r);
  }

  lemma Created(n0: Node, n: Node, id: TaskId, l: Loader) returns (m: Node)
    requires Sane(n.shard) && Future(n0, n, id) && Stands(n, id, l) && n.shard.db.Absent?
    ensures Future(n0, m, id) && Stands(m, id, l) && m.shard.db.Present? && Sane(m.shard)
    ensures m.shard.awaiting == n.shard.awaiting && EpochValue(m.shard) == EpochValue(n.shard)
    ensures m.shard.invalidations == n.shard.invalidations
  {
    var e := CreateRow(n.shard.top + 1, "created");
    StepKeepsSane(n, e);
    FutureStep(n0, n, e, id);
    m := Next(n, e);
  }

  lemma Deleted(n0: Node, n: Node, id: TaskId, l: Loader) returns (m: Node)
    requires Sane(n.shard) && Future(n0, n, id) && Stands(n, id, l) && n.shard.db.Present?
    ensures Future(n0, m, id) && Stands(m, id, l) && m.shard.db.Absent? && Sane(m.shard)
    ensures m.shard.awaiting == n.shard.awaiting + 1 && EpochValue(m.shard) == EpochValue(n.shard)
  {
    var e := WriteRow(Absent);
    StepKeepsSane(n, e);
    FutureStep(n0, n, e, id);
    m := Next(n, e);
  }

  /** A captured load first fetches whatever row there is. */
  lemma WithRow(n0: Node, n: Node, id: TaskId, l: Loader) returns (m: Node, r: Loader)
    requires Sane(n.shard) && Future(n0, n, id) && Stands(n, id, l) && Alive(l)
    requires l.phase == Captured || l.row.Present?
    ensures Future(n0, m, id) && Stands(m, id, r) && Alive(r) && Sane(m.shard)
    ensures r.phase != Captured && r.row.Present? && r.epoch == l.epoch && r.stamp == l.stamp
    ensures m.shard.awaiting == n.shard.awaiting && EpochValue(m.shard) == EpochValue(n.shard)
    ensures m.shard.invalidations == n.shard.invalidations
    ensures Owed(m.shard, r) == Owed(n.shard, l)
  {
    m, r := n, l;
    if l.phase == Captured {
      if n.shard.db.Absent? {
        m := Created(n0, n, id, l);
      }
      m, r := FetchNow(n0, m, id, l);
    }
  }

  lemma OutdatedFuture(n: Node, id: TaskId, l: Loader) returns (m: Node)
    requires Sane(n.shard) && Stands(n, id, l) && Alive(l) && (l.phase == Captured || l.row.Present?)
    requires WithinGap(n.shard, l)
    ensures Future(n, m, id) && AboutToCommit(m.shard, id) && m.shard.loaders[id].row.Present?
    ensures m.shard.db != m.shard.loaders[id].row && m.shard.awaiting == 0
  {
    FutureSelf(n, id);
    var k, r := WithRow(n, n, id, l);
    if k.shard.db == r.row {
      k := Deleted(n, k, id, r);
    }
    var gap: nat := r.epoch - EpochValue(k.shard);
    var x, q := Raised(n, k, id, r, gap);
    m := ReachesCommit(n, x, id, q);
  }

  lemma LateFuture(n: Node, id: TaskId, l: Loader) returns (m: Node)
    requires Sane(n.shard) && Stands(n, id, l) && Alive(l) && l.phase != Captured
    requires l.stamp <= n.shard.invalidations && !Behind(n.shard, l)
    ensures Future(n, m, id) && AboutToCommit(m.shard, id) && m.shard.loaders[id].stamp != m.shard.invalidations
  {
    FutureSelf(n, id);
    var gap: nat := l.epoch - EpochValue(n.shard);
    var x, q := Raised(n, n, id, l, gap);
    m := ReachesCommit(n, x, id, q);
  }

  // ---- Main results -------------------------------------------------------------------------

  lemma FlightOk(y: System, u: User, id: TaskId)
    requires Reachable(y) && u in y.users && id in y.users[u].loaders
    ensures SystemInv(y) && Sane(y.users[u]) && Stands(Node(y.users[u], y.revisions), id, y.users[u].loaders[id])
    ensures y.users[u].loaders[id].stamp <= y.users[u].invalidations
  {
    ReachableInv(y);
    assert Inv(Node(y.users[u], y.revisions));
    assert LoaderOk(Node(y.users[u], y.revisions), y.users[u].loaders[id]);
  }

  /** A load past its fetch, with a retry left, can still be committed after an invalidate
      that followed its capture, without a further restart, exactly if its captured epoch
      is ahead of the current one, or is it although something was invalidated since. */
  lemma LateAheadIffNotBehind(y: System, u: User, id: TaskId)
    requires Reachable(y) && u in y.users && id in y.users[u].loaders
    requires Alive(y.users[u].loaders[id]) && y.users[u].loaders[id].phase != Captured
    ensures LateAhead(y, u, id) <==> !Behind(y.users[u], y.users[u].loaders[id])
  {
    FlightOk(y, u, id);
    var n, l := Node(y.users[u], y.revisions), y.users[u].loaders[id];
    if !Behind(n.shard, l) {
      var m := LateFuture(n, id, l);
      var events :| EventsLead(n, events, m, id);
      Lift(y, u, events);
      assert LateAfter(y, OnUser(u, events), u, id);
    }
    forall actions | LateAfter(y, actions, u, id) ensures !Behind(n.shard, l) {
      NoLateFromBehind(y, actions, u, id);
    }
  }

  /** A load with a retry left can still put a row back that is no longer the user's, with
      no write awaiting its invalidate and without a further restart, exactly if the
      writes awaiting theirs (and one more, if the row is still current) are at most the
      epochs that its captured one is ahead. */
  lemma OutdatedAheadIffWithinGap(y: System, u: User, id: TaskId)
    requires Reachable(y) && u in y.users && id in y.users[u].loaders
    requires Alive(y.users[u].loaders[id])
    requires y.users[u].loaders[id].phase == Captured || y.users[u].loaders[id].row.Present?
    ensures OutdatedAhead(y, u, id) <==> WithinGap(y.users[u], y.users[u].loaders[id])
  {
    FlightOk(y, u, id);
    var n, l := Node(y.users[u], y.revisions), y.users[u].loaders[id];
    if WithinGap(n.shard, l) {
      var m := OutdatedFuture(n, id, l);
      var events :| EventsLead(n, events, m, id);
      Lift(y, u, events);
      assert OutdatedAfter(y, OnUser(u, events), u, id);
    }
    forall actions | OutdatedAfter(y, actions, u, id) ensures WithinGap(n.shard, l) {
      OutdatedFromGap(y, actions, u, id);
    }
  }

  /** And then the commit leaves that row in L2. */
  lemma OutdatedCommitStays(y: System, u: User, id: TaskId)
    requires OutdatedNow(y, u, id)
    ensures CanDo(y, At(u, Exec(id)))
    ensures var s := Do(y, At(u, Exec(id))).users[u];
      && s.l2.Some? && s.l2.value.Positive? && s.awaiting == 0
      && Present(s.l2.value.sv, s.l2.value.data) == y.users[u].loaders[id].row != s.db
  {
  }

  /** What is committed is marked late exactly if its load was not behind. */
  lemma CommittedLateIffNotBehind(y: System, u: User, id: TaskId)
    requires Reachable(y) && u in y.users && AboutToCommit(y.users[u], id)
    ensures CanDo(y, At(u, Exec(id))) && Do(y, At(u, Exec(id))).users[u].l2.Some?
    ensures Do(y, At(u, Exec(id))).users[u].l2.value.late <==> !Behind(y.users[u], y.users[u].loaders[id])
  {
    FlightOk(y, u, id);
    assert LoaderSane(y.users[u], y.users[u].loaders[id]);
  }

  // ---- Without a restart nothing is late ---------------------------------------------------------

  ghost predicate InTime(s: Shard) {
    && (forall id :: id in s.loaders ==> !s.loaders[id].late && (s.loaders[id].phase == Committed || Behind(s, s.loaders[id])))
    && (s.l2.Some? ==> !s.l2.value.late)
    && (forall p :: p in s.l1 ==> !s.l1[p].late)
    && (forall id :: id in s.readers && s.readers[id].copy.Some? ==> !s.readers[id].copy.value.late)
  }

  lemma StepKeepsBehind(n: Node, e: Event, id: TaskId)
    requires Inv(n) && InTime(n.shard) && Enabled(n, e) && !e.Restart? && id in Next(n, e).shard.loaders
    ensures var l := Next(n, e).shard.loaders[id]; !l.late && (l.phase == Committed || Behind(Next(n, e).shard, l))
  {
    if e.Capture? && e.id == id {
      CaptureIsBehind(n, id, e.process, e.failed);
    } else {
      LoadStays(n, e, id);
      EpochMoves(n, e);
      assert LoaderSane(n.shard, n.shard.loaders[id]);
      LateOnlyByExec(n, e, id);
    }
  }

  lemma LateOnlyByExec(n: Node, e: Event, id: TaskId)
    requires Enabled(n, e) && !(e.Capture? && e.id == id) && id in n.shard.loaders && id in Next(n, e).shard.loaders
    requires LoaderSane(n.shard, n.shard.loaders[id]) && !n.shard.loaders[id].late
    requires n.shard.loaders[id].phase == Committed || Behind(n.shard, n.shard.loaders[id])
    ensures !Next(n, e).shard.loaders[id].late
    ensures n.shard.loaders[id].phase == Committed ==> Next(n, e).shard.loaders[id].phase == Committed
  {
    if !OwnStep(e, id) && !Disturbs(n, e) {
      QuietLoader(n, e, id);
    }
  }

  lemma StepKeepsStoresInTime(n: Node, e: Event)
    requires Inv(n) && InTime(n.shard) && Enabled(n, e) && !e.Restart?
    ensures var s := Next(n, e).shard;
      && (s.l2.Some? ==> !s.l2.value.late)
      && (forall p :: p in s.l1 ==> !s.l1[p].late)
      && (forall id :: id in s.readers && s.readers[id].copy.Some? ==> !s.readers[id].copy.value.late)
  {
    if e.Exec? {
      assert LoaderSane(n.shard, n.shard.loaders[e.id]);
    }
  }

  lemma StepKeepsInTime(n: Node, e: Event)
    requires Inv(n) && InTime(n.shard) && Enabled(n, e) && !e.Restart?
    ensures InTime(Next(n, e).shard)
  {
    StepKeepsStoresInTime(n, e);
    forall id | id in Next(n, e).shard.loaders
      ensures !Next(n, e).shard.loaders[id].late
              && (Next(n, e).shard.loaders[id].phase == Committed || Behind(Next(n, e).shard, Next(n, e).shard.loaders[id]))
    {
      StepKeepsBehind(n, e, id);
    }
  }

  /** From any reachable state in which every load of a user is behind and nothing of the
      user is late, nothing becomes late until Redis restarts: seeds and lost keys do no
      harm. */
  lemma {:induction false} InTimeUntilRestart(y: System, actions: seq<Action>, u: User)
    requires SystemInv(y) && u in y.users && InTime(y.users[u]) && RunActions(y, actions).Some?
    requires forall i :: 0 <= i < |actions| ==> actions[i] != At(u, Restart)
    ensures u in RunActions(y, actions).value.users && InTime(RunActions(y, actions).value.users[u])
    decreases |actions|
  {
    if actions != [] {
      var a := actions[0];
      ActionKeepsInv(y, a);
      if a.At? && a.user == u {
        assert Inv(Node(y.users[u], y.revisions));
        StepKeepsInTime(Node(y.users[u], y.revisions), a.event);
      }
      InTimeUntilRestart(Do(y, a), actions[1..], u);
    }
  }

  lemma StartIsInTime(y: System, u: User)
    requires Start(y) && u in y.users
    ensures SystemInv(y) && InTime(y.users[u])
  {
  }

  /** In one Redis lifetime nothing is ever late. */
  lemma OneLifetimeIsInTime(y: System, actions: seq<Action>, u: User)
    requires Start(y) && u in y.users && RunActions(y, actions).Some?
    requires forall i :: 0 <= i < |actions| ==> actions[i] != At(u, Restart)
    ensures u in RunActions(y, actions).value.users && InTime(RunActions(y, actions).value.users[u])
  {
    StartIsInTime(y, u);
    InTimeUntilRestart(y, actions, u);
  }

  /** A restart keeps a user in time exactly if each load in flight failed to capture an
      epoch and nothing was invalidated since; after it, a seed does exactly if it is above
      every captured epoch, or is one with nothing invalidated since. */
  lemma NewEpochInTime(n: Node, e: Event)
    requires Inv(n) && Enabled(n, e) && (e.Restart? || e.InitEpoch?)
    requires (forall p :: p in n.shard.l1 ==> !n.shard.l1[p].late) && (n.shard.l2.Some? ==> !n.shard.l2.value.late)
    requires forall id :: id in n.shard.readers && n.shard.readers[id].copy.Some? ==> !n.shard.readers[id].copy.value.late
    requires forall id :: id in n.shard.loaders ==> !n.shard.loaders[id].late
    ensures InTime(Next(n, e).shard) <==>
      forall id :: id in n.shard.loaders && n.shard.loaders[id].phase != Committed ==>
        var l, v := n.shard.loaders[id], if e.Restart? then EPOCH_ABSENT else e.seed;
        l.epoch < v || (l.epoch == v && l.stamp == n.shard.invalidations)
  {
    var t := Next(n, e).shard;
    assert forall id :: id in t.loaders ==> id in n.shard.loaders && t.loaders[id] == n.shard.loaders[id].(dirty := true);
    assert forall id :: id in n.shard.loaders ==> id in t.loaders;
  }

  /** Every load, behind or not, comes within the gap by one restart once its row is
      outdated and nothing awaits an invalidate. */
  lemma RestartPutsWithinGap(y: System, u: User, id: TaskId)
    requires Reachable(y) && u in y.users && id in y.users[u].loaders
    requires y.users[u].awaiting == 0 && y.users[u].loaders[id].phase != Captured
    requires y.users[u].loaders[id].row != y.users[u].db
    ensures CanDo(y, At(u, Restart))
    ensures var s := Do(y, At(u, Restart)).users[u];
      id in s.loaders && WithinGap(s, s.loaders[id]) && s.loaders[id] == y.users[u].loaders[id].(dirty := true)
  {
    FlightOk(y, u, id);
    assert LoaderSane(y.users[u], y.users[u].loaders[id]);
  }
}
