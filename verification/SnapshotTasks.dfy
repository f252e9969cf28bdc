/** The cache operations as the tasks run them: straight code with awaits, where
    every await lets the rest of the system move (core/user_cache.py and the
    loader in auth/snapshot.py). Each method is shown to take protocol steps only,
    so the theorems of `SnapshotCache` cover every interleaving of these tasks. */
module SnapshotTasks {
  import opened Wrappers
  import opened SnapshotCache

  ghost predicate IsTrace(states: seq<System>, actions: seq<Action>) {
    && |states| == |actions| + 1
    && forall i :: 0 <= i < |actions| ==> CanDo(states[i], actions[i]) && states[i + 1] == Do(states[i], actions[i])
  }

  ghost predicate TraceBetween(states: seq<System>, actions: seq<Action>, y: System, z: System) {
    IsTrace(states, actions) && states[0] == y && states[|states| - 1] == z
  }

  /** Some protocol steps lead from y to z. */
  ghost predicate Leads(y: System, z: System) {
    exists states, actions :: TraceBetween(states, actions, y, z)
  }

  lemma LeadsSelf(y: System)
    ensures Leads(y, y)
  {
    assert TraceBetween([y], [], y, y);
  }

  lemma LeadsStep(y: System, z: System, a: Action)
    requires Leads(y, z) && CanDo(z, a)
    ensures Leads(y, Do(z, a))
  {
    var states, actions :| TraceBetween(states, actions, y, z);
    var more, done := states + [Do(z, a)], actions + [a];
    forall i | 0 <= i < |done| ensures CanDo(more[i], done[i]) && more[i + 1] == Do(more[i], done[i]) {
      if i < |actions| { assert CanDo(states[i], actions[i]) && states[i + 1] == Do(states[i], actions[i]); }
    }
    assert TraceBetween(more, done, y, Do(z, a));
  }

  /** What protocol steps can be reached from a reachable system is reachable. */
  lemma {:induction false} LeadsKeepsReachable(y: System, z: System)
    requires Reachable(y) && Leads(y, z)
    ensures Reachable(z)
  {
    var states, actions :| TraceBetween(states, actions, y, z);
    ReachableAlong(states, actions);
  }

  lemma {:induction false} ReachableAlong(states: seq<System>, actions: seq<Action>)
    requires IsTrace(states, actions) && Reachable(states[0])
    ensures Reachable(states[|states| - 1])
    decreases |actions|
  {
    if actions != [] {
      assert CanDo(states[0], actions[0]) && states[0 + 1] == Do(states[0], actions[0]);
      ReachableStep(states[0], actions[0]);
      var rest, left := states[1..], actions[1..];
      forall i | 0 <= i < |left| ensures CanDo(rest[i], left[i]) && rest[i + 1] == Do(rest[i], left[i]) {
        assert CanDo(states[i + 1], actions[i + 1]) && states[i + 1 + 1] == Do(states[i + 1], actions[i + 1]);
      }
      ReachableAlong(rest, left);
    }
  }

  /** Task `id` of user `u` holds `l`; its process is known. */
  predicate Holds(y: System, u: User, id: TaskId, l: Loader) {
    u in y.users && id in y.users[u].loaders && y.users[u].loaders[id] == l && l.process in y.revisions
  }

  predicate Idle(y: System, u: User, p: Process, id: TaskId) {
    u in y.users && p in y.revisions && id !in y.users[u].loaders && id !in y.users[u].readers
  }

  predicate Reading(y: System, u: User, id: TaskId, r: Reader) {
    && u in y.users && id in y.users[u].readers && y.users[u].readers[id] == r && r.process in y.revisions
    && id !in y.users[u].loaders
  }

  /** The steps that only the task itself takes. */
  predicate TaskStep(e: Event, id: TaskId) {
    OwnStep(e, id) ||
    match e
    case FillAfterWrite(i) => i == id
    case Abandon(i) => i == id
    case StartRead(i, _) => i == id
    case ReadL2(i) => i == id
    case FillAfterRead(i) => i == id
    case AbandonRead(i) => i == id
    case _ => false
  }

  /** What the await contracts below rest on: a step of anybody else leaves a loader
      and a reader alone, except that it may soil the loader's watched keys. */
  lemma OthersOnlySoil(y: System, a: Action, u: User, id: TaskId)
    requires CanDo(y, a) && !(a.At? && a.user == u && TaskStep(a.event, id))
    ensures forall l :: Holds(y, u, id, l) ==> Holds(Do(y, a), u, id, l) || Holds(Do(y, a), u, id, l.(dirty := true))
    ensures forall r :: Reading(y, u, id, r) ==> Reading(Do(y, a), u, id, r)
    ensures forall p :: Idle(y, u, p, id) ==> Idle(Do(y, a), u, p, id)
  {
    if a.At? && a.user == u && u in y.users {
      OthersOnlySoilShard(Node(y.users[u], y.revisions), a.event, id);
    }
  }

  lemma OthersOnlySoilShard(n: Node, e: Event, id: TaskId)
    requires Enabled(n, e) && !TaskStep(e, id)
    ensures id in n.shard.loaders <==> id in Next(n, e).shard.loaders
    ensures id in n.shard.loaders ==>
      Next(n, e).shard.loaders[id] in {n.shard.loaders[id], n.shard.loaders[id].(dirty := true)}
    ensures id in n.shard.readers <==> id in Next(n, e).shard.readers
    ensures id in n.shard.readers ==> Next(n, e).shard.readers[id] == n.shard.readers[id]
  {
    OthersKeepReader(n, e, id);
    OthersKeepMembership(n, e, id);
    if id in n.shard.loaders && !Disturbs(n, e) {
      QuietLoader(n, e, id);
    }
  }

  lemma OthersKeepReader(n: Node, e: Event, id: TaskId)
    requires Enabled(n, e) && !TaskStep(e, id)
    ensures id in n.shard.readers <==> id in Next(n, e).shard.readers
    ensures id in n.shard.readers ==> Next(n, e).shard.readers[id] == n.shard.readers[id]
  {
  }

  lemma OthersKeepMembership(n: Node, e: Event, id: TaskId)
    requires Enabled(n, e) && !TaskStep(e, id)
    ensures id in n.shard.loaders <==> id in Next(n, e).shard.loaders
  {
    if e.Exec? {
      assert id in AfterExec(n, e.id).shard.loaders <==> id in n.shard.loaders;
    }
  }

  datatype ReadResult = Hit(copy: Copy) | KnownAbsent | Missed

  /** The L2 entry of the user is this snapshot. */
  predicate FromCache(y: System, u: User, c: Copy) {
    u in y.users && y.users[u].l2.Some? && y.users[u].l2.value.Positive? && CopyOf(y.users[u].l2.value) == c
  }

  /** Whatever led to y leads on to z. */
  ghost predicate Onward(y: System, z: System) {
    forall x :: Leads(x, y) ==> Leads(x, z)
  }

  /** The same load: what was captured and fetched, and how often it was tried. */
  predicate SameLoad(l: Loader, m: Loader) {
    && m.process == l.process && m.epoch == l.epoch && m.stamp == l.stamp && m.row == l.row
    && m.seen == l.seen && m.tries == l.tries
  }

  /** The entry is what this load had to write. */
  predicate WrittenBy(e: Entry, l: Loader) {
    e == EntryOf(l.row, l.stamp, l.seen, e.late)
  }

  /** The whole system, shared by all tasks. */
  class World {
    var y: System

    /** One protocol step of this task. */
    method Act(a: Action)
      requires CanDo(y, a)
      modifies this
      ensures y == Do(old(y), a) && Onward(old(y), y)
    {
      forall x | Leads(x, y) ensures Leads(x, Do(y, a)) { LeadsStep(x, y, a); }
      y := Do(y, a);
    }

    /** An await of loader `id`: any steps of others; they may soil the loader's
        watched keys but change nothing else of it. (The body is the case of no
        step; callers only see the contract.) */
    method AwaitAsLoader(u: User, id: TaskId, l: Loader) returns (mine: Loader)
      requires Holds(y, u, id, l)
      modifies this
      ensures Onward(old(y), y)
      ensures Holds(y, u, id, mine) && (mine == l || mine == l.(dirty := true))
    {
      mine := l;
    }

    method AwaitAsReader(u: User, id: TaskId, r: Reader)
      requires Reading(y, u, id, r)
      modifies this
      ensures Onward(old(y), y) && Reading(y, u, id, r)
    {
    }

    /** An await of a task that holds nothing yet. */
    method Await(u: User, p: Process, id: TaskId)
      requires Idle(y, u, p, id)
      modifies this
      ensures Onward(old(y), y) && Idle(y, u, p, id)
    {
    }

    /** WATCH and the two reads that follow it. */
    method ReadUnderWatch(u: User, id: TaskId, l: Loader) returns (mine: Loader)
      requires Holds(y, u, id, l) && l.phase == Fetched
      modifies this
      ensures Onward(old(y), y)
      ensures Holds(y, u, id, mine) && mine.phase == EntryRead && SameLoad(l, mine)
    {
      Act(At(u, Watch(id)));
      mine := AwaitAsLoader(u, id, l.(phase := Watching, dirty := false));
      Act(At(u, ReadEpoch(id)));
      mine := AwaitAsLoader(u, id, y.users[u].loaders[id]);
      Act(At(u, ReadEntry(id)));
      mine := AwaitAsLoader(u, id, y.users[u].loaders[id]);
    }

    /** One round of `write_if_newer`, up to its EXEC: WATCH, the two reads, the guards.
        None means that a guard refused; otherwise the task stands at its EXEC. */
    method WatchAndCheck(u: User, id: TaskId, l: Loader) returns (ready: Option<Loader>)
      requires Holds(y, u, id, l) && l.phase == Fetched
      modifies this
      ensures Onward(old(y), y)
      ensures ready.Some? ==> Holds(y, u, id, ready.value) && ready.value.phase == Ready && SameLoad(l, ready.value)
    {
      var mine := ReadUnderWatch(u, id, l);
      Act(At(u, Check(id)));
      if !Admits(mine) {
        return None;
      }
      mine := AwaitAsLoader(u, id, y.users[u].loaders[id]);
      ready := Some(mine);
    }

    /** `write_if_newer` for a task that has captured its epoch and fetched a row:
        at most MAX_CAS_RETRY rounds of WATCH, two guards, MULTI/EXEC, and on success
        the guarded L1 fill. True means the entry stood in L2 at some moment. */
    method WriteIfNewer(u: User, id: TaskId, l: Loader) returns (written: bool, ghost at: System)
      requires Holds(y, u, id, l) && l.phase == Fetched && l.tries == 0
      modifies this
      ensures Onward(old(y), y)
      ensures written ==> Leads(old(y), at) && Leads(at, y)
      ensures written ==> u in at.users && at.users[u].l2.Some? && WrittenBy(at.users[u].l2.value, l)
    {
      ghost var start := y;
      var mine := l;
      at := y;
      LeadsSelf(y);
      while true
        invariant Onward(start, y) && Leads(start, y)
        invariant Holds(y, u, id, mine) && mine.phase == Fetched
        invariant mine.tries < MAX_CAS_RETRY && SameLoad(l, mine.(tries := l.tries))
        decreases MAX_CAS_RETRY - mine.tries
      {
        var ready := WatchAndCheck(u, id, mine);
        if ready.None? {
          return false, at;
        }
        mine := ready.value;
        Act(At(u, Exec(id)));
        if !mine.dirty {
          at := y;
          FillIfPresent(u, id, mine);
          return true, at;
        }
        if mine.tries + 1 == MAX_CAS_RETRY {
          return false, at;
        }
        mine := mine.(phase := Fetched, tries := mine.tries + 1);
      }
    }

    /** The L1 fill after a successful EXEC; negative markers do not enter L1. */
    method FillIfPresent(u: User, id: TaskId, l: Loader)
      requires l.row.Present? ==> u in y.users && id in y.users[u].loaders
      requires l.row.Present? ==> Holds(y, u, id, y.users[u].loaders[id]) && y.users[u].loaders[id].phase == Committed
      modifies this
      ensures Onward(old(y), y) && Leads(old(y), y)
    {
      ghost var start := y;
      LeadsSelf(start);
      if l.row.Present? {
        var mine := AwaitAsLoader(u, id, y.users[u].loaders[id]);
        Act(At(u, FillAfterWrite(id)));
      }
    }

    /** `read_snap_state`: L1, else L2 with the guarded L1 fill. A hit stood in L1 at
        the start or in L2 at some moment; "known absent" is a negative marker, or an
        L2 miss of an id that the whitelist rejects (`rejected`). */
    method ReadSnapState(u: User, p: Process, id: TaskId, rejected: bool) returns (r: ReadResult, ghost at: System)
      requires Idle(y, u, p, id)
      modifies this
      ensures Onward(old(y), y) && Leads(old(y), at) && u in at.users
      ensures r.Hit? ==> FromCache(at, u, r.copy) || (at == old(y) && p in at.users[u].l1 && at.users[u].l1[p] == r.copy)
      ensures r.KnownAbsent? ==> if at.users[u].l2.Some? then at.users[u].l2.value.Negative? else rejected
      ensures Idle(y, u, p, id)
    {
      at := y;
      LeadsSelf(y);
      if p in y.users[u].l1 {
        return Hit(y.users[u].l1[p]), at;
      }
      var mine := Reader(p, y.revisions[p], None);
      Act(At(u, StartRead(id, p)));
      AwaitAsReader(u, id, mine);
      at := y;
      var entry := y.users[u].l2;
      Act(At(u, ReadL2(id)));
      if entry.None? {
        return if rejected then KnownAbsent else Missed, at;
      }
      if entry.value.Negative? {
        return KnownAbsent, at;
      }
      mine := y.users[u].readers[id];
      AwaitAsReader(u, id, mine);
      Act(At(u, FillAfterRead(id)));
      r := Hit(mine.copy.value);
    }

    /** `invalidate_user_snap` in process p, which may pay for one write: the atomic
        Redis step, then the local L1 delete. The broadcast is what `Deliver` consumes. */
    method InvalidateUserSnap(u: User, p: Process, id: TaskId, settles: bool)
      requires Idle(y, u, p, id) && (settles ==> y.users[u].awaiting > 0)
      modifies this
      ensures Onward(old(y), y) && Idle(y, u, p, id)
      ensures p !in y.users[u].l1
    {
      Act(At(u, Invalidate(settles)));
      var number := y.users[u].invalidations;
      Await(u, p, id);
      if (p, number) in y.users[u].undelivered {
        Act(At(u, Deliver(p, number)));
      } else {
        Act(At(u, DropLocal(p)));
      }
    }

    /** `_load_user_snapshot`: look again in the cache, capture the epoch, fetch the
        row, write it back. Whatever becomes of the write, the row fetched is returned. */
    method LoadUserSnapshot(u: User, p: Process, id: TaskId, rejected: bool, seed: int, captureFails: bool)
      returns (row: Row, ghost at: System)
      requires Idle(y, u, p, id) && seed >= 1
      modifies this
      ensures Onward(old(y), y) && Leads(old(y), at) && u in at.users
      ensures row.Present? ==>
        || at.users[u].db == row
        || (exists c: Copy :: FromCache(at, u, c) && c.sv == row.sv && c.data == row.data)
        || (at == old(y) && p in at.users[u].l1 && at.users[u].l1[p].sv == row.sv && at.users[u].l1[p].data == row.data)
      ensures row.Absent? ==>
        at.users[u].db.Absent? || (if at.users[u].l2.Some? then at.users[u].l2.value.Negative? else rejected)
    {
      ghost var start := y;
      LeadsSelf(start);
      var r: ReadResult;
      r, at := ReadSnapState(u, p, id, rejected);
      match r {
        case KnownAbsent => return Absent, at;
        case Hit(c) => return Present(c.sv, c.data), at;
        case Missed =>
      }
      Await(u, p, id);
      if !captureFails && y.users[u].epoch.None? {
        Act(At(u, InitEpoch(seed)));
        Await(u, p, id);
      }
      var failed := captureFails || y.users[u].epoch.None?;
      Act(At(u, Capture(id, p, failed)));
      var mine := AwaitAsLoader(u, id, y.users[u].loaders[id]);
      at := y;
      row := y.users[u].db;
      Act(At(u, Fetch(id)));
      mine := AwaitAsLoader(u, id, y.users[u].loaders[id]);
      ghost var committed;
      var written;
      written, committed := WriteIfNewer(u, id, mine);
    }
  }
}
