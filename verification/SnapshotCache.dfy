/** The two-level user snapshot cache as a protocol (core/user_cache.py,
    core/local_cache.py, core/user_cache_events.py and the loader in
    auth/snapshot.py): every await is a point where other steps may happen.

    `Shard` is everything that concerns one user; the invalidation revision of a
    process is shared by all users. Redis may restart and lose all its keys.

    Some fields are history and steer nothing. `invalidations` counts the invalidates
    committed for the user, and every `stamp` is the value of that count when the epoch
    behind a fetched row was captured. `silent` counts the changes of the row that no
    invalidate follows, and every `seen` is that count when the row was fetched. `late`
    marks what was committed to L2 although an invalidate came after its capture; `top`
    is the highest source version so far. */
module SnapshotCache {
  import opened Wrappers

  type User = nat
  type Process = nat
  type TaskId = nat
  type Data = string
  type Revisions = map<Process, nat>

  const MAX_CAS_RETRY := 8
  const NEGATIVE_SV := 0
  const EPOCH_ABSENT := 0

  /** A database row with its source version. */
  datatype Row = Absent | Present(sv: int, data: Data)

  /** An L2 entry: a snapshot or the marker "does not exist". */
  datatype Entry = Positive(sv: int, data: Data, stamp: nat, seen: nat, late: bool) | Negative(stamp: nat, seen: nat, late: bool)

  function EntrySv(e: Entry): int {
    if e.Positive? then e.sv else NEGATIVE_SV
  }

  function RowSv(r: Row): int {
    if r.Present? then r.sv else NEGATIVE_SV
  }

  function EntryOf(r: Row, stamp: nat, seen: nat, late: bool): Entry {
    if r.Present? then Positive(r.sv, r.data, stamp, seen, late) else Negative(stamp, seen, late)
  }

  /** An L1 entry of one process. */
  datatype Copy = Copy(sv: int, data: Data, stamp: nat, seen: nat, late: bool)

  /** Where a loader is between two awaits. */
  datatype Phase = Captured | Fetched | Watching | EpochRead | EntryRead | Ready | Committed

  /** `dirty` says a watched key was written since WATCH; `tries` counts failed EXECs;
      `seenEpoch` and `seenEntry` are what the two reads under WATCH returned. */
  datatype Loader = Loader(
    phase: Phase, process: Process, epoch: int, stamp: nat, row: Row, seen: nat, tries: nat, dirty: bool,
    seenEpoch: int, seenEntry: Option<Entry>, revision: nat, late: bool)

  /** A cache read that missed L1; `copy` is what it got from L2. */
  datatype Reader = Reader(process: Process, revision: nat, copy: Option<Copy>)

  datatype Shard = Shard(
    db: Row, awaiting: nat, invalidations: nat, epoch: Option<int>, l2: Option<Entry>,
    l1: map<Process, Copy>, undelivered: set<(Process, nat)>,
    loaders: map<TaskId, Loader>, readers: map<TaskId, Reader>,
    silent: nat, top: int)

  datatype Node = Node(shard: Shard, revisions: Revisions)

  datatype Event =
    | WriteRow(row: Row)            // change of an existing row; its invalidate follows
    | CommitLate(sv: int, data: Data) // change of an existing row whose invalidate came before
    | CreateRow(sv: int, data: Data) // user creation; sends no invalidate
    | InitEpoch(seed: int)          // SET NX of the clock value
    | Invalidate(settles: bool)     // INCR epoch + DEL snapshot, atomically
    | Deliver(process: Process, number: nat) // the L1 delete for one invalidate
    | DropLocal(process: Process)   // any other L1 delete
    | Evict(process: Process)       // L1 expiry or LRU eviction
    | Expire                        // L2 TTL
    | Restart                       // Redis comes back empty (one step for each user)
    | Capture(id: TaskId, process: Process, failed: bool)
    | Fetch(id: TaskId)
    | Watch(id: TaskId)
    | ReadEpoch(id: TaskId)
    | ReadEntry(id: TaskId)
    | Check(id: TaskId)
    | Exec(id: TaskId)
    | FillAfterWrite(id: TaskId)
    | Abandon(id: TaskId)
    | StartRead(id: TaskId, process: Process)
    | ReadL2(id: TaskId)
    | FillAfterRead(id: TaskId)
    | AbandonRead(id: TaskId)

  function EpochValue(s: Shard): int {
    if s.epoch.Some? then s.epoch.value else EPOCH_ABSENT
  }

  function Soil(loaders: map<TaskId, Loader>): map<TaskId, Loader> {
    map id | id in loaders :: loaders[id].(dirty := true)
  }

  function LocalDelete(n: Node, p: Process): Node
    requires p in n.revisions
  {
    Node(n.shard.(l1 := n.shard.l1 - {p}), n.revisions[p := n.revisions[p] + 1])
  }

  function Phased(s: Shard, id: TaskId, phase: Phase): bool {
    id in s.loaders && s.loaders[id].phase == phase
  }

  /** The two guards of `write_if_newer`, on the values read under WATCH. */
  predicate Admits(l: Loader) {
    && (l.seenEntry.Some? ==> EntrySv(l.seenEntry.value) <= RowSv(l.row))
    && l.seenEpoch == l.epoch
  }

  function MaxVersion(a: int, b: int): int {
    if a < b then b else a
  }

  predicate Enabled(n: Node, e: Event) {
    var s := n.shard;
    match e
    case WriteRow(row) => s.db.Present? && (row.Present? ==> row.sv >= 1)
    case CommitLate(sv, _) => s.db.Present? && sv > s.top
    case CreateRow(sv, _) => s.db.Absent? && sv > s.top
    case InitEpoch(seed) => s.epoch.None? && seed >= 1
    case Invalidate(settles) => settles ==> s.awaiting > 0
    case Deliver(p, number) => (p, number) in s.undelivered && p in n.revisions
    case DropLocal(p) => p in n.revisions
    case Evict(p) => true
    case Expire => true
    case Restart => true
    case Capture(id, p, failed) => id !in s.loaders && p in n.revisions && (failed || s.epoch.Some?)
    case Fetch(id) => Phased(s, id, Captured)
    case Watch(id) => Phased(s, id, Fetched)
    case ReadEpoch(id) => Phased(s, id, Watching)
    case ReadEntry(id) => Phased(s, id, EpochRead)
    case Check(id) => Phased(s, id, EntryRead) && s.loaders[id].process in n.revisions
    case Exec(id) => Phased(s, id, Ready)
    case FillAfterWrite(id) => Phased(s, id, Committed) && s.loaders[id].process in n.revisions
    case Abandon(id) => id in s.loaders
    case StartRead(id, p) => id !in s.readers && p in n.revisions && p !in s.l1
    case ReadL2(id) => id in s.readers
    case FillAfterRead(id) => id in s.readers && s.readers[id].process in n.revisions
    case AbandonRead(id) => id in s.readers
  }

  function AfterInvalidate(n: Node, settles: bool): Node {
    var s := n.shard;
    var count := s.invalidations + 1;
    n.(shard := s.(
      awaiting := if settles && s.awaiting > 0 then s.awaiting - 1 else s.awaiting,
      invalidations := count,
      epoch := Some(EpochValue(s) + 1),
      l2 := None,
      undelivered := s.undelivered + set p | p in n.revisions :: (p, count),
      loaders := Soil(s.loaders)))
  }

  function AfterCheck(n: Node, id: TaskId): Node
    requires Enabled(n, Check(id))
  {
    var s := n.shard;
    var l := s.loaders[id];
    n.(shard := s.(loaders :=
      if Admits(l) then s.loaders[id := l.(phase := Ready, revision := n.revisions[l.process])]
      else s.loaders - {id}))
  }

  function AfterExec(n: Node, id: TaskId): Node
    requires Enabled(n, Exec(id))
  {
    var s := n.shard;
    var l := s.loaders[id];
    if l.dirty then
      n.(shard := s.(loaders :=
        if l.tries + 1 < MAX_CAS_RETRY then s.loaders[id := l.(phase := Fetched, tries := l.tries + 1)]
        else s.loaders - {id}))
    else
      var others := Soil(s.loaders);
      n.(shard := s.(
        l2 := Some(EntryOf(l.row, l.stamp, l.seen, l.stamp != s.invalidations)),
        loaders := if l.row.Present? then others[id := l.(phase := Committed, late := l.stamp != s.invalidations)]
                   else others - {id}))
  }

  function AfterFillWrite(n: Node, id: TaskId): Node
    requires Enabled(n, FillAfterWrite(id))
  {
    var s := n.shard;
    var l := s.loaders[id];
    var p := l.process;
    var fill := l.row.Present? && l.revision == n.revisions[p] && !(p in s.l1 && s.l1[p].sv > l.row.sv);
    n.(shard := s.(
      l1 := if fill then s.l1[p := Copy(l.row.sv, l.row.data, l.stamp, l.seen, l.late)] else s.l1,
      loaders := s.loaders - {id}))
  }

  function CopyOf(e: Entry): Copy
    requires e.Positive?
  {
    Copy(e.sv, e.data, e.stamp, e.seen, e.late)
  }

  function AfterReadL2(n: Node, id: TaskId): Node
    requires Enabled(n, ReadL2(id))
  {
    var s := n.shard;
    n.(shard := s.(readers :=
      if s.l2.Some? && s.l2.value.Positive?
      then s.readers[id := s.readers[id].(copy := Some(CopyOf(s.l2.value)))]
      else s.readers - {id}))
  }

  function AfterFillRead(n: Node, id: TaskId): Node
    requires Enabled(n, FillAfterRead(id))
  {
    var s := n.shard;
    var r := s.readers[id];
    var fill := r.copy.Some? && r.revision == n.revisions[r.process] && r.process !in s.l1;
    n.(shard := s.(
      l1 := if fill then s.l1[r.process := r.copy.value] else s.l1,
      readers := s.readers - {id}))
  }

  function NewLoader(p: Process, epoch: int, stamp: nat): Loader {
    Loader(Captured, p, epoch, stamp, Absent, 0, 0, false, EPOCH_ABSENT, None, 0, false)
  }

  function Next(n: Node, e: Event): Node
    requires Enabled(n, e)
  {
    var s := n.shard;
    match e
    case WriteRow(row) => n.(shard := s.(db := row, awaiting := s.awaiting + 1, top := MaxVersion(s.top, RowSv(row))))
    case CommitLate(sv, data) => n.(shard := s.(db := Present(sv, data), silent := s.silent + 1, top := sv))
    case CreateRow(sv, data) => n.(shard := s.(db := Present(sv, data), silent := s.silent + 1, top := sv))
    case InitEpoch(seed) => n.(shard := s.(epoch := Some(seed), loaders := Soil(s.loaders)))
    case Invalidate(settles) => AfterInvalidate(n, settles)
    case Deliver(p, number) => LocalDelete(n.(shard := s.(undelivered := s.undelivered - {(p, number)})), p)
    case DropLocal(p) => LocalDelete(n, p)
    case Evict(p) => n.(shard := s.(l1 := s.l1 - {p}))
    case Expire => n.(shard := s.(l2 := None))
    case Restart => n.(shard := s.(epoch := None, l2 := None, loaders := Soil(s.loaders)))
    case Capture(id, p, failed) =>
      var epoch := if failed then EPOCH_ABSENT else s.epoch.value;
      n.(shard := s.(loaders := s.loaders[id := NewLoader(p, epoch, s.invalidations)]))
    case Fetch(id) =>
      n.(shard := s.(loaders := s.loaders[id := s.loaders[id].(phase := Fetched, row := s.db, seen := s.silent)]))
    case Watch(id) => n.(shard := s.(loaders := s.loaders[id := s.loaders[id].(phase := Watching, dirty := false)]))
    case ReadEpoch(id) =>
      n.(shard := s.(loaders := s.loaders[id := s.loaders[id].(phase := EpochRead, seenEpoch := EpochValue(s))]))
    case ReadEntry(id) =>
      n.(shard := s.(loaders := s.loaders[id := s.loaders[id].(phase := EntryRead, seenEntry := s.l2)]))
    case Check(id) => AfterCheck(n, id)
    case Exec(id) => AfterExec(n, id)
    case FillAfterWrite(id) => AfterFillWrite(n, id)
    case Abandon(id) => n.(shard := s.(loaders := s.loaders - {id}))
    case StartRead(id, p) => n.(shard := s.(readers := s.readers[id := Reader(p, n.revisions[p], None)]))
    case ReadL2(id) => AfterReadL2(n, id)
    case FillAfterRead(id) => AfterFillRead(n, id)
    case AbandonRead(id) => n.(shard := s.(readers := s.readers - {id}))
  }

  // ---- What always holds ---------------------------------------------------------

  /** What a loader has seen under an undisturbed WATCH still stands. */
  predicate LoaderSane(s: Shard, l: Loader) {
    && l.epoch >= EPOCH_ABSENT
    && (l.phase != Captured && l.row.Present? ==> l.row.sv >= 1)
    && ((l.phase == EpochRead || l.phase == EntryRead) && !l.dirty ==> l.seenEpoch == EpochValue(s))
    && (l.phase == EntryRead && !l.dirty && s.l2.Some? ==> l.seenEntry == s.l2)
    && (l.phase == Ready && !l.dirty ==>
        l.epoch == EpochValue(s) && (s.l2.Some? ==> EntrySv(s.l2.value) <= RowSv(l.row)))
  }

  ghost predicate Sane(s: Shard) {
    && (s.db.Present? ==> 1 <= s.db.sv <= s.top) && s.top >= NEGATIVE_SV
    && (s.epoch.Some? ==> s.epoch.value >= 1)
    && (s.l2.Some? && s.l2.value.Positive? ==> s.l2.value.sv >= 1)
    && (forall id :: id in s.loaders ==> LoaderSane(s, s.loaders[id]))
  }

  /** A loader stays sane while epoch and entry stand, or once it is soiled. */
  lemma UndisturbedIsSane(s: Shard, t: Shard, l: Loader)
    requires LoaderSane(s, l) && EpochValue(t) == EpochValue(s) && (t.l2.Some? ==> t.l2 == s.l2)
    ensures LoaderSane(t, l)
  {
  }

  lemma SoiledIsSane(s: Shard, t: Shard, l: Loader)
    requires LoaderSane(s, l)
    ensures LoaderSane(t, l.(dirty := true))
  {
  }

  predicate Disturbs(n: Node, e: Event) {
    e.InitEpoch? || e.Invalidate? || e.Restart? || (e.Exec? && e.id in n.shard.loaders && !n.shard.loaders[e.id].dirty)
  }

  predicate OwnStep(e: Event, id: TaskId) {
    match e
    case Capture(i, _, _) => i == id
    case Fetch(i) => i == id
    case Watch(i) => i == id
    case ReadEpoch(i) => i == id
    case ReadEntry(i) => i == id
    case Check(i) => i == id
    case Exec(i) => i == id
    case _ => false
  }

  lemma OthersKeepLoaderSane(n: Node, e: Event, id: TaskId)
    requires Sane(n.shard) && Enabled(n, e) && !OwnStep(e, id) && !Disturbs(n, e)
    requires id in Next(n, e).shard.loaders
    ensures LoaderSane(Next(n, e).shard, Next(n, e).shard.loaders[id])
  {
    assert LoaderSane(n.shard, n.shard.loaders[id]);
    QuietStep(n, e);
    QuietLoader(n, e, id);
    UndisturbedIsSane(n.shard, Next(n, e).shard, n.shard.loaders[id]);
  }

  lemma QuietStep(n: Node, e: Event)
    requires Enabled(n, e) && !Disturbs(n, e)
    ensures var t := Next(n, e).shard; t.epoch == n.shard.epoch && (t.l2.Some? ==> t.l2 == n.shard.l2)
  {
  }

  lemma QuietLoader(n: Node, e: Event, id: TaskId)
    requires Enabled(n, e) && !OwnStep(e, id) && !Disturbs(n, e) && id in Next(n, e).shard.loaders
    ensures id in n.shard.loaders && Next(n, e).shard.loaders[id] == n.shard.loaders[id]
  {
  }

  lemma DisturbanceSoils(n: Node, e: Event, id: TaskId)
    requires Sane(n.shard) && Enabled(n, e) && Disturbs(n, e) && (e.Exec? ==> e.id != id)
    requires id in Next(n, e).shard.loaders
    ensures LoaderSane(Next(n, e).shard, Next(n, e).shard.loaders[id])
  {
    assert LoaderSane(n.shard, n.shard.loaders[id]);
    SoiledIsSane(n.shard, Next(n, e).shard, n.shard.loaders[id]);
    if e.Exec? {
      assert Next(n, e).shard.loaders[id] == n.shard.loaders[id].(dirty := true);
    }
  }

  lemma OwnStepIsSane(n: Node, e: Event, id: TaskId)
    requires Sane(n.shard) && Enabled(n, e) && OwnStep(e, id) && !e.Exec?
    requires id in Next(n, e).shard.loaders
    ensures LoaderSane(Next(n, e).shard, Next(n, e).shard.loaders[id])
  {
    if id in n.shard.loaders {
      assert LoaderSane(n.shard, n.shard.loaders[id]);
    }
  }

  lemma OwnExecIsSane(n: Node, id: TaskId)
    requires Sane(n.shard) && Enabled(n, Exec(id)) && id in AfterExec(n, id).shard.loaders
    ensures LoaderSane(AfterExec(n, id).shard, AfterExec(n, id).shard.loaders[id])
  {
    assert LoaderSane(n.shard, n.shard.loaders[id]);
  }

  lemma StepKeepsLoaderSane(n: Node, e: Event, id: TaskId)
    requires Sane(n.shard) && Enabled(n, e) && id in Next(n, e).shard.loaders
    ensures LoaderSane(Next(n, e).shard, Next(n, e).shard.loaders[id])
  {
    if e.Exec? && e.id == id {
      OwnExecIsSane(n, id);
    } else if Disturbs(n, e) {
      DisturbanceSoils(n, e, id);
    } else if OwnStep(e, id) {
      OwnStepIsSane(n, e, id);
    } else {
      OthersKeepLoaderSane(n, e, id);
    }
  }

  lemma StepKeepsSane(n: Node, e: Event)
    requires Sane(n.shard) && Enabled(n, e)
    ensures Sane(Next(n, e).shard)
  {
    forall id | id in Next(n, e).shard.loaders ensures LoaderSane(Next(n, e).shard, Next(n, e).shard.loaders[id]) {
      StepKeepsLoaderSane(n, e, id);
    }
    if e.Exec? {
      assert LoaderSane(n.shard, n.shard.loaders[e.id]);
    }
  }

  // ---- The invariant ------------------------------------------------------------------

  /** What was fetched after the latest invalidate is the database row exactly if the row
      did not change silently since, unless a write still awaits its own invalidate. */
  predicate Current(s: Shard, sv: int, data: Data, stamp: nat, seen: nat) {
    && stamp <= s.invalidations && seen <= s.silent && sv <= s.top
    && (stamp == s.invalidations ==>
        s.awaiting > 0 || if s.silent == seen then s.db == Present(sv, data) else s.db.Present? && s.db.sv > sv)
  }

  /** What was found missing after the latest invalidate is missing exactly if the row
      did not appear silently since, unless a write still awaits its own invalidate. */
  predicate Vacant(s: Shard, stamp: nat, seen: nat) {
    && stamp <= s.invalidations && seen <= s.silent
    && (stamp == s.invalidations ==> s.awaiting > 0 || (s.db.Absent? <==> s.silent == seen))
  }

  predicate Reflects(s: Shard, row: Row, stamp: nat, seen: nat) {
    if row.Present? then Current(s, row.sv, row.data, stamp, seen) else Vacant(s, stamp, seen)
  }

  /** Older than the latest invalidate: the L1 delete for that one is still owed to p. */
  predicate Announced(s: Shard, p: Process, stamp: nat) {
    stamp < s.invalidations ==> (p, s.invalidations) in s.undelivered
  }

  predicate LoaderOk(n: Node, l: Loader) {
    var s := n.shard;
    && l.process in n.revisions
    && l.stamp <= s.invalidations
    && l.revision <= n.revisions[l.process]
    && (l.phase != Captured ==> Reflects(s, l.row, l.stamp, l.seen))
    && (l.phase == Committed && !l.late && l.revision == n.revisions[l.process] ==> Announced(s, l.process, l.stamp))
  }

  predicate CopyCurrent(s: Shard, c: Copy) {
    Current(s, c.sv, c.data, c.stamp, c.seen)
  }

  predicate ReaderOk(n: Node, r: Reader) {
    var s := n.shard;
    && r.process in n.revisions
    && r.revision <= n.revisions[r.process]
    && (r.copy.Some? ==> CopyCurrent(s, r.copy.value))
    && (r.copy.Some? && !r.copy.value.late && r.revision == n.revisions[r.process] ==>
        Announced(s, r.process, r.copy.value.stamp))
  }

  /** Only what was committed late is older than the latest invalidate. */
  predicate L2Ok(s: Shard) {
    s.l2.Some? ==>
      && (s.l2.value.late <==> s.l2.value.stamp < s.invalidations)
      && match s.l2.value {
         case Positive(sv, data, stamp, seen, _) => Current(s, sv, data, stamp, seen)
         case Negative(stamp, seen, _) => Vacant(s, stamp, seen)
         }
  }

  predicate CopyOk(n: Node, p: Process, c: Copy) {
    && p in n.revisions
    && CopyCurrent(n.shard, c)
    && (!c.late ==> Announced(n.shard, p, c.stamp))
  }

  ghost predicate Coherent(n: Node) {
    && L2Ok(n.shard)
    && (forall p :: p in n.shard.l1 ==> CopyOk(n, p, n.shard.l1[p]))
    && (forall id :: id in n.shard.loaders ==> LoaderOk(n, n.shard.loaders[id]))
    && (forall id :: id in n.shard.readers ==> ReaderOk(n, n.shard.readers[id]))
  }

  ghost predicate Inv(n: Node) {
    Sane(n.shard) && Coherent(n)
  }

  lemma WriteRowKeepsCoherent(n: Node, row: Row)
    requires Sane(n.shard) && Coherent(n) && Enabled(n, WriteRow(row))
    ensures Coherent(Next(n, WriteRow(row)))
  {
  }

  lemma CommitLateKeepsCoherent(n: Node, sv: int, data: Data)
    requires Sane(n.shard) && Coherent(n) && Enabled(n, CommitLate(sv, data))
    ensures Coherent(Next(n, CommitLate(sv, data)))
  {
  }

  lemma CreateRowKeepsCoherent(n: Node, sv: int, data: Data)
    requires Sane(n.shard) && Coherent(n) && Enabled(n, CreateRow(sv, data))
    ensures Coherent(Next(n, CreateRow(sv, data)))
  {
  }

  lemma InitEpochKeepsCoherent(n: Node, seed: int)
    requires Sane(n.shard) && Coherent(n) && Enabled(n, InitEpoch(seed))
    ensures Coherent(Next(n, InitEpoch(seed)))
  {
  }

  lemma InvalidateKeepsCoherent(n: Node, settles: bool)
    requires Sane(n.shard) && Coherent(n) && Enabled(n, Invalidate(settles))
    ensures Coherent(Next(n, Invalidate(settles)))
  {
  }

  lemma DeliverKeepsCoherent(n: Node, p: Process, number: nat)
    requires Sane(n.shard) && Coherent(n) && Enabled(n, Deliver(p, number))
    ensures Coherent(Next(n, Deliver(p, number)))
  {
  }

  lemma DropLocalKeepsCoherent(n: Node, p: Process)
    requires Sane(n.shard) && Coherent(n) && Enabled(n, DropLocal(p))
    ensures Coherent(Next(n, DropLocal(p)))
  {
  }

  lemma EvictKeepsCoherent(n: Node, p: Process)
    requires Sane(n.shard) && Coherent(n) && Enabled(n, Evict(p))
    ensures Coherent(Next(n, Evict(p)))
  {
  }

  lemma ExpireKeepsCoherent(n: Node)
    requires Sane(n.shard) && Coherent(n) && Enabled(n, Expire)
    ensures Coherent(Next(n, Expire))
  {
  }

  lemma RestartKeepsCoherent(n: Node)
    requires Sane(n.shard) && Coherent(n)
    ensures Coherent(Next(n, Restart))
  {
  }

  lemma CaptureKeepsCoherent(n: Node, id: TaskId, p: Process, failed: bool)
    requires Sane(n.shard) && Coherent(n) && Enabled(n, Capture(id, p, failed))
    ensures Coherent(Next(n, Capture(id, p, failed)))
  {
  }

  lemma FetchKeepsCoherent(n: Node, id: TaskId)
    requires Sane(n.shard) && Coherent(n) && Enabled(n, Fetch(id))
    ensures Coherent(Next(n, Fetch(id)))
  {
  }

  lemma WatchKeepsCoherent(n: Node, id: TaskId)
    requires Sane(n.shard) && Coherent(n) && Enabled(n, Watch(id))
    ensures Coherent(Next(n, Watch(id)))
  {
  }

  lemma ReadEpochKeepsCoherent(n: Node, id: TaskId)
    requires Sane(n.shard) && Coherent(n) && Enabled(n, ReadEpoch(id))
    ensures Coherent(Next(n, ReadEpoch(id)))
  {
  }

  lemma ReadEntryKeepsCoherent(n: Node, id: TaskId)
    requires Sane(n.shard) && Coherent(n) && Enabled(n, ReadEntry(id))
    ensures Coherent(Next(n, ReadEntry(id)))
  {
  }

  /** A loader's step on its own registers. */
  lemma RegistersKeepCoherent(n: Node, loaders: map<TaskId, Loader>)
    requires Coherent(n) && forall x :: x in loaders ==> LoaderOk(n, loaders[x])
    ensures Coherent(n.(shard := n.shard.(loaders := loaders)))
  {
    var m := n.(shard := n.shard.(loaders := loaders));
    forall x | x in loaders ensures LoaderOk(m, loaders[x]) { SameLoaderOk(n, m, loaders[x]); }
  }

  lemma SameLoaderOk(n: Node, m: Node, l: Loader)
    requires LoaderOk(n, l) && m == n.(shard := n.shard.(loaders := m.shard.loaders))
    ensures LoaderOk(m, l)
  {
  }

  lemma CheckKeepsCoherent(n: Node, id: TaskId)
    requires Sane(n.shard) && Coherent(n) && Enabled(n, Check(id))
    ensures Coherent(Next(n, Check(id)))
  {
    var loaders := AfterCheck(n, id).shard.loaders;
    forall x | x in loaders ensures LoaderOk(n, loaders[x]) {
      assert LoaderOk(n, n.shard.loaders[x]);
    }
    RegistersKeepCoherent(n, loaders);
  }

  lemma ExecRetryKeepsCoherent(n: Node, id: TaskId)
    requires Sane(n.shard) && Coherent(n) && Enabled(n, Exec(id)) && n.shard.loaders[id].dirty
    ensures Coherent(AfterExec(n, id))
  {
    var loaders := AfterExec(n, id).shard.loaders;
    forall x | x in loaders ensures LoaderOk(n, loaders[x]) {
      assert LoaderOk(n, n.shard.loaders[x]);
    }
    RegistersKeepCoherent(n, loaders);
  }

  /** A soiled loader promises nothing about the L2 entry. */
  lemma CommitSoils(n: Node, id: TaskId, l: Loader)
    requires Sane(n.shard) && Coherent(n) && Enabled(n, Exec(id)) && !n.shard.loaders[id].dirty
    requires LoaderOk(n, l)
    ensures LoaderOk(AfterExec(n, id), l.(dirty := true))
  {
  }

  lemma CommitLoaders(n: Node, id: TaskId)
    requires Sane(n.shard) && Coherent(n) && Enabled(n, Exec(id)) && !n.shard.loaders[id].dirty
    ensures var m := AfterExec(n, id);
      forall x :: x in m.shard.loaders ==> LoaderOk(m, m.shard.loaders[x])
  {
    var m := AfterExec(n, id);
    forall x | x in m.shard.loaders ensures LoaderOk(m, m.shard.loaders[x]) {
      if x == id {
        assert LoaderOk(n, n.shard.loaders[id]) && LoaderSane(n.shard, n.shard.loaders[id]);
      } else {
        CommitSoils(n, id, n.shard.loaders[x]);
        assert m.shard.loaders[x] == n.shard.loaders[x].(dirty := true);
      }
    }
  }

  lemma ExecKeepsCoherent(n: Node, id: TaskId)
    requires Sane(n.shard) && Coherent(n) && Enabled(n, Exec(id))
    ensures Coherent(AfterExec(n, id))
  {
    if n.shard.loaders[id].dirty {
      ExecRetryKeepsCoherent(n, id);
    } else {
      CommitLoaders(n, id);
      assert LoaderOk(n, n.shard.loaders[id]) && LoaderSane(n.shard, n.shard.loaders[id]);
    }
  }

  lemma FillAfterWriteKeepsCoherent(n: Node, id: TaskId)
    requires Sane(n.shard) && Coherent(n) && Enabled(n, FillAfterWrite(id))
    ensures Coherent(Next(n, FillAfterWrite(id)))
  {
  }

  lemma StartReadKeepsCoherent(n: Node, id: TaskId, p: Process)
    requires Sane(n.shard) && Coherent(n) && Enabled(n, StartRead(id, p))
    ensures Coherent(Next(n, StartRead(id, p)))
  {
  }

  lemma ReadL2KeepsCoherent(n: Node, id: TaskId)
    requires Sane(n.shard) && Coherent(n) && Enabled(n, ReadL2(id))
    ensures Coherent(Next(n, ReadL2(id)))
  {
  }

  lemma FillAfterReadKeepsCoherent(n: Node, id: TaskId)
    requires Sane(n.shard) && Coherent(n) && Enabled(n, FillAfterRead(id))
    ensures Coherent(Next(n, FillAfterRead(id)))
  {
  }

  predicate LoaderEvent(e: Event) {
    e.Capture? || e.Fetch? || e.Watch? || e.ReadEpoch? || e.ReadEntry? || e.Check? || e.Exec? || e.FillAfterWrite?
    || e.Abandon?
  }

  predicate ReaderEvent(e: Event) {
    e.StartRead? || e.ReadL2? || e.FillAfterRead? || e.AbandonRead?
  }

  lemma LoaderStepKeepsCoherent(n: Node, e: Event)
    requires Sane(n.shard) && Coherent(n) && Enabled(n, e) && LoaderEvent(e)
    ensures Coherent(Next(n, e))
  {
    match e
    case Capture(id, p, failed) => CaptureKeepsCoherent(n, id, p, failed);
    case Fetch(id) => FetchKeepsCoherent(n, id);
    case Watch(id) => WatchKeepsCoherent(n, id);
    case ReadEpoch(id) => ReadEpochKeepsCoherent(n, id);
    case ReadEntry(id) => ReadEntryKeepsCoherent(n, id);
    case Check(id) => CheckKeepsCoherent(n, id);
    case Exec(id) => ExecKeepsCoherent(n, id);
    case FillAfterWrite(id) => FillAfterWriteKeepsCoherent(n, id);
    case Abandon(id) => AbandonKeepsCoherent(n, id);
  }

  lemma AbandonKeepsCoherent(n: Node, id: TaskId)
    requires Coherent(n) && Enabled(n, Abandon(id))
    ensures Coherent(Next(n, Abandon(id)))
  {
  }

  lemma AbandonReadKeepsCoherent(n: Node, id: TaskId)
    requires Coherent(n) && Enabled(n, AbandonRead(id))
    ensures Coherent(Next(n, AbandonRead(id)))
  {
  }

  lemma ReaderStepKeepsCoherent(n: Node, e: Event)
    requires Sane(n.shard) && Coherent(n) && Enabled(n, e) && ReaderEvent(e)
    ensures Coherent(Next(n, e))
  {
    match e
    case StartRead(id, p) => StartReadKeepsCoherent(n, id, p);
    case ReadL2(id) => ReadL2KeepsCoherent(n, id);
    case FillAfterRead(id) => FillAfterReadKeepsCoherent(n, id);
    case AbandonRead(id) => AbandonReadKeepsCoherent(n, id);
  }

  lemma OutsideStepKeepsCoherent(n: Node, e: Event)
    requires Sane(n.shard) && Coherent(n) && Enabled(n, e)
    requires !LoaderEvent(e) && !ReaderEvent(e)
    ensures Coherent(Next(n, e))
  {
    match e
    case WriteRow(row) => WriteRowKeepsCoherent(n, row);
    case CommitLate(sv, data) => CommitLateKeepsCoherent(n, sv, data);
    case CreateRow(sv, data) => CreateRowKeepsCoherent(n, sv, data);
    case InitEpoch(seed) => InitEpochKeepsCoherent(n, seed);
    case Invalidate(settles) => InvalidateKeepsCoherent(n, settles);
    case Deliver(p, number) => DeliverKeepsCoherent(n, p, number);
    case DropLocal(p) => DropLocalKeepsCoherent(n, p);
    case Evict(p) => EvictKeepsCoherent(n, p);
    case Expire => ExpireKeepsCoherent(n);
    case Restart => RestartKeepsCoherent(n);
  }

  lemma StepKeepsCoherent(n: Node, e: Event)
    requires Sane(n.shard) && Coherent(n) && Enabled(n, e)
    ensures Coherent(Next(n, e))
  {
    if LoaderEvent(e) {
      LoaderStepKeepsCoherent(n, e);
    } else if ReaderEvent(e) {
      ReaderStepKeepsCoherent(n, e);
    } else {
      OutsideStepKeepsCoherent(n, e);
    }
  }

  lemma StepKeepsInv(n: Node, e: Event)
    requires Inv(n) && Enabled(n, e)
    ensures Inv(Next(n, e))
  {
    StepKeepsSane(n, e);
    StepKeepsCoherent(n, e);
  }

  /** Deletes for other users only move revisions up, and new processes only add some. */
  lemma LaterRevisionsKeepInv(n: Node, later: Revisions)
    requires Inv(n)
    requires forall p :: p in n.revisions ==> p in later && n.revisions[p] <= later[p]
    ensures Inv(n.(revisions := later))
  {
    var m := n.(revisions := later);
    forall id | id in m.shard.loaders ensures LoaderOk(m, m.shard.loaders[id]) {
      assert LoaderOk(n, n.shard.loaders[id]);
    }
    forall id | id in m.shard.readers ensures ReaderOk(m, m.shard.readers[id]) {
      assert ReaderOk(n, n.shard.readers[id]);
    }
  }

  // ---- All users together ---------------------------------------------------------

  datatype System = System(revisions: Revisions, users: map<User, Shard>)

  datatype Action = At(user: User, event: Event) | Join(process: Process)

  predicate CanDo(y: System, a: Action) {
    match a
    case At(u, e) => u in y.users && Enabled(Node(y.users[u], y.revisions), e)
    case Join(p) => p !in y.revisions
  }

  function Do(y: System, a: Action): System
    requires CanDo(y, a)
  {
    match a
    case At(u, e) =>
      var n := Next(Node(y.users[u], y.revisions), e);
      System(n.revisions, y.users[u := n.shard])
    case Join(p) => y.(revisions := y.revisions[p := 0])
  }

  ghost predicate Start(y: System) {
    forall u :: u in y.users ==>
      var s := y.users[u];
      && (s.db.Present? ==> s.db.sv >= 1)
      && s == Shard(s.db, 0, 0, None, None, map[], {}, map[], map[], 0, RowSv(s.db))
  }

  /** `states` are the successive states while `actions` are taken. */
  ghost predicate IsRun(states: seq<System>, actions: seq<Action>) {
    && |states| == |actions| + 1
    && Start(states[0])
    && forall i :: 0 <= i < |actions| ==> CanDo(states[i], actions[i]) && states[i + 1] == Do(states[i], actions[i])
  }

  ghost predicate Reachable(y: System) {
    exists states, actions :: IsRun(states, actions) && states[|states| - 1] == y
  }

  ghost predicate SystemInv(y: System) {
    forall u :: u in y.users ==> Inv(Node(y.users[u], y.revisions))
  }

  lemma EventMovesRevisionsUp(n: Node, e: Event)
    requires Enabled(n, e)
    ensures forall p :: p in n.revisions ==> p in Next(n, e).revisions && n.revisions[p] <= Next(n, e).revisions[p]
  {
  }

  lemma ActionKeepsInv(y: System, a: Action)
    requires SystemInv(y) && CanDo(y, a)
    ensures SystemInv(Do(y, a))
  {
    var z := Do(y, a);
    forall u | u in z.users ensures Inv(Node(z.users[u], z.revisions)) {
      var n := Node(y.users[u], y.revisions);
      assert Inv(n);
      match a {
        case At(v, e) =>
          if u == v {
            StepKeepsInv(n, e);
          } else {
            EventMovesRevisionsUp(Node(y.users[v], y.revisions), e);
            LaterRevisionsKeepInv(n, z.revisions);
          }
        case Join(p) => LaterRevisionsKeepInv(n, z.revisions);
      }
    }
  }

  lemma {:induction false} RunKeepsInv(states: seq<System>, actions: seq<Action>)
    requires IsRun(states, actions)
    ensures forall i :: 0 <= i < |states| ==> SystemInv(states[i])
    decreases |actions|
  {
    if actions != [] {
      var k := |actions| - 1;
      RunKeepsInv(states[..k + 1], actions[..k]);
      assert states[..k + 1][k] == states[k];
      assert CanDo(states[k], actions[k]);
      ActionKeepsInv(states[k], actions[k]);
      forall i | 0 <= i < |states| ensures SystemInv(states[i]) {
        if i <= k { assert states[..k + 1][i] == states[i]; }
      }
    }
  }

  lemma ReachableInv(y: System)
    requires Reachable(y)
    ensures SystemInv(y)
  {
    var states, actions :| IsRun(states, actions) && states[|states| - 1] == y;
    RunKeepsInv(states, actions);
  }

  // ---- What the cache promises ------------------------------------------------------

  /** No stale resurrection, Redis restarts included: a snapshot in L2 that was not
      committed late was captured after the latest invalidate. With no write awaiting its
      invalidate it is the database row exactly if the row did not change silently since
      its fetch. */
  lemma L2SnapshotIsCurrent(y: System, u: User)
    requires Reachable(y) && u in y.users
    requires y.users[u].l2.Some? && y.users[u].l2.value.Positive? && !y.users[u].l2.value.late
    ensures y.users[u].l2.value.stamp == y.users[u].invalidations
    ensures y.users[u].awaiting == 0 ==>
      (y.users[u].db == Present(y.users[u].l2.value.sv, y.users[u].l2.value.data)
       <==> y.users[u].silent == y.users[u].l2.value.seen)
  {
    ReachableInv(y);
    assert Inv(Node(y.users[u], y.revisions));
  }

  /** A negative marker not committed late is right exactly when the user was not created
      since the fetch behind it, unless some write has not been invalidated yet. */
  lemma MarkerRightIffNotCreatedSince(y: System, u: User)
    requires Reachable(y) && u in y.users
    requires y.users[u].l2.Some? && y.users[u].l2.value.Negative? && !y.users[u].l2.value.late
    requires y.users[u].awaiting == 0
    ensures y.users[u].l2.value.seen <= y.users[u].silent
    ensures y.users[u].db.Absent? <==> y.users[u].silent == y.users[u].l2.value.seen
  {
    ReachableInv(y);
    assert Inv(Node(y.users[u], y.revisions));
  }

  /** L1 coherence: an L1 entry older than the user's latest invalidate exists only
      while the delete for exactly that invalidate has not reached its process. */
  lemma StaleL1IsAnnounced(y: System, u: User, p: Process)
    requires Reachable(y) && u in y.users && p in y.users[u].l1 && !y.users[u].l1[p].late
    requires y.users[u].l1[p].stamp < y.users[u].invalidations
    ensures (p, y.users[u].invalidations) in y.users[u].undelivered
  {
    ReachableInv(y);
    assert Inv(Node(y.users[u], y.revisions));
    assert CopyOk(Node(y.users[u], y.revisions), p, y.users[u].l1[p]);
  }

  /** Once nothing is owed to a process and no write awaits its invalidate, an L1 hit is
      the database row exactly if the row did not change silently since its fetch. */
  lemma QuietL1IsCurrent(y: System, u: User, p: Process)
    requires Reachable(y) && u in y.users && p in y.users[u].l1 && !y.users[u].l1[p].late
    requires y.users[u].awaiting == 0
    requires forall number :: (p, number) !in y.users[u].undelivered
    ensures y.users[u].db == Present(y.users[u].l1[p].sv, y.users[u].l1[p].data)
      <==> y.users[u].silent == y.users[u].l1[p].seen
  {
    ReachableInv(y);
    assert Inv(Node(y.users[u], y.revisions));
    assert CopyOk(Node(y.users[u], y.revisions), p, y.users[u].l1[p]);
  }

  /** One step never replaces a snapshot by an older one or by a negative marker. */
  lemma StepKeepsEntryOrder(n: Node, e: Event)
    requires Inv(n) && Enabled(n, e)
    requires n.shard.l2.Some? && Next(n, e).shard.l2.Some?
    ensures EntrySv(Next(n, e).shard.l2.value) >= EntrySv(n.shard.l2.value)
    ensures n.shard.l2.value.Positive? ==> Next(n, e).shard.l2.value.Positive?
  {
    if e.Exec? {
      assert LoaderSane(n.shard, n.shard.loaders[e.id]);
    }
  }

  /** If the user's entry lives on both sides, its version did not fall and a
      snapshot did not become a marker. */
  predicate EntryOrder(y: System, z: System, u: User) {
    u in y.users && y.users[u].l2.Some? && u in z.users && z.users[u].l2.Some? ==>
      && EntrySv(z.users[u].l2.value) >= EntrySv(y.users[u].l2.value)
      && (y.users[u].l2.value.Positive? ==> z.users[u].l2.value.Positive?)
  }

  predicate EntryLives(y: System, u: User) {
    u in y.users && y.users[u].l2.Some?
  }

  lemma ActionKeepsEntryOrder(y: System, a: Action, u: User)
    requires SystemInv(y) && CanDo(y, a)
    ensures EntryOrder(y, Do(y, a), u)
  {
    if EntryLives(y, u) && EntryLives(Do(y, a), u) && a.At? && a.user == u {
      assert Inv(Node(y.users[u], y.revisions));
      StepKeepsEntryOrder(Node(y.users[u], y.revisions), a.event);
    }
  }

  lemma {:induction false} EntryOrderChains(states: seq<System>, u: User, i: nat, j: nat)
    requires i <= j < |states|
    requires forall k :: i <= k < j ==> EntryOrder(states[k], states[k + 1], u)
    requires forall k :: i <= k <= j ==> EntryLives(states[k], u)
    ensures EntryOrder(states[i], states[j], u)
    decreases j - i
  {
    if i < j {
      EntryOrderChains(states, u, i, j - 1);
      assert EntryOrder(states[j - 1], states[j - 1 + 1], u) && EntryLives(states[j - 1], u);
    }
  }

  lemma RunStepKeepsEntryOrder(states: seq<System>, actions: seq<Action>, u: User, k: nat)
    requires IsRun(states, actions) && k < |actions| && SystemInv(states[k])
    ensures EntryOrder(states[k], states[k + 1], u)
  {
    ActionKeepsEntryOrder(states[k], actions[k], u);
  }

  /** Over any stretch of a run in which a user's entry lives, its version never
      falls and a snapshot never becomes a negative marker. */
  lemma EntryOrderOverRun(states: seq<System>, actions: seq<Action>, u: User, i: nat, j: nat)
    requires IsRun(states, actions) && i <= j < |states|
    requires forall k :: i <= k <= j ==> EntryLives(states[k], u)
    ensures EntryLives(states[i], u) && EntryLives(states[j], u)
    ensures EntrySv(states[j].users[u].l2.value) >= EntrySv(states[i].users[u].l2.value)
    ensures states[i].users[u].l2.value.Positive? ==> states[j].users[u].l2.value.Positive?
  {
    RunKeepsInv(states, actions);
    forall k | i <= k < j ensures EntryOrder(states[k], states[k + 1], u) {
      RunStepKeepsEntryOrder(states, actions, u, k);
    }
    EntryOrderChains(states, u, i, j);
    assert EntryLives(states[i], u) && EntryLives(states[j], u);
  }

  // ---- A marker can be wrong ---------------------------------------------------------------

  lemma ReachableStep(y: System, a: Action)
    requires Reachable(y) && CanDo(y, a)
    ensures Reachable(Do(y, a))
  {
    var states, actions :| IsRun(states, actions) && states[|states| - 1] == y;
    var more := states + [Do(y, a)];
    var done := actions + [a];
    forall i | 0 <= i < |done| ensures CanDo(more[i], done[i]) && more[i + 1] == Do(more[i], done[i]) {
      if i < |actions| { assert CanDo(states[i], actions[i]) && states[i + 1] == Do(states[i], actions[i]); }
    }
    assert IsRun(more, done) && more[|more| - 1] == Do(y, a);
  }

  lemma StepTo(y: System, a: Action) returns (z: System)
    requires Reachable(y) && CanDo(y, a)
    ensures Reachable(z) && z == Do(y, a)
  {
    ReachableStep(y, a);
    z := Do(y, a);
  }

  function OneUser(s: Shard): System {
    System(map[0 := 0], map[0 := s])
  }

  function Cold(db: Row): Shard {
    Shard(db, 0, 0, None, None, map[], {}, map[], map[], 0, RowSv(db))
  }

  lemma ColdIsReachable(db: Row)
    requires db.Present? ==> db.sv >= 1
    ensures Reachable(OneUser(Cold(db)))
  {
    var y0 := System(map[], map[0 := Cold(db)]);
    assert IsRun([y0], []);
    var y1 := StepTo(y0, Join(0));
    assert y1 == OneUser(Cold(db));
  }

  lemma OneUserStep(s: Shard, e: Event, t: Shard)
    requires Reachable(OneUser(s))
    requires Enabled(Node(s, map[0 := 0]), e) && Next(Node(s, map[0 := 0]), e) == Node(t, map[0 := 0])
    ensures Reachable(OneUser(t))
  {
    var z := StepTo(OneUser(s), At(0, e));
    assert z.users == map[0 := t];
  }

  /** The only task under way. */
  function Alone(s: Shard, l: Loader): Shard {
    s.(loaders := map[0 := l])
  }

  /** A step of that task which changes only its own registers. */
  lemma LoneStep(s: Shard, l: Loader, e: Event, m: Loader)
    requires Reachable(OneUser(Alone(s, l)))
    requires Enabled(Node(Alone(s, l), map[0 := 0]), e)
    requires Next(Node(Alone(s, l), map[0 := 0]), e) == Node(Alone(s, l).(loaders := map[0 := l][0 := m]), map[0 := 0])
    ensures Reachable(OneUser(Alone(s, m)))
  {
    assert map[0 := l][0 := m] == map[0 := m];
    OneUserStep(Alone(s, l), e, Alone(s, m));
  }

  /** From fetch to the brink of the commit, when nothing else happens. */
  lemma LoneWatch(s: Shard, l: Loader)
    requires Reachable(OneUser(Alone(s, l))) && l.phase == Fetched && l.epoch == EpochValue(s)
    ensures Reachable(OneUser(Alone(s, l.(phase := EpochRead, dirty := false, seenEpoch := l.epoch))))
  {
    var w := l.(phase := Watching, dirty := false);
    LoneStep(s, l, Watch(0), w);
    LoneStep(s, w, ReadEpoch(0), w.(phase := EpochRead, seenEpoch := l.epoch));
  }

  lemma LoneReady(s: Shard, x: Loader)
    requires Reachable(OneUser(Alone(s, x))) && x.phase == EpochRead && x.process == 0
    requires x.epoch == x.seenEpoch && s.l2.None?
    ensures Reachable(OneUser(Alone(s, x.(phase := Ready, seenEntry := None, revision := 0))))
  {
    var r := x.(phase := EntryRead, seenEntry := None);
    LoneStep(s, x, ReadEntry(0), r);
    LoneStep(s, r, Check(0), r.(phase := Ready, revision := 0));
  }

  function LoneFetched(epoch: int, stamp: nat, row: Row): Loader {
    NewLoader(0, epoch, stamp).(phase := Fetched, row := row)
  }

  lemma LoneLoad(s: Shard)
    requires Reachable(OneUser(s)) && s.epoch.Some? && s.loaders == map[] && s.silent == 0
    ensures Reachable(OneUser(Alone(s, LoneFetched(s.epoch.value, s.invalidations, s.db))))
  {
    var l := NewLoader(0, s.epoch.value, s.invalidations);
    assert map[][0 := l] == map[0 := l];
    OneUserStep(s, Capture(0, 0, false), Alone(s, l));
    LoneStep(s, l, Fetch(0), LoneFetched(s.epoch.value, s.invalidations, s.db));
  }

  lemma LoneCommitNegative(s: Shard, r: Loader)
    requires Reachable(OneUser(Alone(s, r))) && r.phase == Ready && !r.dirty && r.row == Absent && s.loaders == map[]
    requires r.stamp == s.invalidations
    ensures Reachable(OneUser(s.(l2 := Some(Negative(r.stamp, r.seen, false)))))
  {
    assert Soil(map[0 := r]) - {0} == map[];
    OneUserStep(Alone(s, r), Exec(0), s.(l2 := Some(Negative(r.stamp, r.seen, false))));
  }

  /** Creating a user sends no invalidate, so a negative marker can outlive it (until its
      own short TTL). */
  lemma NegativeMarkerCanBeStale(sv: int, data: Data) returns (y: System)
    requires sv >= 1
    ensures Reachable(y) && 0 in y.users && y.users[0].awaiting == 0
    ensures y.users[0].l2 == Some(Negative(0, 0, false)) && y.users[0].db == Present(sv, data)
  {
    var warm := Cold(Absent).(epoch := Some(1));
    ColdIsReachable(Absent);
    FirstSeed();
    LoneLoad(warm);
    var f := LoneFetched(1, 0, Absent);
    LoneWatch(warm, f);
    var x := f.(phase := EpochRead, dirty := false, seenEpoch := 1);
    LoneReady(warm, x);
    LoneCommitNegative(warm, x.(phase := Ready, seenEntry := None, revision := 0));
    var marked := warm.(l2 := Some(Negative(0, 0, false)));
    CreateOver(marked, sv, data);
    y := OneUser(marked.(db := Present(sv, data), silent := 1, top := sv));
  }

  lemma FirstSeed()
    requires Reachable(OneUser(Cold(Absent)))
    ensures Reachable(OneUser(Cold(Absent).(epoch := Some(1))))
  {
    assert Soil(map[]) == map[];
    OneUserStep(Cold(Absent), InitEpoch(1), Cold(Absent).(epoch := Some(1)));
  }

  lemma CreateOver(s: Shard, sv: int, data: Data)
    requires Reachable(OneUser(s)) && s.db.Absent? && sv > s.top
    ensures Reachable(OneUser(s.(db := Present(sv, data), silent := s.silent + 1, top := sv)))
  {
    OneUserStep(s, CreateRow(sv, data), s.(db := Present(sv, data), silent := s.silent + 1, top := sv));
  }
}
