/** Filling the whitelist: the keyset-paged backfill on a quiet table, and the same
    backfill page by page between account creations, deletions, other backfills and
    the expiry of the mark (auth/bloom_seed.py, auth/service_auth.py). */
module BloomSeeding {
  import opened Wrappers
  import opened BloomWhitelist

  predicate Ascending(ids: seq<Key>) {
    forall i, j :: 0 <= i < j < |ids| ==> ids[i] < ids[j]
  }

  /** `User.id > cursor`, with no filter on the first page */
  predicate Past(cursor: Option<Key>, id: Key) {
    cursor.None? || cursor.value < id
  }

  // ---- A quiet table -----------------------------------------------------------------------

  /** The rows after the cursor, in the order of the primary key. */
  function After(table: seq<Key>, cursor: Option<Key>): seq<Key> {
    if table == [] || Past(cursor, table[0]) then table else After(table[1..], cursor)
  }

  function NextPage(table: seq<Key>, cursor: Option<Key>): seq<Key> {
    var rest := After(table, cursor);
    if |rest| <= PAGE then rest else rest[..PAGE]
  }

  lemma {:induction false} AfterAt(table: seq<Key>, i: nat)
    requires Ascending(table) && i < |table|
    ensures After(table, Some(table[i])) == table[i + 1..]
  {
    if i == 0 {
      assert After(table, Some(table[0])) == After(table[1..], Some(table[0]));
    } else {
      assert table[1..][i - 1] == table[i];
      AfterAt(table[1..], i - 1);
      assert table[1..][i..] == table[i + 1..];
    }
  }

  predicate AllIn(p: Params, bits: set<nat>, ids: seq<Key>)
    requires Valid(p)
  {
    forall i :: 0 <= i < |ids| ==> AllSet(p, bits, ids[i])
  }

  lemma AllInGrows(p: Params, bits: set<nat>, more: set<nat>, ids: seq<Key>)
    requires Valid(p) && AllIn(p, bits, ids) && bits <= more
    ensures AllIn(p, more, ids)
  {
  }

  lemma AllInAppends(p: Params, bits: set<nat>, table: seq<Key>, total: nat, n: nat)
    requires Valid(p) && total + n <= |table|
    requires AllIn(p, bits, table[..total]) && AllIn(p, bits, table[total..total + n])
    ensures AllIn(p, bits, table[..total + n])
  {
    assert table[..total + n] == table[..total] + table[total..total + n];
  }

  /** Each page continues where the one before it ended. */
  lemma PageAdvances(table: seq<Key>, cursor: Option<Key>, total: nat)
    requires Ascending(table) && total <= |table| && After(table, cursor) == table[total..]
    ensures var rows := NextPage(table, cursor);
            && total + |rows| <= |table| && rows == table[total..total + |rows|]
            && (|rows| < PAGE ==> total + |rows| == |table|)
            && (rows != [] ==> After(table, Some(rows[|rows| - 1])) == table[total + |rows|..])
  {
    var rows := NextPage(table, cursor);
    if rows != [] {
      assert rows[|rows| - 1] == table[total + |rows| - 1];
      AfterAt(table, total + |rows| - 1);
    }
  }

  /** The paging loop of `backfill_user_ids`; `failing` is the page whose write fails, if
      any. What it counts is a prefix of the table, all of it in the filter; so when the
      count is that of the table, every id was covered, and none twice. */
  method ScanTable(f: Filter, table: seq<Key>, available: bool, failing: Option<nat>)
    returns (total: nat, complete: bool)
    requires Valid(f.p) && Ascending(table)
    modifies f`bits
    ensures old(f.bits) <= f.bits
    ensures total <= |table| && AllIn(f.p, f.bits, table[..total])
    ensures complete ==> total == |table|
    ensures !complete ==> total < |table|
    ensures available && failing.None? ==> complete
  {
    total := 0;
    var cursor: Option<Key> := None;
    var pages := 0;
    var more := true;
    while more
      invariant total <= |table| && After(table, cursor) == table[total..]
      invariant !more ==> total == |table|
      invariant old(f.bits) <= f.bits && AllIn(f.p, f.bits, table[..total])
      decreases |table| - total, more
    {
      var rows := NextPage(table, cursor);
      PageAdvances(table, cursor, total);
      if rows == [] {
        return total, true;
      }
      label BeforeWrite:
      var written := f.AddMany(rows, available, if failing == Some(pages) then Some(0) else None, 0);
      AllInGrows(f.p, old@BeforeWrite(f.bits), f.bits, table[..total]);
      if written != |rows| {
        return total, false;
      }
      AllInAppends(f.p, f.bits, table, total, |rows|);
      total, cursor := total + |rows|, Some(rows[|rows| - 1]);
      pages := pages + 1;
      more := |rows| == PAGE;
    }
    complete := true;
  }

  /** `backfill_user_ids`: the mark is set only after a whole, non-empty table is in. */
  method BackfillUserIds(f: Filter, table: seq<Key>, available: bool, markable: bool, failing: Option<nat>)
    returns (total: nat)
    requires Valid(f.p) && Ascending(table)
    modifies f
    ensures old(f.bits) <= f.bits
    ensures total <= |table| && AllIn(f.p, f.bits, table[..total])
    ensures f.seeded == (old(f.seeded) || (total == |table| && table != [] && markable))
    ensures available && failing.None? ==> total == |table|
  {
    var complete;
    total, complete := ScanTable(f, table, available, failing);
    if !complete || total == 0 {
      return;
    }
    var ok := f.MarkSeeded(markable);
  }

  // ---- Between creations, deletions and other backfills -----------------------------------

  /** One page of `order_by(User.id).limit(_PAGE)`. */
  predicate IsPage(users: set<Key>, cursor: Option<Key>, page: seq<Key>) {
    && Ascending(page) && |page| <= PAGE
    && (forall id :: id in page ==> id in users && Past(cursor, id))
    && (forall id :: id in users && Past(cursor, id) && id !in page ==> |page| == PAGE && page[PAGE - 1] < id)
  }

  lemma PageAfter(table: seq<Key>, n: nat, cursor: Option<Key>)
    requires Ascending(table) && n <= |table|
    requires cursor == if n == 0 then None else Some(table[n - 1])
    ensures var page := NextPage(table, cursor);
            && n + |page| <= |table| && page == table[n..n + |page|]
            && (n + |page| < |table| ==> |page| == PAGE)
  {
    if n > 0 { AfterAt(table, n - 1); }
  }

  /** The page a quiet table yields is such a page. */
  lemma NextPageIsPage(table: seq<Key>, n: nat, cursor: Option<Key>)
    requires Ascending(table) && n <= |table|
    requires cursor == if n == 0 then None else Some(table[n - 1])
    ensures IsPage((set id | id in table), cursor, NextPage(table, cursor))
  {
    var page := NextPage(table, cursor);
    PageAfter(table, n, cursor);
    assert forall i :: 0 <= i < |page| ==> page[i] == table[n + i];
    forall id | id in table && Past(cursor, id) && id !in page
      ensures |page| == PAGE && page[PAGE - 1] < id
    {
      var i :| 0 <= i < |table| && table[i] == id;
      AfterPage(table, n, cursor, page, i);
    }
  }

  /** A row after the cursor that is not on the page lies beyond it. */
  lemma AfterPage(table: seq<Key>, n: nat, cursor: Option<Key>, page: seq<Key>, i: nat)
    requires Ascending(table) && n + |page| <= |table| && page == table[n..n + |page|]
    requires cursor == if n == 0 then None else Some(table[n - 1])
    requires n + |page| < |table| ==> |page| == PAGE
    requires i < |table| && Past(cursor, table[i]) && table[i] !in page
    ensures |page| == PAGE && page[PAGE - 1] < table[i]
  {
    assert forall k :: 0 <= k < |page| ==> page[k] == table[n + k];
    assert n <= i;
    assert forall k :: n <= k < n + |page| ==> table[k] == page[k - n];
    assert n + |page| <= i;
  }

  /** A running backfill: `page` is read but not yet written; `done` once the last page is. */
  datatype Scan = Scan(cursor: Option<Key>, total: nat, page: Option<seq<Key>>, done: bool)

  /** `creating`: accounts whose transaction is open, with what their `bloom.add` returned.
      `owing`: accounts committed before their add, which is still to come; `missed`:
      committed accounts whose add returned False. */
  datatype World = World(p: Params, users: set<Key>, creating: map<Key, bool>, owing: set<Key>, missed: set<Key>,
                         bits: set<nat>, seeded: bool, scans: map<nat, Scan>)

  datatype Action =
    | AddAtCreation(id: Key, ok: bool, strayBits: set<nat>)
    | CommitCreation(id: Key)
    | AbortCreation(id: Key)
    | CommitFirst(id: Key)
    | AddAfterCommit(id: Key, ok: bool, strayBits: set<nat>)
    | DeleteUser(id: Key)
    | StartScan(scan: nat)
    | ReadPage(scan: nat, page: seq<Key>)
    | WritePage(scan: nat, ok: bool, strayBits: set<nat>)
    | FinishScan(scan: nat, markable: bool)
    | ExpireMark

  function PositionSet(p: Params, key: Key): (s: set<nat>)
    requires Valid(p)
    ensures forall bits :: s <= bits ==> AllSet(p, bits, key)
  {
    set i | 0 <= i < p.k :: Position(p, key, i)
  }

  function PagePositions(p: Params, page: seq<Key>): (s: set<nat>)
    requires Valid(p)
    ensures forall id, bits :: id in page && s <= bits ==> AllSet(p, bits, id)
  {
    if page == [] then {} else PositionSet(p, page[0]) + PagePositions(p, page[1..])
  }

  predicate Enabled(w: World, a: Action) {
    match a
    case AddAtCreation(id, _, _) => id !in w.users && id !in w.creating
    case CommitFirst(id) => id !in w.users && id !in w.creating
    case AddAfterCommit(id, _, _) => id in w.owing
    case CommitCreation(id) => id in w.creating
    case AbortCreation(id) => id in w.creating
    case DeleteUser(id) => id in w.users
    case StartScan(s) => s !in w.scans
    case ReadPage(s, page) =>
      s in w.scans && w.scans[s].page.None? && !w.scans[s].done && IsPage(w.users, w.scans[s].cursor, page)
    case WritePage(s, _, _) => s in w.scans && w.scans[s].page.Some?
    case FinishScan(s, _) => s in w.scans && w.scans[s].done
    case ExpireMark => true
  }

  function AfterRead(scan: Scan, page: seq<Key>): Scan {
    if page == [] then scan.(done := true) else scan.(page := Some(page))
  }

  function AfterWrite(scan: Scan): Scan
    requires scan.page.Some?
  {
    var page := scan.page.value;
    if page == [] then scan.(page := None, done := true)
    else Scan(Some(page[|page| - 1]), scan.total + |page|, None, |page| < PAGE)
  }

  function Next(w: World, a: Action): World
    requires Valid(w.p) && Enabled(w, a)
  {
    match a
    case AddAtCreation(id, ok, stray) =>
      w.(bits := w.bits + (if ok then PositionSet(w.p, id) else stray), creating := w.creating[id := ok])
    case CommitCreation(id) =>
      w.(users := w.users + {id}, creating := w.creating - {id},
         missed := if w.creating[id] then w.missed else w.missed + {id})
    case AbortCreation(id) => w.(creating := w.creating - {id})
    case CommitFirst(id) => w.(users := w.users + {id}, owing := w.owing + {id})
    case AddAfterCommit(id, ok, stray) =>
      w.(bits := w.bits + (if ok then PositionSet(w.p, id) else stray), owing := w.owing - {id},
         missed := if ok then w.missed else w.missed + {id})
    case DeleteUser(id) => w.(users := w.users - {id})
    case StartScan(s) => w.(scans := w.scans[s := Scan(None, 0, None, false)])
    case ReadPage(s, page) => w.(scans := w.scans[s := AfterRead(w.scans[s], page)])
    case WritePage(s, ok, stray) =>
      if ok then w.(bits := w.bits + PagePositions(w.p, w.scans[s].page.value),
                    scans := w.scans[s := AfterWrite(w.scans[s])])
      else w.(bits := w.bits + stray, scans := w.scans - {s})
    case FinishScan(s, markable) =>
      w.(seeded := w.seeded || (w.scans[s].total > 0 && markable), scans := w.scans - {s})
    case ExpireMark => w.(seeded := false)
  }

  /** Runs; None when an action was not enabled. */
  function Run(w: World, actions: seq<Action>): Option<World>
    requires Valid(w.p)
    decreases |actions|
  {
    if actions == [] then Some(w)
    else if !Enabled(w, actions[0]) then None
    else Run(Next(w, actions[0]), actions[1..])
  }

  /** Any table of accounts, an empty filter, nothing under way. */
  predicate Start(w: World) {
    Valid(w.p) && w.creating == map[] && w.owing == {} && w.missed == {} && w.bits == {} && !w.seeded && w.scans == map[]
  }

  predicate Covered(w: World, id: Key)
    requires Valid(w.p)
  {
    AllSet(w.p, w.bits, id) || id in w.missed || id in w.owing
  }

  /** Rejected by the gate: `definitely_absent`. */
  predicate Rejected(w: World, id: Key)
    requires Valid(w.p)
  {
    w.seeded && !AllSet(w.p, w.bits, id)
  }

  predicate AllCovered(w: World)
    requires Valid(w.p)
  {
    forall id :: id in w.users ==> Covered(w, id)
  }

  /** What a running backfill has covered, and what its read page still will. */
  predicate ScanOk(w: World, scan: Scan)
    requires Valid(w.p)
  {
    && (scan.done ==> AllCovered(w))
    && (forall id :: id in w.users && !Past(scan.cursor, id) ==> Covered(w, id))
    && (scan.page.Some? ==> PageOk(w, scan.cursor, scan.page.value))
  }

  predicate PageOk(w: World, cursor: Option<Key>, page: seq<Key>)
    requires Valid(w.p)
  {
    && Ascending(page) && |page| <= PAGE
    && (forall id :: id in w.users && Past(cursor, id) ==>
          Covered(w, id) || id in page || (|page| == PAGE && page[PAGE - 1] < id))
  }

  predicate Inv(w: World) {
    && Valid(w.p)
    && (w.seeded ==> AllCovered(w))
    && (forall id :: id in w.creating && w.creating[id] ==> AllSet(w.p, w.bits, id))
    && (forall s :: s in w.scans ==> ScanOk(w, w.scans[s]))
  }

  /** More bits, more misses, no add forgotten, and only covered accounts added: every
      scan stays as good. */
  ghost predicate Grows(w: World, v: World) {
    && Valid(w.p) && v.p == w.p && w.bits <= v.bits && w.missed <= v.missed
    && (forall id :: id in w.owing ==> Covered(v, id))
    && (forall id :: id in v.users && id !in w.users ==> Covered(v, id))
  }

  lemma CoveredGrows(w: World, v: World)
    requires Grows(w, v)
    ensures forall id :: Covered(w, id) ==> Covered(v, id)
    ensures AllCovered(w) ==> AllCovered(v)
  {
  }

  lemma ScanGrows(w: World, v: World, scan: Scan)
    requires Grows(w, v) && ScanOk(w, scan)
    ensures ScanOk(v, scan)
  {
    CoveredGrows(w, v);
  }

  lemma ScansGrow(w: World, v: World, but: set<nat>)
    requires Inv(w) && Grows(w, v)
    requires forall s :: s in v.scans && s !in but ==> s in w.scans && v.scans[s] == w.scans[s]
    ensures forall s :: s in v.scans && s !in but ==> ScanOk(v, v.scans[s])
  {
    forall s | s in v.scans && s !in but ensures ScanOk(v, v.scans[s]) {
      ScanGrows(w, v, w.scans[s]);
    }
  }

  lemma ReadKeepsScan(w: World, scan: Scan, page: seq<Key>)
    requires Valid(w.p) && ScanOk(w, scan) && scan.page.None? && IsPage(w.users, scan.cursor, page)
    ensures ScanOk(w, AfterRead(scan, page))
  {
    assert page == [] ==> forall id :: id !in page;
  }

  /** Writing the read page moves the frontier to its last id, or to the end of the table. */
  lemma WriteKeepsScan(w: World, scan: Scan)
    requires Valid(w.p) && ScanOk(w, scan) && scan.page.Some?
    requires forall id :: id in scan.page.value ==> AllSet(w.p, w.bits, id)
    ensures ScanOk(w, AfterWrite(scan))
  {
    var page := scan.page.value;
    var next := AfterWrite(scan);
    if next.done {
      assert |page| < PAGE;
    }
    if page != [] {
      forall id | id in w.users && !Past(next.cursor, id) ensures Covered(w, id) {
        if Past(scan.cursor, id) {
          assert id <= page[|page| - 1];
        }
      }
    }
  }

  lemma StepKeepsInv(w: World, a: Action)
    requires Inv(w) && Enabled(w, a)
    ensures Inv(Next(w, a))
  {
    var v := Next(w, a);
    assert Grows(w, v) by {
      if a.CommitCreation? { assert w.creating[a.id] ==> AllSet(w.p, w.bits, a.id); }
    }
    match a
    case ReadPage(s, page) =>
      ScansGrow(w, v, {s});
      ReadKeepsScan(w, w.scans[s], page);
      ScanGrows(w, v, v.scans[s]);
    case WritePage(s, ok, _) =>
      CoveredGrows(w, v);
      ScansGrow(w, v, {s});
      ScanGrows(w, v, w.scans[s]);
      if ok { WriteKeepsScan(v, w.scans[s]); }
    case StartScan(s) => ScansGrow(w, v, {s});
    case FinishScan(s, _) =>
      CoveredGrows(w, v);
      ScansGrow(w, v, {});
    case _ =>
      CoveredGrows(w, v);
      ScansGrow(w, v, {});
  }

  lemma {:induction false} RunKeepsInv(w: World, actions: seq<Action>)
    requires Inv(w) && Run(w, actions).Some?
    ensures Inv(Run(w, actions).value)
    decreases |actions|
  {
    if actions != [] {
      StepKeepsInv(w, actions[0]);
      RunKeepsInv(Next(w, actions[0]), actions[1..]);
    }
  }

  predicate NoLostAdd(actions: seq<Action>) {
    forall i :: 0 <= i < |actions| && (actions[i].AddAtCreation? || actions[i].AddAfterCommit?) ==> actions[i].ok
  }

  predicate NothingMissed(w: World) {
    w.missed == {} && forall id :: id in w.creating ==> w.creating[id]
  }

  lemma {:induction false} NoLostAddNoMiss(w: World, actions: seq<Action>)
    requires Valid(w.p) && Run(w, actions).Some? && NoLostAdd(actions) && NothingMissed(w)
    ensures NothingMissed(Run(w, actions).value) && Valid(Run(w, actions).value.p)
    decreases |actions|
  {
    if actions != [] {
      var v := Next(w, actions[0]);
      assert NothingMissed(v);
      NoLostAddNoMiss(v, actions[1..]);
    }
  }

  /** The whitelist rejects only accounts whose own creation-time add failed or, where the
      account is committed first, is still to come; when no add failed it rejects no other
      existing account, whatever backfills ran and were cut short. */
  lemma NoExistingAccountRejected(start: World, actions: seq<Action>)
    requires Start(start) && Run(start, actions).Some?
    ensures Valid(Run(start, actions).value.p)
    ensures forall id :: id in Run(start, actions).value.users && Rejected(Run(start, actions).value, id) ==>
              id in Run(start, actions).value.missed || id in Run(start, actions).value.owing
    ensures NoLostAdd(actions) ==> forall id :: id in Run(start, actions).value.users && Rejected(Run(start, actions).value, id) ==>
              id in Run(start, actions).value.owing
  {
    RunKeepsInv(start, actions);
    if NoLostAdd(actions) {
      NoLostAddNoMiss(start, actions);
    }
  }

  /** The hypothesis is needed, and exact: while the gate is open, an account just
      created is rejected exactly when its add failed and neither the bits set before
      nor the stray bits of the failing pipeline make up its own. */
  lemma CreationRejectedIffAddLost(w: World, id: Key, ok: bool, stray: set<nat>)
    requires Inv(w) && w.seeded && id !in w.users && id !in w.creating
    ensures Run(w, [AddAtCreation(id, ok, stray), CommitCreation(id)]).Some?
    ensures var v := Run(w, [AddAtCreation(id, ok, stray), CommitCreation(id)]).value;
            id in v.users && v.p == w.p && (Rejected(v, id) <==> !ok && !AllSet(w.p, w.bits + stray, id))
  {
    var actions := [AddAtCreation(id, ok, stray), CommitCreation(id)];
    var u := Next(w, actions[0]);
    assert actions[1..] == [CommitCreation(id)];
    assert Run(u, actions[1..]) == Run(Next(u, actions[1]), []);
  }

  /** An account committed before its add is rejected in between exactly if its bits were
      not set before. */
  lemma CommittedFirstRejectedIffUnset(w: World, id: Key)
    requires Inv(w) && w.seeded && id !in w.users && id !in w.creating
    ensures var v := Next(w, CommitFirst(id)); v.p == w.p && (Rejected(v, id) <==> !AllSet(w.p, w.bits, id))
  {
  }
}
