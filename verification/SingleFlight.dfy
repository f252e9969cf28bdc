/** Per-key merging of concurrent loads inside one process (core/singleflight.py).
    Both critical sections of `run` hold the guard lock without awaiting, so the
    lock is never contended and each section is one step; a caller may leave its
    `await` at any time, by result, by exception or by cancellation. */
module SingleFlight {
  type Key = string
  type FlightId = nat
  type Caller = nat

  /** `done` is the state of the loader task; `notified` says its done-callback ran. */
  datatype Flight = Flight(key: Key, refs: int, done: bool, notified: bool)

  /** The flight objects, the table `_flights`, and who is inside `run` for which flight. */
  datatype State = State(flights: map<FlightId, Flight>, table: map<Key, FlightId>, callers: map<Caller, FlightId>)

  datatype Step =
    | Enter(caller: Caller, key: Key, unused: FlightId)
    | Leave(caller: Caller)
    | TaskDone(flight: FlightId)
    | Notify(flight: FlightId)

  predicate Enabled(s: State, a: Step) {
    match a
    case Enter(c, k, unused) => c !in s.callers && unused !in s.flights && (k in s.table ==> s.table[k] in s.flights)
    case Leave(c) => c in s.callers && s.callers[c] in s.flights
    case TaskDone(f) => f in s.flights && !s.flights[f].done
    case Notify(f) => f in s.flights && s.flights[f].done && !s.flights[f].notified
  }

  /** Drop the table entry of flight f, if the key still belongs to f. */
  function Forget(table: map<Key, FlightId>, k: Key, f: FlightId): map<Key, FlightId> {
    if k in table && table[k] == f then table - {k} else table
  }

  function AfterEnter(s: State, c: Caller, k: Key, unused: FlightId): State
    requires Enabled(s, Enter(c, k, unused))
  {
    var f := if k in s.table then s.table[k] else unused;
    var flight := if k in s.table then s.flights[f] else Flight(k, 0, false, false);
    State(s.flights[f := flight.(refs := flight.refs + 1)], s.table[k := f], s.callers[c := f])
  }

  function AfterLeave(s: State, c: Caller): State
    requires Enabled(s, Leave(c))
  {
    var f := s.callers[c];
    var flight := s.flights[f].(refs := s.flights[f].refs - 1);
    State(s.flights[f := flight],
          if flight.refs <= 0 && flight.done then Forget(s.table, flight.key, f) else s.table,
          s.callers - {c})
  }

  function AfterNotify(s: State, f: FlightId): State
    requires Enabled(s, Notify(f))
  {
    var flight := s.flights[f];
    s.(flights := s.flights[f := flight.(notified := true)],
       table := if flight.refs <= 0 then Forget(s.table, flight.key, f) else s.table)
  }

  function Next(s: State, a: Step): State
    requires Enabled(s, a)
  {
    match a
    case Enter(c, k, unused) => AfterEnter(s, c, k, unused)
    case Leave(c) => AfterLeave(s, c)
    case TaskDone(f) => s.(flights := s.flights[f := s.flights[f].(done := true)])
    case Notify(f) => AfterNotify(s, f)
  }

  // ---- The module as code ------------------------------------------------------------

  class Flights {
    var flights: map<FlightId, Flight>
    var table: map<Key, FlightId>
    var callers: map<Caller, FlightId>

    function Now(): State
      reads this
    {
      State(flights, table, callers)
    }

    constructor ()
      ensures Now() == State(map[], map[], map[])
    {
      flights, table, callers := map[], map[], map[];
    }

    /** The first critical section of `run`. */
    method EnterRun(c: Caller, k: Key, unused: FlightId) returns (f: FlightId, leader: bool)
      requires Enabled(Now(), Enter(c, k, unused))
      modifies this
      ensures Now() == Next(old(Now()), Enter(c, k, unused))
      ensures f == callers[c] && (leader <==> k !in old(table))
    {
      leader := k !in table;
      if leader {
        f := unused;
        flights := flights[f := Flight(k, 0, false, false)];
        table := table[k := f];
      } else {
        f := table[k];
      }
      flights := flights[f := flights[f].(refs := flights[f].refs + 1)];
      callers := callers[c := f];
      assert leader ==> flights == old(flights)[f := Flight(k, 1, false, false)];
      assert !leader ==> table == old(table)[k := f];
    }

    /** The `finally` section of `run`. */
    method LeaveRun(c: Caller)
      requires Enabled(Now(), Leave(c))
      modifies this
      ensures Now() == Next(old(Now()), Leave(c))
    {
      var f := callers[c];
      flights := flights[f := flights[f].(refs := flights[f].refs - 1)];
      callers := callers - {c};
      var flight := flights[f];
      if flight.refs <= 0 && flight.done && flight.key in table && table[flight.key] == f {
        table := table - {flight.key};
      }
    }

    /** `_on_task_done` */
    method OnTaskDone(f: FlightId)
      requires Enabled(Now(), Notify(f))
      modifies this
      ensures Now() == Next(old(Now()), Notify(f))
    {
      flights := flights[f := flights[f].(notified := true)];
      if flights[f].refs <= 0 && flights[f].key in table && table[flights[f].key] == f {
        table := table - {flights[f].key};
      }
    }
  }

  // ---- Invariant ------------------------------------------------------------------------

  function Inside(callers: map<Caller, FlightId>, f: FlightId): set<Caller> {
    set c | c in callers && callers[c] == f
  }

  /** The count is exact; an unfinished flight, and one with callers, is in the table;
      a flight without callers is in the table only while its callback is due. */
  predicate FlightOk(s: State, f: FlightId, x: Flight) {
    && x.refs == |Inside(s.callers, f)|
    && (!x.done || x.refs > 0 ==> x.key in s.table && s.table[x.key] == f)
    && (x.key in s.table && s.table[x.key] == f && x.refs == 0 ==> !x.notified)
    && (x.notified ==> x.done)
  }

  ghost predicate Inv(s: State) {
    && (forall f :: f in s.flights ==> FlightOk(s, f, s.flights[f]))
    && (forall k :: k in s.table ==> s.table[k] in s.flights && s.flights[s.table[k]].key == k)
    && (forall c :: c in s.callers ==> s.callers[c] in s.flights)
  }

  lemma InsideAdd(callers: map<Caller, FlightId>, c: Caller, f: FlightId, g: FlightId)
    requires c !in callers
    ensures |Inside(callers[c := f], g)| == |Inside(callers, g)| + (if g == f then 1 else 0)
  {
    if g == f {
      assert Inside(callers[c := f], g) == Inside(callers, g) + {c};
    } else {
      assert Inside(callers[c := f], g) == Inside(callers, g);
    }
  }

  lemma InsideRemove(callers: map<Caller, FlightId>, c: Caller, g: FlightId)
    requires c in callers
    ensures |Inside(callers - {c}, g)| == |Inside(callers, g)| - (if callers[c] == g then 1 else 0)
  {
    if callers[c] == g {
      assert Inside(callers - {c}, g) == Inside(callers, g) - {c};
    } else {
      assert Inside(callers - {c}, g) == Inside(callers, g);
    }
  }

  lemma InsideNobody(s: State, f: FlightId)
    requires Inv(s) && f !in s.flights
    ensures Inside(s.callers, f) == {}
  {
  }

  lemma EnterKeepsInv(s: State, c: Caller, k: Key, unused: FlightId)
    requires Inv(s) && Enabled(s, Enter(c, k, unused))
    ensures Inv(AfterEnter(s, c, k, unused))
  {
    var t := AfterEnter(s, c, k, unused);
    InsideNobody(s, unused);
    forall g | g in t.flights ensures FlightOk(t, g, t.flights[g]) {
      InsideAdd(s.callers, c, t.callers[c], g);
      if g in s.flights { assert FlightOk(s, g, s.flights[g]); }
    }
  }

  lemma LeaveKeepsInv(s: State, c: Caller)
    requires Inv(s) && Enabled(s, Leave(c))
    ensures Inv(AfterLeave(s, c))
  {
    var t := AfterLeave(s, c);
    forall g | g in t.flights ensures FlightOk(t, g, t.flights[g]) {
      InsideRemove(s.callers, c, g);
      assert FlightOk(s, g, s.flights[g]);
    }
  }

  lemma StepKeepsInv(s: State, a: Step)
    requires Inv(s) && Enabled(s, a)
    ensures Inv(Next(s, a))
  {
    match a
    case Enter(c, k, unused) => EnterKeepsInv(s, c, k, unused);
    case Leave(c) => LeaveKeepsInv(s, c);
    case TaskDone(f) => assert FlightOk(s, f, s.flights[f]);
    case Notify(f) => assert FlightOk(s, f, s.flights[f]);
  }

  ghost predicate IsRun(states: seq<State>, steps: seq<Step>) {
    && |states| == |steps| + 1 && states[0] == State(map[], map[], map[])
    && forall i :: 0 <= i < |steps| ==> Enabled(states[i], steps[i]) && states[i + 1] == Next(states[i], steps[i])
  }

  ghost predicate RunTo(states: seq<State>, steps: seq<Step>, s: State) {
    IsRun(states, steps) && states[|states| - 1] == s
  }

  ghost predicate Reachable(s: State) {
    exists states, steps :: RunTo(states, steps, s)
  }

  lemma {:induction false} RunKeepsInv(states: seq<State>, steps: seq<Step>)
    requires IsRun(states, steps)
    ensures Inv(states[|states| - 1])
    decreases |steps|
  {
    if steps != [] {
      var k := |steps| - 1;
      RunKeepsInv(states[..k + 1], steps[..k]);
      assert states[..k + 1][k] == states[k];
      assert Enabled(states[k], steps[k]) && states[k + 1] == Next(states[k], steps[k]);
      StepKeepsInv(states[k], steps[k]);
    }
  }

  lemma ReachableInv(s: State)
    requires Reachable(s)
    ensures Inv(s)
  {
    var states, steps :| RunTo(states, steps, s);
    RunKeepsInv(states, steps);
  }

  // ---- What merging promises ---------------------------------------------------------------

  /** The reference count is the number of callers inside `run` for the flight, in
      every interleaving. */
  lemma RefsCountCallers(s: State, f: FlightId)
    requires Reachable(s) && f in s.flights
    ensures s.flights[f].refs == |Inside(s.callers, f)|
  {
    ReachableInv(s);
    assert FlightOk(s, f, s.flights[f]);
  }

  /** At most one unfinished loader per key, and all callers of a key share a flight. */
  lemma OneLoaderPerKey(s: State, f: FlightId, g: FlightId)
    requires Reachable(s) && f in s.flights && g in s.flights && s.flights[f].key == s.flights[g].key
    requires !s.flights[f].done || Inside(s.callers, f) != {}
    requires !s.flights[g].done || Inside(s.callers, g) != {}
    ensures f == g
  {
    ReachableInv(s);
    assert FlightOk(s, f, s.flights[f]) && FlightOk(s, g, s.flights[g]);
  }

  /** A late callback, and a late leaver, never remove a newer flight of the key, nor
      any flight that is still loading or awaited. */
  lemma OnlyOwnIdleFlightForgotten(s: State, a: Step, k: Key)
    requires Reachable(s) && Enabled(s, a) && k in s.table && k !in Next(s, a).table
    ensures a.Notify? || a.Leave?
    ensures s.table[k] == if a.Notify? then a.flight else s.callers[a.caller]
    ensures var f := s.table[k];
      f in s.flights && s.flights[f].done && Inside(Next(s, a).callers, f) == {}
  {
    ReachableInv(s);
    StepKeepsInv(s, a);
    var f := s.table[k];
    assert FlightOk(s, f, s.flights[f]);
    assert FlightOk(Next(s, a), f, Next(s, a).flights[f]);
  }

  /** Once every caller has left, every loader is done and every callback has run, the
      table is empty. */
  lemma QuiescentTableIsEmpty(s: State)
    requires Reachable(s) && s.callers == map[]
    requires forall f :: f in s.flights ==> s.flights[f].notified
    ensures s.table == map[]
  {
    ReachableInv(s);
    assert forall f :: f in s.flights ==> FlightOk(s, f, s.flights[f]) && Inside(s.callers, f) == {};
  }
}
