/** The query cost limiter: the budgeted recursion that stops early, against the
    full cost of the document (app/api/graphql.py). The limiter runs before the
    validation that rejects cyclic fragments, so a recursion that does not end until
    Python's frames run out is part of the model: `depth` counts the frames left. */
module GraphQLCost {
  import opened Wrappers

  const COST_PER_FIELD := 1
  const IMPLICIT_LIST_COST := 5
  const MAX_LIST_MULTIPLIER := 100
  const COST_HARD_CAP := 1_000_000
  const LIST_LIMIT_ARGS: seq<string> := ["limit", "first", "page_size", "pageSize", "max_results"]

  type TypeName = string

  datatype TypeRef = Named(name: TypeName) | ListOf(of: TypeRef) | NonNullOf(of: TypeRef)

  /** The field tables of object and interface types; other types have none. */
  type Schema = map<TypeName, map<string, TypeRef>>

  datatype Value = IntLiteral(n: int) | Variable(name: string) | OtherLiteral

  /** A coerced variable: an integer (booleans are not), or anything else. */
  datatype VariableValue = IntValue(n: int) | OtherValue

  datatype Argument = Argument(name: string, value: Value)

  datatype Selection =
    | Field(name: string, args: seq<Argument>, hasSub: bool, sub: seq<Selection>) // `sub` matters if `hasSub`
    | Inline(typed: bool, body: seq<Selection>)
    | Spread(fragment: string)

  type Fragments = map<string, seq<Selection>>

  /** What one request fixes. */
  datatype Context = Context(schema: Schema, variables: map<string, VariableValue>, fragments: Fragments)

  // ---- Fields and arguments ------------------------------------------------------

  function FieldType(schema: Schema, parent: Option<TypeName>, field: string): Option<TypeRef> {
    if parent.Some? && parent.value in schema && field in schema[parent.value]
    then Some(schema[parent.value][field]) else None
  }

  function NamedType(t: TypeRef): TypeName {
    if t.Named? then t.name else NamedType(t.of)
  }

  predicate IsListType(t: TypeRef) {
    if t.NonNullOf? then IsListType(t.of) else t.ListOf?
  }

  /** `_limit_multiplier`: the first paging argument decides; it must be an integer
      literal or variable, and is clamped to 1..100. */
  function LimitMultiplier(args: seq<Argument>, variables: map<string, VariableValue>): (r: Option<nat>)
    ensures r.Some? ==> 1 <= r.value <= MAX_LIST_MULTIPLIER
  {
    if args == [] then None
    else if args[0].name !in LIST_LIMIT_ARGS then LimitMultiplier(args[1..], variables)
    else
      match args[0].value
      case IntLiteral(n) => Some(Clamp(n))
      case Variable(v) => if v in variables && variables[v].IntValue? then Some(Clamp(variables[v].n)) else None
      case OtherLiteral => None
  }

  function Clamp(n: int): nat {
    if n < 1 then 1 else if n > MAX_LIST_MULTIPLIER then MAX_LIST_MULTIPLIER else n
  }

  /** What a field itself is charged, per row of its parent. */
  function OwnCharge(explicit: Option<nat>, t: Option<TypeRef>): nat {
    if explicit.Some? then explicit.value
    else if t.Some? && IsListType(t.value) then IMPLICIT_LIST_COST
    else COST_PER_FIELD
  }

  /** The rows that the field's children are charged for. */
  function ChildRows(explicit: Option<nat>, multiplier: nat): nat {
    if explicit.Some? then Product(multiplier, explicit.value) else multiplier
  }

  function Product(a: nat, b: nat): nat {
    a * b
  }

  // ---- Full cost --------------------------------------------------------------------

  function Plus(a: Option<nat>, b: Option<nat>): Option<nat> {
    if a.Some? && b.Some? then Some(a.value + b.value) else None
  }

  /** The cost of a selection set without any early exit, if it unfolds within `depth`
      frames. A typed fragment hands down an AST node as the parent type, which has no
      field table. */
  function CostWithin(x: Context, parent: Option<TypeName>, sels: seq<Selection>, m: nat, depth: nat): Option<nat>
    decreases depth, |sels|
  {
    if depth == 0 then None
    else if sels == [] then Some(0)
    else Plus(SelectionWithin(x, parent, sels[0], m, depth), CostWithin(x, parent, sels[1..], m, depth))
  }

  function SelectionWithin(x: Context, parent: Option<TypeName>, sel: Selection, m: nat, depth: nat): Option<nat>
    decreases depth, 0
  {
    if depth == 0 then None
    else
      match sel
      case Field(name, args, hasSub, sub) =>
        var t := FieldType(x.schema, parent, name);
        var explicit := LimitMultiplier(args, x.variables);
        Plus(Some(Product(OwnCharge(explicit, t), m)),
             if t.Some? && hasSub
             then CostWithin(x, Some(NamedType(t.value)), sub, ChildRows(explicit, m), depth - 1)
             else Some(0))
      case Inline(typed, body) => CostWithin(x, if typed then None else parent, body, m, depth - 1)
      case Spread(name) => if name in x.fragments then CostWithin(x, None, x.fragments[name], m, depth - 1) else Some(0)
  }

  /** More frames change nothing once the cost unfolds. */
  lemma {:induction false} MoreDepth(x: Context, parent: Option<TypeName>, sels: seq<Selection>, m: nat, depth: nat, more: nat)
    requires depth <= more && CostWithin(x, parent, sels, m, depth).Some?
    ensures CostWithin(x, parent, sels, m, more) == CostWithin(x, parent, sels, m, depth)
    decreases depth, |sels|
  {
    if sels != [] {
      MoreDepthOne(x, parent, sels[0], m, depth, more);
      MoreDepth(x, parent, sels[1..], m, depth, more);
    }
  }

  lemma {:induction false} MoreDepthOne(x: Context, parent: Option<TypeName>, sel: Selection, m: nat, depth: nat, more: nat)
    requires depth <= more && SelectionWithin(x, parent, sel, m, depth).Some?
    ensures SelectionWithin(x, parent, sel, m, more) == SelectionWithin(x, parent, sel, m, depth)
    decreases depth, 0
  {
    match sel
    case Field(name, args, hasSub, sub) =>
      var t := FieldType(x.schema, parent, name);
      if t.Some? && hasSub {
        MoreDepth(x, Some(NamedType(t.value)), sub, ChildRows(LimitMultiplier(args, x.variables), m), depth - 1, more - 1);
      }
    case Inline(typed, body) => MoreDepth(x, if typed then None else parent, body, m, depth - 1, more - 1);
    case Spread(name) =>
      if name in x.fragments { MoreDepth(x, None, x.fragments[name], m, depth - 1, more - 1); }
  }

  /** However deep it is unfolded, the cost is not within the budget. */
  ghost predicate Over(x: Context, parent: Option<TypeName>, sels: seq<Selection>, m: nat, budget: nat) {
    forall depth :: CostWithin(x, parent, sels, m, depth).Some? ==> CostWithin(x, parent, sels, m, depth).value > budget
  }

  ghost predicate OverOne(x: Context, parent: Option<TypeName>, sel: Selection, m: nat, budget: nat) {
    forall depth :: SelectionWithin(x, parent, sel, m, depth).Some? ==> SelectionWithin(x, parent, sel, m, depth).value > budget
  }

  /** What an early exit may make of a full cost: exact within the budget, over it if the
      full cost is, and out of frames only if the full cost is. */
  predicate Judged(full: Option<nat>, total: Option<nat>, budget: nat) {
    if full.None? then total.None? || total.value > budget
    else total.Some? && if full.value <= budget then total == full else total.value > budget
  }

  // ---- The budgeted recursion ----------------------------------------------------------

  /** The selections before the i-th cost `spent`, at every depth. */
  ghost predicate Spent(x: Context, parent: Option<TypeName>, sels: seq<Selection>, m: nat, i: nat, spent: nat)
    requires i <= |sels|
  {
    forall depth :: SpentAt(x, parent, sels, m, i, spent, depth)
  }

  predicate SpentAt(x: Context, parent: Option<TypeName>, sels: seq<Selection>, m: nat, i: nat, spent: nat, depth: nat)
    requires i <= |sels|
  {
    CostWithin(x, parent, sels, m, depth).Some? ==>
      CostWithin(x, parent, sels, m, depth) == Plus(Some(spent), CostWithin(x, parent, sels[i..], m, depth))
  }

  /** A selection that unfolds at one depth costs the same at every depth. */
  lemma SpendOne(x: Context, parent: Option<TypeName>, sels: seq<Selection>, m: nat, i: nat, spent: nat, depth: nat)
    requires i < |sels| && Spent(x, parent, sels, m, i, spent)
    requires SelectionWithin(x, parent, sels[i], m, depth).Some?
    ensures Spent(x, parent, sels, m, i + 1, spent + SelectionWithin(x, parent, sels[i], m, depth).value)
  {
    var next: nat, sum: nat := i + 1, spent + SelectionWithin(x, parent, sels[i], m, depth).value;
    forall d: nat ensures SpentAt(x, parent, sels, m, next, sum, d) {
      assert SpentAt(x, parent, sels, m, i, spent, d);
      if CostWithin(x, parent, sels, m, d).Some? {
        assert sels[i..][0] == sels[i] && sels[i..][1..] == sels[i + 1..];
        if d <= depth {
          MoreDepthOne(x, parent, sels[i], m, d, depth);
        } else {
          MoreDepthOne(x, parent, sels[i], m, depth, d);
        }
      }
    }
  }

  lemma SpentOver(x: Context, parent: Option<TypeName>, sels: seq<Selection>, m: nat, i: nat, spent: nat, budget: nat)
    requires i <= |sels| && Spent(x, parent, sels, m, i, spent) && spent > budget
    ensures Over(x, parent, sels, m, budget)
  {
    forall d: nat | CostWithin(x, parent, sels, m, d).Some? ensures CostWithin(x, parent, sels, m, d).value > budget {
      assert SpentAt(x, parent, sels, m, i, spent, d);
    }
  }

  lemma OneOver(x: Context, parent: Option<TypeName>, sels: seq<Selection>, m: nat, i: nat, spent: nat, budget: nat)
    requires i < |sels| && Spent(x, parent, sels, m, i, spent) && OverOne(x, parent, sels[i], m, budget)
    ensures Over(x, parent, sels, m, budget)
  {
    forall d: nat | CostWithin(x, parent, sels, m, d).Some? ensures CostWithin(x, parent, sels, m, d).value > budget {
      assert SpentAt(x, parent, sels, m, i, spent, d);
      assert sels[i..][0] == sels[i];
      assert SelectionWithin(x, parent, sels[i], m, d).Some?;
    }
  }

  /** `_selection_cost` with `depth` frames left; None is a RecursionError. */
  method BudgetedCost(x: Context, parent: Option<TypeName>, sels: seq<Selection>, multiplier: nat, budget: nat, depth: nat)
    returns (total: Option<nat>)
    ensures Judged(CostWithin(x, parent, sels, multiplier, depth), total, budget)
    ensures total.Some? && total.value > budget ==> Over(x, parent, sels, multiplier, budget)
    decreases depth, 1
  {
    if depth == 0 {
      return None;
    }
    var spent: nat := 0;
    var i := 0;
    assert sels[0..] == sels;
    while i < |sels|
      invariant 0 <= i <= |sels| && spent <= budget
      invariant Spent(x, parent, sels, multiplier, i, spent)
      invariant CostWithin(x, parent, sels, multiplier, depth)
        == Plus(Some(spent), CostWithin(x, parent, sels[i..], multiplier, depth))
    {
      assert sels[i..][0] == sels[i] && sels[i..][1..] == sels[i + 1..];
      var cost := BudgetedSelection(x, parent, sels[i], multiplier, budget, depth);
      if cost.None? {
        return None;
      }
      if cost.value > budget {
        OneOver(x, parent, sels, multiplier, i, spent, budget);
        return Some(spent + cost.value);
      }
      SpendOne(x, parent, sels, multiplier, i, spent, depth);
      spent := spent + cost.value;
      i := i + 1;
      if spent > budget {
        SpentOver(x, parent, sels, multiplier, i, spent, budget);
        return Some(spent);
      }
    }
    total := Some(spent);
  }

  method BudgetedSelection(x: Context, parent: Option<TypeName>, sel: Selection, multiplier: nat, budget: nat, depth: nat)
    returns (cost: Option<nat>)
    requires depth > 0
    ensures Judged(SelectionWithin(x, parent, sel, multiplier, depth), cost, budget)
    ensures cost.Some? && cost.value > budget ==> OverOne(x, parent, sel, multiplier, budget)
    decreases depth, 0
  {
    match sel
    case Field(name, args, hasSub, sub) =>
      var t := FieldType(x.schema, parent, name);
      var explicit := LimitMultiplier(args, x.variables);
      var own := Product(OwnCharge(explicit, t), multiplier);
      var inner := Some(0);
      if t.Some? && hasSub {
        inner := BudgetedCost(x, Some(NamedType(t.value)), sub, ChildRows(explicit, multiplier), budget, depth - 1);
      }
      cost := Plus(Some(own), inner);
      if cost.Some? && cost.value > budget && inner.value <= budget {
        FieldOver(x, parent, sel, multiplier, budget, depth);
      }
    case Inline(typed, body) =>
      cost := BudgetedCost(x, if typed then None else parent, body, multiplier, budget, depth - 1);
    case Spread(name) =>
      cost := Some(0);
      if name in x.fragments {
        cost := BudgetedCost(x, None, x.fragments[name], multiplier, budget, depth - 1);
      }
  }

  /** A cost over the budget at one depth is over it at all. */
  lemma FieldOver(x: Context, parent: Option<TypeName>, sel: Selection, m: nat, budget: nat, depth: nat)
    requires SelectionWithin(x, parent, sel, m, depth).Some? && SelectionWithin(x, parent, sel, m, depth).value > budget
    ensures OverOne(x, parent, sel, m, budget)
  {
    forall d: nat | SelectionWithin(x, parent, sel, m, d).Some? ensures SelectionWithin(x, parent, sel, m, d).value > budget {
      if d <= depth {
        MoreDepthOne(x, parent, sel, m, d, depth);
      } else {
        MoreDepthOne(x, parent, sel, m, depth, d);
      }
    }
  }

  // ---- Documents -----------------------------------------------------------------------

  datatype OperationKind = Query | Mutation | Subscription

  datatype Definition =
    | Operation(kind: OperationKind, sels: Option<seq<Selection>>)
    | FragmentDefinition(name: string, body: seq<Selection>)
    | OtherDefinition

  datatype Request = Request(
    schema: Schema, roots: map<OperationKind, TypeName>, variables: map<string, VariableValue>,
    document: Option<seq<Definition>>)

  /** Later definitions of a name win, as in a dict comprehension. */
  function FragmentsOf(defs: seq<Definition>): Fragments {
    if defs == [] then map[]
    else
      var before := FragmentsOf(defs[..|defs| - 1]);
      var last := defs[|defs| - 1];
      if last.FragmentDefinition? then before[last.name := last.body] else before
  }

  function ContextOf(r: Request, defs: seq<Definition>): Context {
    Context(r.schema, r.variables, FragmentsOf(defs))
  }

  predicate Counts(roots: map<OperationKind, TypeName>, d: Definition) {
    d.Operation? && d.kind in roots && d.sels.Some?
  }

  function DefinitionWithin(roots: map<OperationKind, TypeName>, x: Context, d: Definition, depth: nat): Option<nat> {
    if Counts(roots, d) then CostWithin(x, Some(roots[d.kind]), d.sels.value, 1, depth) else Some(0)
  }

  function DefinitionsWithin(roots: map<OperationKind, TypeName>, x: Context, defs: seq<Definition>, depth: nat): Option<nat> {
    if defs == [] then Some(0)
    else Plus(DefinitionWithin(roots, x, defs[0], depth), DefinitionsWithin(roots, x, defs[1..], depth))
  }

  /** The full cost of the whole document, the sum over all its operations, if it
      unfolds within `depth` frames. */
  function DocumentWithin(r: Request, depth: nat): Option<nat> {
    if r.document.None? then Some(0)
    else DefinitionsWithin(r.roots, ContextOf(r, r.document.value), r.document.value, depth)
  }

  ghost predicate DocumentOver(r: Request, budget: nat) {
    forall depth :: DocumentWithin(r, depth).Some? ==> DocumentWithin(r, depth).value > budget
  }

  lemma {:induction false} MoreDepthAll(roots: map<OperationKind, TypeName>, x: Context, defs: seq<Definition>, depth: nat, more: nat)
    requires depth <= more && DefinitionsWithin(roots, x, defs, depth).Some?
    ensures DefinitionsWithin(roots, x, defs, more) == DefinitionsWithin(roots, x, defs, depth)
    decreases |defs|
  {
    if defs != [] {
      if Counts(roots, defs[0]) {
        MoreDepth(x, Some(roots[defs[0].kind]), defs[0].sels.value, 1, depth, more);
      }
      MoreDepthAll(roots, x, defs[1..], depth, more);
    }
  }

  /** The definitions from i on add `total` to what is still to come, at every depth. */
  ghost predicate Added(roots: map<OperationKind, TypeName>, x: Context, defs: seq<Definition>, i: nat, total: nat)
    requires i <= |defs|
  {
    forall depth :: AddedAt(roots, x, defs, i, total, depth)
  }

  predicate AddedAt(roots: map<OperationKind, TypeName>, x: Context, defs: seq<Definition>, i: nat, total: nat, depth: nat)
    requires i <= |defs|
  {
    DefinitionsWithin(roots, x, defs, depth).Some? ==>
      DefinitionsWithin(roots, x, defs, depth) == Plus(Some(total), DefinitionsWithin(roots, x, defs[i..], depth))
  }

  lemma AddOne(roots: map<OperationKind, TypeName>, x: Context, defs: seq<Definition>, i: nat, total: nat, depth: nat)
    requires i < |defs| && Added(roots, x, defs, i, total) && DefinitionWithin(roots, x, defs[i], depth).Some?
    ensures Added(roots, x, defs, i + 1, total + DefinitionWithin(roots, x, defs[i], depth).value)
  {
    var next: nat, sum: nat := i + 1, total + DefinitionWithin(roots, x, defs[i], depth).value;
    forall d: nat ensures AddedAt(roots, x, defs, next, sum, d) {
      assert AddedAt(roots, x, defs, i, total, d);
      if DefinitionsWithin(roots, x, defs, d).Some? {
        assert defs[i..][0] == defs[i] && defs[i..][1..] == defs[i + 1..];
        if Counts(roots, defs[i]) {
          MoreDepth(x, Some(roots[defs[i].kind]), defs[i].sels.value, 1,
                    if d <= depth then d else depth, if d <= depth then depth else d);
        }
      }
    }
  }

  ghost predicate AllOver(roots: map<OperationKind, TypeName>, x: Context, defs: seq<Definition>, budget: nat) {
    forall depth :: DefinitionsWithin(roots, x, defs, depth).Some? ==> DefinitionsWithin(roots, x, defs, depth).value > budget
  }

  lemma AddedOver(roots: map<OperationKind, TypeName>, x: Context, defs: seq<Definition>, i: nat, total: nat, budget: nat)
    requires i <= |defs| && Added(roots, x, defs, i, total)
    requires total > budget || (i < |defs| && Counts(roots, defs[i]) && Over(x, Some(roots[defs[i].kind]), defs[i].sels.value, 1, budget))
    ensures AllOver(roots, x, defs, budget)
  {
    forall d: nat | DefinitionsWithin(roots, x, defs, d).Some? ensures DefinitionsWithin(roots, x, defs, d).value > budget {
      assert AddedAt(roots, x, defs, i, total, d);
      if total <= budget {
        assert defs[i..][0] == defs[i];
        assert CostWithin(x, Some(roots[defs[i].kind]), defs[i].sels.value, 1, d).Some?;
      }
    }
  }

  /** The loop of `_query_cost` over the definitions. */
  method BudgetedDefinitions(roots: map<OperationKind, TypeName>, x: Context, defs: seq<Definition>, budget: nat, depth: nat)
    returns (r: Option<nat>)
    ensures Judged(DefinitionsWithin(roots, x, defs, depth), r, budget)
    ensures r.Some? && r.value > budget ==> AllOver(roots, x, defs, budget)
  {
    var total: nat := 0;
    var i := 0;
    assert defs[0..] == defs;
    while i < |defs|
      invariant 0 <= i <= |defs| && total <= budget
      invariant Added(roots, x, defs, i, total)
      invariant DefinitionsWithin(roots, x, defs, depth) == Plus(Some(total), DefinitionsWithin(roots, x, defs[i..], depth))
    {
      assert defs[i..][0] == defs[i] && defs[i..][1..] == defs[i + 1..];
      var part := Some(0);
      if Counts(roots, defs[i]) {
        part := BudgetedCost(x, Some(roots[defs[i].kind]), defs[i].sels.value, 1, budget, depth);
        if part.None? {
          return None;
        }
        if part.value > budget {
          AddedOver(roots, x, defs, i, total, budget);
          return Some(total + part.value);
        }
      }
      AddOne(roots, x, defs, i, total, depth);
      total := total + part.value;
      i := i + 1;
      if total > budget {
        AddedOver(roots, x, defs, i, total, budget);
        return Some(total);
      }
    }
    r := Some(total);
  }

  /** `_query_cost`, for any document, cyclic fragments included. */
  method QueryCost(r: Request, budget: nat, depth: nat) returns (cost: Option<nat>)
    ensures cost.Some? ==> cost.value <= COST_HARD_CAP
    ensures cost.None? ==> DocumentWithin(r, depth).None?
    ensures cost.Some? && cost.value <= budget && cost.value < COST_HARD_CAP ==> DocumentWithin(r, depth) == cost
    ensures cost.Some? && cost.value > budget ==> DocumentOver(r, budget)
    ensures DocumentWithin(r, depth).Some? && DocumentWithin(r, depth).value > budget ==>
      cost.Some? && (cost.value > budget || cost.value == COST_HARD_CAP)
  {
    if r.document.None? {
      return Some(0);
    }
    var total := BudgetedDefinitions(r.roots, ContextOf(r, r.document.value), r.document.value, budget, depth);
    if total.None? {
      return None;
    }
    cost := Some(if total.value < COST_HARD_CAP then total.value else COST_HARD_CAP);
  }

  datatype Verdict = Passed | Refusal | RecursionError

  /** `QueryCostLimiter.on_validate`: for a document that unfolds within the frames left
      the verdict is that of its full cost, below the hard cap; from the cap on nothing
      is ever refused. Any refusal is right at every depth, and passing one of the other
      documents is impossible below the cap. */
  method Refused(r: Request, limit: int, depth: nat) returns (v: Verdict)
    ensures DocumentWithin(r, depth).Some? ==>
      v == if 0 < limit < COST_HARD_CAP && DocumentWithin(r, depth).value > limit then Refusal else Passed
    ensures v.Refusal? ==> 0 < limit < COST_HARD_CAP && DocumentOver(r, limit)
    ensures v.RecursionError? ==> limit > 0 && DocumentWithin(r, depth).None?
    ensures v.Passed? && 0 < limit < COST_HARD_CAP ==> DocumentWithin(r, depth).Some?
  {
    if limit <= 0 {
      return Passed;
    }
    var cost := QueryCost(r, limit, depth);
    if cost.None? {
      return RecursionError;
    }
    v := if cost.value > limit then Refusal else Passed;
  }

  // ---- When a document unfolds ---------------------------------------------------------------

  /** Every fragment that the recursion enters from these selections has a rank below the
      bound. It enters the selections of a field only if the field's type is known, so
      nothing below a field of a typed fragment. */
  ghost predicate EntersBelow(x: Context, parent: Option<TypeName>, rank: map<string, nat>, bound: nat, sels: seq<Selection>)
    decreases sels
  {
    forall i :: 0 <= i < |sels| ==> EnterBelow(x, parent, rank, bound, sels[i])
  }

  ghost predicate EnterBelow(x: Context, parent: Option<TypeName>, rank: map<string, nat>, bound: nat, sel: Selection)
    decreases sel
  {
    match sel
    case Field(name, args, hasSub, sub) =>
      var t := FieldType(x.schema, parent, name);
      t.Some? && hasSub ==> EntersBelow(x, Some(NamedType(t.value)), rank, bound, sub)
    case Inline(typed, body) => EntersBelow(x, if typed then None else parent, rank, bound, body)
    case Spread(name) => name in x.fragments ==> name in rank && rank[name] < bound
  }

  /** The ranked fragments only enter fragments of lower rank: no cycle among them. */
  ghost predicate Ranked(x: Context, rank: map<string, nat>) {
    forall name :: name in rank && name in x.fragments ==> EntersBelow(x, None, rank, rank[name], x.fragments[name])
  }

  /** Nothing the recursion enters from these selections lies on a cycle: the fragments
      can be ranked so that each enters lower ones only. */
  ghost predicate EntersNoCycle(x: Context, parent: Option<TypeName>, sels: seq<Selection>) {
    exists rank, bound: nat :: Ranked(x, rank) && EntersBelow(x, parent, rank, bound, sels)
  }

  function Max(a: nat, b: nat): nat {
    if a < b then b else a
  }

  lemma {:induction false} RankedUnfolds(x: Context, parent: Option<TypeName>, sels: seq<Selection>, m: nat, rank: map<string, nat>, bound: nat)
    returns (depth: nat)
    requires Ranked(x, rank) && EntersBelow(x, parent, rank, bound, sels)
    ensures CostWithin(x, parent, sels, m, depth).Some?
    decreases bound, sels
  {
    depth := 1;
    if sels != [] {
      assert EnterBelow(x, parent, rank, bound, sels[0]);
      var one := RankedUnfoldsOne(x, parent, sels[0], m, rank, bound);
      var rest := RankedUnfolds(x, parent, sels[1..], m, rank, bound);
      depth := Max(one, rest);
      MoreDepthOne(x, parent, sels[0], m, one, depth);
      MoreDepth(x, parent, sels[1..], m, rest, depth);
    }
  }

  lemma {:induction false} RankedUnfoldsOne(x: Context, parent: Option<TypeName>, sel: Selection, m: nat, rank: map<string, nat>, bound: nat)
    returns (depth: nat)
    requires Ranked(x, rank) && EnterBelow(x, parent, rank, bound, sel)
    ensures SelectionWithin(x, parent, sel, m, depth).Some?
    decreases bound, sel
  {
    depth := 1;
    match sel
    case Field(name, args, hasSub, sub) =>
      var t := FieldType(x.schema, parent, name);
      if t.Some? && hasSub {
        var inner := RankedUnfolds(x, Some(NamedType(t.value)), sub, ChildRows(LimitMultiplier(args, x.variables), m), rank, bound);
        depth := inner + 1;
      }
    case Inline(typed, body) =>
      var inner := RankedUnfolds(x, if typed then None else parent, body, m, rank, bound);
      depth := inner + 1;
    case Spread(name) =>
      if name in x.fragments {
        var inner := RankedUnfolds(x, None, x.fragments[name], m, rank, rank[name]);
        depth := inner + 1;
      }
  }

  /** The least depth at which a fragment unfolds. */
  ghost function LeastDepth(x: Context, name: string, depth: nat): (least: nat)
    requires name in x.fragments && CostWithin(x, None, x.fragments[name], 1, depth).Some?
    ensures CostWithin(x, None, x.fragments[name], 1, least).Some? && least <= depth
    ensures forall d: nat :: CostWithin(x, None, x.fragments[name], 1, d).Some? ==> least <= d
    decreases depth
  {
    if CostWithin(x, None, x.fragments[name], 1, depth - 1).Some? then LeastDepth(x, name, depth - 1)
    else NoLessDepth(x, name, depth); depth
  }

  lemma NoLessDepth(x: Context, name: string, depth: nat)
    requires depth > 0 && name in x.fragments && CostWithin(x, None, x.fragments[name], 1, depth - 1).None?
    ensures forall d: nat :: CostWithin(x, None, x.fragments[name], 1, d).Some? ==> depth <= d
  {
    forall d: nat | CostWithin(x, None, x.fragments[name], 1, d).Some? ensures depth <= d {
      if d < depth {
        MoreDepth(x, None, x.fragments[name], 1, d, depth - 1);
      }
    }
  }

  /** Fragments that unfold within `depth`, ranked by how deep they need. */
  ghost function DepthRank(x: Context, depth: nat): map<string, nat> {
    map name | name in x.fragments && CostWithin(x, None, x.fragments[name], 1, depth).Some? :: LeastDepth(x, name, depth)
  }

  lemma {:induction false} UnfoldedEntersBelow(x: Context, parent: Option<TypeName>, sels: seq<Selection>, m: nat, d: nat, depth: nat)
    requires d <= depth && CostWithin(x, parent, sels, m, d).Some?
    ensures EntersBelow(x, parent, DepthRank(x, depth), d, sels)
    decreases d, |sels|
  {
    if sels != [] {
      UnfoldedEnterBelow(x, parent, sels[0], m, d, depth);
      UnfoldedEntersBelow(x, parent, sels[1..], m, d, depth);
      forall i | 0 <= i < |sels| ensures EnterBelow(x, parent, DepthRank(x, depth), d, sels[i]) {
        if i > 0 { assert sels[i] == sels[1..][i - 1]; }
      }
    }
  }

  lemma {:induction false} BelowMore(x: Context, parent: Option<TypeName>, rank: map<string, nat>, bound: nat, more: nat, sels: seq<Selection>)
    requires bound <= more && EntersBelow(x, parent, rank, bound, sels)
    ensures EntersBelow(x, parent, rank, more, sels)
    decreases sels
  {
    forall i | 0 <= i < |sels| ensures EnterBelow(x, parent, rank, more, sels[i]) {
      assert EnterBelow(x, parent, rank, bound, sels[i]);
      match sels[i]
      case Field(name, args, hasSub, sub) =>
        var t := FieldType(x.schema, parent, name);
        if t.Some? && hasSub { BelowMore(x, Some(NamedType(t.value)), rank, bound, more, sub); }
      case Inline(typed, body) => BelowMore(x, if typed then None else parent, rank, bound, more, body);
      case Spread(name) =>
    }
  }

  lemma {:induction false} UnfoldedEnterBelow(x: Context, parent: Option<TypeName>, sel: Selection, m: nat, d: nat, depth: nat)
    requires d <= depth && SelectionWithin(x, parent, sel, m, d).Some?
    ensures EnterBelow(x, parent, DepthRank(x, depth), d, sel)
    decreases d, 0
  {
    match sel
    case Field(name, args, hasSub, sub) =>
      var t := FieldType(x.schema, parent, name);
      if t.Some? && hasSub {
        var named := Some(NamedType(t.value));
        UnfoldedEntersBelow(x, named, sub, ChildRows(LimitMultiplier(args, x.variables), m), d - 1, depth);
        BelowMore(x, named, DepthRank(x, depth), d - 1, d, sub);
      }
    case Inline(typed, body) =>
      UnfoldedEntersBelow(x, if typed then None else parent, body, m, d - 1, depth);
      BelowMore(x, if typed then None else parent, DepthRank(x, depth), d - 1, d, body);
    case Spread(name) =>
      if name in x.fragments {
        CostIsLinear(x, None, x.fragments[name], m, d - 1);
        MoreDepth(x, None, x.fragments[name], 1, d - 1, depth);
        assert name in DepthRank(x, depth);
      }
  }

  lemma DepthRankIsRanked(x: Context, depth: nat)
    ensures Ranked(x, DepthRank(x, depth))
  {
    var rank := DepthRank(x, depth);
    forall name | name in rank && name in x.fragments ensures EntersBelow(x, None, rank, rank[name], x.fragments[name]) {
      UnfoldedEntersBelow(x, None, x.fragments[name], 1, rank[name], depth);
    }
  }

  /** A selection set has a full cost at some depth exactly if nothing the recursion enters
      from it lies on a cycle. */
  lemma UnfoldsIffNoCycle(x: Context, parent: Option<TypeName>, sels: seq<Selection>, m: nat)
    ensures (exists depth: nat :: CostWithin(x, parent, sels, m, depth).Some?) <==> EntersNoCycle(x, parent, sels)
  {
    forall depth: nat | CostWithin(x, parent, sels, m, depth).Some? ensures EntersNoCycle(x, parent, sels) {
      UnfoldedEntersBelow(x, parent, sels, m, depth, depth);
      DepthRankIsRanked(x, depth);
    }
    if EntersNoCycle(x, parent, sels) {
      var rank, bound: nat :| Ranked(x, rank) && EntersBelow(x, parent, rank, bound, sels);
      var depth := RankedUnfolds(x, parent, sels, m, rank, bound);
    }
  }

  /** A document has one full cost, the same at every depth from some depth on, exactly if
      nothing entered from its operations lies on a cycle. */
  lemma DocumentUnfoldsIffNoCycle(r: Request)
    ensures (exists depth: nat :: DocumentWithin(r, depth).Some?) <==> DocumentEntersNoCycle(r)
    ensures forall d: nat, e: nat :: d <= e && DocumentWithin(r, d).Some? ==> DocumentWithin(r, e) == DocumentWithin(r, d)
  {
    if r.document.None? {
      assert DocumentWithin(r, 0).Some?;
    } else {
      var defs := r.document.value;
      var x := ContextOf(r, defs);
      forall d: nat, e: nat | d <= e && DocumentWithin(r, d).Some? ensures DocumentWithin(r, e) == DocumentWithin(r, d) {
        MoreDepthAll(r.roots, x, defs, d, e);
      }
      forall depth: nat | DocumentWithin(r, depth).Some? ensures DocumentEntersNoCycle(r) {
        UnfoldedDefinitions(r.roots, x, defs, depth);
      }
      if DocumentEntersNoCycle(r) {
        var depth := DefinitionsUnfold(r.roots, x, defs);
        assert DocumentWithin(r, depth).Some?;
      }
    }
  }

  ghost predicate DefinitionsEnterNoCycle(roots: map<OperationKind, TypeName>, x: Context, defs: seq<Definition>) {
    forall i :: 0 <= i < |defs| && Counts(roots, defs[i]) ==> EntersNoCycle(x, Some(roots[defs[i].kind]), defs[i].sels.value)
  }

  ghost predicate DocumentEntersNoCycle(r: Request) {
    r.document.Some? ==> DefinitionsEnterNoCycle(r.roots, ContextOf(r, r.document.value), r.document.value)
  }

  lemma {:induction false} UnfoldedDefinitions(roots: map<OperationKind, TypeName>, x: Context, defs: seq<Definition>, depth: nat)
    requires DefinitionsWithin(roots, x, defs, depth).Some?
    ensures DefinitionsEnterNoCycle(roots, x, defs)
    decreases |defs|
  {
    if defs != [] {
      UnfoldedDefinitions(roots, x, defs[1..], depth);
      forall i | 0 <= i < |defs| && Counts(roots, defs[i])
        ensures EntersNoCycle(x, Some(roots[defs[i].kind]), defs[i].sels.value)
      {
        if i == 0 {
          UnfoldsIffNoCycle(x, Some(roots[defs[0].kind]), defs[0].sels.value, 1);
          assert CostWithin(x, Some(roots[defs[0].kind]), defs[0].sels.value, 1, depth).Some?;
        } else {
          assert defs[i] == defs[1..][i - 1];
        }
      }
    }
  }

  lemma {:induction false} DefinitionsUnfold(roots: map<OperationKind, TypeName>, x: Context, defs: seq<Definition>)
    returns (depth: nat)
    requires DefinitionsEnterNoCycle(roots, x, defs)
    ensures DefinitionsWithin(roots, x, defs, depth).Some?
    decreases |defs|
  {
    depth := 0;
    if defs != [] {
      forall i | 0 <= i < |defs[1..]| && Counts(roots, defs[1..][i])
        ensures EntersNoCycle(x, Some(roots[defs[1..][i].kind]), defs[1..][i].sels.value)
      {
        assert defs[1..][i] == defs[i + 1];
      }
      var rest := DefinitionsUnfold(roots, x, defs[1..]);
      depth := rest;
      if Counts(roots, defs[0]) {
        UnfoldsIffNoCycle(x, Some(roots[defs[0].kind]), defs[0].sels.value, 1);
        var one: nat :| CostWithin(x, Some(roots[defs[0].kind]), defs[0].sels.value, 1, one).Some?;
        depth := Max(one, rest);
        MoreDepth(x, Some(roots[defs[0].kind]), defs[0].sels.value, 1, one, depth);
      }
      MoreDepthAll(roots, x, defs[1..], rest, depth);
    }
  }

  // ---- Documents that validation would accept --------------------------------------------------

  /** Every known fragment spread anywhere inside has a rank below the bound. */
  ghost predicate SpreadsBelow(f: Fragments, rank: map<string, nat>, bound: nat, sels: seq<Selection>)
    decreases sels
  {
    forall i :: 0 <= i < |sels| ==> SpreadBelow(f, rank, bound, sels[i])
  }

  ghost predicate SpreadBelow(f: Fragments, rank: map<string, nat>, bound: nat, sel: Selection)
    decreases sel
  {
    match sel
    case Field(_, _, hasSub, sub) => SpreadsBelow(f, rank, bound, sub)
    case Inline(_, body) => SpreadsBelow(f, rank, bound, body)
    case Spread(name) => name in f ==> name in rank && rank[name] < bound
  }

  /** No fragment spreads itself, directly or through others. */
  ghost predicate AcyclicFragments(f: Fragments) {
    exists rank :: SpreadsFall(f, rank)
  }

  ghost predicate SpreadsFall(f: Fragments, rank: map<string, nat>) {
    forall name :: name in f ==> name in rank && rank[name] < |f| && SpreadsBelow(f, rank, rank[name], f[name])
  }

  lemma {:induction false} SpreadsAreEntered(x: Context, parent: Option<TypeName>, rank: map<string, nat>, bound: nat, sels: seq<Selection>)
    requires SpreadsBelow(x.fragments, rank, bound, sels)
    ensures EntersBelow(x, parent, rank, bound, sels)
    decreases sels
  {
    forall i | 0 <= i < |sels| ensures EnterBelow(x, parent, rank, bound, sels[i]) {
      assert SpreadBelow(x.fragments, rank, bound, sels[i]);
      match sels[i]
      case Field(name, args, hasSub, sub) =>
        var t := FieldType(x.schema, parent, name);
        if t.Some? && hasSub { SpreadsAreEntered(x, Some(NamedType(t.value)), rank, bound, sub); }
      case Inline(typed, body) => SpreadsAreEntered(x, if typed then None else parent, rank, bound, body);
      case Spread(name) =>
    }
  }

  lemma {:induction false} AllSpreadsBelowTop(f: Fragments, rank: map<string, nat>, sels: seq<Selection>)
    requires SpreadsFall(f, rank)
    ensures SpreadsBelow(f, rank, |f|, sels)
    decreases sels
  {
    forall i | 0 <= i < |sels| ensures SpreadBelow(f, rank, |f|, sels[i]) {
      match sels[i]
      case Field(_, _, hasSub, sub) => AllSpreadsBelowTop(f, rank, sub);
      case Inline(_, body) => AllSpreadsBelowTop(f, rank, body);
      case Spread(name) =>
    }
  }

  /** So a document whose fragments have no cycle at all has a full cost. */
  lemma AcyclicDocumentUnfolds(r: Request)
    requires r.document.Some? ==> AcyclicFragments(FragmentsOf(r.document.value))
    ensures exists depth: nat :: DocumentWithin(r, depth).Some?
  {
    if r.document.Some? {
      var defs := r.document.value;
      var x := ContextOf(r, defs);
      var rank :| SpreadsFall(x.fragments, rank);
      forall i | 0 <= i < |defs| && Counts(r.roots, defs[i])
        ensures EntersNoCycle(x, Some(r.roots[defs[i].kind]), defs[i].sels.value)
      {
        AllSpreadsBelowTop(x.fragments, rank, defs[i].sels.value);
        SpreadsAreEntered(x, Some(r.roots[defs[i].kind]), rank, |x.fragments|, defs[i].sels.value);
        RankedFragments(x, rank);
      }
    }
    DocumentUnfoldsIffNoCycle(r);
  }

  lemma RankedFragments(x: Context, rank: map<string, nat>)
    requires SpreadsFall(x.fragments, rank)
    ensures Ranked(x, rank)
  {
    forall name | name in rank && name in x.fragments ensures EntersBelow(x, None, rank, rank[name], x.fragments[name]) {
      SpreadsAreEntered(x, None, rank, rank[name], x.fragments[name]);
    }
  }

  /** A fragment that spreads itself never unfolds: only an early exit ends its recursion. */
  lemma {:induction false} SelfSpreadNeverUnfolds(x: Context, parent: Option<TypeName>, sels: seq<Selection>, m: nat, name: string, depth: nat)
    requires Spread(name) in sels && name in x.fragments && Spread(name) in x.fragments[name]
    ensures CostWithin(x, parent, sels, m, depth).None?
    decreases depth
  {
    if depth > 0 {
      var i :| 0 <= i < |sels| && sels[i] == Spread(name);
      PullOut(x, parent, sels, i, m, depth);
      SelfSpreadNeverUnfolds(x, None, x.fragments[name], m, name, depth - 1);
    }
  }

  // ---- Order ---------------------------------------------------------------------------------

  function Removed<T>(s: seq<T>, i: nat): seq<T>
    requires i < |s|
  {
    s[..i] + s[i + 1..]
  }

  /** The same selections in another order, at every level below. */
  ghost predicate Reordered(a: seq<Selection>, b: seq<Selection>)
    decreases a
  {
    |a| == |b| &&
    (a != [] ==> exists i :: 0 <= i < |b| && SameBut(a[0], b[i]) && Reordered(a[1..], Removed(b, i)))
  }

  ghost predicate SameBut(s: Selection, t: Selection)
    decreases s
  {
    match s
    case Field(name, args, hasSub, sub) =>
      t.Field? && t.name == name && t.args == args && t.hasSub == hasSub && (hasSub ==> Reordered(sub, t.sub))
    case Inline(typed, body) => t.Inline? && t.typed == typed && Reordered(body, t.body)
    case Spread(name) => s == t
  }

  ghost predicate SameContext(x: Context, y: Context) {
    && x.schema == y.schema && x.variables == y.variables && x.fragments.Keys == y.fragments.Keys
    && forall name :: name in x.fragments ==> Reordered(x.fragments[name], y.fragments[name])
  }

  lemma {:induction false} PullOut(x: Context, parent: Option<TypeName>, b: seq<Selection>, i: nat, m: nat, depth: nat)
    requires i < |b| && depth > 0
    ensures CostWithin(x, parent, b, m, depth)
      == Plus(SelectionWithin(x, parent, b[i], m, depth), CostWithin(x, parent, Removed(b, i), m, depth))
    decreases i
  {
    if i == 0 {
      assert Removed(b, 0) == b[1..];
    } else {
      PullOut(x, parent, b[1..], i - 1, m, depth);
      assert Removed(b, i)[0] == b[0] && Removed(b, i)[1..] == Removed(b[1..], i - 1);
    }
  }

  /** Reordering selections at any levels, in operations and fragments, keeps the cost. */
  lemma {:induction false} ReorderingKeepsCost(x: Context, y: Context, parent: Option<TypeName>, a: seq<Selection>, b: seq<Selection>, m: nat, depth: nat)
    requires SameContext(x, y) && Reordered(a, b)
    ensures CostWithin(x, parent, a, m, depth) == CostWithin(y, parent, b, m, depth)
    decreases depth, |a|
  {
    if depth > 0 && a != [] {
      var i :| 0 <= i < |b| && SameBut(a[0], b[i]) && Reordered(a[1..], Removed(b, i));
      ReorderingKeepsOne(x, y, parent, a[0], b[i], m, depth);
      ReorderingKeepsCost(x, y, parent, a[1..], Removed(b, i), m, depth);
      PullOut(y, parent, b, i, m, depth);
    }
  }

  lemma {:induction false} ReorderingKeepsOne(x: Context, y: Context, parent: Option<TypeName>, s: Selection, t: Selection, m: nat, depth: nat)
    requires SameContext(x, y) && SameBut(s, t) && depth > 0
    ensures SelectionWithin(x, parent, s, m, depth) == SelectionWithin(y, parent, t, m, depth)
    decreases depth, 0
  {
    match s
    case Field(name, args, hasSub, sub) =>
      var ft := FieldType(x.schema, parent, name);
      if ft.Some? && hasSub {
        ReorderingKeepsCost(x, y, Some(NamedType(ft.value)), sub, t.sub, ChildRows(LimitMultiplier(args, x.variables), m), depth - 1);
      }
    case Inline(typed, body) => ReorderingKeepsCost(x, y, if typed then None else parent, body, t.body, m, depth - 1);
    case Spread(name) =>
      if name in x.fragments { ReorderingKeepsCost(x, y, None, x.fragments[name], y.fragments[name], m, depth - 1); }
  }

  ghost predicate SameButDefinition(d: Definition, e: Definition) {
    match d
    case Operation(kind, sels) =>
      e.Operation? && e.kind == kind && (sels.Some? <==> e.sels.Some?) && (sels.Some? ==> Reordered(sels.value, e.sels.value))
    case FragmentDefinition(name, body) => e.FragmentDefinition? && e.name == name && Reordered(body, e.body)
    case OtherDefinition => e.OtherDefinition?
  }

  /** The same definitions in another order, each reordered inside. */
  ghost predicate ReorderedDocument(a: seq<Definition>, b: seq<Definition>)
    decreases |a|
  {
    |a| == |b| &&
    (a != [] ==> exists i :: 0 <= i < |b| && SameButDefinition(a[0], b[i]) && ReorderedDocument(a[1..], Removed(b, i)))
  }

  lemma {:induction false} PullOutDefinition(roots: map<OperationKind, TypeName>, x: Context, b: seq<Definition>, i: nat, depth: nat)
    requires i < |b|
    ensures DefinitionsWithin(roots, x, b, depth)
      == Plus(DefinitionWithin(roots, x, b[i], depth), DefinitionsWithin(roots, x, Removed(b, i), depth))
    decreases i
  {
    if i == 0 {
      assert Removed(b, 0) == b[1..];
    } else {
      PullOutDefinition(roots, x, b[1..], i - 1, depth);
      assert Removed(b, i)[0] == b[0] && Removed(b, i)[1..] == Removed(b[1..], i - 1);
    }
  }

  lemma {:induction false} ReorderingKeepsDefinitions(
    roots: map<OperationKind, TypeName>, x: Context, y: Context, a: seq<Definition>, b: seq<Definition>, depth: nat)
    requires SameContext(x, y) && ReorderedDocument(a, b)
    ensures DefinitionsWithin(roots, x, a, depth) == DefinitionsWithin(roots, y, b, depth)
    decreases |a|
  {
    if a != [] {
      var i :| 0 <= i < |b| && SameButDefinition(a[0], b[i]) && ReorderedDocument(a[1..], Removed(b, i));
      if Counts(roots, a[0]) {
        ReorderingKeepsCost(x, y, Some(roots[a[0].kind]), a[0].sels.value, b[i].sels.value, 1, depth);
      }
      ReorderingKeepsDefinitions(roots, x, y, a[1..], Removed(b, i), depth);
      PullOutDefinition(roots, y, b, i, depth);
    }
  }

  ghost predicate DistinctFragmentNames(defs: seq<Definition>) {
    forall i, j :: 0 <= i < j < |defs| && defs[i].FragmentDefinition? && defs[j].FragmentDefinition? ==> defs[i].name != defs[j].name
  }

  /** With distinct names the fragment table is the set of definitions. */
  lemma {:induction false} FragmentsByMembership(defs: seq<Definition>, name: string)
    requires DistinctFragmentNames(defs)
    ensures name in FragmentsOf(defs) <==> exists body :: FragmentDefinition(name, body) in defs
    ensures name in FragmentsOf(defs) ==> FragmentDefinition(name, FragmentsOf(defs)[name]) in defs
    decreases |defs|
  {
    if defs != [] {
      var k := |defs| - 1;
      var before, last := defs[..k], defs[k];
      FragmentsByMembership(before, name);
      assert defs == before + [last];
      if last.FragmentDefinition? && last.name == name {
        assert FragmentDefinition(name, last.body) in defs;
      } else if exists body :: FragmentDefinition(name, body) in defs {
        var body :| FragmentDefinition(name, body) in defs;
        assert FragmentDefinition(name, body) in before;
      }
    }
  }

  lemma OneBodyPerName(defs: seq<Definition>, name: string, b1: seq<Selection>, b2: seq<Selection>)
    requires DistinctFragmentNames(defs)
    requires FragmentDefinition(name, b1) in defs && FragmentDefinition(name, b2) in defs
    ensures b1 == b2
  {
  }

  /** Each definition has its counterpart. */
  lemma {:induction false} Counterpart(a: seq<Definition>, b: seq<Definition>, d: Definition) returns (e: Definition)
    requires ReorderedDocument(a, b) && d in a
    ensures e in b && SameButDefinition(d, e)
    decreases |a|
  {
    var i :| 0 <= i < |b| && SameButDefinition(a[0], b[i]) && ReorderedDocument(a[1..], Removed(b, i));
    if d == a[0] {
      e := b[i];
    } else {
      e := Counterpart(a[1..], Removed(b, i), d);
    }
  }

  lemma {:induction false} CounterpartBack(a: seq<Definition>, b: seq<Definition>, e: Definition) returns (d: Definition)
    requires ReorderedDocument(a, b) && e in b
    ensures d in a && SameButDefinition(d, e)
    decreases |a|
  {
    var i :| 0 <= i < |b| && SameButDefinition(a[0], b[i]) && ReorderedDocument(a[1..], Removed(b, i));
    if e == b[i] {
      d := a[0];
    } else {
      d := CounterpartBack(a[1..], Removed(b, i), e);
    }
  }

  lemma ReorderedFragments(a: seq<Definition>, b: seq<Definition>)
    requires DistinctFragmentNames(a) && DistinctFragmentNames(b) && ReorderedDocument(a, b)
    ensures FragmentsOf(a).Keys == FragmentsOf(b).Keys
    ensures forall name :: name in FragmentsOf(a) ==> Reordered(FragmentsOf(a)[name], FragmentsOf(b)[name])
  {
    var f, g := FragmentsOf(a), FragmentsOf(b);
    forall name | name in f ensures name in g && Reordered(f[name], g[name]) {
      FragmentsByMembership(a, name);
      FragmentsByMembership(b, name);
      var e := Counterpart(a, b, FragmentDefinition(name, f[name]));
      assert e == FragmentDefinition(name, e.body);
      OneBodyPerName(b, name, e.body, g[name]);
    }
    forall name | name in g ensures name in f {
      FragmentsByMembership(a, name);
      FragmentsByMembership(b, name);
      var d := CounterpartBack(a, b, FragmentDefinition(name, g[name]));
      assert d == FragmentDefinition(name, d.body);
    }
  }

  /** The cost of a document, and with it the verdict, does not depend on the order of its
      definitions or of the selections in any selection set, whatever the depth. */
  lemma DocumentOrderIrrelevant(r: Request, a: seq<Definition>, b: seq<Definition>, depth: nat)
    requires DistinctFragmentNames(a) && DistinctFragmentNames(b) && ReorderedDocument(a, b)
    ensures DocumentWithin(r.(document := Some(a)), depth) == DocumentWithin(r.(document := Some(b)), depth)
  {
    ReorderedFragments(a, b);
    ReorderingKeepsDefinitions(r.roots, ContextOf(r, a), ContextOf(r, b), a, b, depth);
  }

  // ---- Typed fragments ----------------------------------------------------------------------------

  /** A typed fragment never costs more than its selections in place: its fields are
      charged as leaves and nothing below them is charged. */
  lemma {:induction false} TypedFragmentCostsNoMore(x: Context, parent: Option<TypeName>, sels: seq<Selection>, m: nat, depth: nat)
    requires CostWithin(x, parent, sels, m, depth).Some?
    ensures CostWithin(x, None, sels, m, depth).Some?
    ensures CostWithin(x, None, sels, m, depth).value <= CostWithin(x, parent, sels, m, depth).value
    decreases depth, |sels|
  {
    if sels != [] {
      match sels[0] {
        case Field(name, args, hasSub, sub) =>
          var explicit := LimitMultiplier(args, x.variables);
          ProductMonotone(OwnCharge(explicit, None), OwnCharge(explicit, FieldType(x.schema, parent, name)), m);
        case Inline(typed, body) => if !typed { TypedFragmentCostsNoMore(x, parent, body, m, depth - 1); }
        case Spread(name) =>
      }
      TypedFragmentCostsNoMore(x, parent, sels[1..], m, depth);
    }
  }

  lemma ProductMonotone(a: nat, b: nat, m: nat)
    requires a <= b
    ensures Product(a, m) <= Product(b, m)
  {
  }

  function Times(m: nat, cost: Option<nat>): Option<nat> {
    if cost.Some? then Some(Product(m, cost.value)) else None
  }

  /** Cost is linear in the multiplier: n rows cost n times one row. */
  lemma {:induction false} CostIsLinear(x: Context, parent: Option<TypeName>, sels: seq<Selection>, m: nat, depth: nat)
    ensures CostWithin(x, parent, sels, m, depth) == Times(m, CostWithin(x, parent, sels, 1, depth))
    decreases depth, |sels|, 0
  {
    if depth > 0 && sels != [] {
      OneCostIsLinear(x, parent, sels[0], m, depth);
      CostIsLinear(x, parent, sels[1..], m, depth);
      DistributeTimes(m, SelectionWithin(x, parent, sels[0], 1, depth), CostWithin(x, parent, sels[1..], 1, depth));
    }
  }

  lemma {:induction false} OneCostIsLinear(x: Context, parent: Option<TypeName>, sel: Selection, m: nat, depth: nat)
    ensures SelectionWithin(x, parent, sel, m, depth) == Times(m, SelectionWithin(x, parent, sel, 1, depth))
    decreases depth, 0, 1
  {
    if depth > 0 {
      match sel {
        case Field(name, args, hasSub, sub) => FieldIsLinear(x, parent, sel, m, depth);
        case Inline(typed, body) => CostIsLinear(x, if typed then None else parent, body, m, depth - 1);
        case Spread(name) =>
          if name in x.fragments { CostIsLinear(x, None, x.fragments[name], m, depth - 1); }
      }
    }
  }

  lemma {:induction false} FieldIsLinear(x: Context, parent: Option<TypeName>, sel: Selection, m: nat, depth: nat)
    requires sel.Field? && depth > 0
    ensures SelectionWithin(x, parent, sel, m, depth) == Times(m, SelectionWithin(x, parent, sel, 1, depth))
    decreases depth, 0, 0
  {
    var t := FieldType(x.schema, parent, sel.name);
    var explicit := LimitMultiplier(sel.args, x.variables);
    var own := OwnCharge(explicit, t);
    if t.Some? && sel.hasSub {
      var named := Some(NamedType(t.value));
      CostIsLinear(x, named, sel.sub, ChildRows(explicit, m), depth - 1);
      CostIsLinear(x, named, sel.sub, ChildRows(explicit, 1), depth - 1);
      var one := CostWithin(x, named, sel.sub, 1, depth - 1);
      if one.Some? {
        Regroup(m, own, if explicit.Some? then explicit.value else 1, one.value);
      }
    } else {
      Regroup(m, own, 1, 0);
    }
  }

  lemma DistributeTimes(m: nat, a: Option<nat>, b: Option<nat>)
    ensures Plus(Times(m, a), Times(m, b)) == Times(m, Plus(a, b))
  {
    if a.Some? && b.Some? {
      assert m * a.value + m * b.value == m * (a.value + b.value);
    }
  }

  lemma Regroup(m: nat, own: nat, rows: nat, one: nat)
    ensures Product(own, m) + Product(Product(m, rows), one) == Product(m, Product(own, 1) + Product(Product(1, rows), one))
    ensures Product(m, 1) == m && Product(1, 1) == 1
  {
    var b := rows * one;
    assert (m * rows) * one == m * b;
    assert m * (own + b) == m * own + m * b;
  }
}
