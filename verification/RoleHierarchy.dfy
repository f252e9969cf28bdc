/** Role hierarchy: import-time validation by depth-first search, the closure
    worklist, and cardinality constraints counted over closures
    (core/rbac_roles.py). The known roles and the inheritance table are
    parameters; `Shipped` is the table in the source. */
module RoleHierarchy {
  import opened Ordering

  type Role = string

  /** `known` is KNOWN_ROLES, `inherits` is ROLE_INHERITANCE. The juniors of a
      role come as a sequence: the order a frozenset happens to be iterated in. */
  datatype Hierarchy = Hierarchy(known: set<Role>, inherits: map<Role, seq<Role>>)

  function Juniors(h: Hierarchy, r: Role): seq<Role> {
    if r in h.inherits then h.inherits[r] else []
  }

  predicate Edge(h: Hierarchy, a: Role, b: Role) {
    b in Juniors(h, a)
  }

  /** `role.split(":", 1)[0]` */
  function Level(r: Role): string {
    if r == "" || r[0] == ':' then "" else [r[0]] + Level(r[1..])
  }

  // ---- Paths -------------------------------------------------------------

  ghost predicate IsPath(h: Hierarchy, p: seq<Role>) {
    p != [] && forall i :: 0 <= i < |p| - 1 ==> Edge(h, p[i], p[i + 1])
  }

  ghost predicate PathFromTo(h: Hierarchy, p: seq<Role>, a: Role, b: Role) {
    IsPath(h, p) && p[0] == a && p[|p| - 1] == b
  }

  /** b is a or a (transitive) junior of a. */
  ghost predicate Reaches(h: Hierarchy, a: Role, b: Role) {
    exists p :: PathFromTo(h, p, a, b)
  }

  ghost predicate IsCycle(h: Hierarchy, p: seq<Role>) {
    IsPath(h, p) && |p| >= 2 && p[0] == p[|p| - 1]
  }

  ghost predicate Acyclic(h: Hierarchy) {
    forall p :: !IsCycle(h, p)
  }

  predicate EdgeAllowed(h: Hierarchy, a: Role, b: Role) {
    a in h.known && b in h.known && Level(a) == Level(b)
  }

  ghost predicate EdgesAllowed(h: Hierarchy) {
    forall a, b :: Edge(h, a, b) ==> EdgeAllowed(h, a, b)
  }

  /** What the start-up check is for. */
  ghost predicate WellFormed(h: Hierarchy) {
    EdgesAllowed(h) && Acyclic(h)
  }

  lemma ReachesSelf(h: Hierarchy, a: Role)
    ensures Reaches(h, a, a)
  {
    assert PathFromTo(h, [a], a, a);
  }

  lemma ReachesTransitive(h: Hierarchy, a: Role, b: Role, c: Role)
    requires Reaches(h, a, b) && Reaches(h, b, c)
    ensures Reaches(h, a, c)
  {
    var p :| PathFromTo(h, p, a, b);
    var q :| PathFromTo(h, q, b, c);
    var pq := p + q[1..];
    forall i | 0 <= i < |pq| - 1 ensures Edge(h, pq[i], pq[i + 1]) {
      if i < |p| - 1 {
        assert pq[i] == p[i] && pq[i + 1] == p[i + 1];
      } else {
        var j := i - (|p| - 1);
        assert pq[i] == q[j] && pq[i + 1] == q[j + 1];
      }
    }
    assert PathFromTo(h, pq, a, c);
  }

  lemma ReachesEdge(h: Hierarchy, a: Role, b: Role)
    requires Edge(h, a, b)
    ensures Reaches(h, a, b)
  {
    assert PathFromTo(h, [a, b], a, b);
  }

  /** A set closed under inheritance swallows whatever its members reach. */
  lemma {:induction false} ClosedSetAlongPath(h: Hierarchy, s: set<Role>, p: seq<Role>)
    requires forall a, b :: a in s && Edge(h, a, b) ==> b in s
    requires IsPath(h, p) && p[0] in s
    ensures p[|p| - 1] in s
    decreases |p|
  {
    if |p| > 1 {
      assert Edge(h, p[0], p[1]);
      ClosedSetAlongPath(h, s, p[1..]);
    }
  }

  // ---- Start-up validation ----------------------------------------------

  datatype Verdict = Accepted | Cycle(at: Role) | UnknownRole | CrossesLevels

  /** Roles that have been finished, in finishing order: every junior of a
      finished role finished earlier, over allowed edges. */
  ghost predicate FinishingOrder(h: Hierarchy, order: seq<Role>) {
    forall i, b :: 0 <= i < |order| && Edge(h, order[i], b) ==>
      EdgeAllowed(h, order[i], b) && b in order[..i]
  }

  /** The colouring state of one run of the depth-first search. */
  class HierarchyValidator {
    const h: Hierarchy
    const nodes: set<Role>
    var visiting: set<Role>
    var visited: set<Role>
    ghost var order: seq<Role>

    ghost predicate Valid()
      reads this
    {
      && nodes == Nodes(h)
      && visiting <= nodes
      && visiting !! visited
      && visited == Elements(order)
      && FinishingOrder(h, order)
    }

    constructor (h: Hierarchy)
      ensures Valid() && this.h == h && visiting == {} && visited == {}
    {
      this.h := h;
      nodes := Nodes(h);
      visiting, visited, order := {}, {}, [];
    }

    /** `stack` is the chain of roles being visited, ending just above `role`. */
    method Visit(role: Role, ghost stack: seq<Role>) returns (v: Verdict)
      requires Valid() && role in nodes
      requires IsPath(h, stack + [role]) && visiting == Elements(stack)
      modifies this
      ensures v.Accepted? ==> Valid() && visiting == old(visiting) && role in visited
      ensures v.Accepted? ==> old(visited) <= visited
      ensures !v.Accepted? ==> !WellFormed(h)
      decreases |nodes - visiting|
    {
      if role in visiting {
        CycleFromStack(h, stack, role);
        return Cycle(role);
      }
      if role in visited {
        return Accepted;
      }
      EnterRole(nodes, stack, role);
      visiting := visiting + {role};
      var juniors := Juniors(h, role);
      var i := 0;
      while i < |juniors|
        invariant 0 <= i <= |juniors|
        invariant Valid() && visiting == Elements(stack + [role])
        invariant visiting == old(visiting) + {role}
        invariant old(visited) <= visited
        invariant JuniorsDone(h, role, i, visited)
      {
        var junior := juniors[i];
        assert Edge(h, role, junior);
        BadEdge(h, role, junior);
        if role !in h.known || junior !in h.known {
          return UnknownRole;
        }
        if Level(role) != Level(junior) {
          return CrossesLevels;
        }
        ExtendPath(h, stack + [role], junior);
        JuniorIsNode(h, role, junior);
        v := Visit(junior, stack + [role]);
        if !v.Accepted? {
          return;
        }
        i := i + 1;
      }
      FinishVisit(h, order, role, visited);
      visiting := visiting - {role};
      visited := visited + {role};
      order := order + [role];
      v := Accepted;
    }
  }

  function Nodes(h: Hierarchy): set<Role> {
    h.inherits.Keys + set a, b | a in h.inherits && b in h.inherits[a] :: b
  }

  lemma JuniorIsNode(h: Hierarchy, a: Role, b: Role)
    requires Edge(h, a, b)
    ensures a in Nodes(h) && b in Nodes(h)
  {
  }

  /** The first i juniors are finished, over allowed edges. */
  predicate JuniorsDone(h: Hierarchy, role: Role, i: nat, visited: set<Role>)
    requires i <= |Juniors(h, role)|
  {
    forall j :: 0 <= j < i ==> Juniors(h, role)[j] in visited && EdgeAllowed(h, role, Juniors(h, role)[j])
  }

  lemma FinishVisit(h: Hierarchy, order: seq<Role>, role: Role, visited: set<Role>)
    requires FinishingOrder(h, order) && visited == Elements(order)
    requires JuniorsDone(h, role, |Juniors(h, role)|, visited)
    ensures FinishingOrder(h, order + [role]) && Elements(order + [role]) == visited + {role}
  {
    FinishRole(h, order, role);
  }

  lemma BadEdge(h: Hierarchy, a: Role, b: Role)
    requires Edge(h, a, b)
    ensures !EdgeAllowed(h, a, b) ==> !WellFormed(h)
  {
  }

  lemma EnterRole(nodes: set<Role>, stack: seq<Role>, role: Role)
    requires role in nodes && role !in stack
    ensures Elements(stack + [role]) == Elements(stack) + {role}
    ensures |nodes - (Elements(stack) + {role})| < |nodes - Elements(stack)|
  {
    CardinalityStrict(nodes - (Elements(stack) + {role}), nodes - Elements(stack));
  }

  lemma CardinalityStrict<T>(a: set<T>, b: set<T>)
    requires a < b
    ensures |a| < |b|
  {
    var x :| x in b && x !in a;
    assert a <= b - {x};
    CardinalityMonotone(a, b - {x});
  }

  lemma {:induction false} CardinalityMonotone<T>(a: set<T>, b: set<T>)
    requires a <= b
    ensures |a| <= |b|
    decreases a
  {
    if a != {} {
      var x :| x in a;
      CardinalityMonotone(a - {x}, b - {x});
    }
  }

  lemma ExtendPath(h: Hierarchy, p: seq<Role>, b: Role)
    requires IsPath(h, p) && Edge(h, p[|p| - 1], b)
    ensures IsPath(h, p + [b])
  {
    var q := p + [b];
    forall i | 0 <= i < |q| - 1 ensures Edge(h, q[i], q[i + 1]) {
      if i < |p| - 1 { assert Edge(h, p[i], p[i + 1]); }
    }
  }

  lemma CycleFromStack(h: Hierarchy, stack: seq<Role>, role: Role)
    requires IsPath(h, stack + [role]) && role in stack
    ensures !Acyclic(h)
  {
    var k :| 0 <= k < |stack| && stack[k] == role;
    var p := (stack + [role])[k..];
    forall i | 0 <= i < |p| - 1 ensures Edge(h, p[i], p[i + 1]) {
      assert Edge(h, (stack + [role])[k + i], (stack + [role])[k + i + 1]);
    }
    assert IsCycle(h, p);
  }

  lemma FinishRole(h: Hierarchy, order: seq<Role>, role: Role)
    requires FinishingOrder(h, order)
    requires forall b :: Edge(h, role, b) ==> b in order && EdgeAllowed(h, role, b)
    ensures FinishingOrder(h, order + [role])
  {
    var next := order + [role];
    forall i, b | 0 <= i < |next| && Edge(h, next[i], b)
      ensures EdgeAllowed(h, next[i], b) && b in next[..i]
    {
      if i < |order| {
        assert next[..i] == order[..i];
        assert Edge(h, order[i], b);
      } else {
        assert next[..i] == order;
      }
    }
  }

  /** Along a path of finished roles the finishing position strictly falls. */
  lemma {:induction false} PositionFallsAlongPath(h: Hierarchy, order: seq<Role>, p: seq<Role>, i: nat)
    requires FinishingOrder(h, order) && IsPath(h, p)
    requires i < |order| && order[i] == p[0] && |p| >= 2
    ensures p[|p| - 1] in order[..i]
    decreases |p|
  {
    assert Edge(h, p[0], p[1]);
    assert p[1] in order[..i];
    if |p| > 2 {
      var j :| 0 <= j < i && order[j] == p[1];
      PositionFallsAlongPath(h, order, p[1..], j);
    }
  }

  lemma {:induction false} CycleHasNoPosition(h: Hierarchy, order: seq<Role>, p: seq<Role>, i: nat)
    requires FinishingOrder(h, order) && IsCycle(h, p) && i < |order| && order[i] == p[0]
    ensures false
    decreases i
  {
    PositionFallsAlongPath(h, order, p, i);
    var j :| 0 <= j < i && order[j] == p[0];
    CycleHasNoPosition(h, order, p, j);
  }

  lemma FinishedHierarchyIsWellFormed(h: Hierarchy, order: seq<Role>)
    requires FinishingOrder(h, order) && h.inherits.Keys <= Elements(order)
    ensures WellFormed(h)
  {
    forall a, b | Edge(h, a, b) ensures EdgeAllowed(h, a, b) {
      var i :| 0 <= i < |order| && order[i] == a;
    }
    forall p ensures !IsCycle(h, p) {
      if IsCycle(h, p) {
        assert Edge(h, p[0], p[1]);
        var i :| 0 <= i < |order| && order[i] == p[0];
        CycleHasNoPosition(h, order, p, i);
      }
    }
  }

  /** `_validate_hierarchy`: accepts exactly the well-formed hierarchies, and
      terminates on every table, cyclic ones included. */
  method ValidateHierarchy(h: Hierarchy) returns (v: Verdict)
    ensures v.Accepted? <==> WellFormed(h)
  {
    var validator := new HierarchyValidator(h);
    var rest := h.inherits.Keys;
    while rest != {}
      invariant validator.Valid() && validator.visiting == {} && validator.h == h && fresh(validator)
      invariant rest <= h.inherits.Keys
      invariant h.inherits.Keys - rest <= validator.visited
      decreases rest
    {
      var role :| role in rest;
      assert [] + [role] == [role];
      v := validator.Visit(role, []);
      if !v.Accepted? {
        return;
      }
      rest := rest - {role};
    }
    FinishedHierarchyIsWellFormed(h, validator.order);
    v := Accepted;
  }

  // ---- Closure -----------------------------------------------------------

  ghost predicate InClosure(h: Hierarchy, roles: set<Role>, r: Role) {
    exists k :: k in roles && k in h.known && Reaches(h, k, r)
  }

  /** Every known input role together with all its transitive juniors. */
  ghost function Closure(h: Hierarchy, roles: set<Role>): (c: set<Role>)
    ensures forall r :: r in c <==> InClosure(h, roles, r)
  {
    forall r | InClosure(h, roles, r) ensures r in roles + Nodes(h) {
      var k :| k in roles && k in h.known && Reaches(h, k, r);
      var p :| PathFromTo(h, p, k, r);
      if |p| > 1 { assert Edge(h, p[|p| - 2], p[|p| - 1]); JuniorIsNode(h, p[|p| - 2], r); }
    }
    set r | r in roles + Nodes(h) && InClosure(h, roles, r)
  }

  ghost predicate ClosedUnderInheritance(h: Hierarchy, s: set<Role>) {
    forall a, b :: a in s && Edge(h, a, b) ==> b in s
  }

  /** The worklist invariant: everything seen belongs to the closure, the known
      inputs are seen, and juniors of finished roles are seen. */
  ghost predicate Worklist(h: Hierarchy, inputs: set<Role>, result: set<Role>, pending: set<Role>) {
    && result + pending <= inputs + Nodes(h)
    && (forall x :: x in result + pending ==> InClosure(h, inputs, x))
    && inputs * h.known <= result + pending
    && (forall a, b :: a in result && Edge(h, a, b) ==> b in result + pending)
  }

  /** `role_closure`: the worklist computes the closure as a sorted tuple,
      whatever order the inputs come in and even when the table is cyclic. */
  method RoleClosure(h: Hierarchy, roles: seq<Role>) returns (r: seq<Role>)
    ensures r == Tuple(Closure(h, Elements(roles)))
  {
    var result: set<Role> := {};
    var pending := KnownOnly(h, roles);
    ghost var inputs := Elements(roles);
    forall x | x in Elements(pending) ensures InClosure(h, inputs, x) { ReachesSelf(h, x); }
    while pending != []
      invariant Worklist(h, inputs, result, Elements(pending))
      decreases inputs + Nodes(h) - result, |pending|
    {
      var role := pending[|pending| - 1];
      ghost var before := Elements(pending);
      pending := pending[..|pending| - 1];
      PopElements(pending, role);
      if role !in result {
        WorklistStep(h, inputs, result, before, role, Elements(pending));
        result := result + {role};
        ElementsConcat(pending, Juniors(h, role));
        pending := pending + Juniors(h, role);
      } else {
        assert result + before == result + Elements(pending);
      }
    }
    ClosureIsLeast(h, inputs, result);
    assert result == Closure(h, inputs);
    r := TupleOf(result);
  }

  function KnownOnly(h: Hierarchy, roles: seq<Role>): (r: seq<Role>)
    ensures Elements(r) == Elements(roles) * h.known
  {
    if roles == [] then []
    else
      assert roles == [roles[0]] + roles[1..];
      var rest := KnownOnly(h, roles[1..]);
      if roles[0] in h.known then
        assert Elements([roles[0]] + rest) == {roles[0]} + Elements(rest);
        [roles[0]] + rest
      else rest
  }

  lemma PopElements(s: seq<Role>, x: Role)
    ensures Elements(s + [x]) == Elements(s) + {x}
  {
  }

  lemma ElementsConcat(s: seq<Role>, t: seq<Role>)
    ensures Elements(s + t) == Elements(s) + Elements(t)
  {
  }

  lemma WorklistStep(h: Hierarchy, inputs: set<Role>, result: set<Role>, before: set<Role>, role: Role, rest: set<Role>)
    requires Worklist(h, inputs, result, before) && before == rest + {role}
    ensures Worklist(h, inputs, result + {role}, rest + Elements(Juniors(h, role)))
  {
    ExtendWorklist(h, inputs, role);
  }

  lemma ExtendWorklist(h: Hierarchy, inputs: set<Role>, role: Role)
    requires InClosure(h, inputs, role)
    ensures forall b :: b in Juniors(h, role) ==> InClosure(h, inputs, b) && b in Nodes(h)
  {
    forall b | b in Juniors(h, role) ensures InClosure(h, inputs, b) && b in Nodes(h) {
      var k :| k in inputs && k in h.known && Reaches(h, k, role);
      ReachesEdge(h, role, b);
      ReachesTransitive(h, k, role, b);
      JuniorIsNode(h, role, b);
    }
  }

  /** The closure is inside every set that holds the known inputs and is closed
      under inheritance ... */
  lemma ClosureIsLeast(h: Hierarchy, roles: set<Role>, s: set<Role>)
    requires roles * h.known <= s && ClosedUnderInheritance(h, s)
    ensures Closure(h, roles) <= s
  {
    forall r | r in Closure(h, roles) ensures r in s {
      var k :| k in roles && k in h.known && Reaches(h, k, r);
      var p :| PathFromTo(h, p, k, r);
      ClosedSetAlongPath(h, s, p);
    }
  }

  /** ... and is itself such a set. */
  lemma ClosureIsClosed(h: Hierarchy, roles: set<Role>)
    ensures roles * h.known <= Closure(h, roles)
    ensures ClosedUnderInheritance(h, Closure(h, roles))
  {
    forall k | k in roles * h.known ensures k in Closure(h, roles) { ReachesSelf(h, k); }
    forall a, b | a in Closure(h, roles) && Edge(h, a, b) ensures b in Closure(h, roles) {
      ExtendWorklist(h, roles, a);
    }
  }

  lemma ClosureMonotone(h: Hierarchy, x: set<Role>, y: set<Role>)
    requires x * h.known <= y
    ensures Closure(h, x) <= Closure(h, y)
  {
    forall r | r in Closure(h, x) ensures r in Closure(h, y) {
      var k :| k in x && k in h.known && Reaches(h, k, r);
      assert k in x * h.known;
    }
  }

  /** Closing twice changes nothing, on any table. */
  lemma ClosureIdempotent(h: Hierarchy, roles: set<Role>)
    ensures Closure(h, Closure(h, roles)) == Closure(h, roles)
  {
    ClosureIsClosed(h, roles);
    ClosureIsLeast(h, Closure(h, roles), Closure(h, roles));
    ClosureMonotone(h, roles, Closure(h, roles));
  }

  lemma ClosureOfUnion(h: Hierarchy, x: set<Role>, y: set<Role>)
    ensures Closure(h, x + y) == Closure(h, x) + Closure(h, y)
  {
    ClosureIsClosed(h, x);
    ClosureIsClosed(h, y);
    ClosureIsLeast(h, x + y, Closure(h, x) + Closure(h, y));
    ClosureMonotone(h, x, x + y);
    ClosureMonotone(h, y, x + y);
  }

  /** With validated edges a closure holds known roles only, all at levels that
      already occur among the inputs. */
  lemma ClosureStaysKnownAndInLevel(h: Hierarchy, roles: set<Role>)
    requires EdgesAllowed(h)
    ensures Closure(h, roles) <= h.known
    ensures forall r :: r in Closure(h, roles) ==> exists k :: k in roles && Level(k) == Level(r)
  {
    var s := set r | r in h.known && exists k :: k in roles && Level(k) == Level(r);
    forall a, b | a in s && Edge(h, a, b) ensures b in s { assert EdgeAllowed(h, a, b); }
    ClosureIsLeast(h, roles, s);
  }

  // ---- Separation of duty -------------------------------------------------

  datatype Constraint = Constraint(roles: set<Role>, maxRoles: int)

  predicate ValidConstraint(h: Hierarchy, c: Constraint) {
    c.roles <= h.known && 0 < c.maxRoles < |c.roles|
  }

  /** What `_load_constraints` lets through. */
  predicate ValidConstraints(h: Hierarchy, cs: seq<Constraint>) {
    forall i :: 0 <= i < |cs| ==> ValidConstraint(h, cs[i])
  }

  ghost predicate Within(h: Hierarchy, roles: set<Role>, c: Constraint) {
    |Closure(h, roles) * c.roles| <= c.maxRoles
  }

  ghost predicate Satisfies(h: Hierarchy, roles: set<Role>, cs: seq<Constraint>) {
    forall i :: 0 <= i < |cs| ==> Within(h, roles, cs[i])
  }

  /** The first constraint that is malformed or exceeded. */
  ghost predicate FirstFailure(h: Hierarchy, roles: set<Role>, cs: seq<Constraint>, i: int) {
    && 0 <= i < |cs|
    && (forall j :: 0 <= j < i ==> ValidConstraint(h, cs[j]) && Within(h, roles, cs[j]))
    && !(ValidConstraint(h, cs[i]) && Within(h, roles, cs[i]))
  }

  datatype Check = Holds | Violated | InvalidConstraint

  /** `satisfies_constraints`: stops at the first constraint that is malformed
      (raises) or violated (false). */
  method SatisfiesConstraints(h: Hierarchy, roles: seq<Role>, cs: seq<Constraint>) returns (r: Check)
    ensures r.Holds? <==> ValidConstraints(h, cs) && Satisfies(h, Elements(roles), cs)
    ensures r.Violated? ==>
      exists i :: (FirstFailure(h, Elements(roles), cs, i) && ValidConstraint(h, cs[i]))
    ensures r.InvalidConstraint? ==>
      exists i :: (FirstFailure(h, Elements(roles), cs, i) && !ValidConstraint(h, cs[i]))
  {
    var tuple := RoleClosure(h, roles);
    var closure := Elements(tuple);
    var i := 0;
    while i < |cs|
      invariant 0 <= i <= |cs|
      invariant forall j :: 0 <= j < i ==> ValidConstraint(h, cs[j]) && Within(h, Elements(roles), cs[j])
    {
      if !(cs[i].roles <= h.known) || !(0 < cs[i].maxRoles < |cs[i].roles|) {
        assert FirstFailure(h, Elements(roles), cs, i);
        return InvalidConstraint;
      }
      if |closure * cs[i].roles| > cs[i].maxRoles {
        assert FirstFailure(h, Elements(roles), cs, i);
        return Violated;
      }
      i := i + 1;
    }
    r := Holds;
  }

  /** Fewer roles can only satisfy more. */
  lemma SatisfiesAntitone(h: Hierarchy, x: set<Role>, y: set<Role>, cs: seq<Constraint>)
    requires Closure(h, x) <= Closure(h, y) && Satisfies(h, y, cs)
    ensures Satisfies(h, x, cs)
  {
    forall i | 0 <= i < |cs| ensures Within(h, x, cs[i]) {
      assert Within(h, y, cs[i]);
      CardinalityMonotone(Closure(h, x) * cs[i].roles, Closure(h, y) * cs[i].roles);
    }
  }

  lemma SatisfiesSubset(h: Hierarchy, x: set<Role>, y: set<Role>, cs: seq<Constraint>)
    requires x <= y && Satisfies(h, y, cs)
    ensures Satisfies(h, x, cs)
  {
    ClosureMonotone(h, x, y);
    SatisfiesAntitone(h, x, y, cs);
  }

  // ---- The shipped table ---------------------------------------------------

  const SHIPPED := Hierarchy(
    {"local:member", "normal:member", "normal:columnist", "normal:author",
     "admin:incubated_member", "admin:org_member", "admin:content_reviewer",
     "admin:content_publisher", "admin:super_admin"},
    map["normal:columnist" := ["normal:member"],
        "normal:author" := ["normal:columnist"],
        "admin:org_member" := ["admin:incubated_member"],
        "admin:super_admin" := ["admin:org_member"]])

  lemma LevelOf(level: string, name: string)
    requires ':' !in level
    ensures Level(level + ":" + name) == level
  {
    var r := level + ":" + name;
    if level != "" {
      assert r[1..] == level[1..] + ":" + name;
      LevelOf(level[1..], name);
      assert level == [level[0]] + level[1..];
    }
  }

  lemma NormalMemberLevel()
    ensures Level("normal:member") == "normal"
  {
    LevelOf("normal", "member");
    assert "normal" + ":" + "member" == "normal:member";
  }

  lemma NormalColumnistLevel()
    ensures Level("normal:columnist") == "normal"
  {
    LevelOf("normal", "columnist");
    assert "normal" + ":" + "columnist" == "normal:columnist";
  }

  lemma NormalAuthorLevel()
    ensures Level("normal:author") == "normal"
  {
    LevelOf("normal", "author");
    assert "normal" + ":" + "author" == "normal:author";
  }

  lemma AdminIncubatedMemberLevel()
    ensures Level("admin:incubated_member") == "admin"
  {
    LevelOf("admin", "incubated_member");
    assert "admin" + ":" + "incubated_member" == "admin:incubated_member";
  }

  lemma AdminOrgMemberLevel()
    ensures Level("admin:org_member") == "admin"
  {
    LevelOf("admin", "org_member");
    assert "admin" + ":" + "org_member" == "admin:org_member";
  }

  lemma AdminSuperAdminLevel()
    ensures Level("admin:super_admin") == "admin"
  {
    LevelOf("admin", "super_admin");
    assert "admin" + ":" + "super_admin" == "admin:super_admin";
  }

  lemma ShippedEdgesAllowed()
    ensures EdgeAllowed(SHIPPED, "normal:columnist", "normal:member")
    ensures EdgeAllowed(SHIPPED, "normal:author", "normal:columnist")
    ensures EdgeAllowed(SHIPPED, "admin:org_member", "admin:incubated_member")
    ensures EdgeAllowed(SHIPPED, "admin:super_admin", "admin:org_member")
  {
    NormalMemberLevel();
    NormalColumnistLevel();
    NormalAuthorLevel();
    AdminIncubatedMemberLevel();
    AdminOrgMemberLevel();
    AdminSuperAdminLevel();
  }

  lemma ShippedNormalJuniors()
    ensures Juniors(SHIPPED, "normal:member") == []
    ensures Juniors(SHIPPED, "normal:columnist") == ["normal:member"]
    ensures Juniors(SHIPPED, "normal:author") == ["normal:columnist"]
  {
    assert "normal:member"[0] == 'n' && "normal:member"[7] == 'm';
    assert "normal:author"[0] == 'n' && "normal:author"[7] == 'a';
    assert "normal:columnist"[0] == 'n' && "normal:columnist"[7] == 'c';
    assert "admin:org_member"[0] == 'a' && "admin:super_admin"[0] == 'a';
  }

  lemma ShippedAdminJuniors()
    ensures Juniors(SHIPPED, "admin:incubated_member") == []
    ensures Juniors(SHIPPED, "admin:org_member") == ["admin:incubated_member"]
    ensures Juniors(SHIPPED, "admin:super_admin") == ["admin:org_member"]
  {
    assert "admin:incubated_member"[0] == 'a' && "admin:incubated_member"[6] == 'i';
    assert "admin:org_member"[0] == 'a' && "admin:org_member"[6] == 'o';
    assert "admin:super_admin"[0] == 'a' && "admin:super_admin"[6] == 's';
    assert "normal:author"[0] == 'n' && "normal:columnist"[0] == 'n';
  }

  /** A chain of three roles, junior first, may be finished after `order`. */
  lemma FinishChain(h: Hierarchy, order: seq<Role>, a: Role, b: Role, c: Role)
    requires FinishingOrder(h, order)
    requires Juniors(h, a) == [] && Juniors(h, b) == [a] && Juniors(h, c) == [b]
    requires EdgeAllowed(h, b, a) && EdgeAllowed(h, c, b)
    ensures FinishingOrder(h, order + [a, b, c])
  {
    FinishRole(h, order, a);
    FinishRole(h, order + [a], b);
    FinishRole(h, order + [a] + [b], c);
    assert order + [a] + [b] + [c] == order + [a, b, c];
  }

  lemma ShippedKeys(r: Role)
    requires r in SHIPPED.inherits
    ensures r == "normal:columnist" || r == "normal:author" || r == "admin:org_member" || r == "admin:super_admin"
  {
  }

  /** The import-time check passes on the shipped table. */
  lemma ShippedIsWellFormed()
    ensures WellFormed(SHIPPED)
  {
    ShippedNormalJuniors();
    ShippedEdgesAllowed();
    var normal := [] + ["normal:member", "normal:columnist", "normal:author"];
    FinishChain(SHIPPED, [], "normal:member", "normal:columnist", "normal:author");
    ShippedAdminJuniors();
    FinishChain(SHIPPED, normal, "admin:incubated_member", "admin:org_member", "admin:super_admin");
    var order := normal + ["admin:incubated_member", "admin:org_member", "admin:super_admin"];
    assert order[1] == "normal:columnist" && order[2] == "normal:author";
    assert order[4] == "admin:org_member" && order[5] == "admin:super_admin";
    forall r | r in SHIPPED.inherits ensures r in order { ShippedKeys(r); }
    FinishedHierarchyIsWellFormed(SHIPPED, order);
  }
}
