/** Which roles a session runs with: direct assignments, the authorized closure,
    and the greedy default activation under dynamic separation of duty
    (core/rbac_roles.py, `assigned_roles` to `activated_roles`). */
module RoleActivation {
  import opened Wrappers
  import opened Ordering
  import opened RoleHierarchy

  function Composite(level: string, name: string): Role {
    level + ":" + name
  }

  /** `role.startswith(f"{level}:")` */
  predicate AtLevel(role: Role, level: string) {
    level + ":" <= role
  }

  /** The primary role, known or not, and the known extra roles of the level. */
  function Direct(h: Hierarchy, level: string, primary: string, extra: set<Role>): set<Role> {
    {Composite(level, primary)} + set r | r in extra && AtLevel(r, level) && r in h.known
  }

  ghost function Authorized(h: Hierarchy, level: string, primary: string, extra: set<Role>): set<Role> {
    Closure(h, Direct(h, level, primary, extra))
  }

  method AssignedRoles(h: Hierarchy, level: string, primary: string, extra: seq<Role>) returns (r: seq<Role>)
    ensures r == Tuple(Direct(h, level, primary, Elements(extra)))
  {
    var roles := {Composite(level, primary)};
    var i := 0;
    while i < |extra|
      invariant 0 <= i <= |extra|
      invariant roles == Direct(h, level, primary, Elements(extra[..i]))
    {
      assert Elements(extra[..i + 1]) == Elements(extra[..i]) + {extra[i]};
      if AtLevel(extra[i], level) && extra[i] in h.known {
        roles := roles + {extra[i]};
      }
      i := i + 1;
    }
    assert extra[..i] == extra;
    r := TupleOf(roles);
  }

  method AuthorizedRoles(h: Hierarchy, level: string, primary: string, extra: seq<Role>) returns (r: seq<Role>)
    ensures r == Tuple(Authorized(h, level, primary, Elements(extra)))
  {
    var direct := AssignedRoles(h, level, primary, extra);
    r := RoleClosure(h, direct);
  }

  // ---- Activation ----------------------------------------------------------

  datatype ActivationError = SsdViolated | NotAuthorized | DsdViolated

  /** Keep each candidate that is not yet implied and does not break a constraint. */
  ghost function Greedy(h: Hierarchy, dsd: seq<Constraint>, chosen: seq<Role>, candidates: seq<Role>): seq<Role>
    decreases |candidates|
  {
    if candidates == [] then chosen
    else
      var c := candidates[0];
      var next := if c !in Closure(h, Elements(chosen)) && Satisfies(h, Elements(chosen + [c]), dsd)
                  then chosen + [c] else chosen;
      Greedy(h, dsd, next, candidates[1..])
  }

  /** The primary role first, then the direct roles, then everything inherited. */
  ghost function Candidates(h: Hierarchy, level: string, primary: string, extra: set<Role>): seq<Role> {
    [Composite(level, primary)] + Tuple(Direct(h, level, primary, extra)) + Tuple(Authorized(h, level, primary, extra))
  }

  ghost function Activate(
    h: Hierarchy, ssd: seq<Constraint>, dsd: seq<Constraint>,
    level: string, primary: string, extra: set<Role>, selected: Option<seq<Role>>
  ): Result<seq<Role>, ActivationError> {
    var available := Authorized(h, level, primary, extra);
    if !Satisfies(h, available, ssd) then Failure(SsdViolated)
    else if selected.Some? && !(NoDuplicates(selected.value) && Elements(selected.value) <= available) then
      Failure(NotAuthorized)
    else
      var chosen := if selected.Some? then selected.value
                    else Greedy(h, dsd, [], Candidates(h, level, primary, extra));
      if Satisfies(h, Elements(chosen), dsd) then Success(Sorted(chosen)) else Failure(DsdViolated)
  }

  /** The loop of `activated_roles` over the candidates. */
  method ChooseGreedily(h: Hierarchy, dsd: seq<Constraint>, candidates: seq<Role>) returns (chosen: seq<Role>)
    requires ValidConstraints(h, dsd)
    ensures chosen == Greedy(h, dsd, [], candidates)
  {
    chosen := [];
    var i := 0;
    assert candidates[0..] == candidates;
    while i < |candidates|
      invariant 0 <= i <= |candidates|
      invariant Greedy(h, dsd, chosen, candidates[i..]) == Greedy(h, dsd, [], candidates)
    {
      assert candidates[i..][1..] == candidates[i + 1..];
      var closure := RoleClosure(h, chosen);
      var fits := SatisfiesConstraints(h, chosen + [candidates[i]], dsd);
      assert candidates[i] in closure <==> candidates[i] in Elements(closure);
      if candidates[i] !in closure && fits.Holds? {
        chosen := chosen + [candidates[i]];
      }
      i := i + 1;
    }
  }

  /** `activated_roles`, for constraints that the loader has accepted. */
  method ActivatedRoles(
    h: Hierarchy, ssd: seq<Constraint>, dsd: seq<Constraint>,
    level: string, primary: string, extra: seq<Role>, selected: Option<seq<Role>>
  ) returns (r: Result<seq<Role>, ActivationError>)
    requires ValidConstraints(h, ssd) && ValidConstraints(h, dsd)
    ensures r == Activate(h, ssd, dsd, level, primary, Elements(extra), selected)
  {
    var direct := AssignedRoles(h, level, primary, extra);
    var available := RoleClosure(h, direct);
    var check := SatisfiesConstraints(h, available, ssd);
    if !check.Holds? {
      return Failure(SsdViolated);
    }
    var chosen: seq<Role> := [];
    if selected.None? {
      chosen := ChooseGreedily(h, dsd, [Composite(level, primary)] + direct + available);
    } else {
      var distinct := HasNoDuplicates(selected.value);
      if !distinct || !(Elements(selected.value) <= Elements(available)) {
        return Failure(NotAuthorized);
      }
      chosen := selected.value;
    }
    var final := SatisfiesConstraints(h, Sorted(chosen), dsd);
    if !final.Holds? {
      return Failure(DsdViolated);
    }
    r := Success(Sorted(chosen));
  }

  /** `len(xs) == len(set(xs))` */
  method HasNoDuplicates(xs: seq<Role>) returns (b: bool)
    ensures b <==> NoDuplicates(xs)
  {
    var seen: set<Role> := {};
    var i := 0;
    while i < |xs|
      invariant 0 <= i <= |xs|
      invariant seen == Elements(xs[..i]) && NoDuplicates(xs[..i])
    {
      if xs[i] in seen {
        var j :| 0 <= j < i && xs[j] == xs[i];
        return false;
      }
      assert Elements(xs[..i + 1]) == seen + {xs[i]};
      seen := seen + {xs[i]};
      i := i + 1;
    }
    assert xs[..i] == xs;
    b := true;
  }

  // ---- What the greedy choice guarantees ------------------------------------

  lemma EmptySatisfies(h: Hierarchy, cs: seq<Constraint>)
    requires ValidConstraints(h, cs)
    ensures Satisfies(h, {}, cs)
  {
    assert Closure(h, {}) == {};
    forall i | 0 <= i < |cs| ensures Within(h, {}, cs[i]) {
      assert {} * cs[i].roles == {};
      assert ValidConstraint(h, cs[i]);
    }
  }

  ghost predicate Blocked(h: Hierarchy, cs: seq<Constraint>, chosen: set<Role>, c: Role) {
    c in Closure(h, chosen) || !Satisfies(h, chosen + {c}, cs)
  }

  lemma BlockedStaysBlocked(h: Hierarchy, cs: seq<Constraint>, x: set<Role>, y: set<Role>, c: Role)
    requires x <= y && Blocked(h, cs, x, c)
    ensures Blocked(h, cs, y, c)
  {
    ClosureMonotone(h, x, y);
    if Satisfies(h, y + {c}, cs) { SatisfiesSubset(h, x + {c}, y + {c}, cs); }
  }

  /** The result keeps what was chosen, adds candidates only, satisfies the
      constraints, and leaves every known candidate implied or in conflict. */
  lemma {:induction false} GreedyIsMaximal(h: Hierarchy, dsd: seq<Constraint>, chosen: seq<Role>, candidates: seq<Role>)
    requires Satisfies(h, Elements(chosen), dsd)
    ensures var final := Elements(Greedy(h, dsd, chosen, candidates));
      && Elements(chosen) <= final <= Elements(chosen) + Elements(candidates)
      && Satisfies(h, final, dsd)
      && (forall c :: c in candidates && c in h.known ==> Blocked(h, dsd, final, c))
    decreases |candidates|
  {
    if candidates != [] {
      var c := candidates[0];
      var next := if c !in Closure(h, Elements(chosen)) && Satisfies(h, Elements(chosen + [c]), dsd)
                  then chosen + [c] else chosen;
      assert Elements(chosen + [c]) == Elements(chosen) + {c};
      GreedyIsMaximal(h, dsd, next, candidates[1..]);
      var final := Elements(Greedy(h, dsd, chosen, candidates));
      if c in Elements(next) {
        ClosureIsClosed(h, final);
      } else {
        BlockedStaysBlocked(h, dsd, Elements(next), final, c);
      }
      assert candidates == [c] + candidates[1..];
    }
  }

  /** Known candidates are chosen at most once. */
  lemma {:induction false} GreedyNoDuplicates(h: Hierarchy, dsd: seq<Constraint>, chosen: seq<Role>, candidates: seq<Role>)
    requires NoDuplicates(chosen) && Elements(chosen) <= h.known && Elements(candidates) <= h.known
    ensures NoDuplicates(Greedy(h, dsd, chosen, candidates))
    decreases |candidates|
  {
    if candidates != [] {
      var c := candidates[0];
      assert c in Elements(candidates);
      ClosureIsClosed(h, Elements(chosen));
      assert Elements(chosen + [c]) == Elements(chosen) + {c};
      var next := if c !in Closure(h, Elements(chosen)) && Satisfies(h, Elements(chosen + [c]), dsd)
                  then chosen + [c] else chosen;
      assert Elements(candidates[1..]) <= Elements(candidates);
      GreedyNoDuplicates(h, dsd, next, candidates[1..]);
    }
  }

  lemma DirectIsAuthorized(h: Hierarchy, level: string, primary: string, extra: set<Role>)
    requires Composite(level, primary) in h.known
    ensures Direct(h, level, primary, extra) <= Authorized(h, level, primary, extra)
  {
    ClosureIsClosed(h, Direct(h, level, primary, extra));
  }

  lemma CandidateElements(h: Hierarchy, level: string, primary: string, extra: set<Role>)
    ensures Elements(Candidates(h, level, primary, extra)) ==
            Direct(h, level, primary, extra) + Authorized(h, level, primary, extra)
  {
    var d := Tuple(Direct(h, level, primary, extra));
    var a := Tuple(Authorized(h, level, primary, extra));
    ElementsConcat([Composite(level, primary)], d);
    ElementsConcat([Composite(level, primary)] + d, a);
    assert Elements([Composite(level, primary)]) == {Composite(level, primary)};
  }

  /** A maximal set of authorized roles within the dynamic constraints. */
  ghost predicate MaximalSession(h: Hierarchy, dsd: seq<Constraint>, available: set<Role>, s: seq<Role>) {
    && NoDuplicates(s) && Ascending(s)
    && Elements(s) <= available
    && Satisfies(h, Elements(s), dsd)
    && (forall r :: r in available && r !in Closure(h, Elements(s)) ==> !Satisfies(h, Elements(s) + {r}, dsd))
    && (Satisfies(h, available, dsd) ==> Closure(h, Elements(s)) == available)
  }

  /** If nothing authorized is in conflict, a maximal choice implies everything. */
  lemma NoConflictMeansEverything(h: Hierarchy, dsd: seq<Constraint>, s: set<Role>, available: set<Role>)
    requires s <= available && Closure(h, available) <= available
    requires Satisfies(h, available, dsd)
    requires forall r :: r in available ==> Blocked(h, dsd, s, r)
    ensures Closure(h, s) == available
  {
    assert Closure(h, s) <= available by { ClosureMonotone(h, s, available); }
    forall r | r in available ensures r in Closure(h, s) {
      NoConflictImplied(h, dsd, s, available, r);
    }
  }

  lemma NoConflictImplied(h: Hierarchy, dsd: seq<Constraint>, s: set<Role>, available: set<Role>, r: Role)
    requires s <= available && r in available
    requires Satisfies(h, available, dsd) && Blocked(h, dsd, s, r)
    ensures r in Closure(h, s)
  {
    SatisfiesSubset(h, s + {r}, available, dsd);
  }

  /** The greedy result over the candidates of a known primary role. */
  lemma GreedyFromCandidates(h: Hierarchy, dsd: seq<Constraint>, level: string, primary: string, extra: set<Role>)
    requires EdgesAllowed(h) && ValidConstraints(h, dsd)
    requires Composite(level, primary) in h.known
    ensures var chosen := Greedy(h, dsd, [], Candidates(h, level, primary, extra));
      && NoDuplicates(chosen)
      && Elements(chosen) <= Authorized(h, level, primary, extra)
      && Satisfies(h, Elements(chosen), dsd)
      && (forall r :: r in Authorized(h, level, primary, extra) ==> Blocked(h, dsd, Elements(chosen), r))
  {
    var available := Authorized(h, level, primary, extra);
    var candidates := Candidates(h, level, primary, extra);
    DirectIsAuthorized(h, level, primary, extra);
    CandidateElements(h, level, primary, extra);
    UnionAbsorbs(Direct(h, level, primary, extra), available);
    assert available <= h.known by {
      ClosureStaysKnownAndInLevel(h, Direct(h, level, primary, extra));
    }
    GreedyFromKnown(h, dsd, candidates);
  }

  lemma UnionAbsorbs(d: set<Role>, a: set<Role>)
    requires d <= a
    ensures d + a == a
  {
  }

  lemma GreedyFromKnown(h: Hierarchy, dsd: seq<Constraint>, candidates: seq<Role>)
    requires ValidConstraints(h, dsd) && Elements(candidates) <= h.known
    ensures var chosen := Greedy(h, dsd, [], candidates);
      && NoDuplicates(chosen)
      && Elements(chosen) <= Elements(candidates)
      && Satisfies(h, Elements(chosen), dsd)
      && (forall r :: r in Elements(candidates) ==> Blocked(h, dsd, Elements(chosen), r))
  {
    assert Elements<Role>([]) == {};
    EmptySatisfies(h, dsd);
    GreedyIsMaximal(h, dsd, [], candidates);
    GreedyNoDuplicates(h, dsd, [], candidates);
  }

  /** Default activation is sound and maximal: for a known primary role and
      assignments within the static constraints it yields a maximal session, and
      exactly the whole authorized closure when the constraints allow that. */
  lemma DefaultActivationIsMaximal(
    h: Hierarchy, ssd: seq<Constraint>, dsd: seq<Constraint>, level: string, primary: string, extra: set<Role>)
    requires EdgesAllowed(h) && ValidConstraints(h, dsd)
    requires Composite(level, primary) in h.known
    requires Satisfies(h, Authorized(h, level, primary, extra), ssd)
    ensures var r := Activate(h, ssd, dsd, level, primary, extra, None);
      r.Success? && MaximalSession(h, dsd, Authorized(h, level, primary, extra), r.value)
  {
    var available := Authorized(h, level, primary, extra);
    var chosen := Greedy(h, dsd, [], Candidates(h, level, primary, extra));
    GreedyFromCandidates(h, dsd, level, primary, extra);
    SortedNoDuplicates(chosen);
    SortedAscending(chosen);
    if Satisfies(h, available, dsd) {
      ClosureIdempotent(h, Direct(h, level, primary, extra));
      NoConflictMeansEverything(h, dsd, Elements(chosen), available);
    }
  }

  /** A stored default selection is accepted again and comes back unchanged. */
  lemma DefaultActivationRoundTrip(
    h: Hierarchy, ssd: seq<Constraint>, dsd: seq<Constraint>, level: string, primary: string, extra: set<Role>)
    requires EdgesAllowed(h) && ValidConstraints(h, dsd)
    requires Composite(level, primary) in h.known
    requires Satisfies(h, Authorized(h, level, primary, extra), ssd)
    ensures var r := Activate(h, ssd, dsd, level, primary, extra, None);
      r.Success? && Activate(h, ssd, dsd, level, primary, extra, Some(r.value)) == r
  {
    DefaultActivationIsMaximal(h, ssd, dsd, level, primary, extra);
    var r := Activate(h, ssd, dsd, level, primary, extra, None);
    SortedAscending(r.value);
    AscendingUnique(Sorted(r.value), r.value);
  }

  // ---- Unknown primary roles -------------------------------------------------

  lemma UnknownAddsNothing(h: Hierarchy, s: set<Role>, u: Role)
    requires u !in h.known
    ensures Closure(h, s + {u}) == Closure(h, s)
  {
    ClosureMonotone(h, s + {u}, s);
    ClosureMonotone(h, s, s + {u});
    assert (s + {u}) * h.known <= s;
  }

  lemma {:induction false} GreedyKeepsPrefix(h: Hierarchy, dsd: seq<Constraint>, chosen: seq<Role>, candidates: seq<Role>)
    ensures chosen <= Greedy(h, dsd, chosen, candidates)
    decreases |candidates|
  {
    if candidates != [] {
      var c := candidates[0];
      var next := if c !in Closure(h, Elements(chosen)) && Satisfies(h, Elements(chosen + [c]), dsd)
                  then chosen + [c] else chosen;
      GreedyKeepsPrefix(h, dsd, next, candidates[1..]);
    }
  }

  /** Every later occurrence of an unknown candidate is taken once more. */
  lemma {:induction false} UnknownTakenAgain(h: Hierarchy, dsd: seq<Constraint>, chosen: seq<Role>, candidates: seq<Role>, u: Role)
    requires EdgesAllowed(h) && u !in h.known && u in candidates
    requires Satisfies(h, Elements(chosen), dsd)
    ensures multiset(Greedy(h, dsd, chosen, candidates))[u] >= multiset(chosen)[u] + 1
    decreases |candidates|
  {
    var c := candidates[0];
    assert candidates == [c] + candidates[1..];
    assert Elements(chosen + [c]) == Elements(chosen) + {c};
    var next := if c !in Closure(h, Elements(chosen)) && Satisfies(h, Elements(chosen + [c]), dsd)
                then chosen + [c] else chosen;
    if c == u {
      UnknownAddsNothing(h, Elements(chosen), u);
      ClosureStaysKnownAndInLevel(h, Elements(chosen));
      SatisfiesAntitone(h, Elements(chosen) + {u}, Elements(chosen), dsd);
      GreedyKeepsPrefix(h, dsd, next, candidates[1..]);
      var g := Greedy(h, dsd, chosen, candidates);
      assert g == next + g[|next|..];
    } else {
      UnknownTakenAgain(h, dsd, next, candidates[1..], u);
    }
  }

  /** The known-primary condition is exact. With an unknown primary composite
      (for example "admin:member") the default session lists that role twice,
      is not a subset of the authorized roles, and is refused when it is passed
      back as a selection. */
  lemma DefaultActivationAuthorizedIffPrimaryKnown(
    h: Hierarchy, ssd: seq<Constraint>, dsd: seq<Constraint>, level: string, primary: string, extra: set<Role>)
    requires EdgesAllowed(h) && ValidConstraints(h, dsd)
    requires Satisfies(h, Authorized(h, level, primary, extra), ssd)
    ensures var r := Activate(h, ssd, dsd, level, primary, extra, None);
      && r.Success?
      && (NoDuplicates(r.value) <==> Composite(level, primary) in h.known)
      && (Elements(r.value) <= Authorized(h, level, primary, extra) <==> Composite(level, primary) in h.known)
      && (Activate(h, ssd, dsd, level, primary, extra, Some(r.value)) == r <==> Composite(level, primary) in h.known)
  {
    var u := Composite(level, primary);
    if u in h.known {
      DefaultActivationIsMaximal(h, ssd, dsd, level, primary, extra);
      DefaultActivationRoundTrip(h, ssd, dsd, level, primary, extra);
    } else {
      UnknownPrimaryFails(h, ssd, dsd, level, primary, extra);
    }
  }

  lemma AdminMemberIsUnknown()
    ensures Composite("admin", "member") == "admin:member" && "admin:member" !in SHIPPED.known
  {
    var m, i, o, s := "admin:member", "admin:incubated_member", "admin:org_member", "admin:super_admin";
    var r, p := "admin:content_reviewer", "admin:content_publisher";
    assert m[6] == 'm' && i[6] == 'i' && o[6] == 'o' && s[6] == 's' && r[6] == 'c' && p[6] == 'c';
    assert m[0] == 'a' && "local:member"[0] == 'l';
    assert "normal:member"[0] == 'n' && "normal:columnist"[0] == 'n' && "normal:author"[0] == 'n';
  }

  /** Such an account exists under the shipped table: level admin with the default primary
      role `member` and no extra roles, whatever the constraints. */
  lemma ShippedAdminMemberFails(ssd: seq<Constraint>, dsd: seq<Constraint>)
    requires ValidConstraints(SHIPPED, ssd) && ValidConstraints(SHIPPED, dsd)
    ensures var r := Activate(SHIPPED, ssd, dsd, "admin", "member", {}, None);
      && r.Success?
      && !NoDuplicates(r.value)
      && !(Elements(r.value) <= Authorized(SHIPPED, "admin", "member", {}))
      && Activate(SHIPPED, ssd, dsd, "admin", "member", {}, Some(r.value)) != r
  {
    AdminMemberIsUnknown();
    ShippedIsWellFormed();
    var direct := Direct(SHIPPED, "admin", "member", {});
    assert direct == {} + {"admin:member"};
    UnknownAddsNothing(SHIPPED, {}, "admin:member");
    assert Closure(SHIPPED, {}) == {};
    EmptySatisfies(SHIPPED, ssd);
    assert Authorized(SHIPPED, "admin", "member", {}) == {};
    DefaultActivationAuthorizedIffPrimaryKnown(SHIPPED, ssd, dsd, "admin", "member", {});
  }

  lemma UnknownPrimaryFails(
    h: Hierarchy, ssd: seq<Constraint>, dsd: seq<Constraint>, level: string, primary: string, extra: set<Role>)
    requires EdgesAllowed(h) && ValidConstraints(h, dsd)
    requires Satisfies(h, Authorized(h, level, primary, extra), ssd)
    requires Composite(level, primary) !in h.known
    ensures var r := Activate(h, ssd, dsd, level, primary, extra, None);
      && r.Success?
      && !NoDuplicates(r.value)
      && !(Elements(r.value) <= Authorized(h, level, primary, extra))
      && Activate(h, ssd, dsd, level, primary, extra, Some(r.value)) == Failure(NotAuthorized)
  {
    UnknownPrimaryTwice(h, dsd, level, primary, extra);
    ClosureStaysKnownAndInLevel(h, Direct(h, level, primary, extra));
  }

  /** The unknown primary heads the candidate list and is listed again among the
      direct roles. */
  lemma UnknownPrimaryFirst(h: Hierarchy, dsd: seq<Constraint>, u: Role, rest: seq<Role>)
    requires EdgesAllowed(h) && ValidConstraints(h, dsd) && u !in h.known && u in rest
    ensures var chosen := Greedy(h, dsd, [], [u] + rest);
      Satisfies(h, Elements(chosen), dsd) && multiset(chosen)[u] >= 2
  {
    assert Elements<Role>([]) == {} && Elements([u]) == {} + {u} && [] + [u] == [u];
    EmptySatisfies(h, dsd);
    UnknownAddsNothing(h, {}, u);
    SatisfiesAntitone(h, {} + {u}, {}, dsd);
    assert ([u] + rest)[1..] == rest;
    assert Closure(h, {}) == {};
    UnknownTakenAgain(h, dsd, [u], rest, u);
    GreedyIsMaximal(h, dsd, [], [u] + rest);
  }

  lemma UnknownPrimaryTwice(h: Hierarchy, dsd: seq<Constraint>, level: string, primary: string, extra: set<Role>)
    requires EdgesAllowed(h) && ValidConstraints(h, dsd)
    requires Composite(level, primary) !in h.known
    ensures var chosen := Greedy(h, dsd, [], Candidates(h, level, primary, extra));
      && Satisfies(h, Elements(chosen), dsd)
      && Composite(level, primary) in Elements(Sorted(chosen))
      && !NoDuplicates(Sorted(chosen))
  {
    var u := Composite(level, primary);
    var direct := Tuple(Direct(h, level, primary, extra));
    var available := Tuple(Authorized(h, level, primary, extra));
    assert Candidates(h, level, primary, extra) == [u] + (direct + available);
    assert u in direct by { assert u in Elements(direct); }
    UnknownPrimaryFirst(h, dsd, u, direct + available);
    var sorted := Sorted(Greedy(h, dsd, [], Candidates(h, level, primary, extra)));
    assert multiset(sorted)[u] >= 2;
    if NoDuplicates(sorted) { NoDuplicatesCount(sorted, u); }
    assert u in multiset(sorted);
  }
}
