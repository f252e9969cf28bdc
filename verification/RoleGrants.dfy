/** The write side of roles: assigning and revoking extra roles
    (auth/service_roles.py) and the one-way upgrades (auth/service_authz.py),
    as committed transactions on one account. */
module RoleGrants {
  import opened Wrappers
  import opened Ordering
  import opened RoleHierarchy
  import opened RoleActivation

  /** The rows of one user: users.account_level and token_version, the profile's
      role if there is a profile row, and the extra roles of user_roles. */
  datatype Account = Account(level: string, profileRole: Option<string>, extra: set<Role>, tokenVersion: nat)

  /** `role or "member"` */
  function Primary(a: Account): string {
    if a.profileRole.Some? && a.profileRole.value != "" then a.profileRole.value else "member"
  }

  function LevelRank(level: string): int {
    if level == "local" then 0 else if level == "normal" then 1 else if level == "admin" then 2 else -1
  }

  function RoleRank(role: string): int {
    if role == "member" then 0
    else if role == "columnist" then 1
    else if role == "author" then 2
    else if role == "incubated_member" then 3
    else if role == "org_member" then 4
    else if role == "admin" then 5
    else if role == "super_admin" then 6
    else -1
  }

  datatype GrantError = NoSuchRole | NotFound | LevelMismatch | PrimaryNotRevocable | ViolatesSsd
  datatype Outcome = Returned(changed: bool) | Raised(error: GrantError)

  ghost predicate SsdHolds(h: Hierarchy, ssd: seq<Constraint>, level: string, primary: string, extra: set<Role>) {
    Satisfies(h, Authorized(h, level, primary, extra), ssd)
  }

  // ---- Committed effect of each transaction -----------------------------------

  ghost function SetRole(h: Hierarchy, ssd: seq<Constraint>, s: Option<Account>, role: Role, assign: bool): (Option<Account>, Outcome) {
    if role !in h.known then (s, Raised(NoSuchRole))
    else if s.None? then (s, Raised(NotFound))
    else
      var a := s.value;
      if !AtLevel(role, a.level) then (s, Raised(LevelMismatch))
      else if role == Composite(a.level, Primary(a)) then
        (s, if assign then Returned(false) else Raised(PrimaryNotRevocable))
      else if assign && !SsdHolds(h, ssd, a.level, Primary(a), a.extra + {role}) then (s, Raised(ViolatesSsd))
      else
        var extra := if assign then a.extra + {role} else a.extra - {role};
        if extra == a.extra then (s, Returned(false))
        else (Some(a.(extra := extra, tokenVersion := a.tokenVersion + 1)), Returned(true))
  }

  predicate LevelRises(a: Account, unlockLevel: Option<string>) {
    unlockLevel.Some? && LevelRank(unlockLevel.value) > LevelRank(a.level)
  }

  predicate RoleRises(a: Account, unlockRole: Option<string>) {
    unlockRole.Some? && RoleRank(Primary(a)) >= 0 && RoleRank(unlockRole.value) > RoleRank(Primary(a))
  }

  /** An account after the level and role updates; without a profile row the role
      update matches nothing. */
  function Upgraded(a: Account, level: Option<string>, role: Option<string>): Account {
    a.(level := if level.Some? then level.value else a.level,
       profileRole := if role.Some? && a.profileRole.Some? then role else a.profileRole,
       tokenVersion := a.tokenVersion + 1)
  }

  ghost function Upgrade(h: Hierarchy, ssd: seq<Constraint>, a: Account, level: Option<string>, role: Option<string>): (Option<Account>, Outcome) {
    if level.None? && role.None? then (Some(a), Returned(false))
    else
      var newLevel := if level.Some? then level.value else a.level;
      var newRole := if role.Some? then role.value else Primary(a);
      if SsdHolds(h, ssd, newLevel, newRole, a.extra)
      then (Some(Upgraded(a, level, role)), Returned(true))
      else (Some(a), Raised(ViolatesSsd))
  }

  ghost function ExamUnlock(h: Hierarchy, ssd: seq<Constraint>, s: Option<Account>, unlockLevel: Option<string>, unlockRole: Option<string>): (Option<Account>, Outcome) {
    if s.None? then (s, Returned(false))
    else Upgrade(h, ssd, s.value,
                 if LevelRises(s.value, unlockLevel) then unlockLevel else None,
                 if RoleRises(s.value, unlockRole) then unlockRole else None)
  }

  ghost function Incubate(h: Hierarchy, ssd: seq<Constraint>, s: Option<Account>): (Option<Account>, Outcome) {
    if s.None? then (s, Returned(false))
    else Upgrade(h, ssd, s.value,
                 if s.value.level != "admin" then Some("admin") else None,
                 if Primary(s.value) == "member" then Some("incubated_member") else None)
  }

  // ---- The transactions as the services run them --------------------------------

  class AccountRows {
    var row: Option<Account>

    constructor (row: Option<Account>)
      ensures this.row == row
    {
      this.row := row;
    }

    /** `set_user_role` */
    method SetUserRole(h: Hierarchy, ssd: seq<Constraint>, role: Role, assign: bool, listed: seq<Role>) returns (o: Outcome)
      requires ValidConstraints(h, ssd)
      requires row.Some? ==> Elements(listed) == row.value.extra
      modifies this
      ensures (row, o) == SetRole(h, ssd, old(row), role, assign)
    {
      if role !in h.known {
        return Raised(NoSuchRole);
      }
      if row.None? {
        return Raised(NotFound);
      }
      var level, primary := row.value.level, Primary(row.value);
      if !AtLevel(role, level) {
        return Raised(LevelMismatch);
      }
      if role == Composite(level, primary) {
        if assign {
          return Returned(false);
        }
        return Raised(PrimaryNotRevocable);
      }
      if assign {
        var ok := ChecksSsd(h, ssd, level, primary, listed + [role]);
        ElementsConcat(listed, [role]);
        assert Elements([role]) == {role};
        if !ok {
          return Raised(ViolatesSsd);
        }
      }
      var changed := if assign then role !in row.value.extra else role in row.value.extra;
      row := Some(row.value.(extra := if assign then row.value.extra + {role} else row.value.extra - {role}));
      if changed {
        row := Some(row.value.(tokenVersion := row.value.tokenVersion + 1));
      }
      o := Returned(changed);
    }

    method SetAccountLevel(level: string)
      requires row.Some?
      modifies this
      ensures row == Some(old(row).value.(level := level))
    {
      row := Some(row.value.(level := level));
    }

    /** An UPDATE of the profile row: no profile, no effect. */
    method SetProfileRole(role: string)
      requires row.Some?
      modifies this
      ensures row == Some(old(row).value.(profileRole := if old(row).value.profileRole.Some? then Some(role) else None))
    {
      if row.value.profileRole.Some? {
        row := Some(row.value.(profileRole := Some(role)));
      }
    }

    /** `_apply_upgrades`: the updates are made first and the constraint is checked
        afterwards; the failing check undoes them by rolling the transaction back. */
    method ApplyUpgrades(h: Hierarchy, ssd: seq<Constraint>, unlockLevel: Option<string>, unlockRole: Option<string>, listed: seq<Role>) returns (o: Outcome)
      requires ValidConstraints(h, ssd)
      requires row.Some? ==> Elements(listed) == row.value.extra
      modifies this
      ensures (row, o) == ExamUnlock(h, ssd, old(row), unlockLevel, unlockRole)
    {
      if row.None? {
        return Returned(false);
      }
      var atStart := row;
      var level, role := row.value.level, Primary(row.value);
      var changed := false;
      var newLevel, newRole := level, role;
      if LevelRises(atStart.value, unlockLevel) {
        SetAccountLevel(unlockLevel.value);
        newLevel := unlockLevel.value;
        changed := true;
      }
      if RoleRises(atStart.value, unlockRole) {
        SetProfileRole(unlockRole.value);
        newRole := unlockRole.value;
        changed := true;
      }
      if changed {
        var ok := ChecksSsd(h, ssd, newLevel, newRole, listed);
        if !ok {
          row := atStart;
          return Raised(ViolatesSsd);
        }
        row := Some(row.value.(tokenVersion := row.value.tokenVersion + 1));
      }
      o := Returned(changed);
    }

    /** `grant_exam_unlock` */
    method GrantExamUnlock(h: Hierarchy, ssd: seq<Constraint>, unlockLevel: Option<string>, unlockRole: Option<string>, listed: seq<Role>) returns (o: Outcome)
      requires ValidConstraints(h, ssd)
      requires row.Some? ==> Elements(listed) == row.value.extra
      modifies this
      ensures (row, o) == ExamUnlock(h, ssd, old(row), unlockLevel, unlockRole)
    {
      if (unlockLevel.None? || unlockLevel.value == "") && (unlockRole.None? || unlockRole.value == "") {
        return Returned(false);
      }
      o := ApplyUpgrades(h, ssd, unlockLevel, unlockRole, listed);
    }

    /** `grant_incubation` */
    method GrantIncubation(h: Hierarchy, ssd: seq<Constraint>, listed: seq<Role>) returns (o: Outcome)
      requires ValidConstraints(h, ssd)
      requires row.Some? ==> Elements(listed) == row.value.extra
      modifies this
      ensures (row, o) == Incubate(h, ssd, old(row))
    {
      if row.None? {
        return Returned(false);
      }
      var atStart := row;
      var role := Primary(row.value);
      var changed := false;
      if row.value.level != "admin" {
        SetAccountLevel("admin");
        changed := true;
      }
      if role == "member" {
        SetProfileRole("incubated_member");
        changed := true;
      }
      if changed {
        var ok := ChecksSsd(h, ssd, "admin", if role == "member" then "incubated_member" else role, listed);
        if !ok {
          row := atStart;
          return Raised(ViolatesSsd);
        }
        row := Some(row.value.(tokenVersion := row.value.tokenVersion + 1));
      }
      o := Returned(changed);
    }
  }

  /** `satisfies_constraints(authorized_roles(...), SSD_CONSTRAINTS)` */
  method ChecksSsd(h: Hierarchy, ssd: seq<Constraint>, level: string, primary: string, listed: seq<Role>) returns (ok: bool)
    requires ValidConstraints(h, ssd)
    ensures ok <==> SsdHolds(h, ssd, level, primary, Elements(listed))
  {
    var authorized := AuthorizedRoles(h, level, primary, listed);
    var check := SatisfiesConstraints(h, authorized, ssd);
    ok := check.Holds?;
  }

  // ---- Whole runs ---------------------------------------------------------------

  datatype Transaction =
    | AssignRole(role: Role)
    | RevokeRole(role: Role)
    | PassExam(unlockLevel: Option<string>, unlockRole: Option<string>)
    | JoinProject

  ghost function Execute(h: Hierarchy, ssd: seq<Constraint>, s: Option<Account>, t: Transaction): (Option<Account>, Outcome) {
    match t
    case AssignRole(role) => SetRole(h, ssd, s, role, true)
    case RevokeRole(role) => SetRole(h, ssd, s, role, false)
    case PassExam(level, role) => ExamUnlock(h, ssd, s, level, role)
    case JoinProject => Incubate(h, ssd, s)
  }

  ghost function ExecuteAll(h: Hierarchy, ssd: seq<Constraint>, s: Option<Account>, ts: seq<Transaction>): Option<Account>
    decreases |ts|
  {
    if ts == [] then s else ExecuteAll(h, ssd, Execute(h, ssd, s, ts[0]).0, ts[1..])
  }

  /** The user's authorized closure is within the static constraints. */
  ghost predicate Separated(h: Hierarchy, ssd: seq<Constraint>, s: Option<Account>) {
    s.Some? ==> SsdHolds(h, ssd, s.value.level, Primary(s.value), s.value.extra)
  }

  /** At every level, `member` is implied by each role of the level and implies
      nothing itself (or is not a role there at all). */
  ghost predicate MemberIsLeast(h: Hierarchy) {
    forall level :: Composite(level, "member") in h.known ==>
      && Juniors(h, Composite(level, "member")) == []
      && (forall r :: r in h.known && AtLevel(r, level) ==> Reaches(h, r, Composite(level, "member")))
  }

  ghost predicate HasProfile(s: Option<Account>) {
    s.Some? ==> s.value.profileRole.Some?
  }

  /** Level and primary rank did not fall. */
  ghost predicate NotLower(s: Option<Account>, t: Option<Account>) {
    && (s.Some? <==> t.Some?)
    && (s.Some? ==> LevelRank(t.value.level) >= LevelRank(s.value.level)
                    && RoleRank(Primary(t.value)) >= RoleRank(Primary(s.value)))
  }

  lemma SeparatedByDirect(h: Hierarchy, ssd: seq<Constraint>, x: set<Role>, y: set<Role>)
    requires Satisfies(h, Closure(h, y), ssd) && Closure(h, x) <= Closure(h, y)
    ensures Satisfies(h, Closure(h, x), ssd)
  {
    ClosureIdempotent(h, x);
    ClosureIdempotent(h, y);
    SatisfiesAntitone(h, Closure(h, x), Closure(h, y), ssd);
  }

  /** Dropping an assignment keeps the constraints. */
  lemma RevokeKeepsSeparation(h: Hierarchy, ssd: seq<Constraint>, a: Account, role: Role)
    requires SsdHolds(h, ssd, a.level, Primary(a), a.extra)
    ensures SsdHolds(h, ssd, a.level, Primary(a), a.extra - {role})
  {
    var x := Direct(h, a.level, Primary(a), a.extra - {role});
    var y := Direct(h, a.level, Primary(a), a.extra);
    ClosureMonotone(h, x, y);
    SeparatedByDirect(h, ssd, x, y);
  }

  /** Without a profile row the account stays a plain member although the check was
      made for the granted role; that is still enough when member is least. */
  lemma MemberSeparated(h: Hierarchy, ssd: seq<Constraint>, level: string, granted: string, extra: set<Role>)
    requires MemberIsLeast(h) && ValidConstraints(h, ssd)
    requires SsdHolds(h, ssd, level, granted, extra)
    ensures SsdHolds(h, ssd, level, "member", extra)
  {
    var m := Composite(level, "member");
    var rest := set r | r in extra && AtLevel(r, level) && r in h.known;
    var x := Direct(h, level, "member", extra);
    var y := Direct(h, level, granted, extra);
    assert x == {m} + rest && y == {Composite(level, granted)} + rest;
    ClosureMonotone(h, rest, y);
    if m !in h.known {
      UnknownAddsNothing(h, rest, m);
      assert x == rest + {m};
      SeparatedByDirect(h, ssd, x, y);
    } else if rest == {} {
      assert x == {m};
      MemberAlone(h, ssd, m);
    } else {
      var r :| r in rest;
      ClosureOfUnion(h, {m}, rest);
      MemberImplied(h, m, r, rest);
      SeparatedByDirect(h, ssd, x, y);
    }
  }

  lemma MemberAlone(h: Hierarchy, ssd: seq<Constraint>, m: Role)
    requires ValidConstraints(h, ssd) && Juniors(h, m) == []
    ensures Satisfies(h, Closure(h, {m}), ssd)
  {
    ClosureIsLeast(h, {m}, {m});
    ClosureMonotone(h, Closure(h, {m}), {m});
    forall i | 0 <= i < |ssd| ensures Within(h, Closure(h, {m}), ssd[i]) {
      assert ValidConstraint(h, ssd[i]);
      CardinalityMonotone(Closure(h, Closure(h, {m})) * ssd[i].roles, {m});
    }
  }

  lemma MemberImplied(h: Hierarchy, m: Role, r: Role, rest: set<Role>)
    requires r in rest && r in h.known && Reaches(h, r, m) && Juniors(h, m) == []
    ensures Closure(h, {m}) <= Closure(h, rest)
  {
    ClosureIsLeast(h, {m}, {m});
    assert InClosure(h, rest, m);
  }

  lemma SetRoleKeepsSeparation(h: Hierarchy, ssd: seq<Constraint>, s: Option<Account>, role: Role, assign: bool)
    requires Separated(h, ssd, s)
    ensures Separated(h, ssd, SetRole(h, ssd, s, role, assign).0)
  {
    var (next, outcome) := SetRole(h, ssd, s, role, assign);
    if outcome == Returned(true) {
      var a := s.value;
      var extra := if assign then a.extra + {role} else a.extra - {role};
      assert next.value.level == a.level && Primary(next.value) == Primary(a) && next.value.extra == extra;
      assert SsdHolds(h, ssd, a.level, Primary(a), extra) by {
        if !assign { RevokeKeepsSeparation(h, ssd, a, role); }
      }
    } else {
      assert next == s;
    }
  }

  lemma TransactionKeepsSeparation(h: Hierarchy, ssd: seq<Constraint>, s: Option<Account>, t: Transaction)
    requires ValidConstraints(h, ssd) && Separated(h, ssd, s)
    requires HasProfile(s) || MemberIsLeast(h)
    ensures Separated(h, ssd, Execute(h, ssd, s, t).0)
  {
    if s.Some? {
      match t {
        case AssignRole(role) => SetRoleKeepsSeparation(h, ssd, s, role, true);
        case RevokeRole(role) => SetRoleKeepsSeparation(h, ssd, s, role, false);
        case PassExam(level, role) =>
          UpgradeKeepsSeparation(h, ssd, s.value,
                                 if LevelRises(s.value, level) then level else None,
                                 if RoleRises(s.value, role) then role else None);
        case JoinProject =>
          UpgradeKeepsSeparation(h, ssd, s.value,
                                 if s.value.level != "admin" then Some("admin") else None,
                                 if Primary(s.value) == "member" then Some("incubated_member") else None);
      }
    }
  }

  lemma TransactionKeepsRank(h: Hierarchy, ssd: seq<Constraint>, s: Option<Account>, t: Transaction)
    ensures NotLower(s, Execute(h, ssd, s, t).0)
    ensures HasProfile(s) ==> HasProfile(Execute(h, ssd, s, t).0)
  {
  }

  lemma UpgradeKeepsSeparation(h: Hierarchy, ssd: seq<Constraint>, a: Account, level: Option<string>, role: Option<string>)
    requires ValidConstraints(h, ssd) && Separated(h, ssd, Some(a))
    requires HasProfile(Some(a)) || MemberIsLeast(h)
    requires role.Some? ==> role.value != ""
    ensures Separated(h, ssd, Upgrade(h, ssd, a, level, role).0)
  {
    if role.Some? && a.profileRole.None? && Upgrade(h, ssd, a, level, role).1.Returned? {
      MemberSeparated(h, ssd, if level.Some? then level.value else a.level, role.value, a.extra);
    }
  }

  /** Whole runs: from a separated user, every sequence of transactions stays
      separated and never lowers level or primary-role rank. */
  lemma {:induction false} RunKeepsSeparationAndRank(h: Hierarchy, ssd: seq<Constraint>, s: Option<Account>, ts: seq<Transaction>)
    requires ValidConstraints(h, ssd) && Separated(h, ssd, s)
    requires HasProfile(s) || MemberIsLeast(h)
    ensures Separated(h, ssd, ExecuteAll(h, ssd, s, ts))
    ensures NotLower(s, ExecuteAll(h, ssd, s, ts))
    decreases |ts|
  {
    if ts != [] {
      TransactionKeepsSeparation(h, ssd, s, ts[0]);
      TransactionKeepsRank(h, ssd, s, ts[0]);
      RunKeepsSeparationAndRank(h, ssd, Execute(h, ssd, s, ts[0]).0, ts[1..]);
    }
  }

  // ---- Repeating and undoing ----------------------------------------------------------

  /** A grant whose reason still stands is not granted twice: repeating any transaction
      of an account with a profile changes nothing and bumps nothing. */
  lemma RepeatChangesNothing(h: Hierarchy, ssd: seq<Constraint>, s: Option<Account>, t: Transaction)
    requires HasProfile(s)
    ensures var (next, outcome) := Execute(h, ssd, s, t);
      Execute(h, ssd, next, t) == (next, if outcome == Returned(true) then Returned(false) else outcome)
  {
    var (next, outcome) := Execute(h, ssd, s, t);
    if outcome == Returned(true) {
      match t
      case AssignRole(role) => AssignedAgain(h, ssd, s.value, role);
      case _ =>
    }
  }

  lemma AssignedAgain(h: Hierarchy, ssd: seq<Constraint>, a: Account, role: Role)
    requires SetRole(h, ssd, Some(a), role, true).1 == Returned(true)
    ensures var next := SetRole(h, ssd, Some(a), role, true).0;
      SetRole(h, ssd, next, role, true) == (next, Returned(false))
  {
    var extra := a.extra + {role};
    assert extra + {role} == extra;
  }

  /** Revoking undoes an assignment but for the version, which moves twice; the
      constraints cannot stand in the way. */
  lemma RevokeUndoesAssign(h: Hierarchy, ssd: seq<Constraint>, a: Account, role: Role)
    requires SetRole(h, ssd, Some(a), role, true).1 == Returned(true)
    ensures SetRole(h, ssd, SetRole(h, ssd, Some(a), role, true).0, role, false)
      == (Some(a.(tokenVersion := a.tokenVersion + 2)), Returned(true))
  {
    assert role in a.extra ==> a.extra + {role} == a.extra;
    assert a.extra + {role} - {role} == a.extra;
  }

  // ---- Session invalidation --------------------------------------------------------

  /** The transaction changed the level, the primary role or an assignment. */
  ghost predicate Changes(s: Option<Account>, t: Option<Account>) {
    s.Some? && t.Some? &&
    (s.value.level != t.value.level || Primary(s.value) != Primary(t.value) || s.value.extra != t.value.extra)
  }

  ghost function Bump(s: Option<Account>, t: Option<Account>): nat {
    if Changes(s, t) then 1 else 0
  }

  /** Asks for a role rise on an account without a profile row, and for no level rise. */
  ghost predicate RaisesMissingProfileOnly(s: Option<Account>, t: Transaction) {
    && s.Some? && s.value.profileRole.None?
    && match t {
       case AssignRole(_) => false
       case RevokeRole(_) => false
       case PassExam(level, role) => RoleRises(s.value, role) && !LevelRises(s.value, level)
       case JoinProject => s.value.level == "admin"
     }
  }

  /** `token_version` moves by one exactly when something changed. The exception is
      exact too: a role granted to an account that has no profile row bumps the
      version although no row changes. */
  lemma BumpIffChanged(h: Hierarchy, ssd: seq<Constraint>, a: Account, t: Transaction)
    ensures var (next, outcome) := Execute(h, ssd, Some(a), t);
      && next.Some?
      && next.value.tokenVersion == a.tokenVersion + (if outcome == Returned(true) then 1 else 0)
      && (Changes(Some(a), next) ==> outcome == Returned(true))
      && (outcome == Returned(true) ==> (Changes(Some(a), next) <==> !RaisesMissingProfileOnly(Some(a), t)))
      && (outcome != Returned(true) ==> next == Some(a))
  {
  }

  /** The exceptional case exists: an exam unlock for an account without a profile row
      reports a change and bumps the version, and changes nothing else. */
  lemma MissingProfileIsBumped(h: Hierarchy, level: string, version: nat)
    ensures var a := Account(level, None, {}, version);
      Execute(h, [], Some(a), PassExam(None, Some("columnist"))) == (Some(a.(tokenVersion := version + 1)), Returned(true))
  {
    var a := Account(level, None, {}, version);
    assert Primary(a) == "member";
    assert "columnist"[0] == 'c' && "member"[0] == 'm';
    assert SsdHolds(h, [], level, "columnist", {});
  }

  lemma {:induction false} RunBumpsPerChange(h: Hierarchy, ssd: seq<Constraint>, s: Option<Account>, ts: seq<Transaction>)
    requires s.Some? && HasProfile(s)
    ensures ExecuteAll(h, ssd, s, ts).Some?
    ensures ExecuteAll(h, ssd, s, ts).value.tokenVersion == s.value.tokenVersion + ChangingSteps(h, ssd, s, ts)
    decreases |ts|
  {
    if ts != [] {
      BumpIffChanged(h, ssd, s.value, ts[0]);
      var next := Execute(h, ssd, s, ts[0]).0;
      assert HasProfile(next);
      RunBumpsPerChange(h, ssd, next, ts[1..]);
    }
  }

  ghost function ChangingSteps(h: Hierarchy, ssd: seq<Constraint>, s: Option<Account>, ts: seq<Transaction>): nat
    decreases |ts|
  {
    if ts == [] then 0
    else
      var next := Execute(h, ssd, s, ts[0]).0;
      Bump(s, next) + ChangingSteps(h, ssd, next, ts[1..])
  }

  // ---- The shipped table ------------------------------------------------------------

  /** Only two shipped roles are a level's `member`: the others end differently. */
  lemma ShippedMembers(r: Role)
    requires r in SHIPPED.known && |r| >= 7 && r[|r| - 7] == ':' && r[|r| - 1] == 'r' && r[|r| - 2] == 'e' && r[|r| - 3] == 'b'
    ensures r == "local:member" || r == "normal:member"
  {
    var a, b, c, d := "normal:columnist", "normal:author", "admin:content_reviewer", "admin:content_publisher";
    assert a[|a| - 1] == 't' && b[|b| - 2] == 'o' && c[|c| - 3] == 'w' && d[|d| - 3] == 'h';
    var e, f, g := "admin:super_admin", "admin:incubated_member", "admin:org_member";
    assert e[|e| - 1] == 'n' && f[|f| - 7] == '_' && g[|g| - 7] == '_';
  }

  lemma ShippedNormalRoles(r: Role)
    requires r in SHIPPED.known && r != "" && r[0] == 'n'
    ensures Reaches(SHIPPED, r, "normal:member")
  {
    assert "local:member"[0] == 'l';
    assert "admin:incubated_member"[0] == 'a' && "admin:org_member"[0] == 'a' && "admin:super_admin"[0] == 'a';
    assert "admin:content_reviewer"[0] == 'a' && "admin:content_publisher"[0] == 'a';
    assert r == "normal:member" || r == "normal:columnist" || r == "normal:author";
    ShippedNormalJuniors();
    ReachesSelf(SHIPPED, "normal:member");
    ReachesEdge(SHIPPED, "normal:columnist", "normal:member");
    ReachesEdge(SHIPPED, "normal:author", "normal:columnist");
    ReachesTransitive(SHIPPED, "normal:author", "normal:columnist", "normal:member");
  }

  lemma ShippedLocalRoles(r: Role)
    requires r in SHIPPED.known && r != "" && r[0] == 'l'
    ensures Reaches(SHIPPED, r, "local:member")
  {
    assert "normal:member"[0] == 'n' && "normal:columnist"[0] == 'n' && "normal:author"[0] == 'n';
    assert "admin:incubated_member"[0] == 'a' && "admin:org_member"[0] == 'a' && "admin:super_admin"[0] == 'a';
    assert "admin:content_reviewer"[0] == 'a' && "admin:content_publisher"[0] == 'a';
    assert r == "local:member";
    ReachesSelf(SHIPPED, "local:member");
  }

  lemma ShippedLocalMemberHasNoJuniors()
    ensures Juniors(SHIPPED, "local:member") == []
  {
    assert "local:member"[0] == 'l';
    assert "normal:author"[0] == 'n' && "normal:columnist"[0] == 'n';
    assert "admin:org_member"[0] == 'a' && "admin:super_admin"[0] == 'a';
  }

  /** In the shipped hierarchy `member` is the least role of its level, so the run
      theorem needs no profile row there. */
  lemma ShippedMemberIsLeast()
    ensures MemberIsLeast(SHIPPED)
  {
    forall level | Composite(level, "member") in SHIPPED.known
      ensures Juniors(SHIPPED, Composite(level, "member")) == []
      ensures forall r :: r in SHIPPED.known && AtLevel(r, level) ==> Reaches(SHIPPED, r, Composite(level, "member"))
    {
      var m := Composite(level, "member");
      assert m == level + ":member";
      ShippedMembers(m);
      ShippedNormalJuniors();
      ShippedLocalMemberHasNoJuniors();
      assert m[0] == (level + ":")[0];
      forall r | r in SHIPPED.known && AtLevel(r, level) ensures Reaches(SHIPPED, r, m) {
        assert r[0] == m[0];
        if m == "local:member" {
          assert m[0] == 'l';
          ShippedLocalRoles(r);
        } else {
          assert m[0] == 'n';
          ShippedNormalRoles(r);
        }
      }
    }
  }
}
