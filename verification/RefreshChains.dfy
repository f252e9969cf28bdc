/** Refresh-token rotation: login chains of single-use tokens under concurrent rotations
    and revoke-all (auth/service_auth.py, auth/security.py). A token is known by its hash;
    a transaction's writes are seen by others only when it commits, and the row it updates
    stays locked until then. Instants are microseconds; access tokens count whole seconds. */
module RefreshChains {
  import opened Wrappers

  type Hash = nat
  type Request = nat

  const MICRO: nat := 1_000_000

  /** `chain` names the first token of the login; it is bookkeeping, no decision reads it. */
  datatype Row = Row(user: nat, web: bool, mfaVerified: bool, mfaAt: Option<nat>, expiresAt: nat,
                     revoked: bool, chain: Hash)

  /** The claims of an access token that depend on the session. */
  datatype Access = Access(exp: nat, mfaAt: Option<nat>, chain: Hash, rotated: bool)

  datatype Settings = Settings(accessSeconds: nat, refreshMicros: nat)

  /** `pending`: open rotations and the row each has consumed. `revoking`: open revoke-alls
      and the rows their UPDATE matched. `spent`: the committed rotations, in order. */
  datatype Sessions = Sessions(rows: map<Hash, Row>, pending: map<Request, Hash>,
                               revoking: map<Request, set<Hash>>, spent: seq<Hash>, issued: seq<Access>)

  // ---- The token functions -----------------------------------------------------------------

  /** `exp` of `create_access_token` */
  function AccessExpiry(clock: nat, s: Settings, sessionEnd: Option<nat>): nat {
    var exp := clock / MICRO + s.accessSeconds;
    if sessionEnd.Some? && sessionEnd.value / MICRO < exp then sessionEnd.value / MICRO else exp
  }

  /** `issue_session_tokens` and `store_refresh_token`: the new row and the access token. */
  function IssuedRow(user: nat, mfaVerified: bool, mfaAt: Option<nat>, sessionEnd: Option<nat>,
                     chain: Hash, clock: nat, s: Settings): Row
  {
    var verifiedAt := if mfaAt.Some? then mfaAt.value else clock;
    Row(user, true, mfaVerified, if mfaVerified then Some(verifiedAt) else None,
        if sessionEnd.Some? then sessionEnd.value else clock + s.refreshMicros, false, chain)
  }

  function IssuedAccess(row: Row, sessionEnd: Option<nat>, clock: nat, s: Settings): Access {
    var mfaAt := if row.mfaAt.Some? then Some(row.mfaAt.value / MICRO) else None;
    Access(AccessExpiry(clock, s, sessionEnd), mfaAt, row.chain, sessionEnd.Some?)
  }

  /** The row a rotation of `used` stores. */
  function Successor(used: Row, clock: nat, s: Settings): Row {
    IssuedRow(used.user, used.mfaVerified && used.mfaAt.Some?, used.mfaAt, Some(used.expiresAt), used.chain, clock, s)
  }

  // ---- Committed steps -----------------------------------------------------------------------

  datatype Action =
    | Login(hash: Hash, user: nat, mfaVerified: bool, clock: nat)
    | AdminLogin(hash: Hash, user: nat, expiresAt: nat)
    | Consume(req: Request, hash: Hash)
    | Rotate(req: Request, newHash: Hash, now: nat, clock: nat)
    | RollBack(req: Request)
    | MatchAll(req: Request, user: nat)
    | RevokeAll(req: Request)

  predicate Locked(d: Sessions, h: Hash) {
    exists r :: r in d.pending && d.pending[r] == h
  }

  /** `consume_conditions` */
  predicate Consumable(d: Sessions, h: Hash) {
    h in d.rows && !d.rows[h].revoked && d.rows[h].web
  }

  /** An update waits for the lock of the row it matches, so it is not yet enabled. */
  predicate Enabled(d: Sessions, a: Action) {
    match a
    case Login(h, _, _, _) => h !in d.rows
    case AdminLogin(h, _, _) => h !in d.rows
    case Consume(r, h) => r !in d.pending && Consumable(d, h) && !Locked(d, h)
    case Rotate(r, h, now, _) =>
      r in d.pending && h !in d.rows && d.pending[r] in d.rows && now < d.rows[d.pending[r]].expiresAt
    case RollBack(r) => r in d.pending
    case MatchAll(r, _) => r !in d.revoking
    case RevokeAll(r) => r in d.revoking && forall h :: h in d.revoking[r] ==> !Locked(d, h)
  }

  /** `revoke_all_for_user`'s predicate, on the rows committed when the UPDATE starts. */
  function LiveOf(d: Sessions, user: nat): set<Hash> {
    set h | h in d.rows && d.rows[h].user == user && !d.rows[h].revoked
  }

  function Revoked(rows: map<Hash, Row>, hs: set<Hash>): map<Hash, Row> {
    map h | h in rows :: if h in hs then rows[h].(revoked := true) else rows[h]
  }

  function Next(d: Sessions, a: Action, s: Settings): Sessions
    requires Enabled(d, a)
  {
    match a
    case Login(h, user, mfa, clock) =>
      var row := IssuedRow(user, mfa, None, None, h, clock, s);
      d.(rows := d.rows[h := row], issued := d.issued + [IssuedAccess(row, None, clock, s)])
    case AdminLogin(h, user, expiresAt) =>
      d.(rows := d.rows[h := Row(user, false, false, None, expiresAt, false, h)])
    case Consume(r, h) => d.(pending := d.pending[r := h])
    case Rotate(r, h, _, clock) =>
      var used := d.pending[r];
      var row := Successor(d.rows[used], clock, s);
      d.(rows := d.rows[used := d.rows[used].(revoked := true)][h := row], pending := d.pending - {r},
         spent := d.spent + [used],
         issued := d.issued + [IssuedAccess(row, Some(d.rows[used].expiresAt), clock, s)])
    case RollBack(r) => d.(pending := d.pending - {r})
    case MatchAll(r, user) => d.(revoking := d.revoking[r := LiveOf(d, user)])
    case RevokeAll(r) => d.(rows := Revoked(d.rows, d.revoking[r]), revoking := d.revoking - {r})
  }

  function Run(d: Sessions, actions: seq<Action>, s: Settings): Option<Sessions>
    decreases |actions|
  {
    if actions == [] then Some(d)
    else if !Enabled(d, actions[0]) then None
    else Run(Next(d, actions[0], s), actions[1..], s)
  }

  const EMPTY: Sessions := Sessions(map[], map[], map[], [], [])

  // ---- Invariants --------------------------------------------------------------------------

  /** A chain's rows share user, kind, end and second-factor instant with its first token. */
  predicate ChainOk(d: Sessions) {
    forall h :: h in d.rows ==> RowOk(d, d.rows[h])
  }

  predicate RowOk(d: Sessions, row: Row) {
    && row.chain in d.rows
    && Inherits(row, d.rows[row.chain])
    && (row.mfaVerified <==> row.mfaAt.Some?)
  }

  predicate Inherits(row: Row, first: Row) {
    && row.user == first.user && row.web == first.web && row.expiresAt == first.expiresAt
    && row.mfaVerified == first.mfaVerified && row.mfaAt == first.mfaAt && row.chain == first.chain
  }

  predicate LiveTogether(row: Row, other: Row) {
    !row.revoked && !other.revoked && row.chain == other.chain
  }

  predicate OneLive(d: Sessions) {
    forall h, g :: h in d.rows && g in d.rows && LiveTogether(d.rows[h], d.rows[g]) ==> h == g
  }

  predicate PendingOk(d: Sessions) {
    && (forall r :: r in d.pending ==> Consumable(d, d.pending[r]))
    && (forall r, q :: r in d.pending && q in d.pending && d.pending[r] == d.pending[q] ==> r == q)
  }

  predicate SpentOk(d: Sessions) {
    && (forall i :: 0 <= i < |d.spent| ==> d.spent[i] in d.rows && d.rows[d.spent[i]].revoked)
    && (forall i, j :: 0 <= i < j < |d.spent| ==> d.spent[i] != d.spent[j])
  }

  predicate AccessOk(d: Sessions, a: Access) {
    && a.chain in d.rows
    && (a.mfaAt.Some? <==> d.rows[a.chain].mfaAt.Some?)
    && (a.mfaAt.Some? ==> a.mfaAt.value == d.rows[a.chain].mfaAt.value / MICRO)
    && (a.rotated ==> a.exp * MICRO <= d.rows[a.chain].expiresAt)
  }

  predicate IssuedOk(d: Sessions) {
    forall i :: 0 <= i < |d.issued| ==> AccessOk(d, d.issued[i])
  }

  predicate Inv(d: Sessions) {
    ChainOk(d) && OneLive(d) && PendingOk(d) && SpentOk(d) && IssuedOk(d)
  }

  /** Rows keep all but `revoked`, which never goes back. */
  predicate Extends(d: Sessions, e: Sessions) {
    forall h :: h in d.rows ==> h in e.rows && Ages(d.rows[h], e.rows[h])
  }

  predicate Ages(row: Row, later: Row) {
    later == row || later == row.(revoked := true)
  }

  lemma ExtendsTransitive(d: Sessions, e: Sessions, f: Sessions)
    requires Extends(d, e) && Extends(e, f)
    ensures Extends(d, f)
  {
  }

  lemma StepExtends(d: Sessions, a: Action, s: Settings)
    requires Enabled(d, a)
    ensures Extends(d, Next(d, a, s))
  {
  }

  lemma ExpiryWithinSession(clock: nat, s: Settings, end: nat)
    ensures AccessExpiry(clock, s, Some(end)) * MICRO <= end
  {
    assert end / MICRO * MICRO <= end;
    assert AccessExpiry(clock, s, Some(end)) <= end / MICRO;
  }

  lemma SuccessorInherits(used: Row, clock: nat, s: Settings)
    requires used.web && (used.mfaVerified <==> used.mfaAt.Some?)
    ensures Inherits(Successor(used, clock, s), used) && !Successor(used, clock, s).revoked
  {
  }

  /** Steps other than new tokens: the same rows, perhaps aged. */
  predicate SameTokens(d: Sessions, e: Sessions) {
    d.rows.Keys == e.rows.Keys && Extends(d, e)
  }

  /** One fresh row joins rows that may have aged. */
  predicate OneJoins(d: Sessions, e: Sessions, h: Hash) {
    h !in d.rows && h in e.rows && e.rows.Keys == d.rows.Keys + {h} && Extends(d, e)
  }

  lemma RowStaysOk(d: Sessions, e: Sessions, h: Hash)
    requires ChainOk(d) && Extends(d, e) && h in d.rows
    ensures RowOk(e, e.rows[h])
  {
    assert RowOk(d, d.rows[h]);
    assert Ages(d.rows[h], e.rows[h]) && Ages(d.rows[d.rows[h].chain], e.rows[d.rows[h].chain]);
  }

  lemma ChainsKept(d: Sessions, e: Sessions, joined: set<Hash>)
    requires ChainOk(d) && Extends(d, e) && e.rows.Keys == d.rows.Keys + joined
    requires forall h :: h in joined && h in e.rows ==> RowOk(e, e.rows[h])
    ensures ChainOk(e)
  {
    forall h | h in e.rows ensures RowOk(e, e.rows[h]) {
      if h in d.rows { RowStaysOk(d, e, h); }
    }
  }

  /** The rotated row is as its chain's first, and its predecessor the only live one. */
  lemma RotatedRow(d: Sessions, a: Action, s: Settings)
    requires Inv(d) && a.Rotate? && Enabled(d, a)
    ensures var e := Next(d, a, s);
            && OneJoins(d, e, a.newHash) && RowOk(e, e.rows[a.newHash])
            && e.rows[d.pending[a.req]].revoked && e.rows[a.newHash].chain == d.rows[d.pending[a.req]].chain
  {
    var e, used := Next(d, a, s), d.rows[d.pending[a.req]];
    StepExtends(d, a, s);
    assert Consumable(d, d.pending[a.req]) && RowOk(d, used);
    SuccessorInherits(used, a.clock, s);
    assert Ages(d.rows[used.chain], e.rows[used.chain]);
  }

  lemma NewLoginKeepsChains(d: Sessions, e: Sessions, h: Hash)
    requires ChainOk(d) && OneJoins(d, e, h) && e.rows[h].chain == h
    requires e.rows[h].mfaVerified <==> e.rows[h].mfaAt.Some?
    ensures ChainOk(e)
  {
    ChainsKept(d, e, {h});
  }

  lemma RotationKeepsChains(d: Sessions, a: Action, s: Settings)
    requires Inv(d) && a.Rotate? && Enabled(d, a)
    ensures ChainOk(Next(d, a, s))
  {
    RotatedRow(d, a, s);
    ChainsKept(d, Next(d, a, s), {a.newHash});
  }

  lemma AgingKeepsChains(d: Sessions, e: Sessions)
    requires ChainOk(d) && SameTokens(d, e)
    ensures ChainOk(e)
  {
    ChainsKept(d, e, {});
  }

  lemma StepKeepsChains(d: Sessions, a: Action, s: Settings)
    requires Inv(d) && Enabled(d, a)
    ensures ChainOk(Next(d, a, s))
  {
    var e := Next(d, a, s);
    if a.Rotate? {
      RotationKeepsChains(d, a, s);
    } else if a.Login? || a.AdminLogin? {
      StepExtends(d, a, s);
      NewLoginKeepsChains(d, e, a.hash);
    } else {
      StepExtends(d, a, s);
      AgingKeepsChains(d, e);
    }
  }

  lemma OneLiveKept(d: Sessions, e: Sessions)
    requires OneLive(d) && SameTokens(d, e)
    ensures OneLive(e)
  {
    forall h, g | h in e.rows && g in e.rows && LiveTogether(e.rows[h], e.rows[g]) ensures h == g {
      assert Ages(d.rows[h], e.rows[h]) && Ages(d.rows[g], e.rows[g]);
      assert LiveTogether(d.rows[h], d.rows[g]);
    }
  }

  /** A fresh row keeps the bound if no old row of its chain is live. */
  lemma OneLiveJoined(d: Sessions, e: Sessions, h: Hash)
    requires OneLive(d) && OneJoins(d, e, h)
    requires forall g :: g in d.rows && d.rows[g].chain == e.rows[h].chain ==> e.rows[g].revoked
    ensures OneLive(e)
  {
    forall x, y | x in e.rows && y in e.rows && LiveTogether(e.rows[x], e.rows[y]) ensures x == y {
      if x != h && y != h {
        assert Ages(d.rows[x], e.rows[x]) && Ages(d.rows[y], e.rows[y]);
        assert LiveTogether(d.rows[x], d.rows[y]);
      }
    }
  }

  lemma RotationLeavesOneLive(d: Sessions, a: Action, s: Settings)
    requires Inv(d) && a.Rotate? && Enabled(d, a)
    ensures OneLive(Next(d, a, s))
  {
    var e, used := Next(d, a, s), d.pending[a.req];
    RotatedRow(d, a, s);
    forall g | g in d.rows && d.rows[g].chain == e.rows[a.newHash].chain ensures e.rows[g].revoked {
      if g != used && !d.rows[g].revoked {
        assert Consumable(d, used);
        assert LiveTogether(d.rows[g], d.rows[used]);
      }
      assert Ages(d.rows[g], e.rows[g]);
    }
    OneLiveJoined(d, e, a.newHash);
  }

  lemma NewLoginLeavesOneLive(d: Sessions, e: Sessions, h: Hash)
    requires Inv(d) && OneJoins(d, e, h) && e.rows[h].chain == h
    ensures OneLive(e)
  {
    assert forall g :: g in d.rows ==> RowOk(d, d.rows[g]);
    OneLiveJoined(d, e, h);
  }

  lemma StepKeepsOneLive(d: Sessions, a: Action, s: Settings)
    requires Inv(d) && Enabled(d, a)
    ensures OneLive(Next(d, a, s))
  {
    StepExtends(d, a, s);
    match a
    case Rotate(_, _, _, _) => RotationLeavesOneLive(d, a, s);
    case Login(h, _, _, _) => NewLoginLeavesOneLive(d, Next(d, a, s), h);
    case AdminLogin(h, _, _) => NewLoginLeavesOneLive(d, Next(d, a, s), h);
    case _ => OneLiveKept(d, Next(d, a, s));
  }

  /** What one open rotation needs of the rows. */
  lemma PendingKept(d: Sessions, e: Sessions)
    requires PendingOk(d)
    requires forall r :: r in e.pending ==> r in d.pending && e.pending[r] == d.pending[r] && Consumable(e, e.pending[r])
    ensures PendingOk(e)
  {
  }

  lemma RevokeAllSparesOpenRotations(d: Sessions, a: Action, s: Settings)
    requires Inv(d) && a.RevokeAll? && Enabled(d, a)
    ensures PendingOk(Next(d, a, s))
  {
    var e := Next(d, a, s);
    forall r | r in e.pending ensures Consumable(e, e.pending[r]) {
      assert Consumable(d, d.pending[r]) && Locked(d, d.pending[r]);
    }
    PendingKept(d, e);
  }

  lemma RotationKeepsPending(d: Sessions, a: Action, s: Settings)
    requires Inv(d) && a.Rotate? && Enabled(d, a)
    ensures PendingOk(Next(d, a, s))
  {
    var e := Next(d, a, s);
    forall r | r in e.pending ensures Consumable(e, e.pending[r]) {
      assert Consumable(d, d.pending[r]) && d.pending[r] != d.pending[a.req];
    }
    PendingKept(d, e);
  }

  lemma ConsumptionKeepsPending(d: Sessions, a: Action, s: Settings)
    requires Inv(d) && a.Consume? && Enabled(d, a)
    ensures PendingOk(Next(d, a, s))
  {
    assert forall q :: q in d.pending ==> d.pending[q] != a.hash;
  }

  lemma StepKeepsPending(d: Sessions, a: Action, s: Settings)
    requires Inv(d) && Enabled(d, a)
    ensures PendingOk(Next(d, a, s))
  {
    match a
    case Rotate(_, _, _, _) => RotationKeepsPending(d, a, s);
    case RevokeAll(_) => RevokeAllSparesOpenRotations(d, a, s);
    case Consume(r, h) => ConsumptionKeepsPending(d, a, s);
    case _ => PendingKept(d, Next(d, a, s));
  }

  lemma SpentKept(d: Sessions, e: Sessions)
    requires SpentOk(d) && Extends(d, e) && e.spent == d.spent
    ensures SpentOk(e)
  {
    forall i | 0 <= i < |e.spent| ensures e.spent[i] in e.rows && e.rows[e.spent[i]].revoked {
      assert Ages(d.rows[d.spent[i]], e.rows[d.spent[i]]);
    }
  }

  lemma SpentOneMore(d: Sessions, e: Sessions, h: Hash)
    requires SpentOk(d) && Extends(d, e) && e.spent == d.spent + [h]
    requires h in d.rows && !d.rows[h].revoked && e.rows[h].revoked
    ensures SpentOk(e)
  {
    forall i | 0 <= i < |e.spent| ensures e.spent[i] in e.rows && e.rows[e.spent[i]].revoked {
      if i < |d.spent| { assert Ages(d.rows[d.spent[i]], e.rows[d.spent[i]]); }
    }
  }

  lemma StepKeepsSpent(d: Sessions, a: Action, s: Settings)
    requires Inv(d) && Enabled(d, a)
    ensures SpentOk(Next(d, a, s))
  {
    StepExtends(d, a, s);
    if a.Rotate? {
      assert Consumable(d, d.pending[a.req]);
      RotatedRow(d, a, s);
      SpentOneMore(d, Next(d, a, s), d.pending[a.req]);
    } else {
      SpentKept(d, Next(d, a, s));
    }
  }

  lemma AccessStays(d: Sessions, e: Sessions, access: Access)
    requires Extends(d, e) && AccessOk(d, access)
    ensures AccessOk(e, access)
  {
    assert Ages(d.rows[access.chain], e.rows[access.chain]);
  }

  lemma RotationIssuesOk(d: Sessions, a: Action, s: Settings)
    requires Inv(d) && a.Rotate? && Enabled(d, a)
    ensures AccessOk(d, IssuedAccess(Successor(d.rows[d.pending[a.req]], a.clock, s), Some(d.rows[d.pending[a.req]].expiresAt), a.clock, s))
  {
    var used := d.rows[d.pending[a.req]];
    assert RowOk(d, used) && Consumable(d, d.pending[a.req]);
    SuccessorInherits(used, a.clock, s);
    ExpiryWithinSession(a.clock, s, used.expiresAt);
  }

  lemma StepKeepsIssued(d: Sessions, a: Action, s: Settings)
    requires Inv(d) && Enabled(d, a)
    ensures IssuedOk(Next(d, a, s))
  {
    var e := Next(d, a, s);
    StepExtends(d, a, s);
    if a.Rotate? {
      RotationIssuesOk(d, a, s);
    }
    forall i | 0 <= i < |e.issued| ensures AccessOk(e, e.issued[i]) {
      if i < |d.issued| || a.Rotate? { AccessStays(d, e, e.issued[i]); }
    }
  }

  lemma StepKeepsInv(d: Sessions, a: Action, s: Settings)
    requires Inv(d) && Enabled(d, a)
    ensures Inv(Next(d, a, s))
  {
    StepKeepsChains(d, a, s);
    StepKeepsOneLive(d, a, s);
    StepKeepsPending(d, a, s);
    StepKeepsSpent(d, a, s);
    StepKeepsIssued(d, a, s);
  }

  lemma RunUnfolds(d: Sessions, actions: seq<Action>, s: Settings)
    requires Run(d, actions, s).Some? && actions != []
    ensures Enabled(d, actions[0]) && Run(Next(d, actions[0], s), actions[1..], s) == Run(d, actions, s)
  {
  }

  lemma {:induction false} RunKeepsInv(d: Sessions, actions: seq<Action>, s: Settings)
    requires Inv(d) && Run(d, actions, s).Some?
    ensures Inv(Run(d, actions, s).value) && Extends(d, Run(d, actions, s).value)
    decreases |actions|
  {
    if actions != [] {
      RunUnfolds(d, actions, s);
      var e := Next(d, actions[0], s);
      StepKeepsInv(d, actions[0], s);
      StepExtends(d, actions[0], s);
      RunKeepsInv(e, actions[1..], s);
      ExtendsTransitive(d, e, Run(d, actions, s).value);
    }
  }

  // ---- Main results -------------------------------------------------------------------------

  function Count(hs: seq<Hash>, h: Hash): (n: nat)
    ensures n > 0 <==> h in hs
  {
    if hs == [] then 0 else (if hs[0] == h then 1 else 0) + Count(hs[1..], h)
  }

  lemma {:induction false} DistinctCount(hs: seq<Hash>, h: Hash)
    requires forall i, j :: 0 <= i < j < |hs| ==> hs[i] != hs[j]
    ensures Count(hs, h) <= 1
  {
    if hs != [] {
      DistinctCount(hs[1..], h);
      if hs[0] == h { assert h !in hs[1..]; }
    }
  }

  /** In every run each token is spent at most once, and a spent token stays revoked. */
  lemma SpentAtMostOnce(actions: seq<Action>, s: Settings, h: Hash)
    requires Run(EMPTY, actions, s).Some?
    ensures var d := Run(EMPTY, actions, s).value;
            Count(d.spent, h) <= 1 && (h in d.spent ==> h in d.rows && d.rows[h].revoked && d.rows[h].web)
  {
    RunKeepsInv(EMPTY, actions, s);
    DistinctCount(Run(EMPTY, actions, s).value.spent, h);
    SpentAreWeb(EMPTY, actions, s);
  }

  predicate SpentWeb(d: Sessions) {
    forall i :: 0 <= i < |d.spent| ==> d.spent[i] in d.rows && d.rows[d.spent[i]].web
  }

  lemma StepKeepsSpentWeb(d: Sessions, a: Action, s: Settings)
    requires Inv(d) && SpentWeb(d) && Enabled(d, a)
    ensures SpentWeb(Next(d, a, s))
  {
    StepExtends(d, a, s);
    if a.Rotate? { assert Consumable(d, d.pending[a.req]); }
  }

  /** No administrator session is rotated by the web endpoint. */
  lemma {:induction false} SpentAreWeb(d: Sessions, actions: seq<Action>, s: Settings)
    requires Inv(d) && SpentWeb(d) && Run(d, actions, s).Some?
    ensures SpentWeb(Run(d, actions, s).value)
    decreases |actions|
  {
    if actions != [] {
      RunUnfolds(d, actions, s);
      StepKeepsInv(d, actions[0], s);
      StepKeepsSpentWeb(d, actions[0], s);
      SpentAreWeb(Next(d, actions[0], s), actions[1..], s);
    }
  }

  /** At most one live token per login, however many rotations are open at once. */
  lemma OneLiveTokenPerChain(actions: seq<Action>, s: Settings, h: Hash, g: Hash)
    requires Run(EMPTY, actions, s).Some?
    requires var d := Run(EMPTY, actions, s).value;
             h in d.rows && g in d.rows && d.rows[h].chain == d.rows[g].chain && h != g
    ensures var d := Run(EMPTY, actions, s).value; d.rows[h].revoked || d.rows[g].revoked
  {
    RunKeepsInv(EMPTY, actions, s);
  }

  /** Rotation extends neither the session nor the second-factor window, and an access
      token it issues ends no later than the session. */
  lemma ChainNeverExtends(actions: seq<Action>, s: Settings)
    requires Run(EMPTY, actions, s).Some?
    ensures var d := Run(EMPTY, actions, s).value;
            && (forall h :: h in d.rows ==> d.rows[h].chain in d.rows && Inherits(d.rows[h], d.rows[d.rows[h].chain]))
            && (forall a :: a in d.issued ==> a.chain in d.rows)
            && (forall a :: a in d.issued && a.rotated ==> a.exp * MICRO <= d.rows[a.chain].expiresAt)
            && (forall a :: a in d.issued && a.mfaAt.Some? ==>
                  d.rows[a.chain].mfaAt.Some? && a.mfaAt.value == d.rows[a.chain].mfaAt.value / MICRO)
  {
    RunKeepsInv(EMPTY, actions, s);
    var d := Run(EMPTY, actions, s).value;
    forall h | h in d.rows ensures d.rows[h].chain in d.rows && Inherits(d.rows[h], d.rows[d.rows[h].chain]) {
      assert RowOk(d, d.rows[h]);
    }
    forall a | a in d.issued ensures AccessOk(d, a) {
    }
  }

  /** The matched rows survive until the revoke-all commits. */
  lemma {:induction false} MatchedStays(d: Sessions, actions: seq<Action>, s: Settings, req: Request)
    requires req in d.revoking && Run(d, actions, s).Some? && RevokeAll(req) !in actions
    ensures req in Run(d, actions, s).value.revoking && Run(d, actions, s).value.revoking[req] == d.revoking[req]
    decreases |actions|
  {
    if actions != [] {
      assert actions[0] != RevokeAll(req);
      MatchedStays(Next(d, actions[0], s), actions[1..], s, req);
    }
  }

  /** The rows matched are dead after the revoke-all, and rows dead before stay so. */
  lemma MatchedDie(d: Sessions, w: Sessions, user: nat, req: Request, s: Settings)
    requires Extends(d, w) && Enabled(w, RevokeAll(req)) && w.revoking[req] == LiveOf(d, user)
    ensures var e := Next(w, RevokeAll(req), s);
            forall h :: h in d.rows && d.rows[h].user == user ==> h in e.rows && e.rows[h].revoked
  {
    forall h | h in d.rows && d.rows[h].user == user
      ensures h in Next(w, RevokeAll(req), s).rows && Next(w, RevokeAll(req), s).rows[h].revoked
    {
      assert Ages(d.rows[h], w.rows[h]);
    }
  }

  /** After a revoke-all, every token the user had when its UPDATE began is dead: a token
      still live was stored after that. */
  lemma RevokeAllKillsEarlierTokens(d: Sessions, user: nat, between: seq<Action>, req: Request, s: Settings)
    requires Inv(d) && req !in d.revoking && RevokeAll(req) !in between
    requires Run(Next(d, MatchAll(req, user), s), between, s).Some?
    requires Enabled(Run(Next(d, MatchAll(req, user), s), between, s).value, RevokeAll(req))
    ensures var e := Next(Run(Next(d, MatchAll(req, user), s), between, s).value, RevokeAll(req), s);
            forall h :: h in e.rows && e.rows[h].user == user && !e.rows[h].revoked ==> h !in d.rows
  {
    var m := Next(d, MatchAll(req, user), s);
    var w := Run(m, between, s).value;
    StepKeepsInv(d, MatchAll(req, user), s);
    RunKeepsInv(m, between, s);
    MatchedStays(m, between, s, req);
    StepExtends(w, RevokeAll(req), s);
    MatchedDie(m, w, user, req, s);
    SameUser(m, w, Next(w, RevokeAll(req), s), user);
  }

  lemma SameUser(m: Sessions, w: Sessions, e: Sessions, user: nat)
    requires Extends(m, w) && Extends(w, e)
    requires forall h :: h in m.rows && m.rows[h].user == user ==> h in e.rows && e.rows[h].revoked
    ensures forall h :: h in e.rows && e.rows[h].user == user && !e.rows[h].revoked ==> h !in m.rows
  {
    forall h | h in m.rows && h in e.rows && e.rows[h].user == user ensures e.rows[h].revoked {
      assert Ages(m.rows[h], w.rows[h]) && Ages(w.rows[h], e.rows[h]);
    }
  }

  /** The step stores a new live token of the user. */
  predicate Issues(d: Sessions, a: Action, user: nat) {
    match a
    case Login(_, u, _, _) => u == user
    case AdminLogin(_, u, _) => u == user
    case Rotate(r, _, _, _) => r in d.pending && d.pending[r] in d.rows && d.rows[d.pending[r]].user == user
    case _ => false
  }

  /** The step is a revoke-all that matched tokens of the user. */
  predicate Revokes(d: Sessions, a: Action, user: nat) {
    a.RevokeAll? && a.req in d.revoking &&
    exists h :: h in d.revoking[a.req] && h in d.rows && d.rows[h].user == user
  }

  predicate IssuedIn(d: Sessions, actions: seq<Action>, user: nat, s: Settings)
    requires Run(d, actions, s).Some?
    decreases |actions|
  {
    actions != [] && (Issues(d, actions[0], user) || IssuedIn(Next(d, actions[0], s), actions[1..], user, s))
  }

  predicate RevokedIn(d: Sessions, actions: seq<Action>, user: nat, s: Settings)
    requires Run(d, actions, s).Some?
    decreases |actions|
  {
    actions != [] && (Revokes(d, actions[0], user) || RevokedIn(Next(d, actions[0], s), actions[1..], user, s))
  }

  /** A live token of the user that is not among `known`. */
  predicate HasNew(d: Sessions, user: nat, known: set<Hash>) {
    exists h :: h in LiveOf(d, user) && h !in known
  }

  lemma IssuingGivesNew(d: Sessions, a: Action, user: nat, known: set<Hash>, s: Settings)
    requires Inv(d) && Enabled(d, a) && Issues(d, a, user) && known <= d.rows.Keys
    ensures HasNew(Next(d, a, s), user, known)
  {
    var e := Next(d, a, s);
    var h := if a.Rotate? then a.newHash else a.hash;
    assert h in LiveOf(e, user) && h !in known;
  }

  /** A new live token is only ever replaced by a newer one. */
  lemma StepKeepsNew(d: Sessions, a: Action, user: nat, known: set<Hash>, s: Settings)
    requires Inv(d) && Enabled(d, a) && !Revokes(d, a, user) && known <= d.rows.Keys
    requires HasNew(d, user, known) && !Issues(d, a, user)
    ensures HasNew(Next(d, a, s), user, known)
  {
    var h :| h in LiveOf(d, user) && h !in known;
    LiveStays(d, a, user, h, s);
    assert h in LiveOf(Next(d, a, s), user);
  }

  lemma LiveStays(d: Sessions, a: Action, user: nat, h: Hash, s: Settings)
    requires Enabled(d, a) && !Revokes(d, a, user) && !Issues(d, a, user) && h in LiveOf(d, user)
    ensures h in Next(d, a, s).rows && Next(d, a, s).rows[h] == d.rows[h]
  {
    if a.RevokeAll? {
      assert h !in d.revoking[a.req];
    } else if a.Rotate? {
      assert d.pending[a.req] != h;
    }
  }

  lemma {:induction false} IssuedStaysNew(d: Sessions, actions: seq<Action>, user: nat, known: set<Hash>, s: Settings)
    requires Inv(d) && Run(d, actions, s).Some? && known <= d.rows.Keys && !RevokedIn(d, actions, user, s)
    requires HasNew(d, user, known) || IssuedIn(d, actions, user, s)
    ensures HasNew(Run(d, actions, s).value, user, known)
    decreases |actions|
  {
    if actions != [] {
      RunUnfolds(d, actions, s);
      var e := Next(d, actions[0], s);
      StepKeepsInv(d, actions[0], s);
      StepExtends(d, actions[0], s);
      if Issues(d, actions[0], user) {
        IssuingGivesNew(d, actions[0], user, known, s);
      } else if HasNew(d, user, known) {
        StepKeepsNew(d, actions[0], user, known, s);
      }
      IssuedStaysNew(e, actions[1..], user, known, s);
    }
  }

  lemma StepAddsNoToken(d: Sessions, a: Action, user: nat, s: Settings)
    requires Inv(d) && Enabled(d, a) && !Issues(d, a, user)
    ensures forall h :: h in LiveOf(Next(d, a, s), user) ==> h in d.rows && d.rows[h].user == user
  {
    if a.Rotate? {
      assert Consumable(d, d.pending[a.req]);
    }
  }

  lemma {:induction false} UnissuedAddsNoToken(d: Sessions, actions: seq<Action>, user: nat, s: Settings)
    requires Inv(d) && Run(d, actions, s).Some? && !IssuedIn(d, actions, user, s)
    ensures forall h :: h in LiveOf(Run(d, actions, s).value, user) ==> h in d.rows
    decreases |actions|
  {
    if actions != [] {
      RunUnfolds(d, actions, s);
      var e := Next(d, actions[0], s);
      StepKeepsInv(d, actions[0], s);
      UnissuedAddsNoToken(e, actions[1..], user, s);
      RunKeepsInv(e, actions[1..], s);
      OldTokens(d, actions[0], user, Run(e, actions[1..], s).value, s);
    }
  }

  /** A live token of the end that was there after one quiet step was there before it. */
  lemma OldTokens(d: Sessions, a: Action, user: nat, end: Sessions, s: Settings)
    requires Inv(d) && Enabled(d, a) && !Issues(d, a, user) && Extends(Next(d, a, s), end)
    requires forall h :: h in LiveOf(end, user) ==> h in Next(d, a, s).rows
    ensures forall h :: h in LiveOf(end, user) ==> h in d.rows
  {
    var e := Next(d, a, s);
    StepAddsNoToken(d, a, user, s);
    forall h | h in LiveOf(end, user) ensures h in d.rows {
      assert Ages(e.rows[h], end.rows[h]);
      assert h in LiveOf(e, user);
    }
  }

  /** The final revoke-all takes nothing that was stored after its UPDATE began. */
  lemma RevokeAllSparesNew(w: Sessions, req: Request, user: nat, known: set<Hash>, s: Settings)
    requires Enabled(w, RevokeAll(req)) && w.revoking[req] <= known && HasNew(w, user, known)
    ensures HasNew(Next(w, RevokeAll(req), s), user, known)
  {
    var h :| h in LiveOf(w, user) && h !in known;
    assert h in LiveOf(Next(w, RevokeAll(req), s), user);
  }

  /** A revoke-all leaves the user without a live token exactly when no login and no
      rotation of the user committed while it ran, whether the rotation was open
      before or began meanwhile; `between` is what happened between the start of its
      UPDATE and its end, with no other revoke-all of the user's tokens. */
  lemma RevokeAllCompleteIffNothingIssued(d: Sessions, user: nat, between: seq<Action>, req: Request, s: Settings)
    requires Inv(d) && req !in d.revoking && RevokeAll(req) !in between
    requires Run(Next(d, MatchAll(req, user), s), between, s).Some?
    requires !RevokedIn(Next(d, MatchAll(req, user), s), between, user, s)
    requires Enabled(Run(Next(d, MatchAll(req, user), s), between, s).value, RevokeAll(req))
    ensures LiveOf(Next(Run(Next(d, MatchAll(req, user), s), between, s).value, RevokeAll(req), s), user) == {}
      <==> !IssuedIn(Next(d, MatchAll(req, user), s), between, user, s)
  {
    var m := Next(d, MatchAll(req, user), s);
    var w := Run(m, between, s).value;
    var e := Next(w, RevokeAll(req), s);
    StepKeepsInv(d, MatchAll(req, user), s);
    RunKeepsInv(m, between, s);
    MatchedStays(m, between, s, req);
    if IssuedIn(m, between, user, s) {
      IssuedStaysNew(m, between, user, d.rows.Keys, s);
      RevokeAllSparesNew(w, req, user, d.rows.Keys, s);
    } else {
      UnissuedAddsNoToken(m, between, user, s);
      RevokeAllKillsEarlierTokens(d, user, between, req, s);
      OldTokens(w, RevokeAll(req), user, e, s);
      NoneLeft(d, m, w, e, user);
    }
  }

  lemma NoneLeft(d: Sessions, m: Sessions, w: Sessions, e: Sessions, user: nat)
    requires m.rows == d.rows && Extends(w, e)
    requires forall h :: h in LiveOf(w, user) ==> h in m.rows
    requires forall h :: h in LiveOf(e, user) ==> h in w.rows
    requires forall h :: h in e.rows && e.rows[h].user == user && !e.rows[h].revoked ==> h !in d.rows
    ensures LiveOf(e, user) == {}
  {
    assert forall h :: h in w.rows ==> Ages(w.rows[h], e.rows[h]);
    assert LiveOf(e, user) <= LiveOf(w, user);
  }

  /** A login of the user that commits while a revoke-all runs keeps its token. */
  lemma LoginDuringRevokeAllSurvives(s: Settings, h: Hash, other: Hash, user: nat, req: Request, clock: nat)
    requires h != other
    ensures var end := Run(EMPTY, [Login(h, user, false, clock), MatchAll(req, user), Login(other, user, false, clock), RevokeAll(req)], s);
            end.Some? && LiveOf(end.value, user) == {other}
  {
    var a := [Login(h, user, false, clock), MatchAll(req, user), Login(other, user, false, clock), RevokeAll(req)];
    var d1 := Next(EMPTY, a[0], s);
    assert LiveOf(d1, user) == {h};
    var d2 := Next(d1, a[1], s);
    var d3 := Next(d2, a[2], s);
    assert d3.revoking[req] == {h} && !Locked(d3, h);
    var d4 := Next(d3, a[3], s);
    assert a[3..] == [a[3]] && a[2..][1..] == a[3..] && a[1..][1..] == a[2..];
    RunOne(d3, a[3], s);
    assert Run(d2, a[2..], s) == Some(d4);
    assert Run(d1, a[1..], s) == Some(d4);
  }

  lemma RotationCloses(c: Sessions, a: Action, s: Settings)
    requires Inv(c) && a.Rotate? && Enabled(c, a)
    ensures var e := Next(c, a, s);
            Inv(e) && e.pending == c.pending - {a.req} && !Consumable(e, c.pending[a.req]) && Consumable(e, a.newHash) &&
            e.rows[a.newHash].chain == c.rows[c.pending[a.req]].chain && |e.issued| > 0
  {
    StepKeepsInv(c, a, s);
    RotatedRow(c, a, s);
  }

  /** With nobody else acting, a consumption rolled back leaves everything as it was. */
  lemma RollBackOutcome(d: Sessions, req: Request, h: Hash, s: Settings)
    requires Inv(d) && Enabled(d, Consume(req, h))
    ensures Next(Next(d, Consume(req, h), s), RollBack(req), s) == d
  {
    assert d.pending[req := h] - {req} == d.pending;
  }

  lemma {:induction false} RunConcat(d: Sessions, a: seq<Action>, b: seq<Action>, s: Settings)
    requires Run(d, a, s).Some?
    ensures Run(d, a + b, s) == Run(Run(d, a, s).value, b, s)
    decreases |a|
  {
    if a == [] {
      assert a + b == b;
    } else {
      assert (a + b)[1..] == a[1..] + b;
      RunUnfolds(d, a, s);
      RunConcat(Next(d, a[0], s), a[1..], b, s);
    }
  }

  lemma RunOne(d: Sessions, a: Action, s: Settings)
    requires Enabled(d, a)
    ensures Run(d, [a], s) == Some(Next(d, a, s))
  {
    assert [a][1..] == [];
    assert Run(Next(d, a, s), [], s) == Some(Next(d, a, s));
  }

  // ---- The endpoint, in one transaction ------------------------------------------------------

  datatype AuthError = TokenInvalid | TokenExpired | UserNotFound | AccountLocked

  /** What the transaction reads about the account. */
  datatype Account = Account(found: bool, lockActive: bool, admissionActive: bool, rolesValid: bool)

  predicate Admitted(account: Account) {
    account.found && !account.lockActive && account.admissionActive && account.rolesValid
  }

  function Refusal(expired: bool, account: Account): AuthError {
    if expired then TokenExpired
    else if !account.found then UserNotFound
    else if account.lockActive || !account.admissionActive then AccountLocked
    else TokenInvalid
  }

  class AuthDb {
    var d: Sessions
    const s: Settings

    constructor (s: Settings)
      ensures d == EMPTY && this.s == s && Inv(d)
    {
      this.s := s;
      d := EMPTY;
    }

    /** `consume_once`: the row count of the guarded UPDATE is one. */
    method ConsumeOnce(req: Request, h: Hash) returns (ok: bool)
      requires Inv(d) && req !in d.pending && !Locked(d, h)
      modifies this`d
      ensures ok <==> Consumable(old(d), h)
      ensures d == if ok then Next(old(d), Consume(req, h), s) else old(d)
      ensures Inv(d)
    {
      ok := h in d.rows && !d.rows[h].revoked && d.rows[h].web;
      if ok {
        StepKeepsInv(d, Consume(req, h), s);
        d := d.(pending := d.pending[req := h]);
      }
    }

    /** The awaits of an open rotation: others go on, but leave its row locked as it is
        and do not act in its name. (The body is the case of no step.) */
    method AwaitRotation(req: Request, newHash: Hash) returns (ghost between: seq<Action>)
      requires Inv(d) && req in d.pending && newHash !in d.rows
      modifies this`d
      ensures Inv(d) && Run(old(d), between, s) == Some(d)
      ensures req in d.pending && d.pending[req] == old(d.pending[req]) && newHash !in d.rows
      ensures d.pending[req] in old(d).rows && d.rows[d.pending[req]] == old(d).rows[d.pending[req]]
    {
      between := [];
    }

    /** `refresh_access_token`: on success one token for another; on any error after the
        consumption the rollback gives the token back. `length` is that of the raw token;
        `between` is what others commit meanwhile. */
    method RefreshAccessToken(req: Request, length: nat, h: Hash, newHash: Hash, now: nat, clock: nat, account: Account)
      returns (r: Result<Access, AuthError>, ghost between: seq<Action>, ghost at: Sessions)
      requires Inv(d) && req !in d.pending && !Locked(d, h) && newHash !in d.rows
      modifies this`d
      ensures Inv(d)
      ensures r.Success? <==>
                && 0 < length <= 128 && Consumable(old(d), h) && now < old(d).rows[h].expiresAt
                && Admitted(account)
      ensures r == Failure(TokenExpired) <==> 0 < length <= 128 && Consumable(old(d), h) && old(d).rows[h].expiresAt <= now
      ensures !(0 < length <= 128 && Consumable(old(d), h)) ==> r == Failure(TokenInvalid) && d == old(d)
      ensures 0 < length <= 128 && Consumable(old(d), h) ==>
                Run(Next(old(d), Consume(req, h), s), between, s) == Some(at) && req in at.pending && at.pending[req] == h
                && h in at.rows && at.rows[h] == old(d).rows[h]
      ensures r.Failure? && 0 < length <= 128 && Consumable(old(d), h) ==> d == Next(at, RollBack(req), s) && Consumable(d, h)
      ensures r.Success? ==>
                && Enabled(at, Rotate(req, newHash, now, clock)) && d == Next(at, Rotate(req, newHash, now, clock), s)
                && !Consumable(d, h) && Consumable(d, newHash) && d.rows[newHash].chain == old(d).rows[h].chain
                && r.value == d.issued[|d.issued| - 1]
    {
      between, at := [], d;
      if !(0 < length <= 128) {
        return Failure(TokenInvalid), between, at;
      }
      var ok := ConsumeOnce(req, h);
      if !ok {
        return Failure(TokenInvalid), between, at;
      }
      between := AwaitRotation(req, newHash);
      at := d;
      var stored := d.rows[h];
      if stored.expiresAt <= now || !Admitted(account) {
        FailsWith(req);
        return Failure(Refusal(stored.expiresAt <= now, account)), between, at;
      }
      RotationCloses(d, Rotate(req, newHash, now, clock), s);
      var access := IssueSessionTokens(req, newHash, now, clock);
      r := Success(access);
    }

    /** An error raised after the consumption: the row is unlocked, as it was. */
    method FailsWith(req: Request)
      requires Inv(d) && req in d.pending
      modifies this`d
      ensures d == Next(old(d), RollBack(req), s) && Inv(d)
      ensures d.rows == old(d).rows && Consumable(d, old(d).pending[req])
    {
      StepKeepsInv(d, RollBack(req), s);
      RollBackTransaction(req);
    }

    /** `issue_session_tokens` for the open rotation, and the commit. */
    method IssueSessionTokens(req: Request, newHash: Hash, now: nat, clock: nat) returns (access: Access)
      requires Enabled(d, Rotate(req, newHash, now, clock))
      modifies this`d
      ensures d == Next(old(d), Rotate(req, newHash, now, clock), s)
      ensures d.issued == old(d).issued + [access]
    {
      var h := d.pending[req];
      var stored := d.rows[h];
      var row := Successor(stored, clock, s);
      access := IssuedAccess(row, Some(stored.expiresAt), clock, s);
      d := d.(rows := d.rows[h := stored.(revoked := true)][newHash := row], pending := d.pending - {req},
              spent := d.spent + [h], issued := d.issued + [access]);
    }

    /** The session dependency's rollback: the consumption never happened. */
    method RollBackTransaction(req: Request)
      requires req in d.pending
      modifies this`d
      ensures d == Next(old(d), RollBack(req), s)
    {
      d := d.(pending := d.pending - {req});
    }

    /** The UPDATE of revoke-all waits for the locks of the rows it matched, and others
        go on meanwhile: `between` is what they commit. (The body is the case where
        every open rotation is rolled back; callers only see the contract.) */
    method AwaitLocks(req: Request) returns (ghost between: seq<Action>)
      requires Inv(d) && req in d.revoking
      modifies this`d
      ensures Inv(d) && Run(old(d), between, s) == Some(d)
      ensures RevokeAll(req) !in between && Enabled(d, RevokeAll(req))
    {
      between := [];
      while d.pending != map[]
        invariant Inv(d) && req in d.revoking
        invariant Run(old(d), between, s) == Some(d) && RevokeAll(req) !in between
        decreases d.pending.Keys
      {
        var r :| r in d.pending;
        StepKeepsInv(d, RollBack(r), s);
        RunOne(d, RollBack(r), s);
        RunConcat(old(d), between, [RollBack(r)], s);
        RollBackTransaction(r);
        between := between + [RollBack(r)];
      }
    }

    /** `revoke_all_refresh_tokens`: every token the user had is dead, and the user is
        left without any exactly if none was issued meanwhile. */
    method RevokeAllRefreshTokens(req: Request, user: nat) returns (ghost between: seq<Action>)
      requires Inv(d) && req !in d.revoking
      modifies this`d
      ensures Inv(d) && Run(Next(old(d), MatchAll(req, user), s), between, s).Some?
      ensures forall h :: h in LiveOf(d, user) ==> h !in old(d).rows
      ensures !RevokedIn(Next(old(d), MatchAll(req, user), s), between, user, s) ==>
        (LiveOf(d, user) == {} <==> !IssuedIn(Next(old(d), MatchAll(req, user), s), between, user, s))
    {
      StepKeepsInv(d, MatchAll(req, user), s);
      d := d.(revoking := d.revoking[req := LiveOf(d, user)]);
      between := AwaitLocks(req);
      StepKeepsInv(d, RevokeAll(req), s);
      RevokeAllKillsEarlierTokens(old(d), user, between, req, s);
      if !RevokedIn(Next(old(d), MatchAll(req, user), s), between, user, s) {
        RevokeAllCompleteIffNothingIssued(old(d), user, between, req, s);
      }
      d := d.(rows := Revoked(d.rows, d.revoking[req]), revoking := d.revoking - {req});
    }
  }
}
