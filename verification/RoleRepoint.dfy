/**
 * Re-pointing role assignments from a global tier template to the workspace's own copy of it (db/seeds/bootstrap.ts), on
 * a table whose unique key treats every NULL scope as distinct (db/schema/access.ts).
 */
module RoleRepoint {
  import opened Wrappers

  type RowId = nat
  type RoleId = nat
  type UserId = nat
  type Workspace = nat

  datatype Assignment = Assignment(workspace: Workspace, user: UserId, role: RoleId, scopeType: string, scopeId: Option<nat>)

  type Assignments = map<RowId, Assignment>

  /** A role: a global template when it has no workspace. */
  datatype Role = Role(id: RoleId, slug: string, workspace: Option<Workspace>)

  /** uq_ura_user_role_scope: two rows with no scope id never collide. */
  predicate UniqueKey(t: Assignments) {
    forall a <- t, b <- t ::
      a != b && t[a].scopeId.Some? ==>
        (t[a].user, t[a].role, t[a].scopeType, t[a].scopeId) != (t[b].user, t[b].role, t[b].scopeType, t[b].scopeId)
  }

  /** Two rows with one user, role, scope type and scope id are one row, unless that scope id is NULL. */
  lemma UniqueKeyIs(t: Assignments)
    ensures UniqueKey(t) <==>
              forall a <- t, b <- t ::
                (&& t[a].scopeId != None && t[a].user == t[b].user && t[a].role == t[b].role
                 && t[a].scopeType == t[b].scopeType && t[a].scopeId == t[b].scopeId) ==> a == b
  {}

  // ── The two statements ─────────────────────────────────────────────────────

  /** `IS NOT DISTINCT FROM` on the scope id: here two NULLs are the same. */
  predicate IsTwin(a: Assignment, b: Assignment, copy: RoleId) {
    b.user == a.user && b.role == copy && b.scopeType == a.scopeType && b.scopeId == a.scopeId
  }

  predicate IsTemplateRow(a: Assignment, w: Workspace, global: RoleId) {
    a.role == global && a.workspace == w
  }

  function DeleteTwins(t: Assignments, w: Workspace, global: RoleId, copy: RoleId): Assignments {
    map id <- t | !(IsTemplateRow(t[id], w, global) && exists b <- t :: IsTwin(t[id], t[b], copy)) :: t[id]
  }

  function MoveRest(t: Assignments, w: Workspace, global: RoleId, copy: RoleId): Assignments {
    map id <- t :: if IsTemplateRow(t[id], w, global) then t[id].(role := copy) else t[id]
  }

  function Repoint(t: Assignments, w: Workspace, global: RoleId, copy: RoleId): Assignments {
    MoveRest(DeleteTwins(t, w, global, copy), w, global, copy)
  }

  // ── One tier ───────────────────────────────────────────────────────────────

  /** Does the user hold one of these roles, in this scope, through a row of this workspace? */
  ghost predicate Holds(t: Assignments, w: Workspace, roles: set<RoleId>, user: UserId, scopeType: string, scopeId: Option<nat>) {
    exists id <- t :: t[id].workspace == w && t[id].role in roles && t[id].user == user
                      && t[id].scopeType == scopeType && t[id].scopeId == scopeId
  }

  /** The rows of the copy role belong to its workspace. */
  ghost predicate CopyIsLocal(t: Assignments, w: Workspace, copy: RoleId) {
    forall id <- t :: t[id].role == copy ==> t[id].workspace == w
  }

  /** Neither statement ever violates the key: the twins that would collide are gone before the rest moves. */
  lemma KeyHoldsAfterEachStatement(t: Assignments, w: Workspace, global: RoleId, copy: RoleId)
    requires UniqueKey(t)
    ensures UniqueKey(DeleteTwins(t, w, global, copy)) && UniqueKey(Repoint(t, w, global, copy))
  {
    var d := DeleteTwins(t, w, global, copy);
    var m := MoveRest(d, w, global, copy);
    forall a <- m, b <- m | a != b && m[a].scopeId.Some?
      ensures (m[a].user, m[a].role, m[a].scopeType, m[a].scopeId) != (m[b].user, m[b].role, m[b].scopeType, m[b].scopeId)
    {
      assert (t[a].user, t[a].role, t[a].scopeType, t[a].scopeId) != (t[b].user, t[b].role, t[b].scopeType, t[b].scopeId);
      assert IsTemplateRow(t[a], w, global) ==> !IsTwin(t[a], t[b], copy);
      assert IsTemplateRow(t[b], w, global) ==> !IsTwin(t[b], t[a], copy);
    }
  }

  /** Every grant held before, through the template or the copy, is held after through the copy, and no other. */
  lemma GrantsAreKept(
    t: Assignments, w: Workspace, global: RoleId, copy: RoleId, user: UserId, scopeType: string, scopeId: Option<nat>)
    requires global != copy && CopyIsLocal(t, w, copy)
    ensures Holds(t, w, {global, copy}, user, scopeType, scopeId)
            <==> Holds(Repoint(t, w, global, copy), w, {copy}, user, scopeType, scopeId)
  {
    var d := DeleteTwins(t, w, global, copy);
    var m := MoveRest(d, w, global, copy);
    if Holds(t, w, {global, copy}, user, scopeType, scopeId) {
      var id :| id in t && t[id].workspace == w && t[id].role in {global, copy} && t[id].user == user
                && t[id].scopeType == scopeType && t[id].scopeId == scopeId;
      if id in d {
        assert m[id].role == copy && m[id].workspace == w;
      } else {
        var b :| b in t && IsTwin(t[id], t[b], copy);
        assert b in d && m[b] == t[b] && t[b].workspace == w;
      }
    }
    if Holds(m, w, {copy}, user, scopeType, scopeId) {
      var id :| id in m && m[id].workspace == w && m[id].role in {copy} && m[id].user == user
                && m[id].scopeType == scopeType && m[id].scopeId == scopeId;
      assert id in t && t[id].role in {global, copy};
    }
  }

  /** The condition is needed: a row of the copy role in another workspace makes this workspace lose the grant. */
  lemma ForeignTwinLosesTheGrant(w: Workspace, other: Workspace, global: RoleId, copy: RoleId, user: UserId, scopeType: string)
    requires w != other && global != copy
    ensures var t := map[0 := Assignment(w, user, global, scopeType, None), 1 := Assignment(other, user, copy, scopeType, None)];
            && UniqueKey(t)
            && Holds(t, w, {global, copy}, user, scopeType, None)
            && !Holds(Repoint(t, w, global, copy), w, {copy}, user, scopeType, None)
  {
    var t: Assignments := map[0 := Assignment(w, user, global, scopeType, None), 1 := Assignment(other, user, copy, scopeType, None)];
    assert t[0].workspace == w && IsTwin(t[0], t[1], copy);
    var d := DeleteTwins(t, w, global, copy);
    assert 0 !in d;
    assert d.Keys <= {1};
  }

  /**
   * Exactly when the workspace loses a grant: some template row of it has a twin of the copy role, and every such twin is
   * in another workspace.
   */
  lemma GrantLostIff(
    t: Assignments, w: Workspace, global: RoleId, copy: RoleId, user: UserId, scopeType: string, scopeId: Option<nat>)
    requires global != copy && Holds(t, w, {global, copy}, user, scopeType, scopeId)
    ensures !Holds(Repoint(t, w, global, copy), w, {copy}, user, scopeType, scopeId) <==>
              && (exists b <- t :: IsTwin(Assignment(w, user, global, scopeType, scopeId), t[b], copy))
              && (forall b <- t :: IsTwin(Assignment(w, user, global, scopeType, scopeId), t[b], copy) ==> t[b].workspace != w)
  {
    var a := Assignment(w, user, global, scopeType, scopeId);
    var d := DeleteTwins(t, w, global, copy);
    var m := MoveRest(d, w, global, copy);
    var id :| id in t && t[id].workspace == w && t[id].role in {global, copy} && t[id].user == user
              && t[id].scopeType == scopeType && t[id].scopeId == scopeId;
    if b :| b in t && IsTwin(a, t[b], copy) && t[b].workspace == w {
      assert b in d && m[b] == t[b];
    } else if b :| b in t && IsTwin(a, t[b], copy) {
      assert forall k <- m :: IsTemplateRow(t[k], w, global) ==> !IsTwin(t[k], t[b], copy);
      assert forall k <- m :: !IsTemplateRow(t[k], w, global) ==> m[k] == t[k];
    } else {
      assert t[id].role == global by { assert !IsTwin(a, t[id], copy); }
      assert id in d && m[id] == t[id].(role := copy);
    }
  }

  /** No row of the workspace still points at the template, and rows of other workspaces or roles are as they were. */
  lemma OnlyTemplateRowsChange(t: Assignments, w: Workspace, global: RoleId, copy: RoleId)
    requires global != copy
    ensures var r := Repoint(t, w, global, copy);
            && (forall id <- r :: !IsTemplateRow(r[id], w, global))
            && (forall id <- t :: !IsTemplateRow(t[id], w, global) ==> id in r && r[id] == t[id])
            && (forall id <- r :: id in t && (r[id] == t[id] || (IsTemplateRow(t[id], w, global) && r[id] == t[id].(role := copy))))
  {}

  /** A row of another workspace or another role is as it was, and what changed has only another role. */
  lemma OthersAreAsTheyWere(t: Assignments, w: Workspace, global: RoleId, copy: RoleId, id: RowId)
    requires global != copy && id in t
    ensures var r := Repoint(t, w, global, copy);
            && (t[id].workspace != w || t[id].role != global ==> id in r && r[id] == t[id])
            && (t[id].workspace == w && t[id].role == global ==>
                  var twin := exists b <- t ::
                    t[b].user == t[id].user && t[b].role == copy && t[b].scopeType == t[id].scopeType && t[b].scopeId == t[id].scopeId;
                  if twin then id !in r
                  else id in r && r[id] == Assignment(w, t[id].user, copy, t[id].scopeType, t[id].scopeId))
  {}

  lemma NothingToMove(t: Assignments, w: Workspace, global: RoleId, copy: RoleId)
    requires forall id <- t :: !IsTemplateRow(t[id], w, global)
    ensures Repoint(t, w, global, copy) == t
  {
    assert DeleteTwins(t, w, global, copy) == t;
  }

  // ── The loop over the tiers ────────────────────────────────────────────────

  function FindRole(roles: seq<Role>, slug: string, workspace: Option<Workspace>): Option<RoleId> {
    if roles == [] then None
    else if roles[0].slug == slug && roles[0].workspace == workspace then Some(roles[0].id)
    else FindRole(roles[1..], slug, workspace)
  }

  function RepointSlug(t: Assignments, roles: seq<Role>, w: Workspace, slug: string): Assignments {
    var global, copy := FindRole(roles, slug, None), FindRole(roles, slug, Some(w));
    if global.None? || copy.None? then t else Repoint(t, w, global.value, copy.value)
  }

  function RepointAll(t: Assignments, roles: seq<Role>, w: Workspace, slugs: seq<string>): Assignments
    decreases |slugs|
  {
    if slugs == [] then t else RepointAll(RepointSlug(t, roles, w, slugs[0]), roles, w, slugs[1..])
  }

  ghost predicate UniqueRoleIds(roles: seq<Role>) {
    forall i, j :: 0 <= i < j < |roles| ==> roles[i].id != roles[j].id
  }

  lemma {:induction false} FindRoleIs(roles: seq<Role>, slug: string, workspace: Option<Workspace>)
    ensures var r := FindRole(roles, slug, workspace);
            r.Some? ==> Role(r.value, slug, workspace) in roles
  {
    if roles != [] { FindRoleIs(roles[1..], slug, workspace); }
  }

  /** The first role of that slug and workspace, or none if there is none. */
  lemma {:induction false} FindRoleFinds(roles: seq<Role>, slug: string, workspace: Option<Workspace>)
    ensures FindRole(roles, slug, workspace) == None <==> forall r <- roles :: r.slug != slug || r.workspace != workspace
    ensures FindRole(roles, slug, workspace) != None ==>
              Role(FindRole(roles, slug, workspace).value, slug, workspace) in roles
  {
    if roles != [] {
      FindRoleFinds(roles[1..], slug, workspace);
      assert roles[0] in roles && forall r <- roles[1..] :: r in roles;
      assert forall r <- roles :: r == roles[0] || r in roles[1..];
    }
  }

  /** The ids of different tiers, and of a template and its copy, are different. */
  lemma IdsTell(roles: seq<Role>, slug: string, a: Option<Workspace>, other: string, b: Option<Workspace>)
    requires UniqueRoleIds(roles) && (slug != other || a != b)
    requires FindRole(roles, slug, a).Some? && FindRole(roles, other, b).Some?
    ensures FindRole(roles, slug, a) != FindRole(roles, other, b)
  {
    FindRoleIs(roles, slug, a);
    FindRoleIs(roles, other, b);
    var i :| 0 <= i < |roles| && roles[i] == Role(FindRole(roles, slug, a).value, slug, a);
    var j :| 0 <= j < |roles| && roles[j] == Role(FindRole(roles, other, b).value, other, b);
    assert i != j;
  }

  /** Nothing but the tier's own two roles is read or written. */
  ghost predicate SameRows(t: Assignments, t': Assignments, roles: set<RoleId>) {
    && (forall id <- t :: t[id].role in roles ==> id in t' && t'[id] == t[id])
    && (forall id <- t' :: t'[id].role in roles ==> id in t && t[id] == t'[id])
  }

  lemma OtherTierUntouched(t: Assignments, w: Workspace, global: RoleId, copy: RoleId, roles: set<RoleId>)
    requires global != copy && global !in roles && copy !in roles
    ensures SameRows(t, Repoint(t, w, global, copy), roles)
  {
    OnlyTemplateRowsChange(t, w, global, copy);
  }

  lemma SameRowsHold(t: Assignments, t': Assignments, roles: set<RoleId>, w: Workspace, user: UserId, scopeType: string, scopeId: Option<nat>)
    requires SameRows(t, t', roles)
    ensures Holds(t, w, roles, user, scopeType, scopeId) == Holds(t', w, roles, user, scopeType, scopeId)
  {}

  ghost predicate Distinct(slugs: seq<string>) {
    forall i, j :: 0 <= i < j < |slugs| ==> slugs[i] != slugs[j]
  }

  lemma {:induction false} OthersUntouchedByAll(t: Assignments, roles: seq<Role>, w: Workspace, slugs: seq<string>, slug: string, global: RoleId, copy: RoleId)
    requires UniqueRoleIds(roles) && slug !in slugs
    requires FindRole(roles, slug, None) == Some(global) && FindRole(roles, slug, Some(w)) == Some(copy)
    ensures SameRows(t, RepointAll(t, roles, w, slugs), {global, copy})
    decreases |slugs|
  {
    if slugs != [] {
      var g, c := FindRole(roles, slugs[0], None), FindRole(roles, slugs[0], Some(w));
      if g.Some? && c.Some? {
        IdsTell(roles, slugs[0], None, slugs[0], Some(w));
        IdsTell(roles, slugs[0], None, slug, None);
        IdsTell(roles, slugs[0], None, slug, Some(w));
        IdsTell(roles, slugs[0], Some(w), slug, None);
        IdsTell(roles, slugs[0], Some(w), slug, Some(w));
        OtherTierUntouched(t, w, g.value, c.value, {global, copy});
      }
      OthersUntouchedByAll(RepointSlug(t, roles, w, slugs[0]), roles, w, slugs[1..], slug, global, copy);
    }
  }

  /**
   * The whole loop, for each tier that has a template and a copy: every (user, tier, scope) grant of the workspace is
   * held after exactly if it was held before, now through the copy alone, and no row of it points at the template.
   */
  lemma {:induction false} AllGrantsAreKept(
    t: Assignments, roles: seq<Role>, w: Workspace, slugs: seq<string>, slug: string, global: RoleId, copy: RoleId,
    user: UserId, scopeType: string, scopeId: Option<nat>)
    requires UniqueRoleIds(roles) && Distinct(slugs) && slug in slugs
    requires FindRole(roles, slug, None) == Some(global) && FindRole(roles, slug, Some(w)) == Some(copy)
    requires CopyIsLocal(t, w, copy)
    ensures var r := RepointAll(t, roles, w, slugs);
            && (Holds(t, w, {global, copy}, user, scopeType, scopeId) <==> Holds(r, w, {copy}, user, scopeType, scopeId))
            && (forall id <- r :: !IsTemplateRow(r[id], w, global))
    decreases |slugs|
  {
    IdsTell(roles, slug, None, slug, Some(w));
    var next := RepointSlug(t, roles, w, slugs[0]);
    var r := RepointAll(t, roles, w, slugs);
    if slugs[0] == slug {
      GrantsAreKept(t, w, global, copy, user, scopeType, scopeId);
      OnlyTemplateRowsChange(t, w, global, copy);
      OthersUntouchedByAll(next, roles, w, slugs[1..], slug, global, copy);
      assert SameRows(next, r, {copy}) by { assert copy in {global, copy}; }
      SameRowsHold(next, r, {copy}, w, user, scopeType, scopeId);
      forall id <- r ensures !IsTemplateRow(r[id], w, global) {
        assert r[id].role in {global, copy} ==> id in next && next[id] == r[id];
      }
    } else {
      OthersUntouchedByAll(t, roles, w, [slugs[0]], slug, global, copy);
      assert RepointAll(t, roles, w, [slugs[0]]) == next;
      assert CopyIsLocal(next, w, copy) by {
        forall id <- next | next[id].role == copy ensures next[id].workspace == w { assert next[id].role in {global, copy}; }
      }
      SameRowsHold(t, next, {global, copy}, w, user, scopeType, scopeId);
      AllGrantsAreKept(next, roles, w, slugs[1..], slug, global, copy, user, scopeType, scopeId);
    }
  }

  lemma {:induction false} KeyHoldsThroughout(t: Assignments, roles: seq<Role>, w: Workspace, slugs: seq<string>)
    requires UniqueKey(t)
    ensures UniqueKey(RepointAll(t, roles, w, slugs))
    decreases |slugs|
  {
    if slugs != [] {
      var g, c := FindRole(roles, slugs[0], None), FindRole(roles, slugs[0], Some(w));
      if g.Some? && c.Some? { KeyHoldsAfterEachStatement(t, w, g.value, c.value); }
      KeyHoldsThroughout(RepointSlug(t, roles, w, slugs[0]), roles, w, slugs[1..]);
    }
  }

  /** No tier has a template row of the workspace left to move. */
  ghost predicate Settled(t: Assignments, roles: seq<Role>, w: Workspace, slugs: seq<string>) {
    forall slug <- slugs ::
      FindRole(roles, slug, None).Some? && FindRole(roles, slug, Some(w)).Some? ==>
        forall id <- t :: !IsTemplateRow(t[id], w, FindRole(roles, slug, None).value)
  }

  lemma {:induction false} SettledStays(t: Assignments, roles: seq<Role>, w: Workspace, slugs: seq<string>)
    requires Settled(t, roles, w, slugs)
    ensures RepointAll(t, roles, w, slugs) == t
    decreases |slugs|
  {
    if slugs != [] {
      var g, c := FindRole(roles, slugs[0], None), FindRole(roles, slugs[0], Some(w));
      assert slugs[0] in slugs;
      if g.Some? && c.Some? { NothingToMove(t, w, g.value, c.value); }
      assert forall s <- slugs[1..] :: s in slugs;
      SettledStays(t, roles, w, slugs[1..]);
    }
  }

  lemma {:induction false} LoopSettles(t: Assignments, roles: seq<Role>, w: Workspace, slugs: seq<string>)
    requires UniqueRoleIds(roles) && Distinct(slugs)
    ensures Settled(RepointAll(t, roles, w, slugs), roles, w, slugs)
    decreases |slugs|
  {
    if slugs != [] {
      var slug, rest := slugs[0], slugs[1..];
      var next := RepointSlug(t, roles, w, slug);
      var r := RepointAll(t, roles, w, slugs);
      LoopSettles(next, roles, w, rest);
      var g, c := FindRole(roles, slug, None), FindRole(roles, slug, Some(w));
      if g.Some? && c.Some? {
        IdsTell(roles, slug, None, slug, Some(w));
        OnlyTemplateRowsChange(t, w, g.value, c.value);
        OthersUntouchedByAll(next, roles, w, rest, slug, g.value, c.value);
        forall id <- r ensures !IsTemplateRow(r[id], w, g.value) {
          assert r[id].role in {g.value, c.value} ==> id in next && next[id] == r[id];
        }
      }
      assert forall s <- slugs :: s == slug || s in rest;
    }
  }

  /** Seeding again changes nothing. */
  lemma SecondRunChangesNothing(t: Assignments, roles: seq<Role>, w: Workspace, slugs: seq<string>)
    requires UniqueRoleIds(roles) && Distinct(slugs)
    ensures var r := RepointAll(t, roles, w, slugs); RepointAll(r, roles, w, slugs) == r
  {
    LoopSettles(t, roles, w, slugs);
    SettledStays(RepointAll(t, roles, w, slugs), roles, w, slugs);
  }

  // ── The seed as it runs ────────────────────────────────────────────────────

  class AccessTable {
    var rows: Assignments

    constructor (rows: Assignments)
      ensures this.rows == rows
    {
      this.rows := rows;
    }

    method DeleteTwinRows(w: Workspace, global: RoleId, copy: RoleId)
      modifies this
      ensures rows == DeleteTwins(old(rows), w, global, copy)
    {
      var twins := set id <- rows | IsTemplateRow(rows[id], w, global) && exists b <- rows :: IsTwin(rows[id], rows[b], copy);
      rows := rows - twins;
    }

    /** The update fails, changing nothing, when it would violate the unique key. */
    method MoveRows(w: Workspace, global: RoleId, copy: RoleId) returns (ok: bool)
      modifies this
      ensures ok <==> UniqueKey(MoveRest(old(rows), w, global, copy))
      ensures rows == if ok then MoveRest(old(rows), w, global, copy) else old(rows)
    {
      var next := map id <- rows :: if IsTemplateRow(rows[id], w, global) then rows[id].(role := copy) else rows[id];
      ok := UniqueKey(next);
      if ok { rows := next; }
    }

    /** The loop of seedTenantBootstrapInto: on a table that has its unique key, no statement fails. */
    method RepointTiers(roles: seq<Role>, w: Workspace, slugs: seq<string>) returns (ok: bool)
      requires UniqueKey(rows)
      modifies this
      ensures ok && rows == RepointAll(old(rows), roles, w, slugs) && UniqueKey(rows)
    {
      ok := true;
      for i := 0 to |slugs|
        invariant ok && UniqueKey(rows)
        invariant RepointAll(old(rows), roles, w, slugs) == RepointAll(rows, roles, w, slugs[i..])
      {
        assert slugs[i..][0] == slugs[i] && slugs[i..][1..] == slugs[i + 1..];
        var global, copy := FindRole(roles, slugs[i], None), FindRole(roles, slugs[i], Some(w));
        if global.None? || copy.None? { continue; }
        KeyHoldsAfterEachStatement(rows, w, global.value, copy.value);
        DeleteTwinRows(w, global.value, copy.value);
        ok := MoveRows(w, global.value, copy.value);
      }
    }
  }
}
