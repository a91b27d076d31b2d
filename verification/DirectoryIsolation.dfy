/** No operation of one tenant changes what a user of another tenant is granted. */
module DirectoryIsolation {
  import opened Common
  import opened Directory
  import opened DirectoryScope

  /** The tenant whose grants an operation may change: six operations change the grants of the tenant
      they are called for, and the others, joining included, change those of no user already in one. */
  function Regrants(op: Op): Option<Id> {
    match op
    case OpDeletePermission(t, _) => Some(t)
    case OpDeleteRole(t, _) => Some(t)
    case OpSetRolePermissions(t, _, _) => Some(t)
    case OpDeleteUser(t, _) => Some(t)
    case OpAssignRoles(t, _, _) => Some(t)
    case OpAssignPermissions(t, _, _) => Some(t)
    case _ => None
  }

  /** Nothing that decides the grants of tenant `t` differs between the two states. */
  ghost predicate SliceKept(db: Db, next: Db, t: Id) {
    && (forall u :: UserOfTenant(db, u, t) ==> UserOfTenant(next, u, t))
    && (forall p :: PermissionOfTenant(db, p, t) ==> p in next.permissions && next.permissions[p] == db.permissions[p])
    && (forall r :: RoleOfTenant(db, r, t) ==> Linked(next.rolePermissions, r) == Linked(db.rolePermissions, r))
    && (forall u :: UserOfTenant(db, u, t) ==> Linked(next.userRoles, u) == Linked(db.userRoles, u))
    && (forall u :: UserOfTenant(db, u, t) ==> Linked(next.userPermissions, u) == Linked(db.userPermissions, u))
  }

  /** Grants, and what the guard reads off them, are decided by the slice alone. */
  lemma SliceDecidesGrants(db: Db, next: Db, t: Id, u: Id)
    requires Scoped(db) && UserOfTenant(db, u, t) && SliceKept(db, next, t)
    ensures Granted(next, u) == Granted(db, u) && Effective(next, u) == Effective(db, u)
  {
    forall p | p in Granted(db, u) ensures p in Granted(next, u) && next.permissions[p] == db.permissions[p] {
      GrantFits(db, u, p);
      GrantKept(db, next, t, u, p);
    }
    forall p | p in Granted(next, u) ensures p in Granted(db, u) {
      GrantOld(db, next, t, u, p);
    }
  }

  lemma GrantKept(db: Db, next: Db, t: Id, u: Id, p: Id)
    requires Scoped(db) && UserOfTenant(db, u, t) && SliceKept(db, next, t)
    requires p in Granted(db, u) && p in next.permissions
    ensures p in Granted(next, u)
  {
    if p in DirectGrants(db, u) {
      assert p in Linked(db.userPermissions, u);
    } else {
      var l, m :| l in db.userRoles && l.0 == u && m in db.rolePermissions && m.0 == l.1 && m.1 == p;
      assert UserRoleFits(db, l);
      assert l.1 in Linked(db.userRoles, u);
      assert p in Linked(db.rolePermissions, l.1);
      assert (u, l.1) in next.userRoles && (l.1, p) in next.rolePermissions;
    }
  }

  lemma GrantOld(db: Db, next: Db, t: Id, u: Id, p: Id)
    requires Scoped(db) && UserOfTenant(db, u, t) && SliceKept(db, next, t)
    requires p in Granted(next, u)
    ensures p in Granted(db, u)
  {
    if p in DirectGrants(next, u) {
      assert p in Linked(next.userPermissions, u);
      assert UserPermissionFits(db, (u, p));
    } else {
      var l, m :| l in next.userRoles && l.0 == u && m in next.rolePermissions && m.0 == l.1 && m.1 == p;
      assert l.1 in Linked(next.userRoles, u);
      assert UserRoleFits(db, (u, l.1));
      assert p in Linked(next.rolePermissions, l.1);
      assert RolePermissionFits(db, (l.1, p));
    }
  }

  // ---------- each operation keeps the slices of the other tenants ----------

  lemma RolesAndPermissionsKeepSlice(db: Db, a: Id, k: Id, name: string, g: Grant, t: Id)
    requires Scoped(db)
    ensures k !in db.permissions ==> SliceKept(db, CreatePermission(db, a, k, g).db, t)
    ensures k !in db.roles ==> SliceKept(db, CreateRole(db, a, k, name).db, t)
    ensures SliceKept(db, RenameRole(db, a, k, name).db, t)
  {
  }

  lemma UsersKeepSlice(db: Db, a: Id, u: Id, email: string, t: Id)
    requires Scoped(db)
    ensures u !in db.users ==> SliceKept(db, CreateUser(db, a, u, email).db, t)
    ensures SliceKept(db, ChangeEmail(db, a, u, email).db, t)
  {
  }

  lemma RegistrationKeepsSlice(db: Db, u: Id, email: string, t: Id)
    requires Scoped(db) && u !in db.users
    ensures SliceKept(db, RegisterTenantless(db, u, email).db, t)
  {
  }

  lemma ProvisionTenantlessKeepsSlice(db: Db, u: Id, email: string, t: Id)
    requires u !in db.users
    ensures SliceKept(db, ProvisionTenantless(db, u, email).db, t)
  {
  }

  lemma DeletePermissionKeepsSlice(db: Db, a: Id, p: Id, t: Id)
    requires Scoped(db) && a != t
    ensures SliceKept(db, DeletePermission(db, a, p).db, t)
  {
  }

  lemma DeleteRoleKeepsSlice(db: Db, a: Id, r: Id, t: Id)
    requires Scoped(db) && a != t
    ensures SliceKept(db, DeleteRole(db, a, r).db, t)
  {
  }

  lemma DeleteUserKeepsSlice(db: Db, a: Id, u: Id, t: Id)
    requires Scoped(db) && a != t
    ensures SliceKept(db, DeleteUser(db, a, u).db, t)
  {
  }

  lemma SetRolePermissionsKeepsSlice(db: Db, a: Id, r: Id, ids: seq<Id>, t: Id)
    requires Scoped(db) && a != t
    ensures SliceKept(db, SetRolePermissions(db, a, r, ids).db, t)
  {
  }

  lemma AssignRolesKeepsSlice(db: Db, a: Id, u: Id, ids: seq<Id>, t: Id)
    requires Scoped(db) && a != t
    ensures SliceKept(db, AssignRoles(db, a, u, ids).db, t)
  {
  }

  lemma AssignPermissionsKeepsSlice(db: Db, a: Id, u: Id, ids: seq<Id>, t: Id)
    requires Scoped(db) && a != t
    ensures SliceKept(db, AssignPermissions(db, a, u, ids).db, t)
  {
  }

  lemma SeedingKeepsSlice(db: Db, defaults: seq<Grant>, a: Id, name: string, base: Id, admin: Id, member: Id, t: Id)
    requires Scoped(db) && FreshTenant(defaults, db, a, base, admin, member)
    ensures SliceKept(db, SeedTenant(db, defaults, a, name, base, admin, member), t)
  {
  }

  /** A user entering a tenant disturbs nobody already in one. */
  lemma EntryKeepsSlice(db: Db, next: Db, u: Id, rs: set<Id>, t: Id)
    requires u in db.users ==> db.users[u].tenant == None
    requires u in next.users
      && next == db.(users := db.users[u := next.users[u]], userRoles := db.userRoles + Links(u, rs))
    ensures SliceKept(db, next, t)
  {
  }

  lemma SliceKeptChain(db: Db, mid: Db, next: Db, t: Id)
    requires SliceKept(db, mid, t) && SliceKept(mid, next, t)
    requires forall r :: RoleOfTenant(db, r, t) ==> RoleOfTenant(mid, r, t)
    ensures SliceKept(db, next, t)
  {
  }

  lemma FoundingKeepsSlice(db: Db, defaults: seq<Grant>, a: Id, name: string, base: Id, admin: Id, member: Id,
          u: Id, email: string, t: Id)
    requires Scoped(db) && FreshTenant(defaults, db, a, base, admin, member)
    ensures u !in db.users ==> SliceKept(db, CreateTenant(db, defaults, a, name, base, admin, member, u, email).db, t)
    ensures SliceKept(db, CreateTenantFor(db, defaults, u, a, name, base, admin, member).db, t)
  {
    var s := SeedTenant(db, defaults, a, name, base, admin, member);
    SeedingKeepsSlice(db, defaults, a, name, base, admin, member, t);
    assert Links(u, {admin}) == {(u, admin)};
    var c := CreateTenant(db, defaults, a, name, base, admin, member, u, email);
    if c.reply == Done && u !in db.users {
      EntryKeepsSlice(s, c.db, u, {admin}, t);
      SliceKeptChain(db, s, c.db, t);
    }
    var f := CreateTenantFor(db, defaults, u, a, name, base, admin, member);
    if f.reply == Done {
      EntryKeepsSlice(s, f.db, u, {admin}, t);
      SliceKeptChain(db, s, f.db, t);
    }
  }

  lemma ProvisionKeepsSlice(db: Db, a: Id, u: Id, email: string, t: Id)
    requires Scoped(db) && u !in db.users
    ensures SliceKept(db, ProvisionUser(db, a, u, email).db, t)
  {
  }

  /** States that differ in their invitations only. */
  predicate OnlyInvitations(db: Db, next: Db) {
    next == db.(invitations := next.invitations, invitationRoles := next.invitationRoles, tokens := next.tokens,
      invited := next.invited)
  }

  lemma InvitationsKeepSlice(db: Db, next: Db, t: Id)
    requires OnlyInvitations(db, next)
    ensures SliceKept(db, next, t)
  {
  }

  lemma JoinKeepsSlice(db: Db, u: Id, token: nat, now: int, stamp: int, t: Id)
    ensures SliceKept(db, Join(db, u, token, now, stamp).db, t)
  {
  }

  lemma ConclusionKeepsSlice(db: Db, token: nat, i: Id, later: int, stamp: int, t: Id)
    requires i in db.invitations
    ensures SliceKept(db, Conclude(db, token, i, later, stamp).db, t)
  {
    ValidationOnlyInvitations(db, token, later);
    InvitationsKeepSlice(db, Conclude(db, token, i, later, stamp).db, t);
  }

  lemma InvitedUserKeepsSlice(db: Db, i: Id, u: Id, t: Id)
    requires u !in db.users && i in db.invitations
    ensures SliceKept(db, InvitedUser(db, i, u).db, t)
  {
    var own := Linked(db.invitationRoles, i);
    if InvitedUser(db, i, u).reply == Done {
      var rs := if own != {} then own else MemberRoles(db, db.invitations[i].tenant);
      EntryKeepsSlice(db, InvitedUser(db, i, u).db, u, rs, t);
    }
  }

  lemma AcceptInvitationKeepsSlice(db: Db, token: nat, u: Id, credentials: Credentials, now: int, later: int,
          stamp: int, t: Id)
    requires u !in db.users
    ensures SliceKept(db, AcceptInvitation(db, token, u, credentials, now, later, stamp).db, t)
  {
    var v := ValidateToken(db, token, now);
    ValidationOnlyInvitations(db, token, now);
    InvitationsKeepSlice(db, v.db, t);
    if v.reply == Done {
      var i := InvitationOf(db, token);
      var mid := InvitedUser(db, i, u).db;
      InvitedUserKeepsSlice(db, i, u, t);
      ConclusionKeepsSlice(mid, token, i, later, stamp, t);
      SliceKeptChain(db, mid, Conclude(mid, token, i, later, stamp).db, t);
    }
  }

  // ---------- the theorem ----------

  lemma RecordStepKeepsSlice(defaults: seq<Grant>, db: Db, op: Op, t: Id)
    requires Scoped(db) && Possible(defaults, db, op) && !InvitationOp(op) && Regrants(op) != Some(t)
    ensures SliceKept(db, Step(defaults, db, op).db, t)
  {
    match op
    case OpCreatePermission(a, p, g) => RolesAndPermissionsKeepSlice(db, a, p, "", g, t);
    case OpDeletePermission(a, p) => DeletePermissionKeepsSlice(db, a, p, t);
    case OpCreateRole(a, r, name) => RolesAndPermissionsKeepSlice(db, a, r, name, Grant("", ""), t);
    case OpRenameRole(a, r, name) => RolesAndPermissionsKeepSlice(db, a, r, name, Grant("", ""), t);
    case OpDeleteRole(a, r) => DeleteRoleKeepsSlice(db, a, r, t);
    case OpSetRolePermissions(a, r, ids) => SetRolePermissionsKeepsSlice(db, a, r, ids, t);
    case OpCreateUser(a, u, email) => UsersKeepSlice(db, a, u, email, t);
    case OpChangeEmail(a, u, email) => UsersKeepSlice(db, a, u, email, t);
    case OpDeleteUser(a, u) => DeleteUserKeepsSlice(db, a, u, t);
    case OpAssignRoles(a, u, ids) => AssignRolesKeepsSlice(db, a, u, ids, t);
    case OpAssignPermissions(a, u, ids) => AssignPermissionsKeepsSlice(db, a, u, ids, t);
    case OpRegisterTenantless(u, email) => RegistrationKeepsSlice(db, u, email, t);
    case OpProvisionTenantless(u, email) => ProvisionTenantlessKeepsSlice(db, u, email, t);
    case OpCreateTenant(a, name, base, admin, member, u, email) =>
      FoundingKeepsSlice(db, defaults, a, name, base, admin, member, u, email, t);
    case OpCreateTenantFor(u, a, name, base, admin, member) =>
      FoundingKeepsSlice(db, defaults, a, name, base, admin, member, u, "", t);
    case OpProvisionUser(a, u, email) => ProvisionKeepsSlice(db, a, u, email, t);
  }

  lemma OnlyInvitationsChange(defaults: seq<Grant>, db: Db, op: Op)
    requires InvitationOp(op) && !op.OpJoin? && !op.OpAcceptInvitation?
    ensures OnlyInvitations(db, Step(defaults, db, op).db)
  {
    match op
    case OpValidateInvitation(token, now) => ValidationOnlyInvitations(db, token, now);
    case OpValidateToken(token, now) => ValidationOnlyInvitations(db, token, now);
    case OpCheckExpiration(i, now) => ManagementOnlyInvitations(db, 0, i, 0, now);
    case OpCancel(t, i) => ManagementOnlyInvitations(db, t, i, 0, 0);
    case OpResend(t, i, token, now) => ManagementOnlyInvitations(db, t, i, token, now);
    case OpCreateInvitation(t, inviter, i, token, email, ids, expiresAt, now) =>
      CreationOnlyInvitations(db, t, inviter, i, token, email, ids, expiresAt, now);
  }

  lemma ManagementOnlyInvitations(db: Db, t: Id, i: Id, token: nat, now: int)
    ensures OnlyInvitations(db, CheckExpiration(db, i, now).db) && OnlyInvitations(db, Cancel(db, t, i).db)
    ensures OnlyInvitations(db, Resend(db, t, i, token, now).db)
  {
  }

  lemma CreationOnlyInvitations(db: Db, t: Id, inviter: Id, i: Id, token: nat, email: string, ids: seq<Id>,
          expiresAt: Option<int>, now: int)
    ensures OnlyInvitations(db, CreateInvitation(db, t, inviter, i, token, email, ids, expiresAt, now).db)
  {
  }

  lemma ValidationOnlyInvitations(db: Db, token: nat, now: int)
    ensures OnlyInvitations(db, ValidateInvitation(db, token, now).db)
      && OnlyInvitations(db, ValidateToken(db, token, now).db)
  {
  }

  lemma InvitationStepKeepsSlice(defaults: seq<Grant>, db: Db, op: Op, t: Id)
    requires Possible(defaults, db, op) && InvitationOp(op)
    ensures SliceKept(db, Step(defaults, db, op).db, t)
  {
    match op
    case OpJoin(u, token, now, stamp) => JoinKeepsSlice(db, u, token, now, stamp, t);
    case OpAcceptInvitation(token, u, credentials, now, later, stamp) =>
      AcceptInvitationKeepsSlice(db, token, u, credentials, now, later, stamp, t);
    case _ =>
      OnlyInvitationsChange(defaults, db, op);
      InvitationsKeepSlice(db, Step(defaults, db, op).db, t);
  }

  /** Whatever the other tenants do, and however long, and whatever else happens short of the six
      regranting operations of tenant `t` itself, what its users are granted stays the same. */
  lemma {:induction false} OthersChangeNoGrants(defaults: seq<Grant>, db: Db, ops: seq<Op>, t: Id, u: Id)
    requires Scoped(db) && PossibleRun(defaults, db, ops) && UserOfTenant(db, u, t)
    requires forall op :: op in ops ==> Regrants(op) != Some(t)
    ensures var next := Run(defaults, db, ops);
      UserOfTenant(next, u, t) && Granted(next, u) == Granted(db, u) && Effective(next, u) == Effective(db, u)
    decreases ops
  {
    if ops != [] {
      var mid := Step(defaults, db, ops[0]).db;
      StepKeepsScope(defaults, db, ops[0]);
      if InvitationOp(ops[0]) {
        InvitationStepKeepsSlice(defaults, db, ops[0], t);
      } else {
        RecordStepKeepsSlice(defaults, db, ops[0], t);
      }
      SliceDecidesGrants(db, mid, t, u);
      OthersChangeNoGrants(defaults, mid, ops[1..], t, u);
    }
  }
}
