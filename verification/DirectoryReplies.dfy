/** When the directory operations work, what they leave alone and what they write: requests are refused for the
    stated reasons only, a refused one changes nothing, and a granted one touches the rows it names. */
module DirectoryReplies {
  import opened Common
  import opened Directory
  import opened DirectoryScope
  import opened DirectoryIsolation
  import opened DirectoryKeys
  import opened InvitationLifecycle
  import opened InvitationRefusals
  import Text

  // ---------- refusals ----------

  /** A refused operation on tenants, users, roles or permissions leaves every table as it was. */
  lemma RefusedChangesNothing(defaults: seq<Grant>, db: Db, op: Op)
    requires !InvitationOp(op) && Step(defaults, db, op).reply != Done
    ensures Step(defaults, db, op).db == db
  {
  }

  lemma AllOfTenant(db: Db, t: Id, ids: seq<Id>)
    ensures Elements(ids) <= RolesOf(db, t) <==> forall r :: r in ids ==> RoleOfTenant(db, r, t)
    ensures Elements(ids) <= PermissionsOf(db, t) <==> forall p :: p in ids ==> PermissionOfTenant(db, p, t)
  {
    assert forall x :: x in Elements(ids) <==> x in ids;
  }

  /** An assignment of roles works just when it is made to a user of the tenant and the identifiers are distinct
      and of that tenant. */
  lemma AssignRolesWorksExactly(db: Db, t: Id, u: Id, ids: seq<Id>)
    ensures AssignRoles(db, t, u, ids).reply == Done <==>
      UserOfTenant(db, u, t) && Distinct(ids) && forall r :: r in ids ==> RoleOfTenant(db, r, t)
  {
    AssignableExact(ids, db.roles.Keys, RolesOf(db, t), u);
    AllOfTenant(db, t, ids);
  }

  /** So do assignments of permissions, to users and to roles of the tenant. */
  lemma AssignPermissionsWorksExactly(db: Db, t: Id, k: Id, ids: seq<Id>)
    ensures AssignPermissions(db, t, k, ids).reply == Done <==>
      UserOfTenant(db, k, t) && Distinct(ids) && forall p :: p in ids ==> PermissionOfTenant(db, p, t)
    ensures SetRolePermissions(db, t, k, ids).reply == Done <==>
      RoleOfTenant(db, k, t) && Distinct(ids) && forall p :: p in ids ==> PermissionOfTenant(db, p, t)
  {
    AssignableExact(ids, db.permissions.Keys, PermissionsOf(db, t), k);
    AllOfTenant(db, t, ids);
  }

  /** The record an operation works on is not there, or not the tenant's. */
  predicate Missing(db: Db, op: Op)
    requires !InvitationOp(op)
  {
    match op
    case OpDeletePermission(t, p) => !PermissionOfTenant(db, p, t)
    case OpRenameRole(t, r, _) => !RoleOfTenant(db, r, t)
    case OpDeleteRole(t, r) => !RoleOfTenant(db, r, t)
    case OpSetRolePermissions(t, r, _) => !RoleOfTenant(db, r, t)
    case OpChangeEmail(t, u, _) => !UserOfTenant(db, u, t)
    case OpDeleteUser(t, u) => !UserOfTenant(db, u, t)
    case OpAssignRoles(t, u, _) => !UserOfTenant(db, u, t)
    case OpAssignPermissions(t, u, _) => !UserOfTenant(db, u, t)
    case OpCreateTenantFor(u, _, _, _, _, _) => u !in db.users
    case OpProvisionUser(t, _, _) => !exists r :: r in db.roles && db.roles[r] == Role("Member", t)
    case _ => false
  }

  /** `NotFound` is answered just when that record is missing, and `BadRequest` just when an assignment to one
      that is there asks for something repeated or not of the tenant. */
  lemma RefusalsExactly(defaults: seq<Grant>, db: Db, op: Op)
    requires !InvitationOp(op)
    ensures Step(defaults, db, op).reply == NotFound <==> Missing(db, op)
    ensures Step(defaults, db, op).reply == BadRequest <==>
      (op.OpSetRolePermissions? || op.OpAssignRoles? || op.OpAssignPermissions?) && !Missing(db, op)
      && Step(defaults, db, op).reply != Done
  {
    if op.OpProvisionUser? {
      assert forall r :: r in MemberRoles(db, op.t) <==> r in db.roles && db.roles[r] == Role("Member", op.t);
    }
  }

  predicate EmailFree(db: Db, email: string, tenant: Option<Id>, u: Id) {
    forall v :: v in db.users && v != u ==> db.users[v].email != email || db.users[v].tenant != tenant
  }

  predicate NameFree(db: Db, name: string) {
    forall t :: t in db.tenants ==> db.tenants[t] != name
  }

  predicate GrantFree(db: Db, g: Grant, t: Id) {
    forall p :: p in db.permissions && db.permissions[p].tenant == t ==>
      db.permissions[p].action != g.action || db.permissions[p].subject != g.subject
  }

  predicate RoleFree(db: Db, name: string, t: Id, r: Id) {
    forall s :: s in db.roles && db.roles[s].tenant == t && s != r ==> db.roles[s].name != name
  }

  /** What each remaining operation needs. */
  predicate Meets(db: Db, op: Op)
    requires !InvitationOp(op) && !op.OpSetRolePermissions? && !op.OpAssignRoles? && !op.OpAssignPermissions?
  {
    match op
    case OpCreatePermission(t, _, g) => t in db.tenants && GrantFree(db, g, t)
    case OpDeletePermission(t, p) => PermissionOfTenant(db, p, t)
    case OpCreateRole(t, r, name) => t in db.tenants && RoleFree(db, name, t, r)
    case OpRenameRole(t, r, name) => RoleOfTenant(db, r, t) && RoleFree(db, name, t, r)
    case OpDeleteRole(t, r) => RoleOfTenant(db, r, t)
    case OpCreateUser(t, u, email) => t in db.tenants && EmailFree(db, email, Some(t), u)
    case OpChangeEmail(t, u, email) => UserOfTenant(db, u, t) && EmailFree(db, email, Some(t), u)
    case OpDeleteUser(t, u) => UserOfTenant(db, u, t)
    case OpRegisterTenantless(_, email) => forall v :: v in db.users ==> db.users[v].email != email
    case OpProvisionTenantless(_, _) => true
    case OpCreateTenant(_, name, _, _, _, _, _) => NameFree(db, name)
    case OpCreateTenantFor(u, _, name, _, _, _) => u in db.users && db.users[u].tenant == None && NameFree(db, name)
    case OpProvisionUser(t, u, email) =>
      && t in db.tenants && EmailFree(db, email, Some(t), u)
      && exists r :: r in db.roles && db.roles[r] == Role("Member", t)
  }

  /** Every other operation works exactly when that is met. */
  lemma WorksExactly(defaults: seq<Grant>, db: Db, op: Op)
    requires !InvitationOp(op) && !op.OpSetRolePermissions? && !op.OpAssignRoles? && !op.OpAssignPermissions?
    requires Possible(defaults, db, op)
    ensures Step(defaults, db, op).reply == Done <==> Meets(db, op)
  {
    if op.OpProvisionUser? {
      assert forall r :: r in MemberRoles(db, op.t) <==> r in db.roles && db.roles[r] == Role("Member", op.t);
    }
  }

  // ---------- what is written ----------

  /** The user row an operation writes, if any. */
  predicate WritesUser(op: Op, u: Id) {
    && (op.OpCreateUser? || op.OpChangeEmail? || op.OpDeleteUser? || op.OpRegisterTenantless?
        || op.OpProvisionTenantless? || op.OpCreateTenant? || op.OpCreateTenantFor? || op.OpProvisionUser?)
    && op.u == u
  }

  predicate WritesRole(op: Op, r: Id) {
    || ((op.OpCreateRole? || op.OpRenameRole? || op.OpDeleteRole?) && op.r == r)
    || ((op.OpCreateTenant? || op.OpCreateTenantFor?) && (op.admin == r || op.member == r))
  }

  predicate WritesPermission(defaults: seq<Grant>, op: Op, p: Id) {
    || ((op.OpCreatePermission? || op.OpDeletePermission?) && op.p == p)
    || ((op.OpCreateTenant? || op.OpCreateTenantFor?) && op.base <= p < op.base + |defaults|)
  }

  /** Every row an operation does not name is as it was, present or absent. */
  lemma OtherUsersStay(defaults: seq<Grant>, db: Db, op: Op, k: Id)
    requires !InvitationOp(op) && !WritesUser(op, k)
    ensures var now := Step(defaults, db, op).db.users;
      (k in now <==> k in db.users) && (k in now ==> now[k] == db.users[k])
  {
  }

  /** The same for roles. */
  lemma OtherRolesStay(defaults: seq<Grant>, db: Db, op: Op, k: Id)
    requires !InvitationOp(op) && !WritesRole(op, k)
    ensures var now := Step(defaults, db, op).db.roles;
      (k in now <==> k in db.roles) && (k in now ==> now[k] == db.roles[k])
  {
  }

  /** The same for permissions. */
  lemma OtherPermissionsStay(defaults: seq<Grant>, db: Db, op: Op, k: Id)
    requires !InvitationOp(op) && !WritesPermission(defaults, op, k)
    ensures var now := Step(defaults, db, op).db.permissions;
      (k in now <==> k in db.permissions) && (k in now ==> now[k] == db.permissions[k])
  {
  }

  predicate RoleIs(db: Db, r: Id, name: string, t: Id) {
    r in db.roles && db.roles[r] == Role(name, t)
  }

  predicate UserIs(db: Db, u: Id, email: string, tenant: Option<Id>) {
    u in db.users && db.users[u] == User(email, tenant)
  }

  /** The rows a granted operation leaves are the ones asked for. */
  predicate Wrote(db: Db, next: Db, op: Op)
    requires !InvitationOp(op)
  {
    match op
    case OpCreatePermission(t, p, g) =>
      p in next.permissions && next.permissions[p] == Permission(g.action, g.subject, t)
    case OpDeletePermission(_, p) => p !in next.permissions
    case OpCreateRole(t, r, name) => RoleIs(next, r, name, t)
    case OpRenameRole(t, r, name) => RoleIs(next, r, name, t)
    case OpDeleteRole(_, r) => r !in next.roles
    case OpCreateUser(t, u, email) => UserIs(next, u, email, Some(t))
    case OpChangeEmail(t, u, email) => UserIs(next, u, email, Some(t))
    case OpDeleteUser(_, u) => u !in next.users
    case OpRegisterTenantless(u, email) => UserIs(next, u, email, None)
    case OpProvisionTenantless(u, email) =>
      if EmailFree(db, email, None, u) then UserIs(next, u, email, None) else next == db
    case OpCreateTenant(t, name, _, admin, member, u, email) =>
      && t in next.tenants && next.tenants[t] == name && UserIs(next, u, email, Some(t))
      && RoleIs(next, admin, "Admin", t) && RoleIs(next, member, "Member", t)
    case OpCreateTenantFor(u, t, name, _, admin, member) =>
      && t in next.tenants && next.tenants[t] == name && u in db.users && UserIs(next, u, db.users[u].email, Some(t))
      && RoleIs(next, admin, "Admin", t) && RoleIs(next, member, "Member", t)
    case OpProvisionUser(t, u, email) => UserIs(next, u, email, Some(t))
    case _ => next.users == db.users && next.roles == db.roles && next.permissions == db.permissions
  }

  lemma FoundingWrites(defaults: seq<Grant>, db: Db, op: Op)
    requires (op.OpCreateTenant? || op.OpCreateTenantFor?) && Possible(defaults, db, op)
    requires Step(defaults, db, op).reply == Done
    ensures Wrote(db, Step(defaults, db, op).db, op)
  {
  }

  lemma GrantedWrites(defaults: seq<Grant>, db: Db, op: Op)
    requires !InvitationOp(op) && Possible(defaults, db, op) && Step(defaults, db, op).reply == Done
    ensures Wrote(db, Step(defaults, db, op).db, op)
  {
    if op.OpCreateTenant? || op.OpCreateTenantFor? {
      FoundingWrites(defaults, db, op);
    }
  }

  // ---------- tenant names ----------

  ghost predicate NamesUnique(db: Db) {
    forall a, b :: a in db.tenants && b in db.tenants && db.tenants[a] == db.tenants[b] ==> a == b
  }

  lemma StepKeepsNames(defaults: seq<Grant>, db: Db, op: Op)
    requires NamesUnique(db) && Possible(defaults, db, op)
    ensures NamesUnique(Step(defaults, db, op).db)
  {
    if InvitationOp(op) {
      InvitationsKeepTenants(db, op);
    }
  }

  lemma InvitationsKeepTenants(db: Db, op: Op)
    requires InvitationOp(op)
    ensures Step([], db, op).db.tenants == db.tenants
  {
    if op.OpJoin? {
      assert Join(db, op.u, op.token, op.now, op.stamp).db.tenants == db.tenants;
    } else if op.OpAcceptInvitation? {
      AcceptanceKeepsTenants(db, op.token, op.u, op.credentials, op.now, op.later, op.stamp);
    } else {
      OnlyInvitationsChange([], db, op);
    }
  }

  lemma AcceptanceKeepsTenants(db: Db, token: nat, u: Id, credentials: Credentials, now: int, later: int, stamp: int)
    ensures AcceptInvitation(db, token, u, credentials, now, later, stamp).db.tenants == db.tenants
  {
  }

  /** Over every run no two tenants have the same name. */
  lemma {:induction false} RunKeepsNames(defaults: seq<Grant>, db: Db, ops: seq<Op>)
    requires NamesUnique(db) && PossibleRun(defaults, db, ops)
    ensures NamesUnique(Run(defaults, db, ops))
    decreases ops
  {
    if ops != [] {
      StepKeepsNames(defaults, db, ops[0]);
      RunKeepsNames(defaults, Step(defaults, db, ops[0]).db, ops[1..]);
    }
  }

  // ---------- invitations ----------

  /** Inviting works just when the roles are distinct and of the tenant, nobody is pending at that address
      there, and the expiry, a week ahead unless given, lies ahead; refused, it changes nothing. */
  lemma InvitingWorksExactly(db: Db, t: Id, inviter: Id, i: Id, token: nat, email: string, ids: seq<Id>,
          at: Option<int>, now: int)
    ensures var o := CreateInvitation(db, t, inviter, i, token, email, ids, at, now);
      && (o.reply == Done <==>
          && Distinct(ids) && (forall r :: r in ids ==> RoleOfTenant(db, r, t))
          && !StatusTaken(db, t, Text.Normalise(email), PENDING, i)
          && (at.Some? ==> now < at.value) && t in db.tenants && inviter in db.users)
      && (o.reply != Done ==> o.db == db)
  {
    CountTestExact(ids, RolesOf(db, t));
    AllOfTenant(db, t, ids);
  }

  /** The invitation sent is pending, for that address and tenant, by that inviter, with exactly the roles asked
      for, until the expiry asked for or for a week. */
  lemma InvitationSays(db: Db, t: Id, inviter: Id, i: Id, token: nat, email: string, ids: seq<Id>, at: Option<int>,
          now: int)
    requires Scoped(db) && i !in db.invited
    requires CreateInvitation(db, t, inviter, i, token, email, ids, at, now).reply == Done
    ensures var next := CreateInvitation(db, t, inviter, i, token, email, ids, at, now).db;
      && next.invitations == db.invitations[i := next.invitations[i]]
      && Linked(next.invitationRoles, i) == Elements(ids)
      && next.invitations[i] == Invitation(t, Text.Normalise(email), token, inviter,
                                           if at.Some? then at.value else now + 604800000, PENDING, None)
  {
    forall l | l in db.invitationRoles ensures l.0 != i {
      assert InvitationRoleFits(db, l);
    }
    assert forall r :: r in Elements(ids) ==> (i, r) in db.invitationRoles + Links(i, Elements(ids));
  }

  /** Only a pending invitation of the very tenant can be cancelled or resent. */
  lemma ManagedByOwnTenantOnly(db: Db, t: Id, i: Id, token: nat, now: int)
    ensures Cancel(db, t, i).reply == Done <==>
      PendingIn(db, i, t) && !StatusTaken(db, t, db.invitations[i].email, CANCELLED, i)
    ensures Cancel(db, t, i).reply == Done ==>
      Cancel(db, t, i).db == db.(invitations := db.invitations[i := db.invitations[i].(status := CANCELLED)])
    ensures Cancel(db, t, i).reply != Done ==> Cancel(db, t, i).db == db
    ensures Resend(db, t, i, token, now).reply == Done <==> PendingIn(db, i, t)
    ensures Resend(db, t, i, token, now).reply == Done ==>
      Resend(db, t, i, token, now).db.invitations ==
        db.invitations[i := db.invitations[i].(token := token, expiresAt := now + 604800000)]
    ensures Resend(db, t, i, token, now).reply != Done ==> Resend(db, t, i, token, now).db == db
  {
  }

  /** A check or validation writes just when the invitation is pending past its expiry and no other to its
      address stands expired; then it only marks that one expired. */
  lemma ExpiryIsMarkedExactly(db: Db, i: Id, now: int)
    requires Sound(db) && i in db.invitations
    ensures var inv, next := db.invitations[i], CheckExpiration(db, i, now).db;
      && next == ValidateInvitation(db, inv.token, now).db == ValidateToken(db, inv.token, now).db
      && next == if inv.status == PENDING && inv.expiresAt <= now && !StatusTaken(db, inv.tenant, inv.email, EXPIRED, i)
                 then db.(invitations := db.invitations[i := inv.(status := EXPIRED)]) else db
  {
    TokenFinds(db, i);
  }

  /** Joining gives the user the invitation's tenant and nothing else of the user tables, and accepts that one
      invitation. */
  lemma JoiningWrites(db: Db, u: Id, token: nat, now: int, stamp: int)
    requires Join(db, u, token, now, stamp).reply == Done
    ensures var next, i := Join(db, u, token, now, stamp).db, InvitationOf(db, token);
      && next.users == db.users[u := User(db.users[u].email, Some(db.invitations[i].tenant))]
      && next.invitations == db.invitations[i := db.invitations[i].(status := ACCEPTED, acceptedAt := Some(stamp))]
      && next.roles == db.roles && next.permissions == db.permissions && next.rolePermissions == db.rolePermissions
  {
  }

  /** Accepting takes both names and a password of eight characters or more, or a code that Google exchanges
      for the invited address, in a tenant with the switch on, for an identity still free. */
  lemma AcceptanceNeedsCredentials(db: Db, token: nat, u: Id, credentials: Credentials, now: int, later: int,
          stamp: int)
    requires Sound(db) && AcceptInvitation(db, token, u, credentials, now, later, stamp).reply == Done
    ensures Resolves(db, token)
    ensures match credentials
      case ByPassword(password, firstName, lastName) => |firstName| > 0 && |lastName| > 0 && |password| >= 8
      case ByGoogle(code, email, ssoEnabled, identityFree) =>
        |code| > 0 && email == Some(db.invitations[InvitationOf(db, token)].email) && ssoEnabled && identityFree
      case Unsupported => false
  {
    AcceptanceWorksExactly(db, token, u, credentials, now, later, stamp);
  }

  /** `Conflict` is answered just when a usable invitation's address already belongs to a user of the tenant. */
  lemma AcceptanceConflictsExactly(db: Db, token: nat, u: Id, credentials: Credentials, now: int, later: int,
          stamp: int)
    requires u !in db.users
    ensures AcceptInvitation(db, token, u, credentials, now, later, stamp).reply == Conflict <==>
      Usable(db, token, now)
      && var inv := db.invitations[InvitationOf(db, token)]; !EmailFree(db, inv.email, Some(inv.tenant), u)
  {
    ValidatorsAgree(db, token, now);
  }

  /** And those are all it takes beyond the invitation's own conditions. */
  lemma CredentialsSuffice(db: Db, token: nat, u: Id, credentials: Credentials, now: int, later: int, stamp: int)
    requires Sound(db) && Usable(db, token, later) && now <= later
    requires var inv := db.invitations[InvitationOf(db, token)];
      && inv.tenant in db.tenants && EmailFree(db, inv.email, Some(inv.tenant), u) && u !in db.users
      && !StatusTaken(db, inv.tenant, inv.email, ACCEPTED, InvitationOf(db, token))
      && match credentials
         case ByPassword(password, firstName, lastName) => |firstName| > 0 && |lastName| > 0 && |password| >= 8
         case ByGoogle(code, email, ssoEnabled, identityFree) =>
           |code| > 0 && email == Some(inv.email) && ssoEnabled && identityFree
         case Unsupported => false
    ensures AcceptInvitation(db, token, u, credentials, now, later, stamp).reply == Done
  {
    AcceptanceWorksExactly(db, token, u, credentials, now, later, stamp);
  }
}
