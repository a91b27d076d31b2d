/** What the permissions guard can ever grant. Every link of every run joins records of one tenant, so a
    user is only ever granted permissions of the tenant it belongs to, and no operation of one tenant
    changes what a user of another is granted. */
module DirectoryScope {
  import opened Common
  import opened Directory

  // ---------- the guard ----------

  /** Permissions held through a role. */
  function RoleGrants(db: Db, u: Id): set<Id> {
    set l, m | l in db.userRoles && l.0 == u && m in db.rolePermissions && m.0 == l.1 && m.1 in db.permissions :: m.1
  }

  /** Permissions held directly. */
  function DirectGrants(db: Db, u: Id): set<Id> {
    set l | l in db.userPermissions && l.0 == u && l.1 in db.permissions :: l.1
  }

  function Granted(db: Db, u: Id): set<Id> {
    RoleGrants(db, u) + DirectGrants(db, u)
  }

  function Format(p: Permission): string {
    p.action + ":" + p.subject
  }

  function Effective(db: Db, u: Id): set<string> {
    set p | p in Granted(db, u) && p in db.permissions :: Format(db.permissions[p])
  }

  datatype Verdict = Allowed | Forbidden

  function CanActivate(db: Db, user: Option<Id>, required: seq<string>): Verdict {
    if required == [] then Allowed
    else if user.None? then Forbidden
    else if forall s :: s in required ==> s in Effective(db, user.value) then Allowed
    else Forbidden
  }

  // ---------- the invariant ----------

  predicate UserRoleFits(db: Db, l: (Id, Id)) {
    l.0 in db.users && l.1 in db.roles && db.users[l.0].tenant == Some(db.roles[l.1].tenant)
  }

  predicate RolePermissionFits(db: Db, l: (Id, Id)) {
    l.0 in db.roles && l.1 in db.permissions && db.roles[l.0].tenant == db.permissions[l.1].tenant
  }

  predicate UserPermissionFits(db: Db, l: (Id, Id)) {
    l.0 in db.users && l.1 in db.permissions && db.users[l.0].tenant == Some(db.permissions[l.1].tenant)
  }

  predicate InvitationRoleFits(db: Db, l: (Id, Id)) {
    l.0 in db.invitations && l.1 in db.roles && db.invitations[l.0].tenant == db.roles[l.1].tenant
  }

  /** Every link joins existing records of one tenant. */
  ghost predicate LinksFit(db: Db) {
    && (forall l :: l in db.userRoles ==> UserRoleFits(db, l))
    && (forall l :: l in db.rolePermissions ==> RolePermissionFits(db, l))
    && (forall l :: l in db.userPermissions ==> UserPermissionFits(db, l))
    && (forall l :: l in db.invitationRoles ==> InvitationRoleFits(db, l))
  }

  /** Records belong to existing tenants; live invitations are in the history. */
  ghost predicate Anchored(db: Db) {
    && (forall r :: r in db.roles ==> db.roles[r].tenant in db.tenants)
    && (forall p :: p in db.permissions ==> db.permissions[p].tenant in db.tenants)
    && (forall u :: u in db.users && db.users[u].tenant.Some? ==> db.users[u].tenant.value in db.tenants)
    && (forall i :: i in db.invitations ==> db.invitations[i].tenant in db.tenants && i in db.invited)
  }

  ghost predicate Scoped(db: Db) {
    LinksFit(db) && Anchored(db)
  }

  // ---------- the count test ----------

  /** Comparing the number of rows found with the number of identifiers asked for is an exact test:
      it passes just when all of them exist and none is repeated. */
  lemma CountTestExact(requested: seq<Id>, existing: set<Id>)
    ensures |Elements(requested) * existing| == |requested| <==> Distinct(requested) && Elements(requested) <= existing
  {
    var found := Elements(requested) * existing;
    PigeonHole(requested);
    SubsetSize(found, Elements(requested));
    if |found| == |requested| {
      SubsetSizeEqual(found, Elements(requested));
    }
    if Elements(requested) <= existing {
      assert found == Elements(requested);
    }
  }

  lemma SubsetSizeEqual<T>(small: set<T>, large: set<T>)
    requires small <= large && |small| == |large|
    ensures small == large
  {
    if x :| x in large && x !in small {
      SubsetSize(small + {x}, large);
    }
  }

  /** An assignment is let through just when the identifiers are distinct and of the tenant, so the rows
      inserted after it are as many as were asked for. */
  lemma AssignableExact(requested: seq<Id>, existing: set<Id>, own: set<Id>, left: Id)
    requires own <= existing
    ensures Assignable(requested, existing, own) <==> Distinct(requested) && Elements(requested) <= own
    ensures Assignable(requested, existing, own) ==> |Links(left, Elements(requested))| == |requested|
  {
    CountTestExact(requested, existing);
    PigeonHole(requested);
    if Assignable(requested, existing, own) {
      assert Elements(requested) * existing <= own;
      assert Elements(requested) <= existing;
      LinksSize(left, Elements(requested));
    }
  }

  lemma LinksSize(left: Id, rights: set<Id>)
    ensures |Links(left, rights)| == |rights|
  {
    if rights == {} {
      assert Links(left, rights) == {};
    } else {
      var r :| r in rights;
      LinksSize(left, rights - {r});
      assert Links(left, rights) == Links(left, rights - {r}) + {(left, r)};
    }
  }

  // ---------- every step keeps the invariant ----------

  lemma PermissionStepsKeepScope(db: Db, t: Id, p: Id, g: Grant)
    requires Scoped(db)
    ensures p !in db.permissions ==> Scoped(CreatePermission(db, t, p, g).db)
    ensures Scoped(DeletePermission(db, t, p).db)
  {
  }

  lemma RoleStepsKeepScope(db: Db, t: Id, r: Id, name: string)
    requires Scoped(db)
    ensures r !in db.roles ==> Scoped(CreateRole(db, t, r, name).db)
    ensures Scoped(RenameRole(db, t, r, name).db)
  {
  }

  lemma DeleteRoleKeepsScope(db: Db, t: Id, r: Id)
    requires Scoped(db)
    ensures Scoped(DeleteRole(db, t, r).db)
  {
  }

  lemma UserStepsKeepScope(db: Db, t: Id, u: Id, email: string)
    requires Scoped(db)
    ensures u !in db.users ==> Scoped(CreateUser(db, t, u, email).db) && Scoped(RegisterTenantless(db, u, email).db)
  {
  }

  lemma ChangeEmailKeepsScope(db: Db, t: Id, u: Id, email: string)
    requires Scoped(db)
    ensures Scoped(ChangeEmail(db, t, u, email).db)
  {
  }

  lemma TenantlessKeepsScope(db: Db, u: Id, email: string)
    requires Scoped(db) && u !in db.users
    ensures Scoped(ProvisionTenantless(db, u, email).db)
  {
  }

  lemma DeleteUserKeepsScope(db: Db, t: Id, u: Id)
    requires Scoped(db)
    ensures Scoped(DeleteUser(db, t, u).db)
  {
  }

  /** Replacing the permissions of a role. */
  lemma SetRolePermissionsKeepsScope(db: Db, t: Id, r: Id, ids: seq<Id>)
    requires Scoped(db)
    ensures Scoped(SetRolePermissions(db, t, r, ids).db)
  {
    AssignableExact(ids, db.permissions.Keys, PermissionsOf(db, t), r);
  }

  lemma AssignRolesKeepsScope(db: Db, t: Id, u: Id, ids: seq<Id>)
    requires Scoped(db)
    ensures Scoped(AssignRoles(db, t, u, ids).db)
  {
    AssignableExact(ids, db.roles.Keys, RolesOf(db, t), u);
  }

  lemma AssignPermissionsKeepsScope(db: Db, t: Id, u: Id, ids: seq<Id>)
    requires Scoped(db)
    ensures Scoped(AssignPermissions(db, t, u, ids).db)
  {
    AssignableExact(ids, db.permissions.Keys, PermissionsOf(db, t), u);
  }

  lemma SeedingKeepsRolePermissions(db: Db, defaults: seq<Grant>, t: Id, name: string, base: Id, admin: Id, member: Id)
    requires Scoped(db) && FreshTenant(defaults, db, t, base, admin, member)
    ensures var s := SeedTenant(db, defaults, t, name, base, admin, member);
      forall l :: l in s.rolePermissions ==> RolePermissionFits(s, l)
  {
  }

  lemma SeedingKeepsScope(db: Db, defaults: seq<Grant>, t: Id, name: string, base: Id, admin: Id, member: Id)
    requires Scoped(db) && FreshTenant(defaults, db, t, base, admin, member)
    ensures Scoped(SeedTenant(db, defaults, t, name, base, admin, member))
  {
    SeedingKeepsRolePermissions(db, defaults, t, name, base, admin, member);
    var s := SeedTenant(db, defaults, t, name, base, admin, member);
    assert forall l :: l in s.userPermissions ==>
      UserPermissionFits(db, l) && l.1 !in SeededPermissions(defaults, base, t);
  }

  /** A user that holds no links may be given a tenant and roles of that tenant. */
  lemma EntryKeepsScope(db: Db, next: Db, u: Id, t: Id, rs: set<Id>)
    requires Scoped(db) && t in db.tenants && rs <= RolesOf(db, t)
    requires u in db.users ==> db.users[u].tenant == None
    requires u in next.users
      && next == db.(users := db.users[u := next.users[u]], userRoles := db.userRoles + Links(u, rs))
    requires next.users[u].tenant == Some(t)
    ensures Scoped(next)
  {
  }

  lemma CreateTenantKeepsScope(db: Db, defaults: seq<Grant>, t: Id, name: string, base: Id, admin: Id,
          member: Id, u: Id, email: string)
    requires Scoped(db) && FreshTenant(defaults, db, t, base, admin, member) && u !in db.users
    ensures Scoped(CreateTenant(db, defaults, t, name, base, admin, member, u, email).db)
  {
    var o := CreateTenant(db, defaults, t, name, base, admin, member, u, email);
    if o.reply == Done {
      var s := SeedTenant(db, defaults, t, name, base, admin, member);
      SeedingKeepsScope(db, defaults, t, name, base, admin, member);
      assert Links(u, {admin}) == {(u, admin)};
      EntryKeepsScope(s, o.db, u, t, {admin});
    }
  }

  lemma CreateTenantForKeepsScope(db: Db, defaults: seq<Grant>, u: Id, t: Id, name: string, base: Id,
          admin: Id, member: Id)
    requires Scoped(db) && FreshTenant(defaults, db, t, base, admin, member)
    ensures Scoped(CreateTenantFor(db, defaults, u, t, name, base, admin, member).db)
  {
    var o := CreateTenantFor(db, defaults, u, t, name, base, admin, member);
    if o.reply == Done {
      var s := SeedTenant(db, defaults, t, name, base, admin, member);
      SeedingKeepsScope(db, defaults, t, name, base, admin, member);
      assert Links(u, {admin}) == {(u, admin)};
      EntryKeepsScope(s, o.db, u, t, {admin});
    }
  }

  lemma ProvisionKeepsScope(db: Db, t: Id, u: Id, email: string)
    requires Scoped(db) && u !in db.users
    ensures Scoped(ProvisionUser(db, t, u, email).db)
  {
  }

  lemma CreateInvitationKeepsScope(db: Db, t: Id, inviter: Id, i: Id, token: nat, email: string, ids: seq<Id>,
          expiresAt: Option<int>, now: int)
    requires Scoped(db) && i !in db.invited
    ensures Scoped(CreateInvitation(db, t, inviter, i, token, email, ids, expiresAt, now).db)
  {
    CountTestExact(ids, RolesOf(db, t));
  }

  /** Rewriting an invitation without moving it to another tenant. */
  lemma RewriteKeepsScope(db: Db, next: Db, i: Id)
    requires Scoped(db) && i in db.invitations && i in next.invitations
    requires next == db.(invitations := db.invitations[i := next.invitations[i]], tokens := next.tokens)
    requires next.invitations[i].tenant == db.invitations[i].tenant
    ensures Scoped(next)
  {
  }

  lemma ExpiryKeepsScope(db: Db, i: Id)
    requires Scoped(db) && i in db.invitations
    ensures Scoped(Expire(db, i).db) && Scoped(SetStatus(db, i, EXPIRED).db) && Scoped(SetStatus(db, i, CANCELLED).db)
  {
    var a, b := SetStatus(db, i, EXPIRED), SetStatus(db, i, CANCELLED);
    if a.reply == Done {
      RewriteKeepsScope(db, a.db, i);
    }
    if b.reply == Done {
      RewriteKeepsScope(db, b.db, i);
    }
  }

  lemma ValidationKeepsScope(db: Db, token: nat, i: Id, now: int)
    requires Scoped(db)
    ensures Scoped(ValidateInvitation(db, token, now).db) && Scoped(ValidateToken(db, token, now).db)
    ensures Scoped(CheckExpiration(db, i, now).db)
  {
    if Resolves(db, token) {
      ExpiryKeepsScope(db, InvitationOf(db, token));
    }
    if i in db.invitations {
      ExpiryKeepsScope(db, i);
    }
  }

  lemma ManagementKeepsScope(db: Db, t: Id, i: Id, token: nat, now: int)
    requires Scoped(db)
    ensures Scoped(Cancel(db, t, i).db) && Scoped(Resend(db, t, i, token, now).db)
  {
    if i in db.invitations {
      ExpiryKeepsScope(db, i);
      var o := Resend(db, t, i, token, now);
      if o.reply == Done {
        RewriteKeepsScope(db, o.db, i);
      }
    }
  }

  lemma AcceptKeepsScope(db: Db, i: Id, now: int)
    requires Scoped(db) && i in db.invitations
    ensures Scoped(Accept(db, i, now).db)
  {
  }

  lemma JoinKeepsScope(db: Db, u: Id, token: nat, now: int, stamp: int)
    requires Scoped(db)
    ensures Scoped(Join(db, u, token, now, stamp).db)
  {
  }

  lemma InvitedUserKeepsScope(db: Db, i: Id, u: Id)
    requires Scoped(db) && i in db.invitations && u !in db.users
    ensures Scoped(InvitedUser(db, i, u).db)
  {
  }

  lemma ConclusionKeepsScope(db: Db, token: nat, i: Id, later: int, stamp: int)
    requires Scoped(db) && i in db.invitations
    ensures Scoped(Conclude(db, token, i, later, stamp).db)
  {
    ValidationKeepsScope(db, token, 0, later);
    AcceptKeepsScope(db, i, stamp);
  }

  lemma AcceptInvitationKeepsScope(db: Db, token: nat, u: Id, credentials: Credentials, now: int, later: int,
          stamp: int)
    requires Scoped(db) && u !in db.users
    ensures Scoped(AcceptInvitation(db, token, u, credentials, now, later, stamp).db)
  {
    ValidationKeepsScope(db, token, 0, now);
    if ValidateToken(db, token, now).reply == Done {
      var i := InvitationOf(db, token);
      InvitedUserKeepsScope(db, i, u);
      ConclusionKeepsScope(InvitedUser(db, i, u).db, token, i, later, stamp);
    }
  }

  lemma RecordStepKeepsScope(defaults: seq<Grant>, db: Db, op: Op)
    requires Scoped(db) && Possible(defaults, db, op) && !InvitationOp(op)
    ensures Scoped(Step(defaults, db, op).db)
  {
    match op
    case OpCreatePermission(t, p, g) => PermissionStepsKeepScope(db, t, p, g);
    case OpDeletePermission(t, p) => PermissionStepsKeepScope(db, t, p, Grant("", ""));
    case OpCreateRole(t, r, name) => RoleStepsKeepScope(db, t, r, name);
    case OpRenameRole(t, r, name) => RoleStepsKeepScope(db, t, r, name);
    case OpDeleteRole(t, r) => DeleteRoleKeepsScope(db, t, r);
    case OpSetRolePermissions(t, r, ids) => SetRolePermissionsKeepsScope(db, t, r, ids);
    case OpCreateUser(t, u, email) => UserStepsKeepScope(db, t, u, email);
    case OpChangeEmail(t, u, email) => ChangeEmailKeepsScope(db, t, u, email);
    case OpDeleteUser(t, u) => DeleteUserKeepsScope(db, t, u);
    case OpAssignRoles(t, u, ids) => AssignRolesKeepsScope(db, t, u, ids);
    case OpAssignPermissions(t, u, ids) => AssignPermissionsKeepsScope(db, t, u, ids);
    case OpRegisterTenantless(u, email) => UserStepsKeepScope(db, 0, u, email);
    case OpProvisionTenantless(u, email) => TenantlessKeepsScope(db, u, email);
    case OpCreateTenant(t, name, base, admin, member, u, email) =>
      CreateTenantKeepsScope(db, defaults, t, name, base, admin, member, u, email);
    case OpCreateTenantFor(u, t, name, base, admin, member) =>
      CreateTenantForKeepsScope(db, defaults, u, t, name, base, admin, member);
    case OpProvisionUser(t, u, email) => ProvisionKeepsScope(db, t, u, email);
  }

  lemma InvitationStepKeepsScope(defaults: seq<Grant>, db: Db, op: Op)
    requires Scoped(db) && Possible(defaults, db, op) && InvitationOp(op)
    ensures Scoped(Step(defaults, db, op).db)
  {
    match op
    case OpCreateInvitation(t, inviter, i, token, email, ids, expiresAt, now) =>
      CreateInvitationKeepsScope(db, t, inviter, i, token, email, ids, expiresAt, now);
    case OpValidateInvitation(token, now) => ValidationKeepsScope(db, token, 0, now);
    case OpValidateToken(token, now) => ValidationKeepsScope(db, token, 0, now);
    case OpCheckExpiration(i, now) => ValidationKeepsScope(db, 0, i, now);
    case OpCancel(t, i) => ManagementKeepsScope(db, t, i, 0, 0);
    case OpResend(t, i, token, now) => ManagementKeepsScope(db, t, i, token, now);
    case OpJoin(u, token, now, stamp) => JoinKeepsScope(db, u, token, now, stamp);
    case OpAcceptInvitation(token, u, credentials, now, later, stamp) =>
      AcceptInvitationKeepsScope(db, token, u, credentials, now, later, stamp);
  }

  lemma StepKeepsScope(defaults: seq<Grant>, db: Db, op: Op)
    requires Scoped(db) && Possible(defaults, db, op)
    ensures Scoped(Step(defaults, db, op).db)
  {
    if InvitationOp(op) {
      InvitationStepKeepsScope(defaults, db, op);
    } else {
      RecordStepKeepsScope(defaults, db, op);
    }
  }

  lemma {:induction false} RunKeepsScope(defaults: seq<Grant>, db: Db, ops: seq<Op>)
    requires Scoped(db) && PossibleRun(defaults, db, ops)
    ensures Scoped(Run(defaults, db, ops))
    decreases ops
  {
    if ops != [] {
      StepKeepsScope(defaults, db, ops[0]);
      RunKeepsScope(defaults, Step(defaults, db, ops[0]).db, ops[1..]);
    }
  }

  /** In every state a run can reach, a user is granted only permissions of its own tenant, and a user
      of no tenant is granted none. */
  lemma GrantsStayInTenant(defaults: seq<Grant>, ops: seq<Op>, u: Id, p: Id)
    requires PossibleRun(defaults, Empty, ops)
    requires p in Granted(Run(defaults, Empty, ops), u)
    ensures var db := Run(defaults, Empty, ops);
      u in db.users && p in db.permissions && db.users[u].tenant == Some(db.permissions[p].tenant)
  {
    RunKeepsScope(defaults, Empty, ops);
    GrantFits(Run(defaults, Empty, ops), u, p);
  }

  lemma GrantFits(db: Db, u: Id, p: Id)
    requires Scoped(db) && p in Granted(db, u)
    ensures u in db.users && p in db.permissions && db.users[u].tenant == Some(db.permissions[p].tenant)
  {
  }

  /** The guard after any run: it lets a request through that needs something just when the caller is a
      user of some tenant and every needed string names a permission of that very tenant which the
      caller holds. */
  lemma GuardStaysInTenant(defaults: seq<Grant>, ops: seq<Op>, user: Option<Id>, required: seq<string>)
    requires PossibleRun(defaults, Empty, ops) && required != []
    ensures var db := Run(defaults, Empty, ops);
      CanActivate(db, user, required) == Allowed <==>
        user.Some? && user.value in db.users && db.users[user.value].tenant.Some?
        && forall s :: s in required ==> Vouched(db, user.value, db.users[user.value].tenant.value, s)
  {
    var db := Run(defaults, Empty, ops);
    RunKeepsScope(defaults, Empty, ops);
    if CanActivate(db, user, required) == Allowed {
      forall s | s in required
        ensures user.value in db.users && db.users[user.value].tenant.Some?
          && Vouched(db, user.value, db.users[user.value].tenant.value, s)
      {
        var p :| p in Granted(db, user.value) && p in db.permissions && Format(db.permissions[p]) == s;
        GrantFits(db, user.value, p);
      }
      assert required[0] in required;
    }
  }

  /** A request that needs nothing passes, whoever makes it. */
  lemma NothingNeededPasses(db: Db, user: Option<Id>)
    ensures CanActivate(db, user, []) == Allowed
  {
  }

  /** Some permission of tenant `t` held by the user reads as `s`. */
  predicate Vouched(db: Db, u: Id, t: Id, s: string) {
    exists p :: p in Granted(db, u) && PermissionOfTenant(db, p, t) && Format(db.permissions[p]) == s
  }

  // ---------- permission strings ----------

  /** `longer` reads like `shorter` because its action runs over the colon. */
  predicate Overlaps(shorter: Permission, longer: Permission) {
    var n := |shorter.action|;
    && n < |longer.action| && longer.action[..n] == shorter.action && longer.action[n] == ':'
    && shorter.subject == longer.action[n + 1..] + ":" + longer.subject
  }

  /** Two permissions read the same to the guard just when they agree, or the action of one contains a
      colon at which the other one splits: nothing in the services forbids that. */
  lemma ReadAlikeExactly(p: Permission, q: Permission)
    ensures Format(p) == Format(q) <==>
      (p.action == q.action && p.subject == q.subject) || Overlaps(p, q) || Overlaps(q, p)
  {
    if |p.action| < |q.action| {
      OverlapExactly(p, q);
    } else if |q.action| < |p.action| {
      OverlapExactly(q, p);
    } else if Format(p) == Format(q) {
      assert Format(p)[..|p.action|] == p.action && Format(q)[..|q.action|] == q.action;
      assert Format(p)[|p.action| + 1..] == p.subject && Format(q)[|q.action| + 1..] == q.subject;
    }
  }

  lemma OverlapExactly(p: Permission, q: Permission)
    requires |p.action| < |q.action|
    ensures Format(p) == Format(q) <==> Overlaps(p, q)
  {
    var n := |p.action|;
    assert Format(p)[..n] == p.action && Format(p)[n] == ':' && Format(p)[n + 1..] == p.subject;
    assert Format(q)[..n] == q.action[..n] && Format(q)[n] == q.action[n];
    assert Format(q)[n + 1..] == q.action[n + 1..] + ":" + q.subject;
    if Overlaps(p, q) {
      assert Format(q) == q.action[..n] + [q.action[n]] + (q.action[n + 1..] + ":" + q.subject);
      assert Format(p) == p.action + [':'] + p.subject;
    }
  }

  /** For any action, middle part and subject both readings can be created in one tenant, and a user given
      the one passes the guard for the other without holding it. */
  lemma AmbiguityArises(db: Db, t: Id, u: Id, p: Id, q: Id, action: string, middle: string, subject: string)
    requires Scoped(db) && t in db.tenants && UserOfTenant(db, u, t) && p !in db.permissions
      && q !in db.permissions && p != q
    requires !PermissionTaken(db, action + ":" + middle, subject, t)
      && !PermissionTaken(db, action, middle + ":" + subject, t)
    ensures var one := CreatePermission(db, t, p, Grant(action + ":" + middle, subject));
      var two := CreatePermission(one.db, t, q, Grant(action, middle + ":" + subject));
      var three := AssignPermissions(two.db, t, u, [p]);
      && one.reply == Done && two.reply == Done && three.reply == Done && q !in Granted(three.db, u)
      && CanActivate(three.db, Some(u), [Format(three.db.permissions[q])]) == Allowed
  {
    BothReadingsCreated(db, t, p, q, action, middle, subject);
    var one := CreatePermission(db, t, p, Grant(action + ":" + middle, subject)).db;
    var two := CreatePermission(one, t, q, Grant(action, middle + ":" + subject)).db;
    GrantAlone(two, t, u, p, q);
    GuardOpens(AssignPermissions(two, t, u, [p]).db, u, p, q);
    NotGrantedYet(db, two, t, u, p, q);
  }

  lemma BothReadingsCreated(db: Db, t: Id, p: Id, q: Id, action: string, middle: string, subject: string)
    requires t in db.tenants && p !in db.permissions && q !in db.permissions && p != q
    requires !PermissionTaken(db, action + ":" + middle, subject, t)
      && !PermissionTaken(db, action, middle + ":" + subject, t)
    ensures var one := CreatePermission(db, t, p, Grant(action + ":" + middle, subject));
      var two := CreatePermission(one.db, t, q, Grant(action, middle + ":" + subject));
      && one.reply == Done && two.reply == Done && two.db == db.(permissions := two.db.permissions)
      && PermissionOfTenant(two.db, p, t) && PermissionOfTenant(two.db, q, t)
      && Format(two.db.permissions[p]) == Format(two.db.permissions[q])
  {
    assert |action + ":" + middle| > |action|;
    assert (action + ":" + middle) + ":" + subject == action + ":" + (middle + ":" + subject);
  }

  lemma GuardOpens(db: Db, u: Id, p: Id, q: Id)
    requires p in Granted(db, u) && p in db.permissions && q in db.permissions
    requires Format(db.permissions[p]) == Format(db.permissions[q])
    ensures CanActivate(db, Some(u), [Format(db.permissions[q])]) == Allowed
  {
  }

  lemma GrantAlone(db: Db, t: Id, u: Id, p: Id, q: Id)
    requires UserOfTenant(db, u, t) && PermissionOfTenant(db, p, t) && PermissionOfTenant(db, q, t)
    ensures var o := AssignPermissions(db, t, u, [p]);
      o.reply == Done && p in Granted(o.db, u) && o.db == db.(userPermissions := o.db.userPermissions)
  {
    AssignableExact([p], db.permissions.Keys, PermissionsOf(db, t), u);
    assert (u, p) in AssignPermissions(db, t, u, [p]).db.userPermissions;
  }

  /** A permission just created is linked to nothing. */
  lemma NotGrantedYet(db: Db, next: Db, t: Id, u: Id, p: Id, q: Id)
    requires Scoped(db) && q !in db.permissions && p != q && UserOfTenant(next, u, t) && PermissionOfTenant(next, p, t)
    requires next.rolePermissions == db.rolePermissions && next.userPermissions == db.userPermissions
    ensures q !in Granted(AssignPermissions(next, t, u, [p]).db, u)
  {
    assert forall l :: l in db.rolePermissions ==> RolePermissionFits(db, l);
    assert forall l :: l in db.userPermissions ==> UserPermissionFits(db, l);
  }
}
