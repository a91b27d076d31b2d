/** What the unique indexes keep, and what the founder and the members of a new tenant can do. */
module DirectoryKeys {
  import opened Common
  import opened Directory
  import opened DirectoryIsolation
  import opened DirectoryScope

  /** Role names are unique in a tenant, and emails are unique in a tenant and among the tenant-less. */
  ghost predicate Keyed(db: Db) {
    && (forall r, s :: r in db.roles && s in db.roles && db.roles[r] == db.roles[s] ==> r == s)
    && (forall u, v :: u in db.users && v in db.users && db.users[u] == db.users[v] ==> u == v)
  }

  /** A new or rewritten user whose email is free keeps the keys. */
  lemma UserWriteKeepsKeys(db: Db, users: map<Id, User>, u: Id)
    requires Keyed(db) && u in users && users == db.users[u := users[u]]
    requires !EmailTaken(db, users[u].email, users[u].tenant, Some(u))
    ensures forall v, w :: v in users && w in users && users[v] == users[w] ==> v == w
  {
  }

  lemma UserStepsKeepKeys(db: Db, t: Id, u: Id, email: string)
    requires Keyed(db) && u !in db.users
    ensures Keyed(CreateUser(db, t, u, email).db) && Keyed(RegisterTenantless(db, u, email).db)
    ensures Keyed(ProvisionTenantless(db, u, email).db) && Keyed(ProvisionUser(db, t, u, email).db)
  {
    var a, b := CreateUser(db, t, u, email), RegisterTenantless(db, u, email);
    var c, d := ProvisionTenantless(db, u, email), ProvisionUser(db, t, u, email);
    if a.db != db {
      UserWriteKeepsKeys(db, a.db.users, u);
    }
    if b.db != db {
      UserWriteKeepsKeys(db, b.db.users, u);
    }
    if c.db != db {
      UserWriteKeepsKeys(db, c.db.users, u);
    }
    if d.db != db {
      UserWriteKeepsKeys(db, d.db.users, u);
    }
  }

  lemma ChangeEmailKeepsKeys(db: Db, t: Id, u: Id, email: string)
    requires Keyed(db)
    ensures Keyed(ChangeEmail(db, t, u, email).db)
  {
  }

  lemma RoleStepsKeepKeys(db: Db, t: Id, r: Id, name: string)
    requires Keyed(db)
    ensures r !in db.roles ==> Keyed(CreateRole(db, t, r, name).db)
    ensures Keyed(RenameRole(db, t, r, name).db)
  {
  }

  lemma SeedingKeepsKeys(db: Db, defaults: seq<Grant>, t: Id, name: string, base: Id, admin: Id, member: Id)
    requires Scoped(db) && Keyed(db) && FreshTenant(defaults, db, t, base, admin, member)
    ensures Keyed(SeedTenant(db, defaults, t, name, base, admin, member))
  {
  }

  lemma FoundingKeepsKeys(db: Db, defaults: seq<Grant>, t: Id, name: string, base: Id, admin: Id, member: Id,
          u: Id, email: string)
    requires Scoped(db) && Keyed(db) && FreshTenant(defaults, db, t, base, admin, member)
    ensures u !in db.users ==> Keyed(CreateTenant(db, defaults, t, name, base, admin, member, u, email).db)
    ensures Keyed(CreateTenantFor(db, defaults, u, t, name, base, admin, member).db)
  {
    var s := SeedTenant(db, defaults, t, name, base, admin, member);
    SeedingKeepsKeys(db, defaults, t, name, base, admin, member);
    var a := CreateTenant(db, defaults, t, name, base, admin, member, u, email);
    if a.reply == Done && u !in db.users {
      UserWriteKeepsKeys(s, a.db.users, u);
    }
    var b := CreateTenantFor(db, defaults, u, t, name, base, admin, member);
    if b.reply == Done {
      UserWriteKeepsKeys(s, b.db.users, u);
    }
  }

  lemma EntryByInvitationKeepsKeys(db: Db, i: Id, u: Id)
    requires Keyed(db) && i in db.invitations && u !in db.users
    ensures Keyed(InvitedUser(db, i, u).db)
  {
  }

  lemma JoinKeepsKeys(db: Db, u: Id, token: nat, now: int, stamp: int)
    requires Keyed(db)
    ensures Keyed(Join(db, u, token, now, stamp).db)
  {
  }

  lemma AcceptInvitationKeepsKeys(db: Db, token: nat, u: Id, credentials: Credentials, now: int, later: int, stamp: int)
    requires Keyed(db) && u !in db.users
    ensures Keyed(AcceptInvitation(db, token, u, credentials, now, later, stamp).db)
  {
    if ValidateToken(db, token, now).reply == Done {
      EntryByInvitationKeepsKeys(db, InvitationOf(db, token), u);
    }
  }

  lemma RecordStepKeepsKeys(defaults: seq<Grant>, db: Db, op: Op)
    requires Scoped(db) && Keyed(db) && Possible(defaults, db, op) && !InvitationOp(op)
    ensures Keyed(Step(defaults, db, op).db)
  {
    match op
    case OpCreateUser(t, u, email) => UserStepsKeepKeys(db, t, u, email);
    case OpRegisterTenantless(u, email) => UserStepsKeepKeys(db, 0, u, email);
    case OpProvisionTenantless(u, email) => UserStepsKeepKeys(db, 0, u, email);
    case OpProvisionUser(t, u, email) => UserStepsKeepKeys(db, t, u, email);
    case OpChangeEmail(t, u, email) => ChangeEmailKeepsKeys(db, t, u, email);
    case OpCreateRole(t, r, name) => RoleStepsKeepKeys(db, t, r, name);
    case OpRenameRole(t, r, name) => RoleStepsKeepKeys(db, t, r, name);
    case OpCreateTenant(t, name, base, admin, member, u, email) =>
      FoundingKeepsKeys(db, defaults, t, name, base, admin, member, u, email);
    case OpCreateTenantFor(u, t, name, base, admin, member) =>
      FoundingKeepsKeys(db, defaults, t, name, base, admin, member, u, "");
    case _ =>
  }

  lemma InvitationsKeepKeys(db: Db, next: Db)
    requires Keyed(db) && OnlyInvitations(db, next)
    ensures Keyed(next)
  {
  }

  lemma InvitationStepKeepsKeys(defaults: seq<Grant>, db: Db, op: Op)
    requires Keyed(db) && Possible(defaults, db, op) && InvitationOp(op)
    ensures Keyed(Step(defaults, db, op).db)
  {
    match op
    case OpJoin(u, token, now, stamp) => JoinKeepsKeys(db, u, token, now, stamp);
    case OpAcceptInvitation(token, u, credentials, now, later, stamp) =>
      AcceptInvitationKeepsKeys(db, token, u, credentials, now, later, stamp);
    case _ =>
      OnlyInvitationsChange(defaults, db, op);
      InvitationsKeepKeys(db, Step(defaults, db, op).db);
  }

  lemma StepKeepsKeys(defaults: seq<Grant>, db: Db, op: Op)
    requires Scoped(db) && Keyed(db) && Possible(defaults, db, op)
    ensures Keyed(Step(defaults, db, op).db)
  {
    if InvitationOp(op) {
      InvitationStepKeepsKeys(defaults, db, op);
    } else {
      RecordStepKeepsKeys(defaults, db, op);
    }
  }

  lemma {:induction false} RunKeepsKeys(defaults: seq<Grant>, db: Db, ops: seq<Op>)
    requires Scoped(db) && Keyed(db) && PossibleRun(defaults, db, ops)
    ensures Keyed(Run(defaults, db, ops))
    decreases ops
  {
    if ops != [] {
      StepKeepsScope(defaults, db, ops[0]);
      StepKeepsKeys(defaults, db, ops[0]);
      RunKeepsKeys(defaults, Step(defaults, db, ops[0]).db, ops[1..]);
    }
  }

  /** After any run, looking up a tenant's Member role, or its user by email, finds at most one row. */
  lemma LookupsAreUnambiguous(defaults: seq<Grant>, ops: seq<Op>, t: Id)
    requires PossibleRun(defaults, Empty, ops)
    ensures var db := Run(defaults, Empty, ops);
      |MemberRoles(db, t)| <= 1
      && forall u, v :: UserOfTenant(db, u, t) && UserOfTenant(db, v, t) && db.users[u].email == db.users[v].email ==>
        u == v
  {
    RunKeepsKeys(defaults, Empty, ops);
    var rs := MemberRoles(Run(defaults, Empty, ops), t);
    if r :| r in rs {
      assert rs == {r};
    }
  }

  // ---------- the founder and the members of a new tenant ----------

  /** The permissions of a tenant just seeded are the default ones. */
  lemma SeededExactly(defaults: seq<Grant>, db: Db, t: Id, name: string, base: Id, admin: Id, member: Id)
    requires Scoped(db) && FreshTenant(defaults, db, t, base, admin, member)
    ensures var next := SeedTenant(db, defaults, t, name, base, admin, member);
      var seeded := SeededPermissions(defaults, base, t);
      PermissionsOf(next, t) == seeded.Keys
      && forall p :: p in seeded ==> p in next.permissions && next.permissions[p] == seeded[p]
  {
  }

  /** The Admin role of a tenant just seeded holds everything, the Member role what mentions reading. */
  lemma SeededRoleLinks(defaults: seq<Grant>, db: Db, t: Id, name: string, base: Id, admin: Id, member: Id)
    requires LinksFit(db) && FreshTenant(defaults, db, t, base, admin, member)
    ensures var next := SeedTenant(db, defaults, t, name, base, admin, member);
      var seeded := SeededPermissions(defaults, base, t);
      Linked(next.rolePermissions, admin) == seeded.Keys && Linked(next.rolePermissions, member) == ReadOnly(seeded)
  {
    var seeded := SeededPermissions(defaults, base, t);
    var next := SeedTenant(db, defaults, t, name, base, admin, member);
    forall l | l in db.rolePermissions ensures l.0 != admin && l.0 != member {
      assert RolePermissionFits(db, l);
    }
    assert forall p :: p in seeded.Keys ==> (admin, p) in next.rolePermissions;
    assert forall p :: p in ReadOnly(seeded) ==> (member, p) in next.rolePermissions;
  }

  lemma SeededMemberRole(defaults: seq<Grant>, db: Db, t: Id, name: string, base: Id, admin: Id, member: Id)
    requires Anchored(db) && FreshTenant(defaults, db, t, base, admin, member)
    ensures MemberRoles(SeedTenant(db, defaults, t, name, base, admin, member), t) == {member}
  {
  }

  /** A user entering a tenant with one role is granted exactly what that role holds. */
  lemma EntryGrants(db: Db, next: Db, u: Id, t: Id, r: Id)
    requires Scoped(db) && (u in db.users ==> db.users[u].tenant == None)
    requires u in next.users && next == db.(users := db.users[u := next.users[u]], userRoles := db.userRoles + {(u, r)})
    ensures Granted(next, u) == Linked(db.rolePermissions, r) && PermissionsOf(next, t) == PermissionsOf(db, t)
  {
  }

  /** The permissions of tenant `t` are the default ones, numbered from `base` on. */
  ghost predicate HasDefaults(defaults: seq<Grant>, db: Db, t: Id, base: Id) {
    && PermissionsOf(db, t) == SeededPermissions(defaults, base, t).Keys
    && forall p :: p in PermissionsOf(db, t) ==>
      base <= p < base + |defaults|
      && db.permissions[p] == Permission(defaults[p - base].action, defaults[p - base].subject, t)
  }

  /** The user belongs to the tenant and holds one role, its `Admin`, and through it every permission of the
      tenant and nothing else. */
  ghost predicate Administers(db: Db, u: Id, email: string, t: Id, admin: Id) {
    && u in db.users && db.users[u] == User(email, Some(t))
    && Linked(db.userRoles, u) == {admin} && admin in db.roles && db.roles[admin] == Role("Admin", t)
    && Granted(db, u) == PermissionsOf(db, t)
  }

  lemma EntryHolds(db: Db, u: Id, r: Id)
    requires Scoped(db) && (u in db.users ==> db.users[u].tenant == None)
    ensures Linked(db.userRoles + {(u, r)}, u) == {r}
  {
    forall l | l in db.userRoles ensures l.0 != u {
      assert UserRoleFits(db, l);
    }
    assert (u, r) in db.userRoles + {(u, r)};
  }

  lemma SeededHasDefaults(defaults: seq<Grant>, db: Db, t: Id, name: string, base: Id, admin: Id, member: Id)
    requires Scoped(db) && FreshTenant(defaults, db, t, base, admin, member)
    ensures HasDefaults(defaults, SeedTenant(db, defaults, t, name, base, admin, member), t, base)
  {
    SeededExactly(defaults, db, t, name, base, admin, member);
  }

  /** Whoever founds a tenant administers it, and the tenant has the default permissions. */
  lemma FounderHoldsAll(defaults: seq<Grant>, db: Db, u: Id, t: Id, name: string, base: Id, admin: Id, member: Id)
    requires Scoped(db) && FreshTenant(defaults, db, t, base, admin, member)
    requires CreateTenantFor(db, defaults, u, t, name, base, admin, member).reply == Done
    ensures var next := CreateTenantFor(db, defaults, u, t, name, base, admin, member).db;
      && u in db.users && Administers(next, u, db.users[u].email, t, admin) && HasDefaults(defaults, next, t, base)
  {
    var s := SeedTenant(db, defaults, t, name, base, admin, member);
    SeedingKeepsScope(db, defaults, t, name, base, admin, member);
    SeededExactly(defaults, db, t, name, base, admin, member);
    SeededRoleLinks(defaults, db, t, name, base, admin, member);
    SeededHasDefaults(defaults, db, t, name, base, admin, member);
    EntryHolds(s, u, admin);
    EntryGrants(s, CreateTenantFor(db, defaults, u, t, name, base, admin, member).db, u, t, admin);
  }

  /** So does the administrator created together with a tenant. */
  lemma CreatedAdminHoldsAll(defaults: seq<Grant>, db: Db, t: Id, name: string, base: Id, admin: Id, member: Id,
          u: Id, email: string)
    requires Scoped(db) && FreshTenant(defaults, db, t, base, admin, member) && u !in db.users
    requires CreateTenant(db, defaults, t, name, base, admin, member, u, email).reply == Done
    ensures var next := CreateTenant(db, defaults, t, name, base, admin, member, u, email).db;
      && Administers(next, u, email, t, admin) && HasDefaults(defaults, next, t, base)
  {
    var s := SeedTenant(db, defaults, t, name, base, admin, member);
    SeedingKeepsScope(db, defaults, t, name, base, admin, member);
    SeededExactly(defaults, db, t, name, base, admin, member);
    SeededRoleLinks(defaults, db, t, name, base, admin, member);
    SeededHasDefaults(defaults, db, t, name, base, admin, member);
    EntryHolds(s, u, admin);
    EntryGrants(s, CreateTenant(db, defaults, t, name, base, admin, member, u, email).db, u, t, admin);
  }

  /** What mentions reading: the word stands somewhere in the action. */
  lemma MentionsReadExactly(action: string)
    ensures MentionsRead(action) <==> exists before, after :: action == before + "read" + after
  {
    if MentionsRead(action) {
      var i: nat :| i <= |action| - 4 && ReadsAt(action, i);
      assert action == action[..i] + "read" + action[i + 4..];
    }
    if before, after :| action == before + "read" + after {
      assert ReadsAt(action, |before|);
    }
  }

  /** Whoever is provisioned into a tenant just seeded may do what mentions reading, and nothing else. */
  lemma MemberReadsOnly(defaults: seq<Grant>, db: Db, t: Id, name: string, base: Id, admin: Id, member: Id,
          v: Id, email: string)
    requires Scoped(db) && FreshTenant(defaults, db, t, base, admin, member) && v !in db.users
    requires ProvisionUser(SeedTenant(db, defaults, t, name, base, admin, member), t, v, email).reply == Done
    ensures var next := ProvisionUser(SeedTenant(db, defaults, t, name, base, admin, member), t, v, email).db;
      Granted(next, v) == set p | p in PermissionsOf(next, t) && MentionsRead(next.permissions[p].action)
  {
    var s := SeedTenant(db, defaults, t, name, base, admin, member);
    var next := ProvisionUser(s, t, v, email).db;
    SeedingKeepsScope(db, defaults, t, name, base, admin, member);
    SeededExactly(defaults, db, t, name, base, admin, member);
    SeededRoleLinks(defaults, db, t, name, base, admin, member);
    SeededMemberRole(defaults, db, t, name, base, admin, member);
    assert Links(v, {member}) == {(v, member)};
    EntryGrants(s, next, v, t, member);
  }
}
