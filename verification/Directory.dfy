/** Tenants, users, roles, permissions, their join tables and the invitations: the tables behind the
    services that change them, each service operation as one step. The steps are stated here; what
    every run of them keeps is proved in `DirectoryScope` and `InvitationLifecycle`. */
module Directory {
  import opened Common
  import Text

  type Id = nat

  datatype User = User(email: string, tenant: Option<Id>)
  datatype Role = Role(name: string, tenant: Id)
  datatype Permission = Permission(action: string, subject: string, tenant: Id)

  datatype Status = PENDING | ACCEPTED | EXPIRED | CANCELLED

  datatype Invitation = Invitation(tenant: Id, email: string, token: nat, invitedBy: Id, expiresAt: int,
                                   status: Status, acceptedAt: Option<int>)

  /** The tables; a link is a pair of identifiers. `tokens` and `invited` are history: every token
      and every invitation identifier ever used. */
  datatype Db = Db(
    tenants: map<Id, string>,
    users: map<Id, User>,
    roles: map<Id, Role>,
    permissions: map<Id, Permission>,
    userRoles: set<(Id, Id)>,
    rolePermissions: set<(Id, Id)>,
    userPermissions: set<(Id, Id)>,
    invitations: map<Id, Invitation>,
    invitationRoles: set<(Id, Id)>,
    tokens: set<nat>,
    invited: set<Id>)

  const Empty := Db(map[], map[], map[], map[], {}, {}, {}, map[], {}, {}, {})

  /** `Constraint` is the database refusing a write: a unique index or a foreign key. */
  datatype Reply = Done | NotFound | Conflict | BadRequest | Constraint

  datatype Outcome = Outcome(db: Db, reply: Reply)

  datatype Grant = Grant(action: string, subject: string)

  const WEEK := 7 * 24 * 60 * 60 * 1000

  // ---------- lookups and constraints ----------

  predicate RoleOfTenant(db: Db, r: Id, t: Id) {
    r in db.roles && db.roles[r].tenant == t
  }

  predicate PermissionOfTenant(db: Db, p: Id, t: Id) {
    p in db.permissions && db.permissions[p].tenant == t
  }

  predicate UserOfTenant(db: Db, u: Id, t: Id) {
    u in db.users && db.users[u].tenant == Some(t)
  }

  predicate RoleNameTaken(db: Db, name: string, t: Id, except: Option<Id>) {
    exists r :: r in db.roles && db.roles[r] == Role(name, t) && except != Some(r)
  }

  predicate PermissionTaken(db: Db, action: string, subject: string, t: Id) {
    exists p :: p in db.permissions && db.permissions[p] == Permission(action, subject, t)
  }

  predicate EmailTaken(db: Db, email: string, tenant: Option<Id>, except: Option<Id>) {
    exists u :: u in db.users && db.users[u] == User(email, tenant) && except != Some(u)
  }

  predicate TenantNameTaken(db: Db, name: string) {
    exists t :: t in db.tenants && db.tenants[t] == name
  }

  /** The unique index over (tenant, email, status) as a write of `s` to invitation `i` meets it. */
  predicate StatusTaken(db: Db, tenant: Id, email: string, s: Status, i: Id) {
    exists j :: j in db.invitations && j != i && db.invitations[j].tenant == tenant && db.invitations[j].email == email
      && db.invitations[j].status == s
  }

  predicate Resolves(db: Db, token: nat) {
    exists i :: i in db.invitations && db.invitations[i].token == token
  }

  ghost function InvitationOf(db: Db, token: nat): Id
    requires Resolves(db, token)
    ensures InvitationOf(db, token) in db.invitations && db.invitations[InvitationOf(db, token)].token == token
  {
    var i :| i in db.invitations && db.invitations[i].token == token;
    i
  }

  function Linked(links: set<(Id, Id)>, left: Id): set<Id> {
    set l | l in links && l.0 == left :: l.1
  }

  function Links(left: Id, rights: set<Id>): set<(Id, Id)> {
    set r | r in rights :: (left, r)
  }

  function WithoutLeft(links: set<(Id, Id)>, left: Id): set<(Id, Id)> {
    set l | l in links && l.0 != left
  }

  function WithoutRight(links: set<(Id, Id)>, right: Id): set<(Id, Id)> {
    set l | l in links && l.1 != right
  }

  // ---------- permissions and roles ----------

  function CreatePermission(db: Db, t: Id, p: Id, g: Grant): Outcome {
    if t !in db.tenants then Outcome(db, Constraint)
    else if PermissionTaken(db, g.action, g.subject, t) then Outcome(db, Conflict)
    else Outcome(db.(permissions := db.permissions[p := Permission(g.action, g.subject, t)]), Done)
  }

  function DeletePermission(db: Db, t: Id, p: Id): Outcome {
    if !PermissionOfTenant(db, p, t) then Outcome(db, NotFound)
    else Outcome(db.(permissions := db.permissions - {p}, rolePermissions := WithoutRight(db.rolePermissions, p),
                     userPermissions := WithoutRight(db.userPermissions, p)), Done)
  }

  function CreateRole(db: Db, t: Id, r: Id, name: string): Outcome {
    if t !in db.tenants then Outcome(db, Constraint)
    else if RoleNameTaken(db, name, t, None) then Outcome(db, Conflict)
    else Outcome(db.(roles := db.roles[r := Role(name, t)]), Done)
  }

  function RenameRole(db: Db, t: Id, r: Id, name: string): Outcome {
    if !RoleOfTenant(db, r, t) then Outcome(db, NotFound)
    else if RoleNameTaken(db, name, t, Some(r)) then Outcome(db, Conflict)
    else Outcome(db.(roles := db.roles[r := Role(name, t)]), Done)
  }

  function DeleteRole(db: Db, t: Id, r: Id): Outcome {
    if !RoleOfTenant(db, r, t) then Outcome(db, NotFound)
    else Outcome(db.(roles := db.roles - {r}, userRoles := WithoutRight(db.userRoles, r),
                     rolePermissions := WithoutLeft(db.rolePermissions, r),
                     invitationRoles := WithoutRight(db.invitationRoles, r)), Done)
  }

  /** Comparing counts, then tenants, as the services do before replacing links. */
  predicate Assignable(requested: seq<Id>, existing: set<Id>, own: set<Id>) {
    requested == [] || (|Elements(requested) * existing| == |requested| && Elements(requested) * existing <= own)
  }

  function PermissionsOf(db: Db, t: Id): set<Id> {
    set p | p in db.permissions && db.permissions[p].tenant == t
  }

  function RolesOf(db: Db, t: Id): set<Id> {
    set r | r in db.roles && db.roles[r].tenant == t
  }

  function SetRolePermissions(db: Db, t: Id, r: Id, ps: seq<Id>): Outcome {
    if !RoleOfTenant(db, r, t) then Outcome(db, NotFound)
    else if !Assignable(ps, db.permissions.Keys, PermissionsOf(db, t)) then Outcome(db, BadRequest)
    else Outcome(db.(rolePermissions := WithoutLeft(db.rolePermissions, r) + Links(r, Elements(ps))), Done)
  }

  // ---------- users ----------

  function CreateUser(db: Db, t: Id, u: Id, email: string): Outcome {
    if t !in db.tenants then Outcome(db, Constraint)
    else if EmailTaken(db, email, Some(t), None) then Outcome(db, Conflict)
    else Outcome(db.(users := db.users[u := User(email, Some(t))]), Done)
  }

  function ChangeEmail(db: Db, t: Id, u: Id, email: string): Outcome {
    if !UserOfTenant(db, u, t) then Outcome(db, NotFound)
    else if EmailTaken(db, email, Some(t), Some(u)) then Outcome(db, Conflict)
    else Outcome(db.(users := db.users[u := User(email, Some(t))]), Done)
  }

  function InvitedBy(db: Db, u: Id): set<Id> {
    set i | i in db.invitations && db.invitations[i].invitedBy == u
  }

  function DeleteUser(db: Db, t: Id, u: Id): Outcome {
    if !UserOfTenant(db, u, t) then Outcome(db, NotFound)
    else Outcome(db.(users := db.users - {u}, userRoles := WithoutLeft(db.userRoles, u),
                     userPermissions := WithoutLeft(db.userPermissions, u),
                     invitations := db.invitations - InvitedBy(db, u),
                     invitationRoles := set l | l in db.invitationRoles && l.0 !in InvitedBy(db, u)), Done)
  }

  function AssignRoles(db: Db, t: Id, u: Id, rs: seq<Id>): Outcome {
    if !UserOfTenant(db, u, t) then Outcome(db, NotFound)
    else if !Assignable(rs, db.roles.Keys, RolesOf(db, t)) then Outcome(db, BadRequest)
    else Outcome(db.(userRoles := WithoutLeft(db.userRoles, u) + Links(u, Elements(rs))), Done)
  }

  function AssignPermissions(db: Db, t: Id, u: Id, ps: seq<Id>): Outcome {
    if !UserOfTenant(db, u, t) then Outcome(db, NotFound)
    else if !Assignable(ps, db.permissions.Keys, PermissionsOf(db, t)) then Outcome(db, BadRequest)
    else Outcome(db.(userPermissions := WithoutLeft(db.userPermissions, u) + Links(u, Elements(ps))), Done)
  }

  function RegisterTenantless(db: Db, u: Id, email: string): Outcome {
    if exists v :: v in db.users && db.users[v].email == email then Outcome(db, Conflict)
    else Outcome(db.(users := db.users[u := User(email, None)]), Done)
  }

  /** A Google sign-in without a tenant creates a user unless a tenant-less one has the email already. */
  function ProvisionTenantless(db: Db, u: Id, email: string): Outcome {
    if EmailTaken(db, email, None, None) then Outcome(db, Done)
    else Outcome(db.(users := db.users[u := User(email, None)]), Done)
  }

  // ---------- tenants ----------

  predicate ReadsAt(action: string, i: int) {
    0 <= i <= |action| - 4 && action[i..i + 4] == "read"
  }

  predicate MentionsRead(action: string) {
    exists i :: 0 <= i <= |action| - 4 && ReadsAt(action, i)
  }

  function SeededPermission(defaults: seq<Grant>, base: Id, t: Id, p: Id): Permission
    requires base <= p < base + |defaults|
  {
    Permission(defaults[p - base].action, defaults[p - base].subject, t)
  }

  function SeededPermissions(defaults: seq<Grant>, base: Id, t: Id): map<Id, Permission> {
    map p | base <= p < base + |defaults| :: SeededPermission(defaults, base, t, p)
  }

  function ReadOnly(seeded: map<Id, Permission>): set<Id> {
    set p | p in seeded && MentionsRead(seeded[p].action)
  }

  /** A new tenant with its default permissions, the Admin role holding all of them and the Member
      role holding those to read. */
  function SeedTenant(db: Db, defaults: seq<Grant>, t: Id, name: string, base: Id, admin: Id, member: Id): Db {
    var seeded := SeededPermissions(defaults, base, t);
    db.(tenants := db.tenants[t := name],
        permissions := db.permissions + seeded,
        roles := db.roles[admin := Role("Admin", t)][member := Role("Member", t)],
        rolePermissions := db.rolePermissions + Links(admin, seeded.Keys) + Links(member, ReadOnly(seeded)))
  }

  function CreateTenant(db: Db, defaults: seq<Grant>, t: Id, name: string, base: Id, admin: Id, member: Id,
          u: Id, email: string): Outcome {
    if TenantNameTaken(db, name) then Outcome(db, Conflict)
    else
      var s := SeedTenant(db, defaults, t, name, base, admin, member);
      Outcome(s.(users := s.users[u := User(email, Some(t))], userRoles := s.userRoles + {(u, admin)}), Done)
  }

  function CreateTenantFor(db: Db, defaults: seq<Grant>, u: Id, t: Id, name: string, base: Id, admin: Id,
          member: Id): Outcome {
    if u !in db.users then Outcome(db, NotFound)
    else if db.users[u].tenant != None then Outcome(db, Conflict)
    else if TenantNameTaken(db, name) then Outcome(db, Conflict)
    else
      var s := SeedTenant(db, defaults, t, name, base, admin, member);
      Outcome(s.(users := s.users[u := s.users[u].(tenant := Some(t))], userRoles := s.userRoles + {(u, admin)}), Done)
  }

  /** The Member roles of a tenant: at most one by the index on role names. */
  function MemberRoles(db: Db, t: Id): set<Id> {
    set r | r in db.roles && db.roles[r] == Role("Member", t)
  }

  /** `createUserFromGoogle`: the default role must exist. */
  function ProvisionUser(db: Db, t: Id, u: Id, email: string): Outcome {
    if MemberRoles(db, t) == {} then Outcome(db, NotFound)
    else if t !in db.tenants || EmailTaken(db, email, Some(t), None) then Outcome(db, Constraint)
    else
      Outcome(db.(users := db.users[u := User(email, Some(t))],
                  userRoles := db.userRoles + Links(u, MemberRoles(db, t))), Done)
  }

  // ---------- invitations ----------

  function SetStatus(db: Db, i: Id, s: Status): Outcome
    requires i in db.invitations
  {
    var inv := db.invitations[i];
    if StatusTaken(db, inv.tenant, inv.email, s, i) then Outcome(db, Constraint)
    else Outcome(db.(invitations := db.invitations[i := inv.(status := s)]), Done)
  }

  /** `stamp` is the instant recorded, read after the checks. */
  function Accept(db: Db, i: Id, stamp: int): Outcome
    requires i in db.invitations
  {
    var inv := db.invitations[i];
    if StatusTaken(db, inv.tenant, inv.email, ACCEPTED, i) then Outcome(db, Constraint)
    else Outcome(db.(invitations := db.invitations[i := inv.(status := ACCEPTED, acceptedAt := Some(stamp))]), Done)
  }

  function CreateInvitation(db: Db, t: Id, inviter: Id, i: Id, token: nat, email: string, rs: seq<Id>,
          expiresAt: Option<int>, now: int): Outcome {
    var expiry := if expiresAt.Some? then expiresAt.value else now + WEEK;
    if |Elements(rs) * RolesOf(db, t)| != |rs| then Outcome(db, BadRequest)
    else if StatusTaken(db, t, Text.Normalise(email), PENDING, i) then Outcome(db, Conflict)
    else if expiry <= now then Outcome(db, BadRequest)
    else if t !in db.tenants || inviter !in db.users then Outcome(db, Constraint)
    else
      var row := Invitation(t, Text.Normalise(email), token, inviter, expiry, PENDING, None);
      Outcome(db.(invitations := db.invitations[i := row],
                  invitationRoles := db.invitationRoles + Links(i, Elements(rs)),
                  tokens := db.tokens + {token}, invited := db.invited + {i}), Done)
  }

  /** Marks a pending invitation expired and reports it as such, unless the write is refused. */
  function Expire(db: Db, i: Id): Outcome
    requires i in db.invitations
  {
    if db.invitations[i].status != PENDING then Outcome(db, BadRequest)
    else
      var o := SetStatus(db, i, EXPIRED);
      if o.reply == Constraint then o else Outcome(o.db, BadRequest)
  }

  /** The invitation service looks at the expiry first, then at the status. */
  ghost function ValidateInvitation(db: Db, token: nat, now: int): Outcome {
    if !Resolves(db, token) then Outcome(db, NotFound)
    else
      var i := InvitationOf(db, token);
      if db.invitations[i].expiresAt <= now then Expire(db, i)
      else if db.invitations[i].status != PENDING then Outcome(db, BadRequest)
      else Outcome(db, Done)
  }

  /** The validation service looks at the status first, then at the expiry, and reports every failure,
      a refused write included, as a bad request. */
  ghost function ValidateToken(db: Db, token: nat, now: int): Outcome {
    if !Resolves(db, token) then Outcome(db, BadRequest)
    else
      var i := InvitationOf(db, token);
      if db.invitations[i].status != PENDING then Outcome(db, BadRequest)
      else if db.invitations[i].expiresAt <= now then Outcome(Expire(db, i).db, BadRequest)
      else Outcome(db, Done)
  }

  function CheckExpiration(db: Db, i: Id, now: int): Outcome {
    if i !in db.invitations then Outcome(db, NotFound)
    else if db.invitations[i].expiresAt <= now && db.invitations[i].status == PENDING then SetStatus(db, i, EXPIRED)
    else Outcome(db, Done)
  }

  function Cancel(db: Db, t: Id, i: Id): Outcome {
    if i !in db.invitations || db.invitations[i].tenant != t then Outcome(db, NotFound)
    else if db.invitations[i].status != PENDING then Outcome(db, BadRequest)
    else SetStatus(db, i, CANCELLED)
  }

  function Resend(db: Db, t: Id, i: Id, token: nat, now: int): Outcome {
    if i !in db.invitations || db.invitations[i].tenant != t then Outcome(db, NotFound)
    else if db.invitations[i].status != PENDING then Outcome(db, BadRequest)
    else Outcome(db.(invitations := db.invitations[i := db.invitations[i].(token := token, expiresAt := now + WEEK)],
                     tokens := db.tokens + {token}), Done)
  }

  /** Joining is one transaction: a refused write undoes all of it. */
  ghost function Join(db: Db, u: Id, token: nat, now: int, stamp: int): Outcome {
    if u !in db.users then Outcome(db, NotFound)
    else if db.users[u].tenant != None then Outcome(db, Conflict)
    else if !Resolves(db, token) then Outcome(db, NotFound)
    else
      var i := InvitationOf(db, token);
      var inv := db.invitations[i];
      if inv.status != PENDING || inv.expiresAt < now || inv.email != db.users[u].email then Outcome(db, BadRequest)
      else if EmailTaken(db, inv.email, Some(inv.tenant), Some(u)) then Outcome(db, Constraint)
      else if inv.tenant !in db.tenants then Outcome(db, Constraint)
      else
        var o := Accept(db, i, stamp);
        if o.reply == Constraint then Outcome(db, Constraint)
        else Outcome(o.db.(users := db.users[u := db.users[u].(tenant := Some(inv.tenant))],
                           userRoles := db.userRoles + Links(u, Linked(db.invitationRoles, i))), Done)
  }

  /** The user an invitation asks for, with its roles or, failing any, the tenant's Member role. */
  function InvitedUser(db: Db, i: Id, u: Id): Outcome
    requires i in db.invitations
  {
    var inv := db.invitations[i];
    var own := Linked(db.invitationRoles, i);
    var rs := if own != {} then own else MemberRoles(db, inv.tenant);
    if EmailTaken(db, inv.email, Some(inv.tenant), None) || inv.tenant !in db.tenants then Outcome(db, Constraint)
    else
      Outcome(db.(users := db.users[u := User(inv.email, Some(inv.tenant))],
                  userRoles := db.userRoles + Links(u, rs)), Done)
  }

  /** What the invited person brings: a password with the names, or a code that Google exchanges for the
      profile with this email, if it does; the tenant's switch and whether the Google identity is free. */
  datatype Credentials =
    | ByPassword(password: string, firstName: string, lastName: string)
    | ByGoogle(code: string, email: Option<string>, ssoEnabled: bool, identityFree: bool)
    | Unsupported

  predicate InOrder(c: Credentials, address: string) {
    match c
    case ByPassword(password, firstName, lastName) => firstName != "" && lastName != "" && 8 <= |password|
    case ByGoogle(code, email, ssoEnabled, identityFree) =>
      code != "" && email == Some(address) && ssoEnabled && identityFree
    case Unsupported => false
  }

  /** Validating once more, then marking the invitation accepted. */
  ghost function Conclude(db: Db, token: nat, i: Id, later: int, stamp: int): Outcome
    requires i in db.invitations
  {
    var again := ValidateInvitation(db, token, later);
    if again.reply != Done then again else Accept(db, i, stamp)
  }

  /** Validation, user creation and acceptance follow one another, each with its own transaction and
      its own reading of the clock. */
  ghost function AcceptInvitation(db: Db, token: nat, u: Id, credentials: Credentials, now: int, later: int,
          stamp: int): Outcome {
    var v := ValidateToken(db, token, now);
    if v.reply != Done then v
    else
      var i := InvitationOf(db, token);
      if EmailTaken(db, db.invitations[i].email, Some(db.invitations[i].tenant), None) then Outcome(db, Conflict)
      else if !InOrder(credentials, db.invitations[i].email) then Outcome(db, BadRequest)
      else
        var created := InvitedUser(db, i, u);
        if created.reply != Done then Outcome(db, BadRequest) else Conclude(created.db, token, i, later, stamp)
  }

  // ---------- runs ----------

  datatype Op =
    | OpCreatePermission(t: Id, p: Id, g: Grant)
    | OpDeletePermission(t: Id, p: Id)
    | OpCreateRole(t: Id, r: Id, name: string)
    | OpRenameRole(t: Id, r: Id, name: string)
    | OpDeleteRole(t: Id, r: Id)
    | OpSetRolePermissions(t: Id, r: Id, ids: seq<Id>)
    | OpCreateUser(t: Id, u: Id, email: string)
    | OpChangeEmail(t: Id, u: Id, email: string)
    | OpDeleteUser(t: Id, u: Id)
    | OpAssignRoles(t: Id, u: Id, ids: seq<Id>)
    | OpAssignPermissions(t: Id, u: Id, ids: seq<Id>)
    | OpRegisterTenantless(u: Id, email: string)
    | OpProvisionTenantless(u: Id, email: string)
    | OpCreateTenant(t: Id, name: string, base: Id, admin: Id, member: Id, u: Id, email: string)
    | OpCreateTenantFor(u: Id, t: Id, name: string, base: Id, admin: Id, member: Id)
    | OpProvisionUser(t: Id, u: Id, email: string)
    | OpCreateInvitation(t: Id, inviter: Id, i: Id, token: nat, email: string, ids: seq<Id>, expiresAt: Option<int>,
        now: int)
    | OpValidateInvitation(token: nat, now: int)
    | OpValidateToken(token: nat, now: int)
    | OpCheckExpiration(i: Id, now: int)
    | OpCancel(t: Id, i: Id)
    | OpResend(t: Id, i: Id, token: nat, now: int)
    | OpJoin(u: Id, token: nat, now: int, stamp: int)
    | OpAcceptInvitation(token: nat, u: Id, credentials: Credentials, now: int, later: int, stamp: int)

  predicate InvitationOp(op: Op) {
    op.OpCreateInvitation? || op.OpValidateInvitation? || op.OpValidateToken? || op.OpCheckExpiration? || op.OpCancel?
    || op.OpResend? || op.OpJoin? || op.OpAcceptInvitation?
  }

  function RecordStep(defaults: seq<Grant>, db: Db, op: Op): Outcome
    requires !InvitationOp(op)
  {
    match op
    case OpCreatePermission(t, p, g) => CreatePermission(db, t, p, g)
    case OpDeletePermission(t, p) => DeletePermission(db, t, p)
    case OpCreateRole(t, r, name) => CreateRole(db, t, r, name)
    case OpRenameRole(t, r, name) => RenameRole(db, t, r, name)
    case OpDeleteRole(t, r) => DeleteRole(db, t, r)
    case OpSetRolePermissions(t, r, ids) => SetRolePermissions(db, t, r, ids)
    case OpCreateUser(t, u, email) => CreateUser(db, t, u, email)
    case OpChangeEmail(t, u, email) => ChangeEmail(db, t, u, email)
    case OpDeleteUser(t, u) => DeleteUser(db, t, u)
    case OpAssignRoles(t, u, ids) => AssignRoles(db, t, u, ids)
    case OpAssignPermissions(t, u, ids) => AssignPermissions(db, t, u, ids)
    case OpRegisterTenantless(u, email) => RegisterTenantless(db, u, email)
    case OpProvisionTenantless(u, email) => ProvisionTenantless(db, u, email)
    case OpCreateTenant(t, name, base, admin, member, u, email) =>
      CreateTenant(db, defaults, t, name, base, admin, member, u, email)
    case OpCreateTenantFor(u, t, name, base, admin, member) =>
      CreateTenantFor(db, defaults, u, t, name, base, admin, member)
    case OpProvisionUser(t, u, email) => ProvisionUser(db, t, u, email)
  }

  ghost function InvitationStep(db: Db, op: Op): Outcome
    requires InvitationOp(op)
  {
    match op
    case OpCreateInvitation(t, inviter, i, token, email, ids, expiresAt, now) =>
      CreateInvitation(db, t, inviter, i, token, email, ids, expiresAt, now)
    case OpValidateInvitation(token, now) => ValidateInvitation(db, token, now)
    case OpValidateToken(token, now) => ValidateToken(db, token, now)
    case OpCheckExpiration(i, now) => CheckExpiration(db, i, now)
    case OpCancel(t, i) => Cancel(db, t, i)
    case OpResend(t, i, token, now) => Resend(db, t, i, token, now)
    case OpJoin(u, token, now, stamp) => Join(db, u, token, now, stamp)
    case OpAcceptInvitation(token, u, credentials, now, later, stamp) =>
      AcceptInvitation(db, token, u, credentials, now, later, stamp)
  }

  ghost function Step(defaults: seq<Grant>, db: Db, op: Op): Outcome {
    if InvitationOp(op) then InvitationStep(db, op) else RecordStep(defaults, db, op)
  }

  predicate FreshTenant(defaults: seq<Grant>, db: Db, t: Id, base: Id, admin: Id, member: Id) {
    && t !in db.tenants && admin !in db.roles && member !in db.roles && admin != member
    && forall p :: p in db.permissions ==> p < base || base + |defaults| <= p
  }

  /** New rows and tokens get identifiers that were never used. */
  predicate Possible(defaults: seq<Grant>, db: Db, op: Op) {
    match op
    case OpCreatePermission(_, p, _) => p !in db.permissions
    case OpCreateRole(_, r, _) => r !in db.roles
    case OpCreateUser(_, u, _) => u !in db.users
    case OpRegisterTenantless(u, _) => u !in db.users
    case OpProvisionTenantless(u, _) => u !in db.users
    case OpCreateTenant(t, _, base, admin, member, u, _) =>
      FreshTenant(defaults, db, t, base, admin, member) && u !in db.users
    case OpCreateTenantFor(_, t, _, base, admin, member) => FreshTenant(defaults, db, t, base, admin, member)
    case OpProvisionUser(_, u, _) => u !in db.users
    case OpCreateInvitation(_, _, i, token, _, _, _, _) => i !in db.invited && token !in db.tokens
    case OpResend(_, _, token, _) => token !in db.tokens
    case OpJoin(_, _, now, stamp) => now <= stamp
    case OpAcceptInvitation(_, u, _, now, later, stamp) => u !in db.users && now <= later <= stamp
    case _ => true
  }

  ghost function Run(defaults: seq<Grant>, db: Db, ops: seq<Op>): Db
    decreases ops
  {
    if ops == [] then db else Run(defaults, Step(defaults, db, ops[0]).db, ops[1..])
  }

  ghost predicate PossibleRun(defaults: seq<Grant>, db: Db, ops: seq<Op>)
    decreases ops
  {
    ops == [] || (Possible(defaults, db, ops[0]) && PossibleRun(defaults, Step(defaults, db, ops[0]).db, ops[1..]))
  }
}
