/** The services over the shared tables, statement by statement: each method leaves the tables, and
    answers, as the step of the same name in `Directory` says. */
module DirectoryServices {
  import opened Common
  import opened Directory
  import opened InvitationLifecycle
  import Text

  class Store {
    var tenants: map<Id, string>
    var users: map<Id, User>
    var roles: map<Id, Role>
    var permissions: map<Id, Permission>
    var userRoles: set<(Id, Id)>
    var rolePermissions: set<(Id, Id)>
    var userPermissions: set<(Id, Id)>
    var invitations: map<Id, Invitation>
    var invitationRoles: set<(Id, Id)>
    ghost var tokens: set<nat>
    ghost var invited: set<Id>

    constructor ()
      ensures State() == Empty
    {
      tenants, users, roles, permissions := map[], map[], map[], map[];
      userRoles, rolePermissions, userPermissions, invitationRoles := {}, {}, {}, {};
      invitations, tokens, invited := map[], {}, {};
    }

    ghost function State(): Db
      reads this
    {
      Db(tenants, users, roles, permissions, userRoles, rolePermissions, userPermissions, invitations,
        invitationRoles, tokens, invited)
    }

    // ---------- permissions and roles ----------

    method CreatePermission(t: Id, p: Id, g: Grant) returns (reply: Reply)
      modifies this
      ensures Outcome(State(), reply) == Directory.CreatePermission(old(State()), t, p, g)
    {
      if t !in tenants { return Constraint; }
      if exists q :: q in permissions && permissions[q] == Permission(g.action, g.subject, t) { return Conflict; }
      permissions := permissions[p := Permission(g.action, g.subject, t)];
      return Done;
    }

    method DeletePermission(t: Id, p: Id) returns (reply: Reply)
      modifies this
      ensures Outcome(State(), reply) == Directory.DeletePermission(old(State()), t, p)
    {
      if p !in permissions || permissions[p].tenant != t { return NotFound; }
      permissions := permissions - {p};
      rolePermissions := WithoutRight(rolePermissions, p);
      userPermissions := WithoutRight(userPermissions, p);
      return Done;
    }

    method CreateRole(t: Id, r: Id, name: string) returns (reply: Reply)
      modifies this
      ensures Outcome(State(), reply) == Directory.CreateRole(old(State()), t, r, name)
    {
      if t !in tenants { return Constraint; }
      if exists q :: q in roles && roles[q] == Role(name, t) { return Conflict; }
      roles := roles[r := Role(name, t)];
      return Done;
    }

    method RenameRole(t: Id, r: Id, name: string) returns (reply: Reply)
      modifies this
      ensures Outcome(State(), reply) == Directory.RenameRole(old(State()), t, r, name)
    {
      if r !in roles || roles[r].tenant != t { return NotFound; }
      if exists q :: q in roles && q != r && roles[q] == Role(name, t) { return Conflict; }
      roles := roles[r := roles[r].(name := name)];
      return Done;
    }

    method DeleteRole(t: Id, r: Id) returns (reply: Reply)
      modifies this
      ensures Outcome(State(), reply) == Directory.DeleteRole(old(State()), t, r)
    {
      if r !in roles || roles[r].tenant != t { return NotFound; }
      roles := roles - {r};
      userRoles := WithoutRight(userRoles, r);
      rolePermissions := WithoutLeft(rolePermissions, r);
      invitationRoles := WithoutRight(invitationRoles, r);
      return Done;
    }

    /** Inserts one link after another. */
    method CreateLinks(links: set<(Id, Id)>, left: Id, ids: seq<Id>) returns (more: set<(Id, Id)>)
      ensures more == links + Links(left, Elements(ids))
    {
      more := links;
      for k := 0 to |ids|
        invariant more == links + Links(left, Elements(ids[..k]))
      {
        assert Elements(ids[..k + 1]) == Elements(ids[..k]) + {ids[k]};
        more := more + {(left, ids[k])};
      }
      assert ids[..|ids|] == ids;
    }

    method UpdateRolePermissions(t: Id, r: Id, ids: seq<Id>) returns (reply: Reply)
      modifies this
      ensures Outcome(State(), reply) == SetRolePermissions(old(State()), t, r, ids)
    {
      if r !in roles || roles[r].tenant != t { return NotFound; }
      if |ids| > 0 {
        var found := set p | p in ids && p in permissions;
        assert found == Elements(ids) * permissions.Keys;
        if |found| != |ids| { return BadRequest; }
        if exists p :: p in found && permissions[p].tenant != t { return BadRequest; }
      }
      rolePermissions := WithoutLeft(rolePermissions, r);
      if |ids| > 0 {
        rolePermissions := CreateLinks(rolePermissions, r, ids);
      }
      return Done;
    }

    // ---------- users ----------

    method CreateUser(t: Id, u: Id, email: string) returns (reply: Reply)
      modifies this
      ensures Outcome(State(), reply) == Directory.CreateUser(old(State()), t, u, email)
    {
      if t !in tenants { return Constraint; }
      if exists v :: v in users && users[v] == User(email, Some(t)) { return Conflict; }
      users := users[u := User(email, Some(t))];
      return Done;
    }

    method UpdateUser(t: Id, u: Id, email: string) returns (reply: Reply)
      modifies this
      ensures Outcome(State(), reply) == ChangeEmail(old(State()), t, u, email)
    {
      if u !in users || users[u].tenant != Some(t) { return NotFound; }
      if exists v :: v in users && v != u && users[v] == User(email, Some(t)) { return Conflict; }
      users := users[u := users[u].(email := email)];
      return Done;
    }

    method DeleteUser(t: Id, u: Id) returns (reply: Reply)
      modifies this
      ensures Outcome(State(), reply) == Directory.DeleteUser(old(State()), t, u)
    {
      if u !in users || users[u].tenant != Some(t) { return NotFound; }
      users := users - {u};
      userRoles := WithoutLeft(userRoles, u);
      userPermissions := WithoutLeft(userPermissions, u);
      var gone := set i | i in invitations && invitations[i].invitedBy == u;
      invitations := invitations - gone;
      invitationRoles := set l | l in invitationRoles && l.0 !in gone;
      return Done;
    }

    method AssignRoles(t: Id, u: Id, ids: seq<Id>) returns (reply: Reply)
      modifies this
      ensures Outcome(State(), reply) == Directory.AssignRoles(old(State()), t, u, ids)
    {
      if u !in users || users[u].tenant != Some(t) { return NotFound; }
      if |ids| > 0 {
        var found := set r | r in ids && r in roles;
        assert found == Elements(ids) * roles.Keys;
        if |found| != |ids| { return BadRequest; }
        if exists r :: r in found && roles[r].tenant != t { return BadRequest; }
      }
      userRoles := WithoutLeft(userRoles, u);
      if |ids| > 0 {
        userRoles := CreateLinks(userRoles, u, ids);
      }
      return Done;
    }

    method AssignPermissions(t: Id, u: Id, ids: seq<Id>) returns (reply: Reply)
      modifies this
      ensures Outcome(State(), reply) == Directory.AssignPermissions(old(State()), t, u, ids)
    {
      if u !in users || users[u].tenant != Some(t) { return NotFound; }
      if |ids| > 0 {
        var found := set p | p in ids && p in permissions;
        assert found == Elements(ids) * permissions.Keys;
        if |found| != |ids| { return BadRequest; }
        if exists p :: p in found && permissions[p].tenant != t { return BadRequest; }
      }
      userPermissions := WithoutLeft(userPermissions, u);
      if |ids| > 0 {
        userPermissions := CreateLinks(userPermissions, u, ids);
      }
      return Done;
    }

    // ---------- tenants ----------

    /** One permission row for each default, in order. */
    method CreateDefaults(existing: map<Id, Permission>, defaults: seq<Grant>, base: Id, t: Id)
      returns (all: map<Id, Permission>, created: seq<Id>)
      ensures all == existing + SeededPermissions(defaults, base, t)
      ensures Elements(created) == SeededPermissions(defaults, base, t).Keys
    {
      all, created := existing, [];
      for k := 0 to |defaults|
        invariant all == existing + SeededPermissions(defaults[..k], base, t)
        invariant Elements(created) == SeededPermissions(defaults[..k], base, t).Keys
      {
        SeededOneMore(defaults, k, base, t);
        all := all[base + k := Permission(defaults[k].action, defaults[k].subject, t)];
        created := created + [base + k];
      }
      assert defaults[..|defaults|] == defaults;
    }

    static lemma SeededOneMore(defaults: seq<Grant>, k: nat, base: Id, t: Id)
      requires k < |defaults|
      ensures SeededPermissions(defaults[..k + 1], base, t) ==
              SeededPermissions(defaults[..k], base, t)
                [base + k := Permission(defaults[k].action, defaults[k].subject, t)]
    {
    }

    /** Those of the listed permissions whose action mentions reading. */
    method Readable(rows: map<Id, Permission>, ids: seq<Id>) returns (some: seq<Id>)
      requires forall p :: p in ids ==> p in rows
      ensures Elements(some) == set p | p in ids && MentionsRead(rows[p].action)
    {
      some := [];
      for k := 0 to |ids|
        invariant Elements(some) == set p | p in ids[..k] && MentionsRead(rows[p].action)
      {
        assert forall p :: p in ids[..k + 1] <==> p in ids[..k] || p == ids[k];
        assert ids[k] in ids;
        if MentionsRead(rows[ids[k]].action) {
          assert Elements(some + [ids[k]]) == Elements(some) + {ids[k]};
          some := some + [ids[k]];
        }
      }
      assert ids[..|ids|] == ids;
    }

    static lemma ReadableSeeded(existing: map<Id, Permission>, seeded: map<Id, Permission>, created: seq<Id>,
            readable: seq<Id>)
      requires Elements(created) == seeded.Keys && forall p :: p in created ==> p in existing + seeded
      requires Elements(readable) == set p | p in created && MentionsRead((existing + seeded)[p].action)
      ensures Elements(readable) == ReadOnly(seeded)
    {
      assert forall p :: p in created <==> p in Elements(created);
    }

    /** The body shared by both ways of founding a tenant: permissions, Admin role, its links, Member
        role, its links, in this order. */
    method SeedTenant(defaults: seq<Grant>, t: Id, name: string, base: Id, admin: Id, member: Id)
      modifies this
      ensures State() == Directory.SeedTenant(old(State()), defaults, t, name, base, admin, member)
    {
      tenants := tenants[t := name];
      var created: seq<Id>;
      permissions, created := CreateDefaults(permissions, defaults, base, t);
      roles := roles[admin := Role("Admin", t)];
      rolePermissions := CreateLinks(rolePermissions, admin, created);
      roles := roles[member := Role("Member", t)];
      assert forall p :: p in created ==> p in Elements(created);
      var readable := Readable(permissions, created);
      ReadableSeeded(old(permissions), SeededPermissions(defaults, base, t), created, readable);
      rolePermissions := CreateLinks(rolePermissions, member, readable);
    }

    method CreateTenant(defaults: seq<Grant>, t: Id, name: string, base: Id, admin: Id, member: Id, u: Id,
            email: string) returns (reply: Reply)
      modifies this
      ensures Outcome(State(), reply) ==
        Directory.CreateTenant(old(State()), defaults, t, name, base, admin, member, u, email)
    {
      if exists other :: other in tenants && tenants[other] == name { return Conflict; }
      SeedTenant(defaults, t, name, base, admin, member);
      users := users[u := User(email, Some(t))];
      userRoles := userRoles + {(u, admin)};
      return Done;
    }

    method CreateTenantForUser(defaults: seq<Grant>, u: Id, t: Id, name: string, base: Id, admin: Id, member: Id)
      returns (reply: Reply)
      modifies this
      ensures Outcome(State(), reply) == CreateTenantFor(old(State()), defaults, u, t, name, base, admin, member)
    {
      if u !in users { return NotFound; }
      if users[u].tenant != None { return Conflict; }
      if exists other :: other in tenants && tenants[other] == name { return Conflict; }
      SeedTenant(defaults, t, name, base, admin, member);
      users := users[u := users[u].(tenant := Some(t))];
      userRoles := userRoles + {(u, admin)};
      return Done;
    }

    /** A default role is required before a Google user is created with it. */
    method CreateUserFromGoogle(t: Id, u: Id, email: string) returns (reply: Reply)
      requires |MemberRoles(State(), t)| <= 1
      modifies this
      ensures Outcome(State(), reply) == ProvisionUser(old(State()), t, u, email)
    {
      if !exists r :: r in roles && roles[r] == Role("Member", t) { return NotFound; }
      var role :| role in roles && roles[role] == Role("Member", t);
      OneOf(MemberRoles(State(), t), role);
      if t !in tenants || exists v :: v in users && users[v] == User(email, Some(t)) { return Constraint; }
      users := users[u := User(email, Some(t))];
      userRoles := userRoles + {(u, role)};
      return Done;
    }

    static lemma OneOf(s: set<Id>, x: Id)
      requires |s| <= 1 && x in s
      ensures s == {x}
    {
      assert |s - {x}| == |s| - 1;
    }

    // ---------- invitations ----------

    /** The unique-token lookup. */
    method FindByToken(token: nat) returns (found: Option<Id>)
      requires TokensUnique(State())
      ensures found == if Resolves(State(), token) then Some(InvitationOf(State(), token)) else None
    {
      if exists i :: i in invitations && invitations[i].token == token {
        var i :| i in invitations && invitations[i].token == token;
        return Some(i);
      }
      return None;
    }

    /** A write of a row, refused when another row holds its tenant, email and status. */
    method WriteInvitation(i: Id, row: Invitation) returns (ok: bool)
      modifies this`invitations
      ensures ok == !StatusTaken(old(State()), row.tenant, row.email, row.status, i)
      ensures State() == if ok then old(State()).(invitations := old(invitations)[i := row]) else old(State())
    {
      if exists j :: j in invitations && j != i && SameSlot(invitations[j], row) { return false; }
      invitations := invitations[i := row];
      return true;
    }

    /** Counts the roles found in the tenant against those asked for. */
    method ValidateRoleAssignments(t: Id, ids: seq<Id>) returns (ok: bool)
      ensures ok == (|Elements(ids) * RolesOf(State(), t)| == |ids|)
    {
      var found := set r | r in ids && r in roles && roles[r].tenant == t;
      assert found == Elements(ids) * RolesOf(State(), t);
      return |found| == |ids|;
    }

    method CheckExistingInvitation(t: Id, email: string) returns (waiting: bool)
      ensures waiting == exists j :: j in invitations && Awaits(invitations[j], t, Text.Normalise(email))
    {
      return exists j :: j in invitations && Awaits(invitations[j], t, Text.Normalise(email));
    }

    static predicate Awaits(inv: Invitation, t: Id, address: string) {
      inv.tenant == t && inv.email == address && inv.status == PENDING
    }

    method CreateInvitation(t: Id, inviter: Id, i: Id, token: nat, email: string, ids: seq<Id>,
            expiresAt: Option<int>, now: int)
      returns (reply: Reply)
      requires i !in invitations
      modifies this
      ensures Outcome(State(), reply) ==
        Directory.CreateInvitation(old(State()), t, inviter, i, token, email, ids, expiresAt, now)
    {
      var known := ValidateRoleAssignments(t, ids);
      if !known { return BadRequest; }
      var waiting := CheckExistingInvitation(t, email);
      if waiting { return Conflict; }
      var expiry := now + WEEK;
      if expiresAt.Some? { expiry := expiresAt.value; }
      if expiry <= now { return BadRequest; }
      if t !in tenants || inviter !in users { return Constraint; }
      invitations := invitations[i := Invitation(t, Text.Normalise(email), token, inviter, expiry, PENDING, None)];
      tokens, invited := tokens + {token}, invited + {i};
      invitationRoles := CreateLinks(invitationRoles, i, ids);
      return Done;
    }

    method ValidateInvitation(token: nat, now: int) returns (reply: Reply)
      requires TokensUnique(State())
      modifies this
      ensures Outcome(State(), reply) == Directory.ValidateInvitation(old(State()), token, now)
    {
      var found := FindByToken(token);
      if found == None { return NotFound; }
      var i := found.value;
      if invitations[i].expiresAt <= now {
        if invitations[i].status == PENDING {
          var ok := WriteInvitation(i, invitations[i].(status := EXPIRED));
          if !ok { return Constraint; }
        }
        return BadRequest;
      }
      if invitations[i].status != PENDING { return BadRequest; }
      return Done;
    }

    method ValidateToken(token: nat, now: int) returns (reply: Reply)
      requires TokensUnique(State())
      modifies this
      ensures Outcome(State(), reply) == Directory.ValidateToken(old(State()), token, now)
    {
      var found := FindByToken(token);
      if found == None { return BadRequest; }
      var i := found.value;
      if invitations[i].status != PENDING { return BadRequest; }
      if invitations[i].expiresAt <= now {
        var _ := WriteInvitation(i, invitations[i].(status := EXPIRED));
        return BadRequest;
      }
      return Done;
    }

    method CheckExpiration(i: Id, now: int) returns (reply: Reply)
      modifies this
      ensures Outcome(State(), reply) == Directory.CheckExpiration(old(State()), i, now)
    {
      if i !in invitations { return NotFound; }
      if invitations[i].expiresAt <= now && invitations[i].status == PENDING {
        var ok := WriteInvitation(i, invitations[i].(status := EXPIRED));
        if !ok { return Constraint; }
      }
      return Done;
    }

    method CancelInvitation(t: Id, i: Id) returns (reply: Reply)
      modifies this
      ensures Outcome(State(), reply) == Cancel(old(State()), t, i)
    {
      if i !in invitations || invitations[i].tenant != t { return NotFound; }
      if invitations[i].status != PENDING { return BadRequest; }
      var ok := WriteInvitation(i, invitations[i].(status := CANCELLED));
      return if ok then Done else Constraint;
    }

    method ResendInvitation(t: Id, i: Id, token: nat, now: int) returns (reply: Reply)
      modifies this
      ensures Outcome(State(), reply) == Resend(old(State()), t, i, token, now)
    {
      if i !in invitations || invitations[i].tenant != t { return NotFound; }
      if invitations[i].status != PENDING { return BadRequest; }
      invitations := invitations[i := invitations[i].(token := token, expiresAt := now + WEEK)];
      tokens := tokens + {token};
      return Done;
    }

    /** The writes form one transaction: when one is refused the earlier ones are taken back. */
    method JoinTenantForUser(u: Id, token: nat, now: int, stamp: int) returns (reply: Reply)
      requires TokensUnique(State())
      modifies this
      ensures Outcome(State(), reply) == Join(old(State()), u, token, now, stamp)
    {
      if u !in users { return NotFound; }
      if users[u].tenant != None { return Conflict; }
      var found := FindByToken(token);
      if found == None { return NotFound; }
      var i, inv := found.value, invitations[found.value];
      if inv.status != PENDING { return BadRequest; }
      if inv.expiresAt < now { return BadRequest; }
      if inv.email != users[u].email { return BadRequest; }
      if inv.tenant !in tenants { return Constraint; }
      if exists v :: v in users && v != u && users[v] == User(inv.email, Some(inv.tenant)) { return Constraint; }
      var usersBefore, linksBefore := users, userRoles;
      users := users[u := users[u].(tenant := Some(inv.tenant))];
      userRoles := userRoles + Links(u, Linked(invitationRoles, i));
      var ok := WriteInvitation(i, inv.(status := ACCEPTED, acceptedAt := Some(stamp)));
      if !ok {
        users, userRoles := usersBefore, linksBefore;
        return Constraint;
      }
      return Done;
    }

    method CreateUserFromInvitation(i: Id, u: Id) returns (reply: Reply)
      requires i in invitations && |MemberRoles(State(), invitations[i].tenant)| <= 1
      modifies this
      ensures Outcome(State(), reply) == InvitedUser(old(State()), i, u)
    {
      var inv, rs := invitations[i], Linked(invitationRoles, i);
      if inv.tenant !in tenants { return Constraint; }
      if exists v :: v in users && users[v] == User(inv.email, Some(inv.tenant)) { return Constraint; }
      users := users[u := User(inv.email, Some(inv.tenant))];
      if |rs| > 0 {
        userRoles := userRoles + Links(u, rs);
      } else if exists r :: r in roles && roles[r] == Role("Member", inv.tenant) {
        var role :| role in roles && roles[role] == Role("Member", inv.tenant);
        OneOf(MemberRoles(State(), inv.tenant), role);
        userRoles := userRoles + {(u, role)};
      } else {
        assert MemberRoles(State(), inv.tenant) == {};
      }
      return Done;
    }

    method AcceptInvitation(token: nat, u: Id, credentials: Credentials, now: int, later: int, stamp: int)
      returns (reply: Reply)
      requires TokensUnique(State()) && forall t :: |MemberRoles(State(), t)| <= 1
      modifies this
      ensures Outcome(State(), reply) ==
        Directory.AcceptInvitation(old(State()), token, u, credentials, now, later, stamp)
    {
      var valid := ValidateToken(token, now);
      if valid != Done { return valid; }
      var found := FindByToken(token);
      var i, inv := found.value, invitations[found.value];
      if exists v :: v in users && users[v] == User(inv.email, Some(inv.tenant)) { return Conflict; }
      match credentials {
        case ByGoogle(code, email, ssoEnabled, identityFree) =>
          if code == "" { return BadRequest; }
          if email == None || email.value != inv.email { return BadRequest; }
          if !ssoEnabled || !identityFree { return BadRequest; }
        case ByPassword(password, firstName, lastName) =>
          if password == "" || firstName == "" || lastName == "" { return BadRequest; }
          if |password| < 8 { return BadRequest; }
        case Unsupported => return BadRequest;
      }
      var created := CreateUserFromInvitation(i, u);
      if created != Done { return BadRequest; }
      var again := ValidateInvitation(token, later);
      if again != Done { return again; }
      var ok := WriteInvitation(i, invitations[i].(status := ACCEPTED, acceptedAt := Some(stamp)));
      return if ok then Done else Constraint;
    }
  }
}
