/** What the directory operations do for whom: the grants each one gives and withdraws, for every user of
    every tenant, and what becomes of the invitations. */
module DirectoryEffects {
  import opened Common
  import opened Directory
  import opened DirectoryScope
  import opened InvitationLifecycle
  import opened InvitationRefusals

  /** The permissions that come with some roles. */
  function GrantsThrough(db: Db, roles: set<Id>): set<Id> {
    set m | m in db.rolePermissions && m.0 in roles && m.1 in db.permissions :: m.1
  }

  function RolesHeld(db: Db, u: Id): set<Id> {
    Linked(db.userRoles, u)
  }

  lemma RoleGrantsComeThrough(db: Db, u: Id)
    ensures RoleGrants(db, u) == GrantsThrough(db, RolesHeld(db, u))
  {
  }

  /** Grants are decided by the roles held, what comes with them and the direct links. */
  lemma GrantsDecided(db: Db, next: Db, v: Id)
    requires Linked(next.userRoles, v) == Linked(db.userRoles, v)
    requires Linked(next.userPermissions, v) == Linked(db.userPermissions, v)
    requires next.rolePermissions == db.rolePermissions && next.permissions == db.permissions
    ensures Granted(next, v) == Granted(db, v)
  {
    RoleGrantsComeThrough(db, v);
    RoleGrantsComeThrough(next, v);
    DirectGrantsComeThrough(db, v);
    DirectGrantsComeThrough(next, v);
  }

  lemma DirectGrantsComeThrough(db: Db, u: Id)
    ensures DirectGrants(db, u) == Linked(db.userPermissions, u) * db.permissions.Keys
  {
  }

  lemma Relinked(links: set<(Id, Id)>, u: Id, rights: set<Id>, v: Id)
    ensures Linked(WithoutLeft(links, u) + Links(u, rights), v) == if v == u then rights else Linked(links, v)
  {
  }

  lemma RightRemoved(links: set<(Id, Id)>, r: Id, v: Id)
    ensures Linked(WithoutRight(links, r), v) == Linked(links, v) - {r}
  {
  }

  // ---------- assigning ----------

  /** A user is then granted exactly what the roles given bring, besides its direct permissions; what anyone
      else is granted stays. */
  lemma AssignedRolesGrantExactly(db: Db, t: Id, u: Id, ids: seq<Id>, v: Id)
    requires AssignRoles(db, t, u, ids).reply == Done
    ensures var next := AssignRoles(db, t, u, ids).db;
      Granted(next, v) ==
        if v == u then DirectGrants(db, u) + GrantsThrough(db, Elements(ids)) else Granted(db, v)
  {
  }

  /** A user is then granted exactly the permissions given, besides those of its roles; what anyone else is
      granted stays. */
  lemma AssignedPermissionsGrantExactly(db: Db, t: Id, u: Id, ids: seq<Id>, v: Id)
    requires AssignPermissions(db, t, u, ids).reply == Done
    ensures var next := AssignPermissions(db, t, u, ids).db;
      Granted(next, v) == if v == u then RoleGrants(db, u) + Elements(ids) else Granted(db, v)
  {
    var next := AssignPermissions(db, t, u, ids).db;
    Relinked(db.userPermissions, u, Elements(ids), v);
    AssignableExact(ids, db.permissions.Keys, PermissionsOf(db, t), u);
    DirectGrantsComeThrough(next, v);
    if v != u {
      GrantsDecided(db, next, v);
    }
  }

  /** Whoever holds the role is then granted, through it, exactly the permissions given, and keeps what it has
      otherwise; what anyone else is granted stays. */
  lemma RolePermissionsGrantExactly(db: Db, t: Id, r: Id, ids: seq<Id>, v: Id)
    requires SetRolePermissions(db, t, r, ids).reply == Done
    ensures var next := SetRolePermissions(db, t, r, ids).db;
      Granted(next, v) ==
        if r in RolesHeld(db, v)
        then DirectGrants(db, v) + GrantsThrough(db, RolesHeld(db, v) - {r}) + Elements(ids)
        else Granted(db, v)
  {
    AssignableExact(ids, db.permissions.Keys, PermissionsOf(db, t), r);
    RoleReplaced(db, SetRolePermissions(db, t, r, ids).db, r, Elements(ids), v);
  }

  lemma RoleReplaced(db: Db, next: Db, r: Id, ids: set<Id>, v: Id)
    requires next == db.(rolePermissions := WithoutLeft(db.rolePermissions, r) + Links(r, ids))
      && ids <= db.permissions.Keys
    ensures Granted(next, v) ==
      if r in RolesHeld(db, v) then DirectGrants(db, v) + GrantsThrough(db, RolesHeld(db, v) - {r}) + ids
      else Granted(db, v)
  {
  }

  // ---------- deleting and renaming ----------

  /** Deleting a permission withdraws it, and nothing else, from everybody. */
  lemma DeletedPermissionIsWithdrawn(db: Db, t: Id, p: Id, v: Id)
    requires DeletePermission(db, t, p).reply == Done
    ensures Granted(DeletePermission(db, t, p).db, v) == Granted(db, v) - {p}
  {
  }

  /** Deleting a role leaves everybody exactly what comes directly or through another role. */
  lemma DeletedRoleIsWithdrawn(db: Db, t: Id, r: Id, v: Id)
    requires DeleteRole(db, t, r).reply == Done
    ensures Granted(DeleteRole(db, t, r).db, v) == DirectGrants(db, v) + GrantsThrough(db, RolesHeld(db, v) - {r})
  {
  }

  /** Renaming a role changes nobody's grants. Provisioning is another matter: it finds no default role from
      then on exactly when no other role of the tenant is called `Member` and the new name is not either. */
  lemma RenamingKeepsGrants(db: Db, t: Id, r: Id, name: string, v: Id, u: Id, email: string)
    requires RenameRole(db, t, r, name).reply == Done
    ensures var next := RenameRole(db, t, r, name).db;
      && Granted(next, v) == Granted(db, v) && Effective(next, v) == Effective(db, v)
      && (ProvisionUser(next, t, u, email).reply == NotFound <==> MemberRoles(db, t) <= {r} && name != "Member")
  {
    var next := RenameRole(db, t, r, name).db;
    GrantsDecided(db, next, v);
    assert MemberRoles(next, t) == if name == "Member" then MemberRoles(db, t) + {r} else MemberRoles(db, t) - {r};
  }

  /** A deleted user is granted nothing and everybody else what they were. The invitations it sent are gone
      and all others stay, with their roles. */
  lemma DeletedUserLosesAll(db: Db, t: Id, u: Id, v: Id, i: Id)
    requires DeleteUser(db, t, u).reply == Done
    ensures var next := DeleteUser(db, t, u).db;
      && Granted(next, v) == (if v == u then {} else Granted(db, v))
      && (i in next.invitations <==> i in db.invitations && db.invitations[i].invitedBy != u)
      && (i in next.invitations ==>
          next.invitations[i] == db.invitations[i] && Linked(next.invitationRoles, i) == Linked(db.invitationRoles, i))
  {
  }

  /** And no token the deleted user sent ever finds an invitation again, whatever follows. */
  lemma SentTokensAreDead(defaults: seq<Grant>, db: Db, t: Id, u: Id, i: Id, ops: seq<Op>)
    requires Sound(db) && DeleteUser(db, t, u).reply == Done && i in db.invitations && db.invitations[i].invitedBy == u
    requires PossibleRun(defaults, DeleteUser(db, t, u).db, ops)
    ensures !Resolves(Run(defaults, DeleteUser(db, t, u).db, ops), db.invitations[i].token)
  {
    var next := DeleteUser(db, t, u).db;
    RecordsThin(defaults, db, OpDeleteUser(t, u));
    EvolutionKeepsSound(db, next);
    assert TokenFits(db, i) && TokensUnique(db);
    assert Dead(next, db.invitations[i].token);
    DeadForGood(defaults, next, ops, db.invitations[i].token);
  }

  // ---------- invitations ----------

  /** A deleted role drops out of the invitations. Whoever accepts one that named no other gets the tenant's
      Member role instead, and whoever joins with it gets none. */
  lemma DeletedRoleFallsBack(db: Db, t: Id, r: Id, i: Id, u: Id)
    requires Scoped(db) && DeleteRole(db, t, r).reply == Done && i in db.invitations && u !in db.users
    requires InvitedUser(DeleteRole(db, t, r).db, i, u).reply == Done
    ensures var next, left := DeleteRole(db, t, r).db, Linked(db.invitationRoles, i) - {r};
      && Linked(next.invitationRoles, i) == left
      && RolesHeld(InvitedUser(next, i, u).db, u) ==
        if left != {} then left else MemberRoles(db, db.invitations[i].tenant) - {r}
  {
    var next, left := DeleteRole(db, t, r).db, Linked(db.invitationRoles, i) - {r};
    RightRemoved(db.invitationRoles, r, i);
    assert MemberRoles(next, db.invitations[i].tenant) == MemberRoles(db, db.invitations[i].tenant) - {r};
    DeleteRoleKeepsScope(db, t, r);
    NewcomerHolds(next, u, if left != {} then left else MemberRoles(next, db.invitations[i].tenant));
  }

  lemma NewcomerHolds(db: Db, u: Id, rs: set<Id>)
    requires Scoped(db) && (u in db.users ==> db.users[u].tenant == None)
    ensures Linked(db.userRoles + Links(u, rs), u) == rs
  {
    forall r | r in rs ensures r in Linked(db.userRoles + Links(u, rs), u) {
      assert (u, r) in db.userRoles + Links(u, rs);
    }
    forall l | l in db.userRoles ensures l.0 != u {
      assert UserRoleFits(db, l);
    }
  }

  /** Whoever joins holds exactly the roles the invitation names, none when it names none any more. */
  lemma JoinerHoldsInvited(db: Db, u: Id, token: nat, now: int, stamp: int)
    requires Scoped(db) && Join(db, u, token, now, stamp).reply == Done
    ensures RolesHeld(Join(db, u, token, now, stamp).db, u) == Linked(db.invitationRoles, InvitationOf(db, token))
  {
    NewcomerHolds(db, u, Linked(db.invitationRoles, InvitationOf(db, token)));
  }

  /** After resending, the new token leads to the invitation, its address and its roles unchanged, and is
      usable for exactly one week more; the old one leads nowhere. */
  lemma ResentTokenWorks(db: Db, t: Id, i: Id, token: nat, now: int, at: int)
    requires Sound(db) && token !in db.tokens && Resend(db, t, i, token, now).reply == Done
    ensures var next := Resend(db, t, i, token, now).db;
      && Resolves(next, token) && InvitationOf(next, token) == i && !Resolves(next, db.invitations[i].token)
      && next.invitations[i].email == db.invitations[i].email
      && Linked(next.invitationRoles, i) == Linked(db.invitationRoles, i)
      && (Usable(next, token, at) <==> at < now + WEEK)
  {
    var next := Resend(db, t, i, token, now).db;
    ResendEvolves(db, t, i, token, now);
    EvolutionKeepsSound(db, next);
    TokenFinds(next, i);
    assert TokenFits(db, i);
  }
}
