/** Which cancellations, expiries, joinings and acceptances of invitations fail. The unique index named for
    pending invitations covers every status, so each way of closing an invitation works once for an address
    in a tenant and then never again while the closed row is there. */
module InvitationRefusals {
  import opened Common
  import opened Directory
  import opened DirectoryScope
  import opened InvitationLifecycle
  import Text

  predicate PendingIn(db: Db, i: Id, t: Id) {
    i in db.invitations && db.invitations[i].tenant == t && db.invitations[i].status == PENDING
  }

  // ---------- the two validators ----------

  /** The invitation service and the validation service test status and expiry in opposite orders, yet
      accept the same tokens, those of pending invitations not yet expired, and leave the same state. */
  lemma ValidatorsAgree(db: Db, token: nat, now: int)
    ensures ValidateToken(db, token, now).db == ValidateInvitation(db, token, now).db
    ensures ValidateToken(db, token, now).reply == Done <==> ValidateInvitation(db, token, now).reply == Done
    ensures ValidateToken(db, token, now).reply == Done <==> Usable(db, token, now)
  {
  }

  ghost predicate Usable(db: Db, token: nat, now: int) {
    Resolves(db, token) && var inv := db.invitations[InvitationOf(db, token)];
      inv.status == PENDING && now < inv.expiresAt
  }

  lemma TokenFinds(db: Db, i: Id)
    requires Sound(db) && i in db.invitations
    ensures Resolves(db, db.invitations[i].token) && InvitationOf(db, db.invitations[i].token) == i
  {
  }

  // ---------- each way of closing an invitation ----------

  /** A pending invitation can be cancelled just when no other invitation to that address in the tenant
      stands cancelled. */
  lemma CancelWorksExactly(db: Db, t: Id, i: Id)
    requires PendingIn(db, i, t)
    ensures Cancel(db, t, i).reply == Done <==> !StatusTaken(db, t, db.invitations[i].email, CANCELLED, i)
    ensures Cancel(db, t, i).reply != Done ==> Cancel(db, t, i).db == db
  {
  }

  /** A pending invitation past its expiry can be marked expired, by any of the three checks, just when no
      other invitation to that address in the tenant stands expired; otherwise nothing changes. */
  lemma ExpiryWorksExactly(db: Db, t: Id, i: Id, now: int)
    requires Sound(db) && PendingIn(db, i, t) && db.invitations[i].expiresAt <= now
    ensures CheckExpiration(db, i, now).reply == Done <==> !StatusTaken(db, t, db.invitations[i].email, EXPIRED, i)
    ensures var next := CheckExpiration(db, i, now).db;
      && ValidateInvitation(db, db.invitations[i].token, now).db == next ==
        ValidateToken(db, db.invitations[i].token, now).db
      && (StatusTaken(db, t, db.invitations[i].email, EXPIRED, i) ==> next == db)
  {
    TokenFinds(db, i);
  }

  /** A tenant-less user joins just when the invitation is pending, addressed to it and not past its expiry,
      the tenant has no user of that email yet, and no other invitation to it there counts as accepted. */
  lemma JoinWorksExactly(db: Db, u: Id, token: nat, now: int, stamp: int)
    ensures Join(db, u, token, now, stamp).reply == Done <==>
      && u in db.users && db.users[u].tenant == None && Resolves(db, token)
      && var inv := db.invitations[InvitationOf(db, token)];
        && inv.status == PENDING && now <= inv.expiresAt && inv.email == db.users[u].email
        && inv.tenant in db.tenants && !EmailTaken(db, inv.email, Some(inv.tenant), Some(u))
        && !StatusTaken(db, inv.tenant, inv.email, ACCEPTED, InvitationOf(db, token))
    ensures Join(db, u, token, now, stamp).reply != Done ==> Join(db, u, token, now, stamp).db == db
  {
  }

  /** Joining is lenient by one instant: at the very expiry it still works where validation does not. */
  lemma JoinAtExpiry(db: Db, u: Id, token: nat, now: int, stamp: int)
    requires Join(db, u, token, now, stamp).reply == Done
    ensures Resolves(db, token) && now <= db.invitations[InvitationOf(db, token)].expiresAt
    ensures ValidateToken(db, token, now).reply == Done <==> now != db.invitations[InvitationOf(db, token)].expiresAt
  {
  }

  // ---------- acceptance, in its separate transactions ----------

  /** The invited user could be created: everything before the conclusion is in order. */
  ghost predicate Admits(db: Db, token: nat, credentials: Credentials, now: int) {
    && Usable(db, token, now)
    && var inv := db.invitations[InvitationOf(db, token)];
      inv.tenant in db.tenants && !EmailTaken(db, inv.email, Some(inv.tenant), None) && InOrder(credentials, inv.email)
  }

  lemma ConclusionDecided(db: Db, token: nat, later: int, stamp: int)
    requires Resolves(db, token) && db.invitations[InvitationOf(db, token)].status == PENDING
    ensures var i := InvitationOf(db, token);
      var inv, o := db.invitations[i], Conclude(db, token, i, later, stamp);
      && o.db == db.(invitations := o.db.invitations)
      && (o.reply == Done <==> later < inv.expiresAt && !StatusTaken(db, inv.tenant, inv.email, ACCEPTED, i))
      && (o.reply == Done ==>
          o.db.invitations == db.invitations[i := inv.(status := ACCEPTED, acceptedAt := Some(stamp))])
      && (later < inv.expiresAt && StatusTaken(db, inv.tenant, inv.email, ACCEPTED, i) ==> o == Outcome(db, Constraint))
  {
  }

  /** Once the user can be created it is, and stays, whatever the conclusion says. */
  lemma AcceptanceConcludes(db: Db, token: nat, u: Id, credentials: Credentials, now: int, later: int, stamp: int)
    requires Sound(db) && Admits(db, token, credentials, now)
    ensures var i := InvitationOf(db, token);
      var mid := InvitedUser(db, i, u).db;
      && Resolves(mid, token) && InvitationOf(mid, token) == i
      && mid == db.(users := mid.users, userRoles := mid.userRoles)
      && mid.users == db.users[u := User(db.invitations[i].email, Some(db.invitations[i].tenant))]
      && AcceptInvitation(db, token, u, credentials, now, later, stamp) == Conclude(mid, token, i, later, stamp)
  {
    var i := InvitationOf(db, token);
    assert InvitedUser(db, i, u).reply == Done;
    assert Resolves(InvitedUser(db, i, u).db, token);
    ValidatorsAgree(db, token, now);
  }

  lemma SameSlots(db: Db, mid: Db, tenant: Id, email: string, s: Status, i: Id)
    requires mid.invitations == db.invitations
    ensures StatusTaken(mid, tenant, email, s, i) <==> StatusTaken(db, tenant, email, s, i)
  {
  }

  /** An invitation is accepted just when the user can be created, the expiry has not come in between, and
      no other invitation to that address in the tenant counts as accepted. */
  lemma AcceptanceWorksExactly(db: Db, token: nat, u: Id, credentials: Credentials, now: int, later: int, stamp: int)
    requires Sound(db)
    ensures AcceptInvitation(db, token, u, credentials, now, later, stamp).reply == Done <==>
      && Admits(db, token, credentials, now)
      && var inv := db.invitations[InvitationOf(db, token)];
        later < inv.expiresAt && !StatusTaken(db, inv.tenant, inv.email, ACCEPTED, InvitationOf(db, token))
  {
    if Admits(db, token, credentials, now) {
      AcceptanceConcludes(db, token, u, credentials, now, later, stamp);
      ConclusionDecided(InvitedUser(db, InvitationOf(db, token), u).db, token, later, stamp);
    } else {
      NotAdmitted(db, token, u, credentials, now, later, stamp);
    }
  }

  lemma NotAdmitted(db: Db, token: nat, u: Id, credentials: Credentials, now: int, later: int, stamp: int)
    requires !Admits(db, token, credentials, now)
    ensures var o := AcceptInvitation(db, token, u, credentials, now, later, stamp);
      o.reply != Done && o.db.users == db.users
  {
    ValidatorsAgree(db, token, now);
  }

  /** Acceptance creates the user before it closes the invitation. The user is left behind without an
      acceptance just when everything before was in order and, by then, either the invitation has run out or
      the address counts as accepted already. */
  lemma HalfAcceptedExactly(db: Db, token: nat, u: Id, credentials: Credentials, now: int, later: int, stamp: int)
    requires Sound(db) && u !in db.users
    ensures var o := AcceptInvitation(db, token, u, credentials, now, later, stamp);
      (u in o.db.users && o.reply != Done) <==>
        && Admits(db, token, credentials, now)
        && var inv := db.invitations[InvitationOf(db, token)];
          inv.expiresAt <= later || StatusTaken(db, inv.tenant, inv.email, ACCEPTED, InvitationOf(db, token))
  {
    if Admits(db, token, credentials, now) {
      AcceptanceConcludes(db, token, u, credentials, now, later, stamp);
      ConclusionDecided(InvitedUser(db, InvitationOf(db, token), u).db, token, later, stamp);
    } else {
      NotAdmitted(db, token, u, credentials, now, later, stamp);
    }
  }

  // ---------- over every run ----------

  /** A closed invitation keeps its slot taken for all others over any run, as long as its row is there. */
  lemma SlotStaysTaken(defaults: seq<Grant>, db: Db, ops: seq<Op>, i: Id, j: Id)
    requires Sound(db) && PossibleRun(defaults, db, ops) && i in db.invitations && db.invitations[i].status != PENDING
    ensures var next, closed := Run(defaults, db, ops), db.invitations[i];
      i in next.invitations && PendingIn(next, j, closed.tenant) && next.invitations[j].email == closed.email ==>
        StatusTaken(next, closed.tenant, closed.email, closed.status, j)
  {
    assert TokenFits(db, i);
    ClosedIsFinal(defaults, db, ops, i);
  }

  /** Another pending invitation to the address of a closed one, in its tenant, while the closed row is there. */
  predicate Successor(db: Db, next: Db, i: Id, j: Id)
    requires i in db.invitations
  {
    i in next.invitations && PendingIn(next, j, db.invitations[i].tenant)
      && next.invitations[j].email == db.invitations[i].email
  }

  /** After one cancellation no invitation to the same address in the tenant can ever be cancelled. */
  lemma SecondCancellationFails(defaults: seq<Grant>, db: Db, ops: seq<Op>, i: Id, j: Id)
    requires Sound(db) && PossibleRun(defaults, db, ops) && i in db.invitations && db.invitations[i].status == CANCELLED
    ensures var next := Run(defaults, db, ops);
      Successor(db, next, i, j) ==> Cancel(next, db.invitations[i].tenant, j) == Outcome(next, Constraint)
  {
    SlotStaysTaken(defaults, db, ops, i, j);
  }

  /** After one expiry was marked, none to the same address in the tenant ever can be: the invitation stays
      pending past its expiry, unusable, and keeps the address from being invited again. */
  lemma SecondExpiryFails(defaults: seq<Grant>, db: Db, ops: seq<Op>, i: Id, j: Id, now: int)
    requires Sound(db) && PossibleRun(defaults, db, ops) && i in db.invitations && db.invitations[i].status == EXPIRED
    ensures var next := Run(defaults, db, ops);
      Successor(db, next, i, j) && next.invitations[j].expiresAt <= now ==>
        CheckExpiration(next, j, now) == Outcome(next, Constraint)
        && ValidateInvitation(next, next.invitations[j].token, now) == Outcome(next, Constraint)
        && ValidateToken(next, next.invitations[j].token, now) == Outcome(next, BadRequest)
  {
    var next := Run(defaults, db, ops);
    RunKeepsSound(defaults, db, ops);
    SlotStaysTaken(defaults, db, ops, i, j);
    if Successor(db, next, i, j) {
      TokenFinds(next, j);
    }
  }

  lemma PendingBlocksInviting(db: Db, t: Id, j: Id, inviter: Id, k: Id, token: nat, ids: seq<Id>, at: Option<int>,
          now: int)
    requires Sound(db) && PendingIn(db, j, t) && k != j
    ensures var o := CreateInvitation(db, t, inviter, k, token, db.invitations[j].email, ids, at, now);
      o.reply != Done && o.db == db
  {
    assert Text.Normalise(db.invitations[j].email) == db.invitations[j].email;
  }

  /** After one acceptance nobody ever joins or accepts with an invitation to the same address in the tenant,
      and each attempt to accept that gets that far leaves its user behind. */
  lemma SecondAcceptanceFails(defaults: seq<Grant>, db: Db, ops: seq<Op>, i: Id, j: Id, u: Id, credentials: Credentials,
          now: int, later: int, stamp: int)
    requires Sound(db) && PossibleRun(defaults, db, ops) && i in db.invitations && db.invitations[i].status == ACCEPTED
    ensures var next := Run(defaults, db, ops);
      Successor(db, next, i, j) ==>
        Join(next, u, next.invitations[j].token, now, stamp).reply != Done
        && Join(next, u, next.invitations[j].token, now, stamp).db == next
        && AcceptInvitation(next, next.invitations[j].token, u, credentials, now, later, stamp).reply != Done
        && (Admits(next, next.invitations[j].token, credentials, now) ==>
            u in AcceptInvitation(next, next.invitations[j].token, u, credentials, now, later, stamp).db.users)
  {
    var next := Run(defaults, db, ops);
    RunKeepsSound(defaults, db, ops);
    SlotStaysTaken(defaults, db, ops, i, j);
    if Successor(db, next, i, j) {
      var token := next.invitations[j].token;
      TokenFinds(next, j);
      JoinWorksExactly(next, u, token, now, stamp);
      AcceptanceWorksExactly(next, token, u, credentials, now, later, stamp);
      if Admits(next, token, credentials, now) {
        AcceptanceConcludes(next, token, u, credentials, now, later, stamp);
        ConclusionDecided(InvitedUser(next, j, u).db, token, later, stamp);
      }
    }
  }
}
