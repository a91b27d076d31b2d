/** The refusals of `InvitationRefusals` do arise, from every state in which an address was not invited
    before, with every list of roles that may be assigned and every reading of the clock. */
module InvitationWitnesses {
  import opened Common
  import opened Directory
  import opened DirectoryScope
  import opened InvitationLifecycle
  import opened InvitationRefusals
  import Text

  /** An address of tenant `t` that nobody was invited at and nobody has, an inviter, and roles of the tenant. */
  datatype Case = Case(t: Id, inviter: Id, email: string, ids: seq<Id>)

  function Address(c: Case): string {
    Text.Normalise(c.email)
  }

  ghost predicate Ready(db: Db, c: Case) {
    && Sound(db) && c.t in db.tenants && c.inviter in db.users
    && Distinct(c.ids) && Elements(c.ids) <= RolesOf(db, c.t)
    && !EmailTaken(db, Address(c), Some(c.t), None)
  }

  predicate Uninvited(db: Db, c: Case) {
    forall i :: i in db.invitations ==> db.invitations[i].tenant != c.t || db.invitations[i].email != Address(c)
  }

  /** The only invitation to the address is `i`, with the given status. */
  predicate OnlyInvited(db: Db, c: Case, i: Id, s: Status) {
    && i in db.invitations && db.invitations[i].tenant == c.t && db.invitations[i].email == Address(c)
    && db.invitations[i].status == s
    && forall j :: j in db.invitations && j != i ==>
      db.invitations[j].tenant != c.t || db.invitations[j].email != Address(c)
  }

  function Row(c: Case, token: nat, expiry: int): Invitation {
    Invitation(c.t, Address(c), token, c.inviter, expiry, PENDING, None)
  }

  function Invite(db: Db, c: Case, i: Id, token: nat, expiry: int, now: int): Outcome {
    CreateInvitation(db, c.t, c.inviter, i, token, c.email, c.ids, Some(expiry), now)
  }

  /** Inviting works when no invitation to the address is pending. */
  lemma Invited(db: Db, c: Case, i: Id, token: nat, expiry: int, now: int)
    requires Ready(db, c) && i !in db.invited && token !in db.tokens && now < expiry
    requires forall j :: j in db.invitations ==>
      db.invitations[j].tenant != c.t || db.invitations[j].email != Address(c) || db.invitations[j].status != PENDING
    ensures var o := Invite(db, c, i, token, expiry, now);
      && o.reply == Done && Ready(o.db, c)
      && o.db.invitations == db.invitations[i := Row(c, token, expiry)]
      && o.db.users == db.users && o.db.tokens == db.tokens + {token} && o.db.invited == db.invited + {i}
  {
    CountTestExact(c.ids, RolesOf(db, c.t));
    CreationEvolves(db, c.t, c.inviter, i, token, c.email, c.ids, Some(expiry), now);
    EvolutionKeepsSound(db, Invite(db, c, i, token, expiry, now).db);
  }

  // ---------- cancelling ----------

  lemma FirstCancelled(db: Db, c: Case, i: Id)
    requires Ready(db, c) && OnlyInvited(db, c, i, PENDING)
    ensures Cancel(db, c.t, i).reply == Done
    ensures var next := Cancel(db, c.t, i).db;
      Ready(next, c) && OnlyInvited(next, c, i, CANCELLED) && next.tokens == db.tokens && next.invited == db.invited
  {
    CancelEvolves(db, c.t, i);
    EvolutionKeepsSound(db, Cancel(db, c.t, i).db);
  }

  /** Invite, cancel, invite again: the second cancellation is refused. */
  lemma SecondCancellationArises(db: Db, c: Case, i: Id, j: Id, token: nat, other: nat, expiry: int, now: int)
    requires Ready(db, c) && Uninvited(db, c) && i !in db.invited && token !in db.tokens
    requires j !in db.invited + {i} && other !in db.tokens + {token} && now < expiry
    ensures var one := Invite(db, c, i, token, expiry, now);
      var two := Cancel(one.db, c.t, i);
      var three := Invite(two.db, c, j, other, expiry, now);
      && one.reply == Done && two.reply == Done && three.reply == Done
      && Cancel(three.db, c.t, j) == Outcome(three.db, Constraint)
  {
    Invited(db, c, i, token, expiry, now);
    var one := Invite(db, c, i, token, expiry, now).db;
    FirstCancelled(one, c, i);
    var two := Cancel(one, c.t, i).db;
    Invited(two, c, j, other, expiry, now);
    SecondTaken(two, Invite(two, c, j, other, expiry, now).db, c, i, j, other, expiry, CANCELLED);
  }

  /** Once `j` is invited as well, the slot of `i` stays taken. */
  lemma SecondTaken(db: Db, next: Db, c: Case, i: Id, j: Id, token: nat, expiry: int, s: Status)
    requires OnlyInvited(db, c, i, s) && i != j && next.invitations == db.invitations[j := Row(c, token, expiry)]
    ensures PendingIn(next, j, c.t) && StatusTaken(next, c.t, Address(c), s, j)
  {
    assert next.invitations[i] == db.invitations[i];
  }

  // ---------- expiring ----------

  lemma FirstExpired(db: Db, c: Case, i: Id, now: int)
    requires Ready(db, c) && OnlyInvited(db, c, i, PENDING) && db.invitations[i].expiresAt <= now
    ensures CheckExpiration(db, i, now).reply == Done
    ensures var next := CheckExpiration(db, i, now).db;
      Ready(next, c) && OnlyInvited(next, c, i, EXPIRED) && next.tokens == db.tokens && next.invited == db.invited
  {
    ExpirationEvolves(db, i, now);
    EvolutionKeepsSound(db, CheckExpiration(db, i, now).db);
  }

  /** Invite, let it expire, invite again: the second expiry cannot be marked. */
  lemma SecondExpiryArises(db: Db, c: Case, i: Id, j: Id, token: nat, other: nat, now: int, first: int, second: int)
    requires Ready(db, c) && Uninvited(db, c) && i !in db.invited && token !in db.tokens
    requires j !in db.invited + {i} && other !in db.tokens + {token} && now < first < second
    ensures var one := Invite(db, c, i, token, first, now);
      var two := CheckExpiration(one.db, i, first);
      var three := Invite(two.db, c, j, other, second, first);
      && one.reply == Done && two.reply == Done && three.reply == Done
      && CheckExpiration(three.db, j, second) == Outcome(three.db, Constraint)
  {
    Invited(db, c, i, token, first, now);
    var one := Invite(db, c, i, token, first, now).db;
    FirstExpired(one, c, i, first);
    var two := CheckExpiration(one, i, first).db;
    Invited(two, c, j, other, second, first);
    SecondTaken(two, Invite(two, c, j, other, second, first).db, c, i, j, other, second, EXPIRED);
  }

  // ---------- accepting ----------

  lemma UsableWhileRunning(db: Db, c: Case, i: Id, token: nat, expiry: int, now: int, credentials: Credentials)
    requires Ready(db, c) && i in db.invitations && db.invitations[i] == Row(c, token, expiry) && now < expiry
    requires InOrder(credentials, Address(c))
    ensures Admits(db, token, credentials, now) && InvitationOf(db, token) == i
  {
    TokenFinds(db, i);
  }

  lemma FirstAccepted(db: Db, c: Case, i: Id, token: nat, expiry: int, u: Id, credentials: Credentials, now: int)
    requires Ready(db, c) && OnlyInvited(db, c, i, PENDING) && db.invitations[i] == Row(c, token, expiry)
      && now < expiry
    requires InOrder(credentials, Address(c)) && u !in db.users
    ensures var o := AcceptInvitation(db, token, u, credentials, now, now, now);
      && o.reply == Done && Sound(o.db) && OnlyInvited(o.db, c, i, ACCEPTED)
      && o.db.users == db.users[u := User(Address(c), Some(c.t))]
      && o.db.invitations == db.invitations[i := o.db.invitations[i]] && o.db.invitations[i].invitedBy == c.inviter
      && o.db.tenants == db.tenants && o.db.roles == db.roles && o.db.tokens == db.tokens && o.db.invited == db.invited
  {
    UsableWhileRunning(db, c, i, token, expiry, now, credentials);
    AcceptanceConcludes(db, token, u, credentials, now, now, now);
    var mid := InvitedUser(db, i, u).db;
    ConclusionDecided(mid, token, now, now);
    AcceptanceEvolves(db, token, u, credentials, now, now, now);
    EvolutionKeepsSound(db, AcceptInvitation(db, token, u, credentials, now, now, now).db);
  }

  /** Deleting the user who accepted leaves the accepted invitation, since somebody else sent it. */
  lemma AccepterDeleted(db: Db, next: Db, c: Case, i: Id, u: Id)
    requires Ready(db, c) && OnlyInvited(next, c, i, ACCEPTED) && Sound(next) && u !in db.users && c.inviter in db.users
    requires next.users == db.users[u := User(Address(c), Some(c.t))] && next.tenants == db.tenants
      && next.roles == db.roles
    requires next.invitations[i].invitedBy == c.inviter
    ensures var o := DeleteUser(next, c.t, u);
      && o.reply == Done && Ready(o.db, c) && OnlyInvited(o.db, c, i, ACCEPTED)
      && o.db.users == db.users && o.db.tokens == next.tokens && o.db.invited == next.invited
  {
    var o := DeleteUser(next, c.t, u);
    assert Thinned(next, o.db);
    EvolutionKeepsSound(next, o.db);
    assert o.db.users == db.users;
    assert RolesOf(o.db, c.t) == RolesOf(db, c.t);
  }

  /** Invite, accept, delete the user, invite again: the second acceptance creates a user and is refused. */
  lemma SecondAcceptanceArises(db: Db, c: Case, i: Id, j: Id, token: nat, other: nat, u: Id, v: Id,
          credentials: Credentials, expiry: int, now: int)
    requires Ready(db, c) && Uninvited(db, c) && i !in db.invited && token !in db.tokens
    requires j !in db.invited + {i} && other !in db.tokens + {token} && now < expiry
    requires InOrder(credentials, Address(c)) && u !in db.users && v !in db.users
    ensures var one := Invite(db, c, i, token, expiry, now);
      var two := AcceptInvitation(one.db, token, u, credentials, now, now, now);
      var three := DeleteUser(two.db, c.t, u);
      var four := Invite(three.db, c, j, other, expiry, now);
      var five := AcceptInvitation(four.db, other, v, credentials, now, now, now);
      && one.reply == Done && two.reply == Done && three.reply == Done && four.reply == Done
      && five.reply == Constraint && v in five.db.users && PendingIn(five.db, j, c.t)
  {
    Invited(db, c, i, token, expiry, now);
    var one := Invite(db, c, i, token, expiry, now).db;
    FirstAccepted(one, c, i, token, expiry, u, credentials, now);
    var two := AcceptInvitation(one, token, u, credentials, now, now, now).db;
    AccepterDeleted(one, two, c, i, u);
    var three := DeleteUser(two, c.t, u).db;
    Invited(three, c, j, other, expiry, now);
    var four := Invite(three, c, j, other, expiry, now).db;
    SecondTaken(three, four, c, i, j, other, expiry, ACCEPTED);
    LeftBehind(four, c, j, other, expiry, v, credentials, now);
  }

  /** An acceptance that meets an accepted row leaves its user behind and the invitation pending. */
  lemma LeftBehind(db: Db, c: Case, j: Id, token: nat, expiry: int, v: Id, credentials: Credentials, now: int)
    requires Ready(db, c) && j in db.invitations && db.invitations[j] == Row(c, token, expiry) && now < expiry
    requires InOrder(credentials, Address(c)) && v !in db.users && StatusTaken(db, c.t, Address(c), ACCEPTED, j)
    ensures var o := AcceptInvitation(db, token, v, credentials, now, now, now);
      o.reply == Constraint && v in o.db.users && PendingIn(o.db, j, c.t)
  {
    UsableWhileRunning(db, c, j, token, expiry, now, credentials);
    AcceptanceConcludes(db, token, v, credentials, now, now, now);
    var mid := InvitedUser(db, j, v).db;
    SameSlots(db, mid, c.t, Address(c), ACCEPTED, j);
    ConclusionDecided(mid, token, now, now);
    assert Conclude(mid, token, j, now, now) == Outcome(mid, Constraint);
  }

  /** Invite, and accept so late that the expiry comes between the two validations: the user stays, the
      invitation is marked expired. */
  lemma HalfAcceptanceArises(db: Db, c: Case, i: Id, token: nat, u: Id, credentials: Credentials, expiry: int, now: int)
    requires Ready(db, c) && Uninvited(db, c) && i !in db.invited && token !in db.tokens && now < expiry
    requires InOrder(credentials, Address(c)) && u !in db.users
    ensures var one := Invite(db, c, i, token, expiry, now);
      var two := AcceptInvitation(one.db, token, u, credentials, now, expiry, expiry);
      one.reply == Done && two.reply != Done && u in two.db.users
  {
    Invited(db, c, i, token, expiry, now);
    var one := Invite(db, c, i, token, expiry, now).db;
    UsableWhileRunning(one, c, i, token, expiry, now, credentials);
    HalfAcceptedExactly(one, token, u, credentials, now, expiry, expiry);
  }

  // ---------- joining at the expiry ----------

  /** A tenant-less user of the address joins at the very instant at which validation already refuses. */
  lemma JoinAtExpiryArises(db: Db, c: Case, i: Id, token: nat, u: Id, expiry: int, now: int)
    requires Ready(db, c) && Uninvited(db, c) && i !in db.invited && token !in db.tokens && now < expiry
    requires u in db.users && db.users[u] == User(Address(c), None)
    ensures var one := Invite(db, c, i, token, expiry, now);
      && one.reply == Done && ValidateToken(one.db, token, expiry).reply != Done
      && Join(one.db, u, token, expiry, expiry).reply == Done
  {
    Invited(db, c, i, token, expiry, now);
    var one := Invite(db, c, i, token, expiry, now).db;
    TokenFinds(one, i);
    JoinWorksExactly(one, u, token, expiry, expiry);
  }
}
