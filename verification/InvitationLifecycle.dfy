/** The life of an invitation over every run: it leaves PENDING at most once and is final from then on,
    each address has at most one pending invitation in a tenant, a replaced token is dead for good and
    whatever was accepted was checked within its validity. */
module InvitationLifecycle {
  import opened Common
  import opened Directory
  import Text

  ghost predicate TokenFits(db: Db, i: Id)
    requires i in db.invitations
  {
    db.invitations[i].token in db.tokens && i in db.invited
  }

  /** An acceptance instant is recorded exactly on acceptance. */
  predicate AcceptanceFits(inv: Invitation) {
    inv.status == ACCEPTED <==> inv.acceptedAt.Some?
  }

  predicate SameSlot(a: Invitation, b: Invitation) {
    a.tenant == b.tenant && a.email == b.email && a.status == b.status
  }

  ghost predicate TokensUnique(db: Db) {
    forall i, j :: i in db.invitations && j in db.invitations && db.invitations[i].token == db.invitations[j].token ==>
      i == j
  }

  ghost predicate SlotsUnique(db: Db) {
    forall i, j :: i in db.invitations && j in db.invitations && SameSlot(db.invitations[i], db.invitations[j]) ==>
      i == j
  }

  ghost predicate RowsFit(db: Db) {
    forall i :: i in db.invitations ==>
      TokenFits(db, i) && AcceptanceFits(db.invitations[i])
        && Text.Normalise(db.invitations[i].email) == db.invitations[i].email
  }

  ghost predicate Sound(db: Db) {
    RowsFit(db) && TokensUnique(db) && SlotsUnique(db)
  }

  // ---------- how one step may change the invitations ----------

  /** A pending invitation gets a fresh token and stays pending. */
  predicate Renewed(db: Db, next: Db, i: Id) {
    && i in db.invitations && i in next.invitations && db.invitations[i].status == PENDING
    && next.invitations == db.invitations[i := next.invitations[i]]
    && next.invitations[i] ==
      db.invitations[i].(token := next.invitations[i].token, expiresAt := next.invitations[i].expiresAt)
    && next.invitations[i].token !in db.tokens
    && next.tokens == db.tokens + {next.invitations[i].token} && next.invited == db.invited
  }

  /** A pending invitation is closed. */
  predicate Closed(db: Db, next: Db, i: Id) {
    && i in db.invitations && i in next.invitations && db.invitations[i].status == PENDING
    && next.invitations == db.invitations[i := next.invitations[i]]
    && next.invitations[i] ==
      db.invitations[i].(status := next.invitations[i].status, acceptedAt := next.invitations[i].acceptedAt)
    && next.invitations[i].status != PENDING
    && !StatusTaken(db, db.invitations[i].tenant, db.invitations[i].email, next.invitations[i].status, i)
    && (next.invitations[i].status != ACCEPTED ==> next.invitations[i].acceptedAt == db.invitations[i].acceptedAt)
    && (next.invitations[i].status == ACCEPTED ==> AcceptanceFits(next.invitations[i]))
    && next.tokens == db.tokens && next.invited == db.invited
  }

  predicate Opened(db: Db, next: Db, i: Id) {
    && i in next.invitations && i !in db.invited
    && next.invitations == db.invitations[i := next.invitations[i]]
    && next.invitations[i].status == PENDING && next.invitations[i].acceptedAt == None
    && Text.Normalise(next.invitations[i].email) == next.invitations[i].email
    && !StatusTaken(db, next.invitations[i].tenant, next.invitations[i].email, PENDING, i)
    && next.invitations[i].token !in db.tokens
    && next.tokens == db.tokens + {next.invitations[i].token} && next.invited == db.invited + {i}
  }

  /** Invitations may disappear with their inviter. */
  ghost predicate Thinned(db: Db, next: Db) {
    && (forall i :: i in next.invitations ==> i in db.invitations && next.invitations[i] == db.invitations[i])
    && next.tokens == db.tokens && next.invited == db.invited
  }

  ghost predicate Evolves(db: Db, next: Db) {
    Thinned(db, next) || (exists i :: Renewed(db, next, i)) || (exists i :: Closed(db, next, i))
      || (exists i :: Opened(db, next, i))
  }

  lemma StatusEvolves(db: Db, i: Id, s: Status)
    requires Sound(db) && i in db.invitations && db.invitations[i].status == PENDING && (s == EXPIRED || s == CANCELLED)
    ensures Evolves(db, SetStatus(db, i, s).db)
  {
    var o := SetStatus(db, i, s);
    if o.reply == Done {
      assert Closed(db, o.db, i);
    }
  }

  lemma AcceptEvolves(db: Db, i: Id, stamp: int)
    requires Sound(db) && i in db.invitations && db.invitations[i].status == PENDING
    ensures Evolves(db, Accept(db, i, stamp).db)
  {
    var o := Accept(db, i, stamp);
    if o.reply == Done {
      assert Closed(db, o.db, i);
    }
  }

  lemma CreationEvolves(db: Db, t: Id, inviter: Id, i: Id, token: nat, email: string, ids: seq<Id>,
          expiresAt: Option<int>, now: int)
    requires Sound(db) && i !in db.invited && token !in db.tokens
    ensures Evolves(db, CreateInvitation(db, t, inviter, i, token, email, ids, expiresAt, now).db)
  {
    var o := CreateInvitation(db, t, inviter, i, token, email, ids, expiresAt, now);
    if o.reply == Done {
      Text.NormaliseTwice(email);
      assert Opened(db, o.db, i);
    }
  }

  lemma ResendEvolves(db: Db, t: Id, i: Id, token: nat, now: int)
    requires Sound(db) && token !in db.tokens
    ensures Evolves(db, Resend(db, t, i, token, now).db)
  {
    var o := Resend(db, t, i, token, now);
    if o.reply == Done {
      assert Renewed(db, o.db, i);
    }
  }

  lemma ValidationEvolves(db: Db, token: nat, now: int)
    requires Sound(db)
    ensures Evolves(db, ValidateInvitation(db, token, now).db) && Evolves(db, ValidateToken(db, token, now).db)
  {
    if Resolves(db, token) && db.invitations[InvitationOf(db, token)].status == PENDING {
      StatusEvolves(db, InvitationOf(db, token), EXPIRED);
    }
  }

  lemma ExpirationEvolves(db: Db, i: Id, now: int)
    requires Sound(db)
    ensures Evolves(db, CheckExpiration(db, i, now).db)
  {
    if i in db.invitations && db.invitations[i].status == PENDING {
      StatusEvolves(db, i, EXPIRED);
    }
  }

  lemma CancelEvolves(db: Db, t: Id, i: Id)
    requires Sound(db)
    ensures Evolves(db, Cancel(db, t, i).db)
  {
    if i in db.invitations && db.invitations[i].status == PENDING {
      StatusEvolves(db, i, CANCELLED);
    }
  }

  lemma JoinEvolves(db: Db, u: Id, token: nat, now: int, stamp: int)
    requires Sound(db)
    ensures Evolves(db, Join(db, u, token, now, stamp).db)
  {
    var o := Join(db, u, token, now, stamp);
    if o.reply == Done {
      assert Closed(db, o.db, InvitationOf(db, token));
    }
  }

  /** Creating the user does not touch the invitations. */
  lemma SameInvitationsEvolve(db: Db, mid: Db, next: Db)
    requires mid.invitations == db.invitations && mid.tokens == db.tokens && mid.invited == db.invited
    requires Evolves(mid, next)
    ensures Evolves(db, next)
  {
    if i :| Renewed(mid, next, i) {
      assert Renewed(db, next, i);
    } else if i :| Closed(mid, next, i) {
      assert Closed(db, next, i);
    } else if i :| Opened(mid, next, i) {
      assert Opened(db, next, i);
    }
  }

  lemma ConclusionEvolves(db: Db, token: nat, later: int, stamp: int)
    requires Sound(db) && Resolves(db, token)
    ensures Evolves(db, Conclude(db, token, InvitationOf(db, token), later, stamp).db)
  {
    ValidationEvolves(db, token, later);
    if db.invitations[InvitationOf(db, token)].status == PENDING {
      AcceptEvolves(db, InvitationOf(db, token), stamp);
    }
  }

  /** Creating the user first changes nothing about the invitations. */
  lemma LateConclusionEvolves(db: Db, mid: Db, token: nat, later: int, stamp: int)
    requires Sound(db) && Resolves(db, token)
    requires mid.invitations == db.invitations && mid.tokens == db.tokens && mid.invited == db.invited
    ensures Resolves(mid, token) && InvitationOf(mid, token) == InvitationOf(db, token)
    ensures Evolves(db, Conclude(mid, token, InvitationOf(db, token), later, stamp).db)
  {
    assert Resolves(mid, token) && Sound(mid);
    ConclusionEvolves(mid, token, later, stamp);
    SameInvitationsEvolve(db, mid, Conclude(mid, token, InvitationOf(mid, token), later, stamp).db);
  }

  /** Acceptance either ends with the first validation or reaches the conclusion. */
  lemma TwoWays(db: Db, token: nat, u: Id, credentials: Credentials, now: int, later: int, stamp: int)
    ensures var o, v := AcceptInvitation(db, token, u, credentials, now, later, stamp), ValidateToken(db, token, now);
      o.db == v.db || (v.reply == Done && InvitedUser(db, InvitationOf(db, token), u).reply == Done
        && o == Conclude(InvitedUser(db, InvitationOf(db, token), u).db, token, InvitationOf(db, token), later, stamp))
  {
  }

  lemma AcceptanceEvolves(db: Db, token: nat, u: Id, credentials: Credentials, now: int, later: int, stamp: int)
    requires Sound(db)
    ensures Evolves(db, AcceptInvitation(db, token, u, credentials, now, later, stamp).db)
  {
    TwoWays(db, token, u, credentials, now, later, stamp);
    ValidationEvolves(db, token, now);
    if ValidateToken(db, token, now).reply == Done {
      LateConclusionEvolves(db, InvitedUser(db, InvitationOf(db, token), u).db, token, later, stamp);
    }
  }

  lemma RecordsThin(defaults: seq<Grant>, db: Db, op: Op)
    requires !InvitationOp(op)
    ensures Thinned(db, Step(defaults, db, op).db)
  {
  }

  lemma StepEvolves(defaults: seq<Grant>, db: Db, op: Op)
    requires Sound(db) && Possible(defaults, db, op)
    ensures Evolves(db, Step(defaults, db, op).db)
  {
    match op
    case OpCreateInvitation(t, inviter, i, token, email, ids, expiresAt, now) =>
      CreationEvolves(db, t, inviter, i, token, email, ids, expiresAt, now);
    case OpValidateInvitation(token, now) => ValidationEvolves(db, token, now);
    case OpValidateToken(token, now) => ValidationEvolves(db, token, now);
    case OpCheckExpiration(i, now) => ExpirationEvolves(db, i, now);
    case OpCancel(t, i) => CancelEvolves(db, t, i);
    case OpResend(t, i, token, now) => ResendEvolves(db, t, i, token, now);
    case OpJoin(u, token, now, stamp) => JoinEvolves(db, u, token, now, stamp);
    case OpAcceptInvitation(token, u, credentials, now, later, stamp) =>
      AcceptanceEvolves(db, token, u, credentials, now, later, stamp);
    case _ => RecordsThin(defaults, db, op);
  }

  // ---------- what every run keeps ----------

  /** Only invitation `i` changed, and nothing else is in its slot. */
  lemma SlotsStayUnique(db: Db, next: Db, i: Id)
    requires SlotsUnique(db) && (Renewed(db, next, i) || Closed(db, next, i) || Opened(db, next, i))
    ensures SlotsUnique(next)
  {
  }

  lemma TokensStayUnique(db: Db, next: Db, i: Id)
    requires RowsFit(db) && TokensUnique(db) && (Renewed(db, next, i) || Closed(db, next, i) || Opened(db, next, i))
    ensures TokensUnique(next)
  {
  }

  lemma RowsStayFit(db: Db, next: Db, i: Id)
    requires RowsFit(db) && (Renewed(db, next, i) || Closed(db, next, i) || Opened(db, next, i))
    ensures RowsFit(next)
  {
  }

  lemma EvolutionKeepsSound(db: Db, next: Db)
    requires Sound(db) && Evolves(db, next)
    ensures Sound(next)
  {
    if Thinned(db, next) {
      assert forall i :: i in next.invitations ==> TokenFits(db, i);
    } else {
      var i :| Renewed(db, next, i) || Closed(db, next, i) || Opened(db, next, i);
      RowsStayFit(db, next, i);
      TokensStayUnique(db, next, i);
      SlotsStayUnique(db, next, i);
    }
  }

  lemma StepKeepsSound(defaults: seq<Grant>, db: Db, op: Op)
    requires Sound(db) && Possible(defaults, db, op)
    ensures Sound(Step(defaults, db, op).db)
  {
    StepEvolves(defaults, db, op);
    EvolutionKeepsSound(db, Step(defaults, db, op).db);
  }

  lemma {:induction false} RunKeepsSound(defaults: seq<Grant>, db: Db, ops: seq<Op>)
    requires Sound(db) && PossibleRun(defaults, db, ops)
    ensures Sound(Run(defaults, db, ops))
    decreases ops
  {
    if ops != [] {
      StepKeepsSound(defaults, db, ops[0]);
      RunKeepsSound(defaults, Step(defaults, db, ops[0]).db, ops[1..]);
    }
  }

  /** Both pending, in one tenant, to one address however written. */
  predicate Rivals(a: Invitation, b: Invitation) {
    a.tenant == b.tenant && a.status == PENDING && b.status == PENDING
      && Text.Normalise(a.email) == Text.Normalise(b.email)
  }

  /** After any run: an address, however written, has at most one pending invitation in a tenant, tokens
      identify invitations, and an acceptance instant is recorded exactly on acceptance. */
  lemma InvitationsStaySound(defaults: seq<Grant>, ops: seq<Op>, i: Id, j: Id)
    requires PossibleRun(defaults, Empty, ops)
    requires var db := Run(defaults, Empty, ops); i in db.invitations && j in db.invitations
    ensures var db := Run(defaults, Empty, ops); var a, b := db.invitations[i], db.invitations[j];
      && (Rivals(a, b) ==> i == j)
      && (a.token == b.token ==> i == j)
      && (a.status == ACCEPTED <==> a.acceptedAt.Some?)
  {
    RunKeepsSound(defaults, Empty, ops);
  }

  // ---------- closed is final ----------

  /** The invitation has been closed or has disappeared. */
  predicate Settled(db: Db, i: Id) {
    i in db.invited && (i in db.invitations ==> db.invitations[i].status != PENDING)
  }

  lemma SettledStays(db: Db, next: Db, i: Id)
    requires Evolves(db, next) && Settled(db, i)
    ensures Settled(next, i)
      && (i in next.invitations ==> i in db.invitations && next.invitations[i] == db.invitations[i])
  {
  }

  /** Once an invitation has left PENDING its row never changes again, and an identifier never returns. */
  lemma {:induction false} ClosedIsFinal(defaults: seq<Grant>, db: Db, ops: seq<Op>, i: Id)
    requires Sound(db) && PossibleRun(defaults, db, ops) && Settled(db, i)
    ensures var next := Run(defaults, db, ops);
      Settled(next, i) && (i in next.invitations ==> i in db.invitations && next.invitations[i] == db.invitations[i])
    decreases ops
  {
    if ops != [] {
      var mid := Step(defaults, db, ops[0]).db;
      StepEvolves(defaults, db, ops[0]);
      SettledStays(db, mid, i);
      EvolutionKeepsSound(db, mid);
      ClosedIsFinal(defaults, mid, ops[1..], i);
    }
  }

  /** How often invitation `i` leaves PENDING in a run. */
  ghost function Departures(defaults: seq<Grant>, db: Db, ops: seq<Op>, i: Id): nat
    decreases ops
  {
    if ops == [] then 0
    else
      var next := Step(defaults, db, ops[0]).db;
      Departures(defaults, next, ops[1..], i) + if Departs(db, next, i) then 1 else 0
  }

  predicate Departs(db: Db, next: Db, i: Id) {
    i in db.invitations && db.invitations[i].status == PENDING && i in next.invitations
      && next.invitations[i].status != PENDING
  }

  lemma {:induction false} LeavesPendingOnce(defaults: seq<Grant>, db: Db, ops: seq<Op>, i: Id)
    requires Sound(db) && PossibleRun(defaults, db, ops)
    ensures Departures(defaults, db, ops, i) <= if Settled(db, i) then 0 else 1
    decreases ops
  {
    if ops != [] {
      var mid := Step(defaults, db, ops[0]).db;
      StepEvolves(defaults, db, ops[0]);
      EvolutionKeepsSound(db, mid);
      if Settled(db, i) {
        SettledStays(db, mid, i);
      }
      LeavesPendingOnce(defaults, mid, ops[1..], i);
    }
  }

  // ---------- dead tokens ----------

  predicate Dead(db: Db, token: nat) {
    token in db.tokens && !Resolves(db, token)
  }

  lemma DeadStays(db: Db, next: Db, token: nat)
    requires Sound(db) && Evolves(db, next) && Dead(db, token)
    ensures Dead(next, token)
  {
  }

  lemma {:induction false} DeadForGood(defaults: seq<Grant>, db: Db, ops: seq<Op>, token: nat)
    requires Sound(db) && PossibleRun(defaults, db, ops) && Dead(db, token)
    ensures Dead(Run(defaults, db, ops), token)
    decreases ops
  {
    if ops != [] {
      var mid := Step(defaults, db, ops[0]).db;
      StepEvolves(defaults, db, ops[0]);
      EvolutionKeepsSound(db, mid);
      DeadStays(db, mid, token);
      DeadForGood(defaults, mid, ops[1..], token);
    }
  }

  /** Resending replaces the token: the old one never finds an invitation again, whatever follows. */
  lemma ReplacedTokenIsDead(defaults: seq<Grant>, db: Db, t: Id, i: Id, token: nat, now: int, ops: seq<Op>)
    requires Sound(db) && token !in db.tokens && Resend(db, t, i, token, now).reply == Done
    requires PossibleRun(defaults, Resend(db, t, i, token, now).db, ops)
    ensures !Resolves(Run(defaults, Resend(db, t, i, token, now).db, ops), db.invitations[i].token)
  {
    var next := Resend(db, t, i, token, now).db;
    ResendEvolves(db, t, i, token, now);
    EvolutionKeepsSound(db, next);
    assert TokenFits(db, i);
    assert Dead(next, db.invitations[i].token);
    DeadForGood(defaults, next, ops, db.invitations[i].token);
  }

  // ---------- accepted in time ----------

  /** The instant at which an accepting operation last checked the expiry, and the one it records. */
  predicate Accepts(op: Op) {
    op.OpJoin? || op.OpAcceptInvitation?
  }

  function CheckedAt(op: Op): int
    requires Accepts(op)
  {
    if op.OpJoin? then op.now else op.later
  }

  predicate JustAccepted(db: Db, next: Db, i: Id) {
    Departs(db, next, i) && next.invitations[i].status == ACCEPTED
  }

  lemma JoinAcceptsInTime(db: Db, u: Id, token: nat, now: int, stamp: int, i: Id)
    requires JustAccepted(db, Join(db, u, token, now, stamp).db, i)
    ensures var inv := Join(db, u, token, now, stamp).db.invitations[i];
      now <= inv.expiresAt && inv.acceptedAt == Some(stamp)
  {
  }

  lemma ConclusionAcceptsInTime(db: Db, token: nat, later: int, stamp: int, i: Id)
    requires Resolves(db, token) && JustAccepted(db, Conclude(db, token, InvitationOf(db, token), later, stamp).db, i)
    ensures var inv := Conclude(db, token, InvitationOf(db, token), later, stamp).db.invitations[i];
      later <= inv.expiresAt && inv.acceptedAt == Some(stamp)
  {
  }

  lemma AcceptInvitationAcceptsInTime(db: Db, token: nat, u: Id, credentials: Credentials, now: int, later: int,
          stamp: int, i: Id)
    requires Sound(db) && JustAccepted(db, AcceptInvitation(db, token, u, credentials, now, later, stamp).db, i)
    ensures var inv := AcceptInvitation(db, token, u, credentials, now, later, stamp).db.invitations[i];
      later <= inv.expiresAt && inv.acceptedAt == Some(stamp)
  {
    if ValidateToken(db, token, now).reply == Done {
      var mid := InvitedUser(db, InvitationOf(db, token), u).db;
      LateConclusionEvolves(db, mid, token, later, stamp);
      if JustAccepted(mid, Conclude(mid, token, InvitationOf(mid, token), later, stamp).db, i) {
        ConclusionAcceptsInTime(mid, token, later, stamp, i);
      }
    }
  }

  lemma OthersDoNotAccept(defaults: seq<Grant>, db: Db, op: Op, i: Id)
    requires !Accepts(op)
    ensures !JustAccepted(db, Step(defaults, db, op).db, i)
  {
    if !InvitationOp(op) {
      RecordsThin(defaults, db, op);
    }
  }

  /** A step that accepts an invitation has checked it within its validity and records its own instant. */
  lemma AcceptedInTime(defaults: seq<Grant>, db: Db, op: Op, i: Id)
    requires Sound(db) && JustAccepted(db, Step(defaults, db, op).db, i)
    ensures Accepts(op)
    ensures var inv := Step(defaults, db, op).db.invitations[i];
      CheckedAt(op) <= inv.expiresAt && inv.acceptedAt == Some(op.stamp)
  {
    match op
    case OpJoin(u, token, now, stamp) => JoinAcceptsInTime(db, u, token, now, stamp, i);
    case OpAcceptInvitation(token, u, credentials, now, later, stamp) =>
      AcceptInvitationAcceptsInTime(db, token, u, credentials, now, later, stamp, i);
    case _ => OthersDoNotAccept(defaults, db, op, i);
  }

  lemma AcceptanceIsNew(db: Db, next: Db, i: Id)
    requires Evolves(db, next) && i in next.invitations && next.invitations[i].status == ACCEPTED
    requires !(i in db.invitations && db.invitations[i] == next.invitations[i])
    ensures JustAccepted(db, next, i)
  {
  }

  /** Every invitation found accepted after a run was accepted by one of its operations, which last checked
      it no later than its expiry; so the instant recorded lies within the validity exactly when the one at
      which that operation recorded it does. */
  lemma {:induction false} AcceptedWithinValidity(defaults: seq<Grant>, db: Db, ops: seq<Op>, i: Id) returns (k: nat)
    requires Sound(db) && PossibleRun(defaults, db, ops)
    requires i !in db.invitations || db.invitations[i].status != ACCEPTED
    requires i in Run(defaults, db, ops).invitations && Run(defaults, db, ops).invitations[i].status == ACCEPTED
    ensures k < |ops| && Accepts(ops[k])
    ensures var inv := Run(defaults, db, ops).invitations[i];
      && CheckedAt(ops[k]) <= inv.expiresAt && inv.acceptedAt == Some(ops[k].stamp)
      && (inv.acceptedAt.value <= inv.expiresAt <==> ops[k].stamp <= inv.expiresAt)
    decreases ops
  {
    var mid := Step(defaults, db, ops[0]).db;
    StepEvolves(defaults, db, ops[0]);
    EvolutionKeepsSound(db, mid);
    if i in mid.invitations && mid.invitations[i].status == ACCEPTED {
      AcceptanceIsNew(db, mid, i);
      AcceptedInTime(defaults, db, ops[0], i);
      assert TokenFits(mid, i);
      ClosedIsFinal(defaults, mid, ops[1..], i);
      k := 0;
    } else {
      k := AcceptedWithinValidity(defaults, mid, ops[1..], i);
      k := k + 1;
    }
  }
}
