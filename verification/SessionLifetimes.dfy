/** How long a refresh token is good for: a session stays open over a run exactly when nothing closes it, and
    the token issued for an open one refreshes up to the last seconds before the instant fixed at login. */
module SessionLifetimes {
  import opened Common
  import opened RefreshSessions

  // ---------- signed tokens ----------

  /** A signed token verifies up to two seconds before the expiry it was signed for, and not after it. */
  lemma SignedTokenVerifies(user: UserId, claims: Claims, session: SessionRef, expiresAt: int, now: int, later: int)
    ensures now <= later && later + 2000 <= expiresAt ==> Verifies(Sign(user, claims, session, expiresAt, now), later)
    ensures expiresAt <= later && now + 1000 <= later ==> !Verifies(Sign(user, claims, session, expiresAt, now), later)
  {
  }

  // ---------- who was issued a token ----------

  /** The operation issues the token of session `s`: a login of a known user or a refresh that is accepted. */
  predicate Issues(w: World, op: Op, s: SessionId) {
    || (op.Login? && op.sid == s && op.user in w.users)
    || (op.RefreshWith? && op.sid == s && Accepts(w, op.token, op.now))
  }

  function Holder(op: Op): UserId
    requires op.Login? || op.RefreshWith?
  {
    if op.Login? then op.user else op.token.user
  }

  lemma IssuedByStep(c: Config, w: World, op: Op, s: SessionId)
    requires Possible(w, op) && s !in w.journal.issued
    ensures s in Step(c, w, op).world.journal.issued <==> Issues(w, op, s)
  {
  }

  lemma IssuedStays(c: Config, w: World, op: Op, s: SessionId)
    requires Possible(w, op) && s in w.journal.issued
    ensures var next := Step(c, w, op).world.journal; s in next.issued && next.issued[s] == w.journal.issued[s]
  {
  }

  lemma {:induction false} IssuedForGood(c: Config, w: World, ops: seq<Op>, s: SessionId)
    requires PossibleRun(c, w, ops) && s in w.journal.issued
    ensures var next := Run(c, w, ops).journal; s in next.issued && next.issued[s] == w.journal.issued[s]
    decreases ops
  {
    if ops != [] {
      IssuedStays(c, w, ops[0], s);
      IssuedForGood(c, Step(c, w, ops[0]).world, ops[1..], s);
    }
  }

  /** What a token says: that it is the refresh token of that session, for the user and with the claims stored
      when it was signed. */
  predicate Speaks(t: Token, w: World, op: Op, s: SessionId) {
    && Issues(w, op, s) && Holder(op) in w.users
    && t.user == Holder(op) && t.claims == w.users[Holder(op)] && t.session == Id(s) && t.kind == Refresh
    && t.issuedAt == op.now / 1000
  }

  lemma IssuedSpeaks(c: Config, w: World, op: Op, s: SessionId)
    requires Issues(w, op, s)
    ensures var next := Step(c, w, op).world.journal; s in next.issued && Speaks(next.issued[s], w, op, s)
  {
  }

  /** Every token found issued after a run was issued by one of its operations, and says so. */
  lemma {:induction false} IssuedTruthfully(c: Config, w: World, ops: seq<Op>, s: SessionId) returns (k: nat)
    requires PossibleRun(c, w, ops) && s !in w.journal.issued && s in Run(c, w, ops).journal.issued
    ensures k < |ops| && Speaks(Run(c, w, ops).journal.issued[s], Run(c, w, ops[..k]), ops[k], s)
    decreases ops
  {
    var mid := Step(c, w, ops[0]).world;
    if s in mid.journal.issued {
      IssuedByStep(c, w, ops[0], s);
      IssuedSpeaks(c, w, ops[0], s);
      IssuedForGood(c, mid, ops[1..], s);
      k := 0;
    } else {
      var j := IssuedTruthfully(c, mid, ops[1..], s);
      k := j + 1;
      assert ops[..k][1..] == ops[1..][..j] && ops[..k][0] == ops[0];
    }
  }

  /** Only storing and deleting a user changes what is stored of it. */
  lemma UsersChangeExactly(c: Config, w: World, op: Op, u: UserId)
    ensures var now := Step(c, w, op).world.users;
      && (u in now <==> op != DeleteUser(u) && (u in w.users || (op.PutUser? && op.user == u)))
      && (u in now ==> now[u] == if op.PutUser? && op.user == u then op.claims else w.users[u])
  {
  }

  // ---------- what closes a session ----------

  predicate Open(w: World, s: SessionId) {
    s in w.sessions && w.sessions[s].revokedAt == None
  }

  /** An accepted refresh with its token, a logout with an unexpired token of it that is no access token, a
      revocation of everything its user has, or the deletion of that user. */
  predicate Closes(w: World, op: Op, s: SessionId)
    requires s in w.sessions
  {
    match op
    case RefreshWith(t, now, _) => t.session == Id(s) && Accepts(w, t, now)
    case Logout(t, now) => t.session == Id(s) && now / 1000 < t.expires && t.kind != Access
    case RevokeAll(u, _) => u == w.sessions[s].user
    case DeleteUser(u) => u == w.sessions[s].user
    case _ => false
  }

  lemma StepClosesExactly(c: Config, w: World, op: Op, s: SessionId)
    requires TokensFit(w) && Possible(w, op) && Open(w, s)
    ensures Open(Step(c, w, op).world, s) <==> !Closes(w, op, s)
    ensures Open(Step(c, w, op).world, s) ==> Step(c, w, op).world.sessions[s] == w.sessions[s]
  {
  }

  /** No operation of the run closes the session. */
  ghost predicate Undisturbed(c: Config, w: World, ops: seq<Op>, s: SessionId)
    decreases ops
  {
    ops == [] ||
    (s in w.sessions && !Closes(w, ops[0], s) && Undisturbed(c, Step(c, w, ops[0]).world, ops[1..], s))
  }

  /** Over any run a session is still open, and then as it was, exactly when none of the operations closed it. */
  lemma {:induction false} OpenExactly(c: Config, w: World, ops: seq<Op>, s: SessionId)
    requires TokensFit(w) && PossibleRun(c, w, ops) && Open(w, s)
    ensures Open(Run(c, w, ops), s) <==> Undisturbed(c, w, ops, s)
    ensures Open(Run(c, w, ops), s) ==> Run(c, w, ops).sessions[s] == w.sessions[s]
    decreases ops
  {
    if ops != [] {
      var mid := Step(c, w, ops[0]).world;
      StepClosesExactly(c, w, ops[0], s);
      StepKeepsTokens(c, w, ops[0]);
      if Closes(w, ops[0], s) {
        StepSpends(c, w, ops[0], s);
        SpentForGood(c, mid, ops[1..], s);
      } else {
        OpenExactly(c, mid, ops[1..], s);
      }
    }
  }

  lemma StepSpends(c: Config, w: World, op: Op, s: SessionId)
    requires TokensFit(w) && Possible(w, op) && Open(w, s) && Closes(w, op, s)
    ensures Spent(Step(c, w, op).world, s)
    ensures s in Step(c, w, op).world.sessions ==>
      !op.DeleteUser? && Step(c, w, op).world.sessions[s].revokedAt == Some(op.now)
  {
  }

  /** A session keeps the instant at which it was closed. */
  lemma ClosedInstantStays(c: Config, w: World, op: Op, s: SessionId)
    requires Orderly(c, w) && Possible(w, op) && s in w.sessions && !Open(w, s)
    ensures s in Step(c, w, op).world.sessions ==> Step(c, w, op).world.sessions[s] == w.sessions[s]
  {
  }

  // ---------- how long its token is good for ----------

  /** Every session's token was signed for the session's own expiry. */
  ghost predicate TokensLast(w: World) {
    forall s :: s in w.sessions && s in w.journal.issued ==> Lasts(w.sessions[s], w.journal.issued[s])
  }

  predicate Lasts(s: Session, t: Token) {
    t.kind == Refresh && s.expiresAt < 1000 * t.expires + 2000
  }

  lemma StepKeepsLasting(c: Config, w: World, op: Op)
    requires TokensFit(w) && TokensLast(w) && Possible(w, op)
    ensures TokensLast(Step(c, w, op).world)
  {
  }

  lemma {:induction false} RunKeepsLasting(c: Config, w: World, ops: seq<Op>)
    requires TokensFit(w) && TokensLast(w) && PossibleRun(c, w, ops)
    ensures TokensLast(Run(c, w, ops))
    decreases ops
  {
    if ops != [] {
      StepKeepsLasting(c, w, ops[0]);
      StepKeepsTokens(c, w, ops[0]);
      RunKeepsLasting(c, Step(c, w, ops[0]).world, ops[1..]);
    }
  }

  /** When the login of a family lets it last until. */
  function Until(c: Config, o: Origin): int {
    o.at + if o.rememberMe then c.rememberDays * 86400000 else c.refreshHours * 3600000
  }

  /** After any run, the token issued for an open session of an existing user refreshes at every instant up to
      two seconds before the one fixed at login. What it answers then is a token for the same user with the
      claims now stored, for a new session that is open until the same instant. */
  lemma OpenSessionRefreshes(c: Config, ops: seq<Op>, s: SessionId, later: int, sid: SessionId)
    requires PossibleRun(c, Start, ops) && Open(Run(c, Start, ops), s)
    requires var w := Run(c, Start, ops);
      && w.sessions[s].user in w.users && sid !in w.journal.issued && w.journal.clock <= later
      && w.sessions[s].family in w.journal.origins
      && later + 2000 <= Until(c, w.journal.origins[w.sessions[s].family])
    ensures var w := Run(c, Start, ops);
      && s in w.journal.issued
      && var t := w.journal.issued[s]; var o := Step(c, w, RefreshWith(t, later, sid));
        && Accepts(w, t, later) && o.reply.Refreshed? && o.reply.sid == sid
        && o.reply.token == o.world.journal.issued[sid]
        && Speaks(o.reply.token, w, RefreshWith(t, later, sid), sid)
        && Open(o.world, sid) && !Open(o.world, s)
        && o.world.sessions[sid].expiresAt == Until(c, w.journal.origins[w.sessions[s].family])
  {
    var w := Run(c, Start, ops);
    RunKeepsOrder(c, Start, ops);
    RunKeepsLasting(c, Start, ops);
    LiveSessionIsLast(c, w, s);
    TokenIsGood(c, w, s, later);
    IssuedSpeaks(c, w, RefreshWith(w.journal.issued[s], later, sid), sid);
  }

  lemma TokenIsGood(c: Config, w: World, s: SessionId, later: int)
    requires TokensFit(w) && TokensLast(w) && Open(w, s) && w.sessions[s].user in w.users
    requires later + 2000 <= w.sessions[s].expiresAt
    ensures s in w.journal.issued && Accepts(w, w.journal.issued[s], later)
  {
    assert Lasts(w.sessions[s], w.journal.issued[s]);
  }

  /** So a login is worth its whole lifetime: undisturbed, its own token still refreshes at the end of it. */
  lemma LoginLasts(c: Config, before: seq<Op>, login: Op, after: seq<Op>, later: int)
    requires login.Login? && PossibleRun(c, Start, before) && PossibleRun(c, Run(c, Start, before), [login] + after)
    requires login.user in Run(c, Start, before).users
    requires var mid := Step(c, Run(c, Start, before), login).world;
      Undisturbed(c, mid, after, login.sid) && login.user in Run(c, mid, after).users
    requires later + 2000 <=
      login.now + if login.rememberMe then c.rememberDays * 86400000 else c.refreshHours * 3600000
    ensures var o := Step(c, Run(c, Start, before), login);
      o.reply.Issued? && Accepts(Run(c, o.world, after), o.reply.token, later)
  {
    var w := Run(c, Start, before);
    var mid := Step(c, w, login).world;
    RunKeepsOrder(c, Start, before);
    RunKeepsLasting(c, Start, before);
    StepKeepsTokens(c, w, login);
    StepKeepsLasting(c, w, login);
    assert ([login] + after)[1..] == after;
    OpenExactly(c, mid, after, login.sid);
    IssuedForGood(c, mid, after, login.sid);
    TokensStayFit(c, mid, after);
    RunKeepsLasting(c, mid, after);
    TokenIsGood(c, Run(c, mid, after), login.sid, later);
  }

  lemma {:induction false} TokensStayFit(c: Config, w: World, ops: seq<Op>)
    requires TokensFit(w) && PossibleRun(c, w, ops)
    ensures TokensFit(Run(c, w, ops))
    decreases ops
  {
    if ops != [] {
      StepKeepsTokens(c, w, ops[0]);
      TokensStayFit(c, Step(c, w, ops[0]).world, ops[1..]);
    }
  }
}
