/** Refresh sessions: logins, rotations and logouts over the table of sessions. `RunKeepsOrder` shows
    that every family stays one replacement chain and that each refresh token is good for one use;
    the lemmas after it read off what that means for callers. */
module RefreshSessions {
  import opened Common

  type UserId = nat
  type SessionId = nat
  type FamilyId = nat

  datatype Config = Config(refreshHours: nat, rememberDays: nat)

  datatype Claims = Claims(tenant: Option<nat>, roles: seq<nat>)

  datatype Kind = Untyped | Access | Refresh

  /** The session a token names: none, the placeholder used before a session exists, or a session. */
  datatype SessionRef = NoSession | Pending | Id(id: SessionId)

  /** A correctly signed token is its payload, so signing is injective; times are whole seconds. */
  datatype Token = Token(user: UserId, claims: Claims, kind: Kind, session: SessionRef, issuedAt: int, expires: int)

  /** Hashing is injective. */
  datatype Digest = Sha256(token: Token)

  datatype Session = Session(user: UserId, digest: Digest, family: FamilyId, expiresAt: int,
                             revokedAt: Option<int>, replacedBy: Option<SessionId>)

  function Sign(user: UserId, claims: Claims, session: SessionRef, expiresAt: int, now: int): Token {
    var left := (expiresAt - now) / 1000;
    Token(user, claims, Refresh, session, now / 1000, now / 1000 + if left < 1 then 1 else left)
  }

  /** Signature, expiry and type of a presented token. */
  predicate Verifies(t: Token, now: int) {
    now / 1000 < t.expires && t.kind != Access
  }

  const HOUR := 3600000

  function Lifetime(c: Config, rememberMe: bool): nat {
    if rememberMe then c.rememberDays * 24 * HOUR else c.refreshHours * HOUR
  }

  predicate ReportsRememberMe(c: Config, expiresAt: int, now: int) {
    expiresAt - now > c.refreshHours * HOUR
  }

  /** Who logged in, when, and how a family therefore expires. */
  datatype Origin = Origin(user: UserId, rememberMe: bool, at: int)

  /** What happened so far: the sessions of each family in order, the final token issued for each
      session, the origin of each family, the refresh tokens accepted, and the time. */
  datatype Journal = Journal(chains: map<FamilyId, seq<SessionId>>, issued: map<SessionId, Token>,
                             origins: map<FamilyId, Origin>, accepted: seq<Token>, clock: int)

  datatype World = World(users: map<UserId, Claims>, sessions: map<SessionId, Session>, journal: Journal)

  datatype Op =
    | Login(user: UserId, rememberMe: bool, now: int, sid: SessionId, family: FamilyId)
    | RefreshWith(token: Token, now: int, sid: SessionId)
    | Logout(token: Token, now: int)
    | RevokeAll(user: UserId, now: int)
    | PutUser(user: UserId, claims: Claims)
    | DeleteUser(user: UserId)

  datatype Reply =
    | Done
    | Unauthorized
    | Issued(token: Token, sid: SessionId)
    | Refreshed(token: Token, sid: SessionId, rememberMe: bool)

  datatype Next = Next(world: World, reply: Reply)

  // ---------- the methods as steps ----------

  predicate IsValidSession(sessions: map<SessionId, Session>, sid: SessionId, t: Token, now: int) {
    sid in sessions && sessions[sid].revokedAt == None && sessions[sid].expiresAt > now
      && sessions[sid].digest == Sha256(t)
  }

  predicate Accepts(w: World, t: Token, now: int) {
    Verifies(t, now) && t.session.Id? && IsValidSession(w.sessions, t.session.id, t, now) && t.user in w.users
  }

  function LoginStep(c: Config, w: World, u: UserId, rememberMe: bool, now: int, sid: SessionId, f: FamilyId): Next
    requires u in w.users
  {
    var expiresAt := now + Lifetime(c, rememberMe);
    var token := Sign(u, w.users[u], Id(sid), expiresAt, now);
    Next(World(w.users, w.sessions[sid := Session(u, Sha256(token), f, expiresAt, None, None)],
               Journal(w.journal.chains[f := [sid]], w.journal.issued[sid := token],
                       w.journal.origins[f := Origin(u, rememberMe, now)], w.journal.accepted, now)),
         Issued(token, sid))
  }

  function ChainOf(w: World, f: FamilyId): seq<SessionId> {
    if f in w.journal.chains then w.journal.chains[f] else []
  }

  function RefreshStep(c: Config, w: World, t: Token, now: int, sid: SessionId): Next
    requires Accepts(w, t, now)
  {
    var old_ := w.sessions[t.session.id];
    var token := Sign(t.user, w.users[t.user], Id(sid), old_.expiresAt, now);
    Next(World(w.users,
               w.sessions[sid := Session(old_.user, Sha256(token), old_.family, old_.expiresAt, None, None)]
                         [t.session.id := old_.(revokedAt := Some(now), replacedBy := Some(sid))],
               w.journal.(chains := w.journal.chains[old_.family := ChainOf(w, old_.family) + [sid]],
                          issued := w.journal.issued[sid := token], accepted := w.journal.accepted + [t],
                          clock := now)),
         Refreshed(token, sid, ReportsRememberMe(c, old_.expiresAt, now)))
  }

  /** Marks the unrevoked ones among the given sessions. */
  function Revoke(sessions: map<SessionId, Session>, ids: set<SessionId>, now: int): map<SessionId, Session> {
    map s | s in sessions ::
      if s in ids && sessions[s].revokedAt == None then sessions[s].(revokedAt := Some(now)) else sessions[s]
  }

  function SessionsOf(sessions: map<SessionId, Session>, u: UserId): set<SessionId> {
    set s | s in sessions && sessions[s].user == u
  }

  function Step(c: Config, w: World, op: Op): Next {
    match op
    case Login(u, rememberMe, now, sid, f) =>
      if u in w.users then LoginStep(c, w, u, rememberMe, now, sid, f) else Next(w, Unauthorized)
    case RefreshWith(t, now, sid) =>
      if Accepts(w, t, now) then RefreshStep(c, w, t, now, sid) else Next(w, Unauthorized)
    case Logout(t, now) =>
      if Verifies(t, now) && t.session.Id?
      then Next(w.(sessions := Revoke(w.sessions, {t.session.id}, now), journal := w.journal.(clock := now)), Done)
      else Next(w, Done)
    case RevokeAll(u, now) =>
      Next(w.(sessions := Revoke(w.sessions, SessionsOf(w.sessions, u), now), journal := w.journal.(clock := now)),
        Done)
    case PutUser(u, claims) => Next(w.(users := w.users[u := claims]), Done)
    case DeleteUser(u) =>
      Next(w.(users := w.users - {u}, sessions := w.sessions - SessionsOf(w.sessions, u)), Done)
  }

  /** Session and family identifiers are never reused, and the clock does not go back. */
  predicate Possible(w: World, op: Op) {
    match op
    case Login(_, _, now, sid, f) => w.journal.clock <= now && sid !in w.journal.issued && f !in w.journal.chains
    case RefreshWith(_, now, sid) => w.journal.clock <= now && sid !in w.journal.issued
    case Logout(_, now) => w.journal.clock <= now
    case RevokeAll(_, now) => w.journal.clock <= now
    case _ => true
  }

  function Run(c: Config, w: World, ops: seq<Op>): World
    decreases ops
  {
    if ops == [] then w else Run(c, Step(c, w, ops[0]).world, ops[1..])
  }

  ghost predicate PossibleRun(c: Config, w: World, ops: seq<Op>)
    decreases ops
  {
    ops == [] || (Possible(w, ops[0]) && PossibleRun(c, Step(c, w, ops[0]).world, ops[1..]))
  }

  const Start := World(map[], map[], Journal(map[], map[], map[], [], 0))

  // ---------- the order that every run keeps ----------

  /** Each stored session holds the digest of the one final token issued for it. */
  ghost predicate TokensFit(w: World) {
    && (forall s :: s in w.journal.issued ==> w.journal.issued[s].session == Id(s))
    && (forall s :: s in w.sessions ==> s in w.journal.issued)
    && (forall s :: s in w.sessions ==> w.sessions[s].digest == Sha256(w.journal.issued[s]))
    && (forall s :: s in w.sessions ==> w.journal.issued[s].user == w.sessions[s].user)
  }

  /** The sessions of `chain` are those of one family: one user, one expiry, each but the last revoked
      and replaced by the next, the last not replaced. */
  ghost predicate IsChain(c: Config, sessions: map<SessionId, Session>, f: FamilyId, o: Origin, chain: seq<SessionId>) {
    forall i :: 0 <= i < |chain| ==> IsLink(c, sessions, f, o, chain, i)
  }

  predicate IsLink(c: Config, sessions: map<SessionId, Session>, f: FamilyId, o: Origin, chain: seq<SessionId>, i: nat)
    requires i < |chain|
  {
    && chain[i] in sessions
    && sessions[chain[i]].family == f
    && sessions[chain[i]].user == o.user
    && sessions[chain[i]].expiresAt == o.at + Lifetime(c, o.rememberMe)
    && (if i + 1 < |chain|
        then sessions[chain[i]].replacedBy == Some(chain[i + 1]) && sessions[chain[i]].revokedAt.Some?
        else sessions[chain[i]].replacedBy == None)
  }

  /** A family is a chain, or its user is gone and all its sessions with it. */
  ghost predicate FamilyFits(c: Config, w: World, f: FamilyId)
    requires f in w.journal.chains
  {
    var chain := w.journal.chains[f];
    && chain != [] && Distinct(chain) && f in w.journal.origins && w.journal.origins[f].at <= w.journal.clock
    && (forall s :: s in chain ==> s in w.journal.issued)
    && (IsChain(c, w.sessions, f, w.journal.origins[f], chain) || forall s :: s in chain ==> s !in w.sessions)
  }

  ghost predicate FamiliesFit(c: Config, w: World) {
    && (forall f :: f in w.journal.chains ==> FamilyFits(c, w, f))
    && (forall s :: s in w.sessions ==>
      w.sessions[s].family in w.journal.chains && s in w.journal.chains[w.sessions[s].family])
  }

  /** No session that an accepted token named is usable again. */
  predicate Spent(w: World, s: SessionId) {
    s in w.journal.issued && (s in w.sessions ==> w.sessions[s].revokedAt.Some?)
  }

  ghost predicate AcceptedFit(w: World) {
    && Distinct(w.journal.accepted)
    && (forall t :: t in w.journal.accepted ==>
      t.session.Id? && Spent(w, t.session.id) && w.journal.issued[t.session.id] == t)
  }

  ghost predicate Orderly(c: Config, w: World) {
    TokensFit(w) && FamiliesFit(c, w) && AcceptedFit(w)
  }

  lemma StepKeepsTokens(c: Config, w: World, op: Op)
    requires TokensFit(w) && Possible(w, op)
    ensures TokensFit(Step(c, w, op).world)
  {
  }

  lemma StepKeepsSpent(c: Config, w: World, op: Op, s: SessionId)
    requires Possible(w, op) && Spent(w, s)
    ensures Spent(Step(c, w, op).world, s)
  {
  }

  lemma StepKeepsAccepted(c: Config, w: World, op: Op)
    requires TokensFit(w) && AcceptedFit(w) && Possible(w, op)
    ensures AcceptedFit(Step(c, w, op).world)
  {
    var w' := Step(c, w, op).world;
    forall t | t in w.journal.accepted ensures Spent(w', t.session.id) {
      StepKeepsSpent(c, w, op, t.session.id);
    }
  }

  /** Revocation apart, the sessions of the chain are as they were. */
  ghost predicate Kept(before: map<SessionId, Session>, after: map<SessionId, Session>, chain: seq<SessionId>) {
    forall s :: s in chain && s in before ==>
      s in after && (after[s] == before[s]
        || (before[s].revokedAt == None && after[s] == before[s].(revokedAt := after[s].revokedAt)))
  }

  lemma ChainSurvives(c: Config, before: map<SessionId, Session>, after: map<SessionId, Session>, f: FamilyId,
          o: Origin, chain: seq<SessionId>)
    requires IsChain(c, before, f, o, chain) && Kept(before, after, chain)
    ensures IsChain(c, after, f, o, chain)
  {
    forall i | 0 <= i < |chain| ensures IsLink(c, after, f, o, chain, i) {
      assert IsLink(c, before, f, o, chain, i) && chain[i] in chain;
    }
  }

  /** A family whose sessions are only revoked, or left alone, still fits. */
  lemma FamilySurvives(c: Config, w: World, w': World, f: FamilyId)
    requires f in w.journal.chains && FamilyFits(c, w, f)
    requires f in w'.journal.chains && w'.journal.chains[f] == w.journal.chains[f]
    requires f in w'.journal.origins && w'.journal.origins[f] == w.journal.origins[f]
    requires w.journal.issued.Keys <= w'.journal.issued.Keys && w.journal.clock <= w'.journal.clock
    requires Kept(w.sessions, w'.sessions, w.journal.chains[f])
    requires forall s :: s in w.journal.chains[f] && s !in w.sessions ==> s !in w'.sessions
    ensures FamilyFits(c, w', f)
  {
    if IsChain(c, w.sessions, f, w.journal.origins[f], w.journal.chains[f]) {
      ChainSurvives(c, w.sessions, w'.sessions, f, w.journal.origins[f], w.journal.chains[f]);
    }
  }

  /** The one session of a family that may be unrevoked stands at the end of its chain. */
  lemma LiveSessionIsLast(c: Config, w: World, s: SessionId)
    requires FamiliesFit(c, w) && s in w.sessions && w.sessions[s].revokedAt == None
    ensures
      var f := w.sessions[s].family;
      f in w.journal.chains && w.journal.chains[f] != [] && w.journal.chains[f][|w.journal.chains[f]| - 1] == s
      && f in w.journal.origins && IsChain(c, w.sessions, f, w.journal.origins[f], w.journal.chains[f])
      && IsLink(c, w.sessions, f, w.journal.origins[f], w.journal.chains[f], |w.journal.chains[f]| - 1)
  {
    var f := w.sessions[s].family;
    assert FamilyFits(c, w, f);
    var chain := w.journal.chains[f];
    assert IsChain(c, w.sessions, f, w.journal.origins[f], chain);
    var i :| 0 <= i < |chain| && chain[i] == s;
    assert IsLink(c, w.sessions, f, w.journal.origins[f], chain, i);
  }

  lemma LoginKeepsFamilies(c: Config, w: World, op: Op)
    requires op.Login? && op.user in w.users && Possible(w, op) && TokensFit(w) && FamiliesFit(c, w)
    ensures FamiliesFit(c, Step(c, w, op).world)
  {
    var w' := Step(c, w, op).world;
    assert op.sid !in w.sessions;
    forall f | f in w.journal.chains ensures FamilyFits(c, w', f) {
      assert FamilyFits(c, w, f);
      FamilySurvives(c, w, w', f);
    }
    assert IsLink(c, w'.sessions, op.family, Origin(op.user, op.rememberMe, op.now), [op.sid], 0);
    assert FamilyFits(c, w', op.family);
  }

  lemma RefreshKeepsFamilies(c: Config, w: World, op: Op)
    requires op.RefreshWith? && Accepts(w, op.token, op.now) && Possible(w, op) && TokensFit(w) && FamiliesFit(c, w)
    ensures FamiliesFit(c, Step(c, w, op).world)
  {
    var w', s := Step(c, w, op).world, op.token.session.id;
    assert op.sid !in w.sessions && op.sid != s;
    LiveSessionIsLast(c, w, s);
    forall f | f in w.journal.chains ensures FamilyFits(c, w', f) {
      assert FamilyFits(c, w, f);
      if f == w.sessions[s].family {
        RotatedFamilyFits(c, w, op);
      } else {
        OtherFamilyUntouched(c, w, f, s);
        FamilySurvives(c, w, w', f);
      }
    }
  }

  lemma RotatedFamilyFits(c: Config, w: World, op: Op)
    requires op.RefreshWith? && Accepts(w, op.token, op.now) && Possible(w, op) && TokensFit(w) && FamiliesFit(c, w)
    ensures
      var f := w.sessions[op.token.session.id].family;
      f in Step(c, w, op).world.journal.chains && FamilyFits(c, Step(c, w, op).world, f)
  {
    var w', s := Step(c, w, op).world, op.token.session.id;
    var f := w.sessions[s].family;
    LiveSessionIsLast(c, w, s);
    assert FamilyFits(c, w, f);
    var chain := w.journal.chains[f];
    assert op.sid !in w.sessions && op.sid !in chain;
    ChainExtends(c, w.sessions, w'.sessions, f, w.journal.origins[f], chain, op.sid);
  }

  lemma OtherFamilyUntouched(c: Config, w: World, f: FamilyId, s: SessionId)
    requires f in w.journal.chains && FamilyFits(c, w, f) && s in w.sessions && w.sessions[s].family != f
    ensures s !in w.journal.chains[f]
  {
    var chain := w.journal.chains[f];
    if i :| 0 <= i < |chain| && chain[i] == s {
      assert !IsLink(c, w.sessions, f, w.journal.origins[f], chain, i);
    }
  }

  lemma ChainExtends(c: Config, before: map<SessionId, Session>, after: map<SessionId, Session>, f: FamilyId, o: Origin,
                     chain: seq<SessionId>, sid: SessionId)
    requires chain != [] && Distinct(chain) && IsChain(c, before, f, o, chain) && sid !in chain
    requires sid in after && after[sid].family == f && after[sid].user == o.user && after[sid].replacedBy == None
    requires after[sid].expiresAt == o.at + Lifetime(c, o.rememberMe)
    requires forall s :: s in chain && s != chain[|chain| - 1] && s in before ==> s in after && after[s] == before[s]
    requires
      var last := chain[|chain| - 1];
      last in after && last in before && after[last].replacedBy == Some(sid) && after[last].revokedAt.Some?
      && after[last].family == before[last].family && after[last].user == before[last].user
        && after[last].expiresAt == before[last].expiresAt
    ensures IsChain(c, after, f, o, chain + [sid]) && Distinct(chain + [sid])
  {
    forall i | 0 <= i < |chain| + 1 ensures IsLink(c, after, f, o, chain + [sid], i) {
      if i < |chain| {
        assert IsLink(c, before, f, o, chain, i) && chain[i] in chain;
      }
    }
  }

  lemma RevokeKeepsFamilies(c: Config, w: World, ids: set<SessionId>, now: int)
    requires FamiliesFit(c, w) && w.journal.clock <= now
    ensures FamiliesFit(c, w.(sessions := Revoke(w.sessions, ids, now), journal := w.journal.(clock := now)))
  {
    var w' := w.(sessions := Revoke(w.sessions, ids, now), journal := w.journal.(clock := now));
    forall f | f in w'.journal.chains ensures FamilyFits(c, w', f) {
      assert FamilyFits(c, w, f);
      FamilySurvives(c, w, w', f);
    }
  }

  lemma PutUserKeepsFamilies(c: Config, w: World, op: Op)
    requires op.PutUser? && FamiliesFit(c, w)
    ensures FamiliesFit(c, Step(c, w, op).world)
  {
  }

  lemma DeleteKeepsFamilies(c: Config, w: World, u: UserId)
    requires FamiliesFit(c, w)
    ensures FamiliesFit(c, Step(c, w, DeleteUser(u)).world)
  {
    var w' := Step(c, w, DeleteUser(u)).world;
    forall f | f in w'.journal.chains ensures FamilyFits(c, w', f) {
      assert FamilyFits(c, w, f);
      var o, chain := w.journal.origins[f], w.journal.chains[f];
      if IsChain(c, w.sessions, f, o, chain) {
        forall i | 0 <= i < |chain| ensures chain[i] in w.sessions && w.sessions[chain[i]].user == o.user {
          assert IsLink(c, w.sessions, f, o, chain, i);
        }
        if o.user != u {
          FamilySurvives(c, w, w', f);
        }
      }
    }
  }

  lemma StepKeepsOrder(c: Config, w: World, op: Op)
    requires Orderly(c, w) && Possible(w, op)
    ensures Orderly(c, Step(c, w, op).world)
  {
    StepKeepsTokens(c, w, op);
    StepKeepsAccepted(c, w, op);
    match op
    case Login(u, _, _, _, _) => if u in w.users { LoginKeepsFamilies(c, w, op); }
    case RefreshWith(t, now, _) => if Accepts(w, t, now) { RefreshKeepsFamilies(c, w, op); }
    case Logout(t, now) => if Verifies(t, now) && t.session.Id? { RevokeKeepsFamilies(c, w, {t.session.id}, now); }
    case RevokeAll(u, now) => RevokeKeepsFamilies(c, w, SessionsOf(w.sessions, u), now);
    case PutUser(_, _) => PutUserKeepsFamilies(c, w, op);
    case DeleteUser(u) => DeleteKeepsFamilies(c, w, u);
  }

  lemma {:induction false} RunKeepsOrder(c: Config, w: World, ops: seq<Op>)
    requires Orderly(c, w) && PossibleRun(c, w, ops)
    ensures Orderly(c, Run(c, w, ops))
    decreases ops
  {
    if ops != [] {
      StepKeepsOrder(c, w, ops[0]);
      RunKeepsOrder(c, Step(c, w, ops[0]).world, ops[1..]);
    }
  }

  // ---------- what callers can rely on ----------

  /** After any run, each family with a session left is one chain of replacements, and at most one of
      its sessions is unrevoked. */
  lemma FamilyIsOneChain(c: Config, ops: seq<Op>, s: SessionId, s': SessionId)
    requires PossibleRun(c, Start, ops)
    requires
      var w := Run(c, Start, ops);
      s in w.sessions && s' in w.sessions && w.sessions[s].family == w.sessions[s'].family
    ensures
      var w := Run(c, Start, ops);
      var f := w.sessions[s].family;
      var chain := ChainOf(w, f);
      && s in chain && s' in chain && Distinct(chain)
      && f in w.journal.origins && IsChain(c, w.sessions, f, w.journal.origins[f], chain)
      && (w.sessions[s].revokedAt == None && w.sessions[s'].revokedAt == None ==> s == s')
  {
    RunKeepsOrder(c, Start, ops);
    var w := Run(c, Start, ops);
    assert FamilyFits(c, w, w.sessions[s].family);
    if w.sessions[s].revokedAt == None { LiveSessionIsLast(c, w, s); }
    if w.sessions[s'].revokedAt == None { LiveSessionIsLast(c, w, s'); }
  }

  /** Each refresh token is accepted at most once in a run, and only if it is the final token issued
      for the session it names. */
  lemma AcceptedOnce(c: Config, ops: seq<Op>)
    requires PossibleRun(c, Start, ops)
    ensures
      var j := Run(c, Start, ops).journal;
      Distinct(j.accepted)
      && forall t :: t in j.accepted ==> t.session.Id? && t.session.id in j.issued && j.issued[t.session.id] == t
  {
    RunKeepsOrder(c, Start, ops);
  }

  /** Once a session is revoked or gone, no later run of operations makes any token naming it good again. */
  lemma {:induction false} SpentForGood(c: Config, w: World, ops: seq<Op>, s: SessionId)
    requires PossibleRun(c, w, ops) && Spent(w, s)
    ensures Spent(Run(c, w, ops), s)
    ensures forall t: Token, now: int :: t.session == Id(s) ==> !Accepts(Run(c, w, ops), t, now)
    decreases ops
  {
    if ops != [] {
      StepKeepsSpent(c, w, ops[0], s);
      SpentForGood(c, Step(c, w, ops[0]).world, ops[1..], s);
    }
  }

  /** The provisional tokens signed on the way, one naming no session yet and one naming the session
      being replaced, are never accepted afterwards. */
  lemma ProvisionalNeverAccepted(c: Config, w: World, t: Token, now: int, sid: SessionId, ops: seq<Op>,
          p: Token, later: int)
    requires Orderly(c, w) && Accepts(w, t, now) && Possible(w, RefreshWith(t, now, sid))
    requires PossibleRun(c, Step(c, w, RefreshWith(t, now, sid)).world, ops)
    requires p.session == Pending || p.session == t.session
    ensures !Accepts(Run(c, Step(c, w, RefreshWith(t, now, sid)).world, ops), p, later)
  {
    var w' := Step(c, w, RefreshWith(t, now, sid)).world;
    assert Spent(w', t.session.id);
    SpentForGood(c, w', ops, t.session.id);
  }

  /** A family without an unrevoked session gains none, whatever happens later. */
  ghost predicate Dead(w: World, f: FamilyId) {
    f in w.journal.chains && forall s :: s in w.sessions && w.sessions[s].family == f ==> w.sessions[s].revokedAt.Some?
  }

  lemma StepKeepsDead(c: Config, w: World, op: Op, f: FamilyId)
    requires Possible(w, op) && Dead(w, f)
    ensures Dead(Step(c, w, op).world, f) && Step(c, w, op).world.journal.chains[f] == w.journal.chains[f]
  {
  }

  lemma {:induction false} DeadFamilyNeverRefreshes(c: Config, w: World, ops: seq<Op>, f: FamilyId)
    requires PossibleRun(c, w, ops) && Dead(w, f)
    ensures Dead(Run(c, w, ops), f) && Run(c, w, ops).journal.chains[f] == w.journal.chains[f]
    decreases ops
  {
    if ops != [] {
      StepKeepsDead(c, w, ops[0], f);
      DeadFamilyNeverRefreshes(c, Step(c, w, ops[0]).world, ops[1..], f);
    }
  }

  /** A refresh succeeds only before the instant fixed at login, for the user who logged in, and
      reports `rememberMe` exactly while a login that asked for it still has more than a short
      session left: never for other logins, and never again once it reported false. */
  lemma RefreshHonoursLogin(c: Config, ops: seq<Op>, t: Token, now: int, sid: SessionId)
    requires PossibleRun(c, Start, ops)
    requires Run(c, Start, ops).journal.clock <= now && Accepts(Run(c, Start, ops), t, now)
    ensures
      var w := Run(c, Start, ops);
      var f := w.sessions[t.session.id].family;
      && f in w.journal.origins
      && var o := w.journal.origins[f];
      && o.at <= now < o.at + Lifetime(c, o.rememberMe)
      && t.user == o.user
      && (RefreshStep(c, w, t, now, sid).reply.rememberMe
          <==> o.rememberMe && now < o.at + Lifetime(c, true) - Lifetime(c, false))
  {
    RunKeepsOrder(c, Start, ops);
    var w := Run(c, Start, ops);
    LiveSessionIsLast(c, w, t.session.id);
    var f := w.sessions[t.session.id].family;
    assert FamilyFits(c, w, f);
  }

  /** After any run, a token is accepted exactly when it is the final token of a live session, within
      the lifetimes of token and session, for a user who still exists. */
  lemma AcceptsExactly(c: Config, ops: seq<Op>, t: Token, now: int)
    requires PossibleRun(c, Start, ops)
    ensures
      var w := Run(c, Start, ops);
      Accepts(w, t, now) <==>
        exists s :: s in w.sessions && s in w.journal.issued && w.journal.issued[s] == t
          && w.sessions[s].revokedAt == None
          && now < w.sessions[s].expiresAt && Verifies(t, now) && w.sessions[s].user in w.users
  {
    RunKeepsOrder(c, Start, ops);
    var w := Run(c, Start, ops);
    if Accepts(w, t, now) {
      assert t.session.id in w.sessions;
    }
  }

  // ---------- the services in the source's form ----------

  class AuthStore {
    const config: Config
    var users: map<UserId, Claims>
    var sessions: map<SessionId, Session>
    ghost var journal: Journal

    constructor (config: Config)
      ensures this.config == config && State() == Start
    {
      this.config, users, sessions, journal := config, map[], map[], Start.journal;
    }

    ghost function State(): World
      reads this
    {
      World(users, sessions, journal)
    }

    method CreateSession(user: UserId, token: Token, expiresAt: int, sid: SessionId, family: FamilyId)
      returns (s: Session)
      modifies this`sessions
      ensures s == Session(user, Sha256(token), family, expiresAt, None, None)
      ensures sessions == old(sessions)[sid := s]
    {
      s := Session(user, Sha256(token), family, expiresAt, None, None);
      sessions := sessions[sid := s];
    }

    method GetValidSession(sid: SessionId, token: Token, now: int) returns (s: Option<Session>)
      ensures s == if IsValidSession(sessions, sid, token, now) then Some(sessions[sid]) else None
    {
      if sid !in sessions { return None; }
      var session := sessions[sid];
      if session.revokedAt != None { return None; }
      if session.expiresAt <= now { return None; }
      if session.digest != Sha256(token) { return None; }
      s := Some(session);
    }

    method RotateSession(current: SessionId, newToken: Token, newExpiresAt: int, now: int, sid: SessionId)
      returns (s: Option<Session>)
      requires sid !in sessions
      modifies this`sessions
      ensures current !in old(sessions) ==> s == None && sessions == old(sessions)
      ensures current in old(sessions) ==>
        var was := old(sessions)[current];
        && s == Some(Session(was.user, Sha256(newToken), was.family, newExpiresAt, None, None))
        && sessions == old(sessions)[sid := s.value][current := was.(revokedAt := Some(now), replacedBy := Some(sid))]
    {
      if current !in sessions { return None; }
      var was := sessions[current];
      var fresh_ := Session(was.user, Sha256(newToken), was.family, newExpiresAt, None, None);
      sessions := sessions[sid := fresh_];
      sessions := sessions[current := sessions[current].(revokedAt := Some(now), replacedBy := Some(sid))];
      s := Some(fresh_);
    }

    method RevokeSessionById(sid: SessionId, now: int)
      modifies this`sessions
      ensures sessions == Revoke(old(sessions), {sid}, now)
    {
      if sid in sessions && sessions[sid].revokedAt == None {
        sessions := sessions[sid := sessions[sid].(revokedAt := Some(now))];
      }
    }

    method RevokeUserSessions(user: UserId, now: int)
      modifies this`sessions, this`journal
      ensures State() == Step(config, old(State()), RevokeAll(user, now)).world
    {
      sessions := map s | s in sessions ::
        if sessions[s].user == user && sessions[s].revokedAt == None then sessions[s].(revokedAt := Some(now))
        else sessions[s];
      journal := journal.(clock := now);
    }

    /** A provisional token stands in for the hash until the session exists and the final one is signed. */
    method IssueTokens(user: UserId, rememberMe: bool, now: int, sid: SessionId, family: FamilyId) returns (r: Reply)
      modifies this`sessions, this`journal
      ensures var o := Step(config, old(State()), Login(user, rememberMe, now, sid, family));
        State() == o.world && r == o.reply
    {
      if user !in users { return Unauthorized; }
      var expiresAt := now + if rememberMe then config.rememberDays * 24 * HOUR else config.refreshHours * HOUR;
      var provisional := Sign(user, users[user], Pending, expiresAt, now);
      var session := CreateSession(user, provisional, expiresAt, sid, family);
      var token := Sign(user, users[user], Id(sid), expiresAt, now);
      sessions := sessions[sid := sessions[sid].(digest := Sha256(token))];
      journal := Journal(journal.chains[family := [sid]], journal.issued[sid := token],
                         journal.origins[family := Origin(user, rememberMe, now)], journal.accepted, now);
      r := Issued(token, sid);
    }

    method RefreshWithToken(token: Token, now: int, sid: SessionId) returns (r: Reply)
      requires sid !in sessions
      modifies this`sessions, this`journal
      ensures var o := Step(config, old(State()), RefreshWith(token, now, sid)); State() == o.world && r == o.reply
    {
      if !(now / 1000 < token.expires) || token.kind == Access { return Unauthorized; }
      if token.session == NoSession { return Unauthorized; }
      if token.session == Pending { return Unauthorized; }
      var valid := GetValidSession(token.session.id, token, now);
      if valid == None { return Unauthorized; }
      if token.user !in users { return Unauthorized; }
      var expiresAt := valid.value.expiresAt;
      var provisional := Sign(token.user, users[token.user], token.session, expiresAt, now);
      var rotated := RotateSession(token.session.id, provisional, expiresAt, now, sid);
      var final := Sign(token.user, users[token.user], Id(sid), expiresAt, now);
      sessions := sessions[sid := sessions[sid].(digest := Sha256(final))];
      var family := valid.value.family;
      var before := if family in journal.chains then journal.chains[family] else [];
      journal := journal.(chains := journal.chains[family := before + [sid]],
                          issued := journal.issued[sid := final], accepted := journal.accepted + [token], clock := now);
      r := Refreshed(final, sid, expiresAt - now > config.refreshHours * HOUR);
    }

    method RevokeRefreshSession(token: Token, now: int)
      modifies this`sessions, this`journal
      ensures State() == Step(config, old(State()), Logout(token, now)).world
    {
      if !(now / 1000 < token.expires) || token.kind == Access { return; }
      if !token.session.Id? { return; }
      RevokeSessionById(token.session.id, now);
      journal := journal.(clock := now);
    }
  }
}
