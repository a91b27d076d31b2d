/** Inviting many addresses at once: a loop over the distinct addresses, each tried on its own, whose
    failures are collected and do not stop the others. */
module BulkInvitations {
  import opened Common
  import opened Directory
  import opened InvitationLifecycle
  import opened DirectoryServices
  import Text

  datatype Failure = InvalidFormat | Refused(reply: Reply)

  datatype Success = Success(email: string, invitation: Id)

  datatype Failed = Failed(email: string, why: Failure)

  datatype Summary = Summary(total: nat, successful: nat, failed: nat)

  datatype Result = Result(successful: seq<Success>, failed: seq<Failed>, summary: Summary)

  /** What one creation draws: an identifier, a token and a reading of the clock. */
  datatype Draw = Draw(id: Id, token: nat, now: int)

  // ---------- addresses ----------

  predicate WordChar(c: char) {
    c != '@' && !Text.IsSpace(c)
  }

  predicate SplitsAt(e: string, i: int, j: int) {
    && 0 < i && i + 1 < j < |e| - 1 && e[i] == '@' && e[j] == '.'
    && forall k :: 0 <= k < |e| && k != i ==> WordChar(e[k])
  }

  /** The pattern: something, an at sign, something, a dot, something, without white space or another at. */
  predicate EmailFits(e: string) {
    exists i, j :: 0 <= i < |e| && 0 <= j < |e| && SplitsAt(e, i, j)
  }

  predicate Word(s: string) {
    s != "" && forall c :: c in s ==> WordChar(c)
  }

  lemma JoinedSplits(user: string, domain: string, suffix: string)
    requires Word(user) && Word(domain) && Word(suffix)
    ensures EmailFits(user + "@" + domain + "." + suffix)
  {
    var e, i := user + "@" + domain + "." + suffix, |user|;
    var j := i + 1 + |domain|;
    assert e[i] == '@' && e[j] == '.';
    forall k | 0 <= k < |e| && k != i ensures WordChar(e[k]) {
      assert e[k] in user || e[k] in domain || e[k] == '.' || e[k] in suffix;
    }
    assert SplitsAt(e, i, j);
  }

  /** An address fits the pattern just when it is three words joined by an at sign and a dot. */
  lemma EmailFitsExactly(e: string)
    ensures EmailFits(e) <==>
      exists user, domain, suffix ::
        Word(user) && Word(domain) && Word(suffix) && e == user + "@" + domain + "." + suffix
  {
    if EmailFits(e) {
      var i, j :| 0 <= i < |e| && 0 <= j < |e| && SplitsAt(e, i, j);
      var user, domain, suffix := e[..i], e[i + 1..j], e[j + 1..];
      assert Word(user) && Word(domain) && Word(suffix);
      assert e == user + "@" + domain + "." + suffix;
    }
    if user, domain, suffix :| Word(user) && Word(domain) && Word(suffix) && e == user + "@" + domain + "." + suffix {
      JoinedSplits(user, domain, suffix);
    }
  }

  /** The normalised addresses in order of first appearance. */
  function Unique(emails: seq<string>): seq<string> {
    if emails == [] then []
    else
      var front, last := Unique(emails[..|emails| - 1]), Text.Normalise(emails[|emails| - 1]);
      if last in front then front else front + [last]
  }

  function Normalised(emails: seq<string>): seq<string> {
    seq(|emails|, i requires 0 <= i < |emails| => Text.Normalise(emails[i]))
  }

  /** The distinct normalised addresses, each once, already normalised. */
  lemma {:induction false} UniqueExactly(emails: seq<string>)
    ensures Distinct(Unique(emails)) && Elements(Unique(emails)) == Elements(Normalised(emails))
    ensures forall e :: e in Unique(emails) ==> Text.Normalise(e) == e
  {
    if emails != [] {
      var n := |emails| - 1;
      var front, last := emails[..n], emails[n];
      UniqueExactly(front);
      Text.NormaliseTwice(last);
      assert Normalised(emails) == Normalised(front) + [Text.Normalise(last)];
      assert Elements(Normalised(emails)) == Elements(Normalised(front)) + {Text.Normalise(last)};
    }
  }

  lemma UniqueCount(emails: seq<string>)
    ensures |Unique(emails)| <= |emails|
    ensures |Unique(emails)| == |emails| <==> Distinct(Normalised(emails))
  {
    UniqueExactly(emails);
    PigeonHole(Unique(emails));
    PigeonHole(Normalised(emails));
  }

  // ---------- the loop as a function ----------

  datatype Progress = Progress(db: Db, successful: seq<Success>, failed: seq<Failed>)

  datatype Request = Request(tenant: Id, inviter: Id, roles: seq<Id>, expiresAt: Option<int>)

  function Attempt(p: Progress, r: Request, email: string, d: Draw): Progress {
    if !EmailFits(email) then p.(failed := p.failed + [Failed(email, InvalidFormat)])
    else
      var o := Creation(p.db, r, email, d);
      if o.reply == Done then p.(db := o.db, successful := p.successful + [Success(email, d.id)])
      else p.(db := o.db, failed := p.failed + [Failed(email, Refused(o.reply))])
  }

  function Attempts(db: Db, r: Request, emails: seq<string>, draws: seq<Draw>): Progress
    requires |draws| == |emails|
  {
    if emails == [] then Progress(db, [], [])
    else
      var n := |emails| - 1;
      Attempt(Attempts(db, r, emails[..n], draws[..n]), r, emails[n], draws[n])
  }

  /** Identifiers and tokens never used, and none drawn twice. */
  ghost predicate FreshDraws(db: Db, draws: seq<Draw>) {
    && (forall k :: 0 <= k < |draws| ==> draws[k].id !in db.invited && draws[k].token !in db.tokens)
    && (forall j, k :: 0 <= j < k < |draws| ==> draws[j].id != draws[k].id && draws[j].token != draws[k].token)
  }

  // ---------- the service ----------

  /** `createBulkInvitations`: an empty or overlong list is refused outright. */
  method CreateBulkInvitations(store: Store, r: Request, emails: seq<string>, draws: seq<Draw>)
    returns (result: Option<Result>)
    requires |draws| == |Unique(emails)| && FreshDraws(store.State(), draws) && Sound(store.State())
    modifies store
    ensures result.None? <==> |emails| == 0 || |emails| > 100
    ensures result.None? ==> store.State() == old(store.State())
    ensures result.Some? ==>
      var p := Attempts(old(store.State()), r, Unique(emails), draws);
      store.State() == p.db
      && result.value == Result(p.successful, p.failed, Summary(|emails|, |p.successful|, |p.failed|))
  {
    if |emails| == 0 { return None; }
    if |emails| > 100 { return None; }
    var unique := Unique(emails);
    var successful: seq<Success>, failed: seq<Failed> := [], [];
    for k := 0 to |unique|
      invariant Progress(store.State(), successful, failed) == Attempts(old(store.State()), r, unique[..k], draws[..k])
    {
      assert unique[..k + 1][..k] == unique[..k] && draws[..k + 1][..k] == draws[..k];
      var email, d := unique[k], draws[k];
      if !EmailFits(email) {
        failed := failed + [Failed(email, InvalidFormat)];
        continue;
      }
      StillFresh(old(store.State()), r, unique, draws, k);
      var reply := store.CreateInvitation(r.tenant, r.inviter, d.id, d.token, email, r.roles, r.expiresAt, d.now);
      if reply == Done {
        successful := successful + [Success(email, d.id)];
      } else {
        failed := failed + [Failed(email, Refused(reply))];
      }
    }
    assert unique[..|unique|] == unique && draws[..|unique|] == draws;
    return Some(Result(successful, failed, Summary(|emails|, |successful|, |failed|)));
  }

  // ---------- what a prefix of the loop has done to the tables ----------

  predicate SameRest(db: Db, next: Db) {
    next.tenants == db.tenants && next.users == db.users && next.roles == db.roles
  }

  function Creation(db: Db, r: Request, email: string, d: Draw): Outcome {
    CreateInvitation(db, r.tenant, r.inviter, d.id, d.token, email, r.roles, r.expiresAt, d.now)
  }

  lemma CreationKeepsSound(db: Db, r: Request, email: string, d: Draw)
    requires Sound(db) && d.id !in db.invited && d.token !in db.tokens
    ensures Sound(Creation(db, r, email, d).db)
  {
    CreationEvolves(db, r.tenant, r.inviter, d.id, d.token, email, r.roles, r.expiresAt, d.now);
    EvolutionKeepsSound(db, Creation(db, r, email, d).db);
  }

  lemma CreationFrame(db: Db, r: Request, email: string, d: Draw)
    ensures var o := Creation(db, r, email, d);
      && SameRest(db, o.db) && o.db.invited <= db.invited + {d.id} && o.db.tokens <= db.tokens + {d.token}
      && (if o.reply == Done then
            d.id in o.db.invitations && o.db.invitations == db.invitations[d.id := o.db.invitations[d.id]]
            && PendingFor(o.db, r.tenant, Text.Normalise(email), d.id)
          else o.db == db)
  {
  }

  lemma AttemptIsSound(p: Progress, r: Request, email: string, d: Draw)
    requires Sound(p.db) && d.id !in p.db.invited && d.token !in p.db.tokens
    ensures var next := Attempt(p, r, email, d).db;
      Sound(next) && SameRest(p.db, next) && next.invited <= p.db.invited + {d.id}
        && next.tokens <= p.db.tokens + {d.token}
  {
    CreationKeepsSound(p.db, r, email, d);
    CreationFrame(p.db, r, email, d);
    assert Attempt(p, r, email, d).db == if EmailFits(email) then Creation(p.db, r, email, d).db else p.db;
  }

  lemma {:induction false} AttemptsAreSound(db: Db, r: Request, emails: seq<string>, draws: seq<Draw>)
    requires |draws| == |emails| && Sound(db) && FreshDraws(db, draws)
    ensures var next := Attempts(db, r, emails, draws).db;
      && Sound(next) && SameRest(db, next)
      && (forall i :: i in next.invited ==> i in db.invited || exists k :: 0 <= k < |draws| && draws[k].id == i)
      && (forall t :: t in next.tokens ==> t in db.tokens || exists k :: 0 <= k < |draws| && draws[k].token == t)
  {
    if emails != [] {
      var n := |emails| - 1;
      AttemptsAreSound(db, r, emails[..n], draws[..n]);
      AttemptIsSound(Attempts(db, r, emails[..n], draws[..n]), r, emails[n], draws[n]);
      assert draws == draws[..n] + [draws[n]];
    }
  }

  lemma StillFresh(db: Db, r: Request, emails: seq<string>, draws: seq<Draw>, k: nat)
    requires k < |emails| == |draws| && Sound(db) && FreshDraws(db, draws)
    ensures var mid := Attempts(db, r, emails[..k], draws[..k]).db;
      Sound(mid) && draws[k].id !in mid.invitations && draws[k].id !in mid.invited && draws[k].token !in mid.tokens
  {
    AttemptsAreSound(db, r, emails[..k], draws[..k]);
    var mid := Attempts(db, r, emails[..k], draws[..k]).db;
    assert draws[k].id in mid.invitations ==> TokenFits(mid, draws[k].id);
  }

  // ---------- the outcome, told from the tables before the call ----------

  predicate PendingFor(db: Db, t: Id, email: string, i: Id) {
    i in db.invitations && db.invitations[i].tenant == t && db.invitations[i].email == email
      && db.invitations[i].status == PENDING
  }

  /** Whether an address can be invited, judged from the tables as they were before the call. */
  predicate Admissible(db: Db, r: Request, email: string, now: int) {
    && EmailFits(email)
    && |Elements(r.roles) * RolesOf(db, r.tenant)| == |r.roles|
    && (forall i :: i in db.invitations ==> !PendingFor(db, r.tenant, email, i))
    && (r.expiresAt.Some? ==> now < r.expiresAt.value)
    && r.tenant in db.tenants && r.inviter in db.users
  }

  function Wins(db: Db, r: Request, emails: seq<string>, draws: seq<Draw>): seq<Success>
    requires |draws| == |emails|
  {
    if emails == [] then []
    else
      var n := |emails| - 1;
      Wins(db, r, emails[..n], draws[..n])
        + if Admissible(db, r, emails[n], draws[n].now) then [Success(emails[n], draws[n].id)] else []
  }

  function Losses(db: Db, r: Request, emails: seq<string>, draws: seq<Draw>): seq<string>
    requires |draws| == |emails|
  {
    if emails == [] then []
    else
      var n := |emails| - 1;
      Losses(db, r, emails[..n], draws[..n]) + if Admissible(db, r, emails[n], draws[n].now) then [] else [emails[n]]
  }

  function Addresses(failed: seq<Failed>): seq<string> {
    seq(|failed|, i requires 0 <= i < |failed| => failed[i].email)
  }

  /** Rows from before are untouched, and every other one is a pending invitation to an address of the list. */
  ghost predicate Grown(db: Db, next: Db, r: Request, emails: seq<string>) {
    && (forall i :: i in db.invitations ==> i in next.invitations && next.invitations[i] == db.invitations[i])
    && (forall i :: i in next.invitations && i !in db.invitations ==>
      next.invitations[i].email in emails && PendingFor(next, r.tenant, next.invitations[i].email, i))
  }

  /** Whether the creation goes through is decided by the tables before the call. */
  lemma CreationDecided(db: Db, mid: Db, r: Request, before: seq<string>, email: string, d: Draw)
    requires Grown(db, mid, r, before) && SameRest(db, mid) && email !in before && Text.Normalise(email) == email
    requires d.id !in mid.invitations && EmailFits(email)
    ensures Creation(mid, r, email, d).reply == Done <==> Admissible(db, r, email, d.now)
  {
  }

  /** An attempt for an address not on the list so far. */
  lemma AttemptDecided(db: Db, p: Progress, r: Request, before: seq<string>, email: string, d: Draw)
    requires Grown(db, p.db, r, before) && SameRest(db, p.db) && email !in before && Text.Normalise(email) == email
    requires d.id !in p.db.invitations
    ensures var q := Attempt(p, r, email, d);
      && q.successful == p.successful + (if Admissible(db, r, email, d.now) then [Success(email, d.id)] else [])
      && Addresses(q.failed) == Addresses(p.failed) + (if Admissible(db, r, email, d.now) then [] else [email])
      && Grown(db, q.db, r, before + [email])
      && (forall i :: i in p.db.invitations ==> i in q.db.invitations && q.db.invitations[i] == p.db.invitations[i])
      && (Admissible(db, r, email, d.now) ==> PendingFor(q.db, r.tenant, email, d.id))
  {
    if EmailFits(email) {
      CreationDecided(db, p.db, r, before, email, d);
      CreationFrame(p.db, r, email, d);
    }
  }

  /** The loop does to each address what the tables before the call already decide: successes and failures
      are the admissible addresses and the others, both in the order of the list. */
  lemma {:induction false} OutcomeIsFilter(db: Db, r: Request, emails: seq<string>, draws: seq<Draw>)
    requires |draws| == |emails| && Sound(db) && FreshDraws(db, draws)
    requires Distinct(emails) && forall e :: e in emails ==> Text.Normalise(e) == e
    ensures var p := Attempts(db, r, emails, draws);
      && p.successful == Wins(db, r, emails, draws) && Addresses(p.failed) == Losses(db, r, emails, draws)
      && Grown(db, p.db, r, emails)
      && (forall s :: s in p.successful ==> PendingFor(p.db, r.tenant, s.email, s.invitation))
  {
    if emails != [] {
      var n := |emails| - 1;
      OutcomeIsFilter(db, r, emails[..n], draws[..n]);
      AttemptsAreSound(db, r, emails[..n], draws[..n]);
      StillFresh(db, r, emails, draws, n);
      assert emails == emails[..n] + [emails[n]];
      AttemptDecided(db, Attempts(db, r, emails[..n], draws[..n]), r, emails[..n], emails[n], draws[n]);
    }
  }

  /** Every address of the list is a success or a failure, and the counts add up. */
  lemma {:induction false} WinsAndLosses(db: Db, r: Request, emails: seq<string>, draws: seq<Draw>)
    requires |draws| == |emails|
    ensures |Wins(db, r, emails, draws)| + |Losses(db, r, emails, draws)| == |emails|
    ensures forall k :: 0 <= k < |emails| ==>
      if Admissible(db, r, emails[k], draws[k].now) then Success(emails[k], draws[k].id) in Wins(db, r, emails, draws)
      else emails[k] in Losses(db, r, emails, draws)
  {
    if emails != [] {
      var n := |emails| - 1;
      WinsAndLosses(db, r, emails[..n], draws[..n]);
      assert emails == emails[..n] + [emails[n]] && draws == draws[..n] + [draws[n]];
    }
  }

  /** No address comes out twice, nor one that was not asked for. */
  lemma {:induction false} NeverBoth(db: Db, r: Request, emails: seq<string>, draws: seq<Draw>)
    requires |draws| == |emails| && Distinct(emails)
    ensures forall s :: s in Wins(db, r, emails, draws) ==>
      s.email in emails && s.email !in Losses(db, r, emails, draws)
    ensures forall e :: e in Losses(db, r, emails, draws) ==> e in emails
  {
    if emails != [] {
      var n := |emails| - 1;
      NeverBoth(db, r, emails[..n], draws[..n]);
      assert emails == emails[..n] + [emails[n]];
      assert emails[n] !in emails[..n];
    }
  }

  /** Bulk creation: each distinct normalised address ends in exactly one of the two lists; the two counts
      add up to the number of distinct addresses, and to the reported total just when none was repeated. */
  lemma EveryAddressOnce(db: Db, r: Request, emails: seq<string>, draws: seq<Draw>, e: string)
    requires |draws| == |Unique(emails)| && Sound(db) && FreshDraws(db, draws)
    ensures var p := Attempts(db, r, Unique(emails), draws);
      && (e in Normalised(emails) <==> (exists s :: s in p.successful && s.email == e) || e in Addresses(p.failed))
      && !((exists s :: s in p.successful && s.email == e) && e in Addresses(p.failed))
      && |p.successful| + |p.failed| == |Unique(emails)|
      && (|p.successful| + |p.failed| == |emails| <==> Distinct(Normalised(emails)))
  {
    UniqueExactly(emails);
    UniqueCount(emails);
    OutcomeIsFilter(db, r, Unique(emails), draws);
    WinsAndLosses(db, r, Unique(emails), draws);
    NeverBoth(db, r, Unique(emails), draws);
    assert e in Normalised(emails) <==> e in Elements(Unique(emails));
    if e in Unique(emails) {
      var k :| 0 <= k < |Unique(emails)| && Unique(emails)[k] == e;
    }
  }

  /** A failure is put down to the format just when the address does not fit the pattern. */
  lemma {:induction false} FailuresAreExplained(db: Db, r: Request, emails: seq<string>, draws: seq<Draw>)
    requires |draws| == |emails|
    ensures forall f :: f in Attempts(db, r, emails, draws).failed ==> (f.why == InvalidFormat <==> !EmailFits(f.email))
  {
    if emails != [] {
      FailuresAreExplained(db, r, emails[..|emails| - 1], draws[..|emails| - 1]);
    }
  }

  /** Every successful address has exactly one pending invitation in the tenant, the one reported. */
  lemma SuccessIsPendingOnce(db: Db, r: Request, emails: seq<string>, draws: seq<Draw>, s: Success, i: Id)
    requires |draws| == |Unique(emails)| && Sound(db) && FreshDraws(db, draws)
    requires s in Attempts(db, r, Unique(emails), draws).successful
    ensures PendingFor(Attempts(db, r, Unique(emails), draws).db, r.tenant, s.email, i) <==> i == s.invitation
  {
    UniqueExactly(emails);
    OutcomeIsFilter(db, r, Unique(emails), draws);
    AttemptsAreSound(db, r, Unique(emails), draws);
    var next := Attempts(db, r, Unique(emails), draws).db;
    if PendingFor(next, r.tenant, s.email, i) {
      assert SameSlot(next.invitations[i], next.invitations[s.invitation]);
    }
  }
}
