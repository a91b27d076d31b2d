/** What becomes of a code once it is sent: it verifies its user exactly when it is presented while it is
    outstanding, and a user counts as verified exactly when that has happened. */
module OtpOutcomes {
  import opened Common
  import opened OtpCodes

  // ---------- one verification ----------

  /** Verification succeeds just when a stored code is presented before its fifth wrong guess. */
  lemma VerifiesExactly(u: User, now: int, guess: string, evicted: bool, ttl: nat)
    ensures VerifyStep(u, now, guess, evicted, ttl).answer == Verified <==>
      !evicted && u.code.Some? && u.code.value.attempts < 5 && u.code.value.otp == guess
    ensures VerifyStep(u, now, guess, evicted, ttl).user.verified <==>
      u.verified || VerifyStep(u, now, guess, evicted, ttl).answer == Verified
  {
  }

  /** Each wrong guess says how many are left of five, and only one that leaves some keeps the code. */
  lemma WrongGuessExactly(u: User, now: int, guess: string, evicted: bool, ttl: nat)
    requires !evicted && u.code.Some? && u.code.value.attempts < 5 && u.code.value.otp != guess
    ensures var o, n := VerifyStep(u, now, guess, evicted, ttl), u.code.value.attempts;
      && o.answer == (if n == 4 then WrongLast else Wrong(4 - n))
      && (o.user.code.Some? <==> n != 4)
      && (o.user.code.Some? ==> o.user.code.value.otp == u.code.value.otp)
      && (0 < ttl && n != 4 ==> o.user.code == Some(Code(u.code.value.otp, n + 1, now + 1000 * ttl)))
  {
  }

  lemma OthersVerifyNobody(c: Config, u: User, op: Op)
    requires !op.Verify?
    ensures Step(c, u, op).answer != Verified && Step(c, u, op).user.verified == u.verified
  {
  }

  // ---------- sending ----------

  /** A code is sent just when the limiter allows it and codes have a lifetime at all. */
  lemma SendsExactly(c: Config, u: User, now: int, otp: string, evicted: bool)
    ensures GenerateStep(c, u, now, otp, evicted).answer == Sent <==>
      Check(c, u.window, now, evicted).verdict == Allowed && 0 < c.otpSeconds
    ensures Step(c, u, Resend(now, otp, evicted)).answer == Sent <==>
      !u.verified && GenerateStep(c, u, now, otp, evicted).answer == Sent
  {
  }

  /** The limiter's verdict is what a refused request and a status query are told; the query counts as a request
      too. */
  lemma LimiterIsReported(c: Config, u: User, now: int, otp: string, evicted: bool, wait: int)
    ensures GenerateStep(c, u, now, otp, evicted).answer == Limited(wait) <==>
      Check(c, u.window, now, evicted).verdict == Denied(wait)
    ensures Step(c, u, Status(now, evicted)).answer == Reported(Check(c, u.window, now, evicted).verdict == Allowed)
    ensures Step(c, u, Status(now, evicted)).user == u.(window := Check(c, u.window, now, evicted).window)
  {
  }

  /** A code just sent verifies its user for its whole lifetime. */
  lemma SentCodeVerifies(c: Config, u: User, now: int, otp: string, evicted: bool, later: int, gone: bool, ttl: nat)
    requires GenerateStep(c, u, now, otp, evicted).answer == Sent
    requires PlausibleOp(GenerateStep(c, u, now, otp, evicted).user, now, Verify(later, otp, gone, ttl))
    requires later < now + 1000 * c.otpSeconds
    ensures VerifyStep(GenerateStep(c, u, now, otp, evicted).user, later, otp, gone, ttl).answer == Verified
  {
  }

  // ---------- over runs ----------

  function After(c: Config, ops: seq<Op>): User {
    if ops == [] then NewUser else Step(c, After(c, ops[..|ops| - 1]), ops[|ops| - 1]).user
  }

  /** What operation `k` of a run answers. */
  function AnswerAt(c: Config, ops: seq<Op>, k: nat): Answer
    requires k < |ops|
  {
    Step(c, After(c, ops[..k]), ops[k]).answer
  }

  /** The code last sent, unless it has been verified, used up, found expired or withdrawn by a resend since:
      told from the operations and their answers alone. */
  function Outstanding(c: Config, ops: seq<Op>): Option<string> {
    if ops == [] then None
    else
      var front, answer := ops[..|ops| - 1], AnswerAt(c, ops, |ops| - 1);
      match ops[|ops| - 1]
      case Generate(_, otp, _) => if answer == Sent then Some(otp) else Outstanding(c, front)
      case Resend(_, otp, _) =>
        if answer == Sent then Some(otp) else if answer == AlreadyVerified then Outstanding(c, front) else None
      case Status(_, _) => Outstanding(c, front)
      case Verify(_, _, _, _) => if answer.Wrong? then Outstanding(c, front) else None
  }

  ghost predicate Tracks(c: Config, ops: seq<Op>) {
    var u := After(c, ops);
    && (u.code.Some? <==> Outstanding(c, ops).Some?)
    && (u.code.Some? ==> u.code.value.otp == Outstanding(c, ops).value && u.code.value.attempts < 5)
  }

  lemma StepTracks(c: Config, ops: seq<Op>)
    requires ops != [] && Tracks(c, ops[..|ops| - 1])
    ensures Tracks(c, ops)
  {
  }

  /** The code stored is always the one outstanding, with fewer than five wrong guesses made. */
  lemma {:induction false} StoredIsOutstanding(c: Config, ops: seq<Op>)
    ensures Tracks(c, ops)
  {
    if ops != [] {
      StoredIsOutstanding(c, ops[..|ops| - 1]);
      StepTracks(c, ops);
    }
  }

  /** Operation `k` presents the outstanding code, not yet expired. */
  predicate Presents(c: Config, ops: seq<Op>, k: nat) {
    k < |ops| && ops[k].Verify? && !ops[k].codeEvicted && Outstanding(c, ops[..k]) == Some(ops[k].guess)
  }

  /** An operation answers that the user is verified exactly when it presents the outstanding code. */
  lemma AnswersVerifiedExactly(c: Config, ops: seq<Op>, k: nat)
    requires k < |ops|
    ensures AnswerAt(c, ops, k) == Verified <==> Presents(c, ops, k)
  {
    StoredIsOutstanding(c, ops[..k]);
    if ops[k].Verify? {
      var op := ops[k];
      VerifiesExactly(After(c, ops[..k]), op.now, op.guess, op.codeEvicted, op.ttl);
    } else {
      OthersVerifyNobody(c, After(c, ops[..k]), ops[k]);
    }
  }

  lemma LastVerifies(c: Config, ops: seq<Op>)
    requires ops != []
    ensures After(c, ops).verified <==>
      After(c, ops[..|ops| - 1]).verified || AnswerAt(c, ops, |ops| - 1) == Verified
  {
    var u, op := After(c, ops[..|ops| - 1]), ops[|ops| - 1];
    if op.Verify? {
      VerifiesExactly(u, op.now, op.guess, op.codeEvicted, op.ttl);
    } else {
      OthersVerifyNobody(c, u, op);
    }
  }

  lemma PresentsEarlier(c: Config, ops: seq<Op>, n: nat, k: nat)
    requires k < n <= |ops|
    ensures Presents(c, ops[..n], k) <==> Presents(c, ops, k)
  {
    assert ops[..n][..k] == ops[..k];
  }

  lemma {:induction false} VerifiedHasCause(c: Config, ops: seq<Op>) returns (k: nat)
    requires After(c, ops).verified
    ensures Presents(c, ops, k)
  {
    var n := |ops| - 1;
    LastVerifies(c, ops);
    if AnswerAt(c, ops, n) == Verified {
      AnswersVerifiedExactly(c, ops, n);
      k := n;
    } else {
      k := VerifiedHasCause(c, ops[..n]);
      PresentsEarlier(c, ops, n, k);
    }
  }

  lemma {:induction false} PresentingVerifies(c: Config, ops: seq<Op>, k: nat)
    requires Presents(c, ops, k)
    ensures After(c, ops).verified
  {
    var n := |ops| - 1;
    LastVerifies(c, ops);
    if k == n {
      AnswersVerifiedExactly(c, ops, n);
    } else {
      PresentsEarlier(c, ops, n, k);
      PresentingVerifies(c, ops[..n], k);
    }
  }

  /** After any run a user is verified exactly when some operation of it presented the code outstanding
      at that moment. */
  lemma VerifiedExactly(c: Config, ops: seq<Op>)
    ensures After(c, ops).verified <==> exists k :: Presents(c, ops, k)
  {
    if After(c, ops).verified {
      var k := VerifiedHasCause(c, ops);
    }
    if k: nat :| Presents(c, ops, k) {
      PresentingVerifies(c, ops, k);
    }
  }
}
