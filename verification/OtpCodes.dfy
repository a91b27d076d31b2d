/** One-time codes and their fixed-window request limiter, per user: a stored code with its count of
    wrong attempts, and a window with its count of requests. `WrongGuessBound` composes the two into
    one number; `AtMostTwoWindows` is the limiter's own bound. */
module OtpCodes {
  import opened Common

  /** `otpSeconds` is the lifetime of a stored code. */
  datatype Config = Config(windowMs: nat, maxRequests: nat, otpSeconds: nat)

  const MAX_VERIFICATION_ATTEMPTS := 5

  // ---------- the fixed-window limiter ----------

  /** A limiter record with the instant its key expires. */
  datatype Window = Window(attempts: nat, start: int, expireAt: int)

  datatype Verdict = Allowed | Denied(retryAfter: int) | Failed

  datatype Checked = Checked(window: Option<Window>, verdict: Verdict)

  /** The first request of a window is allowed whatever the limit is. */
  function Cap(c: Config): nat {
    if c.maxRequests == 0 then 1 else c.maxRequests
  }

  function OpenWindow(c: Config, found: Option<Window>, now: int): Checked {
    var ttl := CeilSeconds(c.windowMs);
    if ttl <= 0 then Checked(found, Failed) else Checked(Some(Window(1, now, now + 1000 * ttl)), Allowed)
  }

  /** One request; `evicted` says that Redis has dropped the record. A write with a lifetime of zero
      seconds is refused by Redis and leaves the record alone. */
  function Check(c: Config, w: Option<Window>, now: int, evicted: bool): Checked {
    var found := if evicted then None else w;
    if found == None then OpenWindow(c, found, now)
    else
      var r, end := found.value, found.value.start + c.windowMs;
      if now > end then OpenWindow(c, found, now)
      else if r.attempts >= c.maxRequests then Checked(found, Denied(CeilSeconds(end - now)))
      else
        var ttl := CeilSeconds(end - now);
        if ttl <= 0 then Checked(found, Failed)
        else Checked(Some(Window(r.attempts + 1, r.start, now + 1000 * ttl)), Allowed)
  }

  /** The clock does not go back, and Redis drops a record only once its key has expired. */
  predicate Plausible(w: Option<Window>, clock: int, now: int, evicted: bool) {
    clock <= now && (evicted ==> w.Some? && w.value.expireAt <= now)
  }

  /** Rounding lifetimes up keeps every record at least until its window ends. */
  predicate Sound(c: Config, w: Option<Window>, clock: int) {
    w.Some? ==>
      && 1 <= w.value.attempts <= Cap(c)
      && w.value.start <= clock && w.value.start + c.windowMs <= w.value.expireAt
  }

  /** The count stays between one and the limit, and a new window starts a whole window after the last one. */
  lemma CheckSound(c: Config, w: Option<Window>, clock: int, now: int, evicted: bool)
    requires Sound(c, w, clock) && Plausible(w, clock, now, evicted)
    ensures Sound(c, Check(c, w, now, evicted).window, now)
    ensures
      var w' := Check(c, w, now, evicted).window;
      w.Some? && w'.Some? ==>
        w'.value.start == w.value.start || (w'.value.start == now && w.value.start + c.windowMs <= now)
  {
  }

  /** A denied caller stays denied while the window lasts and is allowed after it, and the reported
      delay is the least number of whole seconds that reaches the end of the window. */
  lemma DeniedUntilWindowEnd(c: Config, w: Option<Window>, clock: int, now: int, later: int, evicted: bool)
    requires Sound(c, w, clock) && clock <= now <= later && Check(c, w, now, false).verdict.Denied?
    requires Plausible(w, now, later, evicted)
    ensures Check(c, w, now, false).window == w
    ensures
      var end, wait := w.value.start + c.windowMs, Check(c, w, now, false).verdict.retryAfter;
      && now + 1000 * (wait - 1) < end <= now + 1000 * wait
      && (later < end ==> Check(c, w, later, evicted).verdict.Denied?)
      && (later == end ==> Check(c, w, later, evicted).verdict == if evicted && 0 < c.windowMs then Allowed
                                                               else if evicted then Failed else Denied(0))
      && (end < later ==> Check(c, w, later, evicted).verdict == if 0 < c.windowMs then Allowed else Failed)
  {
  }

  datatype Request = Request(now: int, evicted: bool)

  ghost predicate PlausibleRun(c: Config, w: Option<Window>, clock: int, rs: seq<Request>)
    decreases rs
  {
    rs == [] ||
    (Plausible(w, clock, rs[0].now, rs[0].evicted)
     && PlausibleRun(c, Check(c, w, rs[0].now, rs[0].evicted).window, rs[0].now, rs[1..]))
  }

  /** How many requests with a timestamp in [from, from + windowMs) a run allows. */
  function AllowedIn(c: Config, w: Option<Window>, rs: seq<Request>, from: int): nat
    decreases rs
  {
    if rs == [] then 0
    else
      var o := Check(c, w, rs[0].now, rs[0].evicted);
      (if from <= rs[0].now < from + c.windowMs && o.verdict == Allowed then 1 else 0)
        + AllowedIn(c, o.window, rs[1..], from)
  }

  /** What can still be allowed in [from, from + windowMs), given the record and the time. */
  function Budget(c: Config, w: Option<Window>, clock: int, from: int): int {
    if clock >= from + c.windowMs then 0
    else if clock < from then 2 * Cap(c) - 1
    else if w == None then Cap(c)
    else if w.value.start >= from then Cap(c) - w.value.attempts
    else 2 * Cap(c) - w.value.attempts
  }

  lemma {:induction false} WithinBudget(c: Config, w: Option<Window>, clock: int, rs: seq<Request>, from: int)
    requires Sound(c, w, clock) && PlausibleRun(c, w, clock, rs)
    ensures AllowedIn(c, w, rs, from) <= Budget(c, w, clock, from)
    decreases rs
  {
    if rs != [] {
      var r := rs[0];
      CheckSound(c, w, clock, r.now, r.evicted);
      WithinBudget(c, Check(c, w, r.now, r.evicted).window, r.now, rs[1..], from);
    }
  }

  /** No half-open interval of one window length sees more than twice the limit, less one, allowed. */
  lemma AtMostTwoWindows(c: Config, rs: seq<Request>, clock: int, from: int)
    requires PlausibleRun(c, None, clock, rs)
    ensures AllowedIn(c, None, rs, from) <= 2 * Cap(c) - 1
  {
    WithinBudget(c, None, clock, rs, from);
  }

  lemma EarlierClock(c: Config, w: Option<Window>, clock: int, now: int, rs: seq<Request>)
    requires clock <= now && PlausibleRun(c, w, now, rs)
    ensures PlausibleRun(c, w, clock, rs)
  {
  }

  function Repeat(now: int, k: nat): seq<Request> {
    if k == 0 then [] else [Request(now, false)] + Repeat(now, k - 1)
  }

  /** The record after `k` more requests at one instant inside its window. */
  function Filled(c: Config, w: Window, now: int, k: nat): Window {
    Window(w.attempts + k, w.start, if k == 0 then w.expireAt else now + 1000 * CeilSeconds(w.start + c.windowMs - now))
  }

  lemma FirstRequest(c: Config, w: Option<Window>, clock: int, r: Request, rest: seq<Request>, from: int)
    ensures var o := Check(c, w, r.now, r.evicted);
      && (PlausibleRun(c, w, clock, [r] + rest) <==>
          Plausible(w, clock, r.now, r.evicted) && PlausibleRun(c, o.window, r.now, rest))
      && AllowedIn(c, w, [r] + rest, from)
         == (if from <= r.now < from + c.windowMs && o.verdict == Allowed then 1 else 0)
           + AllowedIn(c, o.window, rest, from)
  {
    assert ([r] + rest)[1..] == rest;
  }

  lemma FillsByOne(c: Config, w: Window, now: int)
    requires now < w.start + c.windowMs && w.attempts < c.maxRequests
    ensures Check(c, Some(w), now, false) == Checked(Some(Filled(c, w, now, 1)), Allowed)
  {
  }

  lemma FilledAfterOne(c: Config, w: Window, now: int, k: nat)
    requires 1 <= k
    ensures Filled(c, Filled(c, w, now, 1), now, k - 1) == Filled(c, w, now, k)
  {
  }

  lemma {:induction false} RepeatAllowed(c: Config, w: Window, clock: int, now: int, k: nat, rest: seq<Request>,
          from: int)
    requires clock <= now < w.start + c.windowMs && w.attempts + k <= c.maxRequests && from <= now < from + c.windowMs
    requires PlausibleRun(c, Some(Filled(c, w, now, k)), now, rest)
    ensures PlausibleRun(c, Some(w), clock, Repeat(now, k) + rest)
    ensures AllowedIn(c, Some(w), Repeat(now, k) + rest, from) ==
      k + AllowedIn(c, Some(Filled(c, w, now, k)), rest, from)
    decreases k
  {
    if k == 0 {
      assert Repeat(now, k) + rest == rest;
      EarlierClock(c, Some(w), clock, now, rest);
    } else {
      FillsByOne(c, w, now);
      FilledAfterOne(c, w, now, k);
      RepeatAllowed(c, Filled(c, w, now, 1), now, now, k - 1, rest, from);
      assert Repeat(now, k) + rest == [Request(now, false)] + (Repeat(now, k - 1) + rest);
      FirstRequest(c, Some(w), clock, Request(now, false), Repeat(now, k - 1) + rest, from);
    }
  }

  /** A window just opened. */
  function Fresh(c: Config, start: int): Window {
    Window(1, start, start + 1000 * CeilSeconds(c.windowMs))
  }

  /** The second window: one request opens it just after the first, the rest follow at once. */
  function NextWindow(c: Config): seq<Request>
    requires 1 <= c.maxRequests
  {
    [Request(c.windowMs + 1, false)] + (Repeat(c.windowMs + 1, c.maxRequests - 1) + [])
  }

  /** One request, then the rest of its window just before the end, then all of the next window. */
  function Straddling(c: Config): seq<Request>
    requires 1 <= c.maxRequests
  {
    [Request(0, false)] + (Repeat(c.windowMs - 1, c.maxRequests - 1) + NextWindow(c))
  }

  lemma NextWindowAllowed(c: Config, w: Window)
    requires 3 <= c.windowMs && 1 <= c.maxRequests && w.start == 0
    ensures PlausibleRun(c, Some(w), c.windowMs - 1, NextWindow(c))
    ensures AllowedIn(c, Some(w), NextWindow(c), c.windowMs - 1) == c.maxRequests
  {
    var now, from, rest := c.windowMs + 1, c.windowMs - 1, Repeat(c.windowMs + 1, c.maxRequests - 1) + [];
    assert Check(c, Some(w), now, false) == Checked(Some(Fresh(c, now)), Allowed);
    RepeatAllowed(c, Fresh(c, now), now, now, c.maxRequests - 1, [], from);
    FirstRequest(c, Some(w), from, Request(now, false), rest, from);
  }

  /** The bound is met for every limit, in every window of three milliseconds or more. */
  lemma TwoWindowsAreReached(c: Config)
    requires 3 <= c.windowMs && 1 <= c.maxRequests
    ensures PlausibleRun(c, None, 0, Straddling(c))
    ensures AllowedIn(c, None, Straddling(c), c.windowMs - 1) == 2 * Cap(c) - 1
  {
    var end := c.windowMs - 1;
    var rest := Repeat(end, c.maxRequests - 1) + NextWindow(c);
    NextWindowAllowed(c, Filled(c, Fresh(c, 0), end, c.maxRequests - 1));
    RepeatAllowed(c, Fresh(c, 0), 0, end, c.maxRequests - 1, NextWindow(c), end);
    FirstRequest(c, None, 0, Request(0, false), rest, end);
  }

  // ---------- codes ----------

  datatype Code = Code(otp: string, attempts: nat, expireAt: int)

  /** What is kept for one user. */
  datatype User = User(code: Option<Code>, window: Option<Window>, verified: bool)

  datatype Op =
    | Generate(now: int, otp: string, windowEvicted: bool)
    | Resend(now: int, otp: string, windowEvicted: bool)
    | Status(now: int, windowEvicted: bool)
    | Verify(now: int, guess: string, codeEvicted: bool, ttl: nat)

  datatype Answer =
    | Sent | Limited(retryAfter: int) | AlreadyVerified | Reported(canResend: bool)
    | NotFound | Exhausted | Wrong(remaining: nat) | WrongLast | Verified | Error

  datatype Next = Next(user: User, answer: Answer)

  /** The limiter is asked first; only an allowed request stores a code. */
  function GenerateStep(c: Config, u: User, now: int, otp: string, evicted: bool): Next {
    var o := Check(c, u.window, now, evicted);
    match o.verdict
    case Denied(wait) => Next(u.(window := o.window), Limited(wait))
    case Failed => Next(u.(window := o.window), Error)
    case Allowed =>
      if c.otpSeconds == 0 then Next(u.(window := o.window), Error)
      else Next(u.(window := o.window, code := Some(Code(otp, 0, now + 1000 * c.otpSeconds))), Sent)
  }

  /** `ttl` is the remaining lifetime, in whole seconds, that Redis reports while the attempt is recorded. */
  function VerifyStep(u: User, now: int, guess: string, evicted: bool, ttl: nat): Next {
    if evicted || u.code == None then Next(u.(code := None), NotFound)
    else
      var r := u.code.value;
      if r.attempts >= MAX_VERIFICATION_ATTEMPTS then Next(u.(code := None), Exhausted)
      else if r.otp != guess then
        var attempts := r.attempts + 1;
        if MAX_VERIFICATION_ATTEMPTS - attempts <= 0 then Next(u.(code := None), WrongLast)
        else
          var kept := if ttl > 0 then Code(r.otp, attempts, now + 1000 * ttl) else r;
          Next(u.(code := Some(kept)), Wrong(MAX_VERIFICATION_ATTEMPTS - attempts))
      else Next(u.(code := None, verified := true), Verified)
  }

  function Step(c: Config, u: User, op: Op): Next {
    match op
    case Generate(now, otp, evicted) => GenerateStep(c, u, now, otp, evicted)
    case Resend(now, otp, evicted) =>
      if u.verified then Next(u, AlreadyVerified) else GenerateStep(c, u.(code := None), now, otp, evicted)
    case Status(now, evicted) =>
      var o := Check(c, u.window, now, evicted);
      Next(u.(window := o.window), Reported(o.verdict == Allowed))
    case Verify(now, guess, evicted, ttl) => VerifyStep(u, now, guess, evicted, ttl)
  }

  const NewUser := User(None, None, false)

  /** The limiter's clock rules, and no live code reporting a lifetime of zero seconds. */
  predicate PlausibleOp(u: User, clock: int, op: Op) {
    match op
    case Generate(now, _, evicted) => Plausible(u.window, clock, now, evicted)
    case Resend(now, _, evicted) => Plausible(u.window, clock, now, evicted)
    case Status(now, evicted) => Plausible(u.window, clock, now, evicted)
    case Verify(now, _, evicted, ttl) =>
      clock <= now && (evicted ==> u.code.Some? && u.code.value.expireAt <= now)
        && (u.code.Some? && !evicted ==> 1 <= ttl)
  }

  ghost predicate PlausibleOps(c: Config, u: User, clock: int, ops: seq<Op>)
    decreases ops
  {
    ops == [] || (PlausibleOp(u, clock, ops[0]) && PlausibleOps(c, Step(c, u, ops[0]).user, ops[0].now, ops[1..]))
  }

  predicate Inside(c: Config, now: int, from: int) {
    from <= now < from + c.windowMs
  }

  /** How many wrong codes a run compares with a stored one in [from, from + windowMs). */
  function WrongIn(c: Config, u: User, ops: seq<Op>, from: int): nat
    decreases ops
  {
    if ops == [] then 0
    else
      var o := Step(c, u, ops[0]);
      (if Inside(c, ops[0].now, from) && (o.answer.Wrong? || o.answer.WrongLast?) then 1 else 0)
        + WrongIn(c, o.user, ops[1..], from)
  }

  /** How many codes a run stores in that interval. */
  function StoredIn(c: Config, u: User, ops: seq<Op>, from: int): nat
    decreases ops
  {
    if ops == [] then 0
    else
      var o := Step(c, u, ops[0]);
      (if Inside(c, ops[0].now, from) && o.answer == Sent then 1 else 0) + StoredIn(c, o.user, ops[1..], from)
  }

  /** The requests a run of operations makes of the limiter. */
  function Requests(c: Config, u: User, ops: seq<Op>): seq<Request>
    decreases ops
  {
    if ops == [] then []
    else
      var own := match ops[0]
        case Generate(now, _, evicted) => [Request(now, evicted)]
        case Resend(now, _, evicted) => if u.verified then [] else [Request(now, evicted)]
        case Status(now, evicted) => [Request(now, evicted)]
        case Verify(_, _, _, _) => [];
      own + Requests(c, Step(c, u, ops[0]).user, ops[1..])
  }

  predicate AsksLimiter(u: User, op: Op) {
    !op.Verify? && !(op.Resend? && u.verified)
  }

  /** What one operation asks of the limiter, and that nothing is stored without its leave. */
  lemma OneRequest(c: Config, u: User, ops: seq<Op>)
    requires ops != []
    ensures var o := Step(c, u, ops[0]); var rest := Requests(c, o.user, ops[1..]);
      if AsksLimiter(u, ops[0]) then
        var r := Request(ops[0].now, ops[0].windowEvicted); var checked := Check(c, u.window, r.now, r.evicted);
        Requests(c, u, ops) == [r] + rest && o.user.window == checked.window
          && (o.answer == Sent ==> checked.verdict.Allowed?)
      else Requests(c, u, ops) == rest && o.user.window == u.window && o.answer != Sent
  {
  }

  /** The requests a possible run makes of the limiter are possible ones. */
  lemma {:induction false} RequestsArePossible(c: Config, u: User, clock: int, ops: seq<Op>)
    requires PlausibleOps(c, u, clock, ops)
    ensures PlausibleRun(c, u.window, clock, Requests(c, u, ops))
    decreases ops
  {
    if ops != [] {
      var o := Step(c, u, ops[0]);
      var rest := Requests(c, o.user, ops[1..]);
      RequestsArePossible(c, o.user, ops[0].now, ops[1..]);
      OneRequest(c, u, ops);
      if AsksLimiter(u, ops[0]) {
        assert Requests(c, u, ops)[1..] == rest;
      } else {
        EarlierClock(c, u.window, clock, ops[0].now, rest);
      }
    }
  }

  /** Every stored code was paid for by an allowed request. */
  lemma {:induction false} StoredWereAllowed(c: Config, u: User, clock: int, ops: seq<Op>, from: int)
    requires PlausibleOps(c, u, clock, ops)
    ensures StoredIn(c, u, ops, from) <= AllowedIn(c, u.window, Requests(c, u, ops), from)
    decreases ops
  {
    if ops != [] {
      var o := Step(c, u, ops[0]);
      StoredWereAllowed(c, o.user, ops[0].now, ops[1..], from);
      OneRequest(c, u, ops);
      if AsksLimiter(u, ops[0]) {
        assert Requests(c, u, ops)[1..] == Requests(c, o.user, ops[1..]);
      }
    }
  }

  /** The wrong guesses a stored code still admits. */
  function GuessesLeft(u: User): nat {
    if u.code.Some? && u.code.value.attempts < MAX_VERIFICATION_ATTEMPTS
    then MAX_VERIFICATION_ATTEMPTS - u.code.value.attempts else 0
  }

  /** The wrong guesses not paid for by a code stored inside the interval. */
  function Carried(c: Config, u: User, clock: int, from: int): nat {
    if clock >= from + c.windowMs then 0 else if clock < from then MAX_VERIFICATION_ATTEMPTS else GuessesLeft(u)
  }

  lemma {:induction false} GuessesArePaidFor(c: Config, u: User, clock: int, ops: seq<Op>, from: int)
    requires PlausibleOps(c, u, clock, ops)
    ensures WrongIn(c, u, ops, from)
            <= MAX_VERIFICATION_ATTEMPTS * StoredIn(c, u, ops, from) + Carried(c, u, clock, from)
    decreases ops
  {
    if ops != [] {
      GuessesArePaidFor(c, Step(c, u, ops[0]).user, ops[0].now, ops[1..], from);
    }
  }

  /** In any half-open interval of one window length a user's codes meet at most ten wrong guesses per
      allowed request, the code carried in from before included. */
  lemma WrongGuessBound(c: Config, clock: int, ops: seq<Op>, from: int)
    requires PlausibleOps(c, NewUser, clock, ops)
    ensures WrongIn(c, NewUser, ops, from) <= 2 * MAX_VERIFICATION_ATTEMPTS * Cap(c)
  {
    GuessesArePaidFor(c, NewUser, clock, ops, from);
    StoredWereAllowed(c, NewUser, clock, ops, from);
    RequestsArePossible(c, NewUser, clock, ops);
    AtMostTwoWindows(c, Requests(c, NewUser, ops), clock, from);
  }

  /** A compared wrong code uses up a guess exactly when Redis still reports a second of lifetime, or
      the guess was the last one. */
  lemma GuessIsRecorded(u: User, now: int, guess: string, evicted: bool, ttl: nat)
    requires VerifyStep(u, now, guess, evicted, ttl).answer.Wrong?
      || VerifyStep(u, now, guess, evicted, ttl).answer.WrongLast?
    ensures GuessesLeft(VerifyStep(u, now, guess, evicted, ttl).user) < GuessesLeft(u)
            <==> 0 < ttl || u.code.value.attempts == MAX_VERIFICATION_ATTEMPTS - 1
  {
  }

  /** Without that second the bound is lost: any number of wrong codes is compared and none is counted. */
  lemma {:induction false} UnrecordedGuesses(c: Config, u: User, now: int, guess: string, n: nat, from: int)
    requires u.code.Some? && u.code.value.otp != guess && u.code.value.attempts < MAX_VERIFICATION_ATTEMPTS - 1
    requires Inside(c, now, from)
    ensures WrongIn(c, u, seq(n, i => Verify(now, guess, false, 0)), from) == n
  {
    if n > 0 {
      var ops := seq(n, i => Verify(now, guess, false, 0));
      assert ops[0] == Verify(now, guess, false, 0) && ops[1..] == seq(n - 1, i => Verify(now, guess, false, 0));
      assert Step(c, u, ops[0]).user == u;
      UnrecordedGuesses(c, u, now, guess, n - 1, from);
    }
  }

  // ---------- the services in the source's form ----------

  type UserId = nat

  class OtpService {
    const config: Config
    var codes: map<UserId, Code>
    var windows: map<UserId, Window>
    var verified: set<UserId>

    constructor (config: Config)
      ensures this.config == config && codes == map[] && windows == map[] && verified == {}
    {
      this.config, codes, windows, verified := config, map[], map[], {};
    }

    /** Everything kept for one user. */
    ghost function UserState(id: UserId): User
      reads this
    {
      User(if id in codes then Some(codes[id]) else None,
           if id in windows then Some(windows[id]) else None, id in verified)
    }

    /** Only this user's data may have changed, and it is now `u`. */
    twostate predicate Becomes(id: UserId, u: User)
      reads this
    {
      UserState(id) == u && forall other :: other != id ==> UserState(other) == old(UserState(other))
    }

    method CheckRateLimit(id: UserId, now: int, evicted: bool) returns (v: Verdict)
      modifies this`windows
      ensures var o := Check(config, old(UserState(id)).window, now, evicted);
        v == o.verdict && Becomes(id, old(UserState(id)).(window := o.window))
    {
      if evicted { windows := windows - {id}; }
      if id !in windows {
        v := StoreWindow(id, 1, now, now, CeilSeconds(config.windowMs));
        return;
      }
      var record := windows[id];
      var windowEnd := record.start + config.windowMs;
      if now > windowEnd {
        v := StoreWindow(id, 1, now, now, CeilSeconds(config.windowMs));
        return;
      }
      if record.attempts >= config.maxRequests {
        v := Denied(CeilSeconds(windowEnd - now));
        return;
      }
      v := StoreWindow(id, record.attempts + 1, record.start, now, CeilSeconds(windowEnd - now));
    }

    /** Redis refuses to set a key with a lifetime that is not positive. */
    method StoreWindow(id: UserId, attempts: nat, start: int, now: int, ttl: int) returns (v: Verdict)
      modifies this`windows
      ensures ttl <= 0 ==> v == Failed && windows == old(windows)
      ensures ttl > 0 ==> v == Allowed && windows == old(windows)[id := Window(attempts, start, now + 1000 * ttl)]
    {
      if ttl <= 0 { return Failed; }
      windows := windows[id := Window(attempts, start, now + 1000 * ttl)];
      v := Allowed;
    }

    method GenerateOTP(id: UserId, now: int, otp: string, evicted: bool) returns (a: Answer)
      modifies this`windows, this`codes
      ensures var o := Step(config, old(UserState(id)), Generate(now, otp, evicted));
        a == o.answer && Becomes(id, o.user)
    {
      var v := CheckRateLimit(id, now, evicted);
      match v
      case Denied(wait) => a := Limited(wait);
      case Failed => a := Error;
      case Allowed =>
        if config.otpSeconds == 0 { return Error; }
        codes := codes[id := Code(otp, 0, now + 1000 * config.otpSeconds)];
        a := Sent;
    }

    method ResendOTP(id: UserId, now: int, otp: string, evicted: bool) returns (a: Answer)
      modifies this`windows, this`codes
      ensures var o := Step(config, old(UserState(id)), Resend(now, otp, evicted)); a == o.answer && Becomes(id, o.user)
    {
      if id in verified { return AlreadyVerified; }
      codes := codes - {id};
      a := GenerateOTP(id, now, otp, evicted);
    }

    method GetOTPStatus(id: UserId, now: int, evicted: bool) returns (a: Answer)
      modifies this`windows
      ensures var o := Step(config, old(UserState(id)), Status(now, evicted)); a == o.answer && Becomes(id, o.user)
    {
      var v := CheckRateLimit(id, now, evicted);
      a := Reported(v == Allowed);
    }

    method IncrementAttempts(id: UserId, now: int, ttl: nat) returns (attempts: nat)
      requires id in codes
      modifies this`codes
      ensures attempts == old(codes)[id].attempts + 1
      ensures codes == if ttl > 0 then old(codes)[id := Code(old(codes)[id].otp, attempts, now + 1000 * ttl)]
        else old(codes)
    {
      var record := codes[id];
      attempts := record.attempts + 1;
      if ttl > 0 {
        codes := codes[id := record.(attempts := attempts, expireAt := now + 1000 * ttl)];
      }
    }

    method VerifyOTP(id: UserId, now: int, guess: string, evicted: bool, ttl: nat) returns (a: Answer)
      modifies this`codes, this`verified
      ensures var o := Step(config, old(UserState(id)), Verify(now, guess, evicted, ttl));
        a == o.answer && Becomes(id, o.user)
    {
      if evicted { codes := codes - {id}; }
      if id !in codes { return NotFound; }
      var record := codes[id];
      if record.attempts >= MAX_VERIFICATION_ATTEMPTS {
        codes := codes - {id};
        return Exhausted;
      }
      if record.otp != guess {
        var attempts := IncrementAttempts(id, now, ttl);
        var remaining := MAX_VERIFICATION_ATTEMPTS - attempts;
        if remaining <= 0 {
          codes := codes - {id};
          return WrongLast;
        }
        return Wrong(remaining);
      }
      verified := verified + {id};
      codes := codes - {id};
      a := Verified;
    }

    /** The search for a code among all active ones, in the order the scan lists them: the position of
        the first user holding it whose tenant (none for a tenant-less user) is the caller's. */
    method FindByCode(active: seq<UserId>, tenants: map<UserId, Option<nat>>, guess: string, tenant: Option<nat>)
      returns (found: Option<nat>)
      requires forall id :: id in active ==> id in codes
      ensures found == None ==> forall id :: id in active ==> !Holds(codes, tenants, id, guess, tenant)
      ensures found.Some? ==> found.value < |active| && Holds(codes, tenants, active[found.value], guess, tenant)
      ensures found.Some? ==> forall j :: 0 <= j < found.value ==> !Holds(codes, tenants, active[j], guess, tenant)
    {
      for i := 0 to |active|
        invariant forall j :: 0 <= j < i ==> !Holds(codes, tenants, active[j], guess, tenant)
      {
        var id := active[i];
        if codes[id].otp == guess {
          if id in tenants && tenants[id] == tenant {
            return Some(i);
          }
        }
      }
      found := None;
    }
  }

  predicate Holds(codes: map<UserId, Code>, tenants: map<UserId, Option<nat>>, id: UserId, guess: string,
          tenant: Option<nat>) {
    id in codes && codes[id].otp == guess && id in tenants && tenants[id] == tenant
  }
}
