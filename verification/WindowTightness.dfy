/** How long an interval the sliding-window limiter can protect when clocks lag: the interval of length
    `windowMs - lag` of `WindowBound` is the longest, for every limit, window and lag, and the full window
    is safe over every run just when no lag can do harm. */
module WindowTightness {
  import opened Common
  import opened SlidingWindow

  lemma {:induction false} RunSplit(c: Config, s: Shared, first: seq<Event>, rest: seq<Event>)
    ensures Run(c, s, first + rest) == Run(c, Run(c, s, first), rest)
    decreases first
  {
    if first == [] {
      assert first + rest == rest;
    } else {
      assert (first + rest)[1..] == first[1..] + rest;
      RunSplit(c, Step(c, s, first[0]), first[1..], rest);
    }
  }

  lemma PossibleCons(c: Config, lag: nat, s: Shared, e: Event, rest: seq<Event>)
    requires Possible(lag, s, e) && PossibleRun(c, lag, Step(c, s, e), rest)
    ensures PossibleRun(c, lag, s, [e] + rest)
  {
    assert ([e] + rest)[1..] == rest;
  }

  lemma {:induction false} PossibleThen(c: Config, lag: nat, s: Shared, events: seq<Event>, e: Event, last: Shared)
    requires PossibleRun(c, lag, s, events) && Run(c, s, events) == last && Possible(lag, last, e)
    ensures PossibleRun(c, lag, s, events + [e])
    decreases events
  {
    if events == [] {
      assert events + [e] == [e] + [];
      PossibleCons(c, lag, s, e, []);
    } else {
      var first, rest := events[0], events[1..];
      assert events + [e] == [first] + (rest + [e]);
      PossibleThen(c, lag, Step(c, s, first), rest, e, last);
      PossibleCons(c, lag, s, first, rest + [e]);
    }
  }

  /** One more event at the end of a run. */
  lemma Then(c: Config, lag: nat, events: seq<Event>, e: Event)
    requires PossibleRun(c, lag, Start, events) && Possible(lag, Run(c, Start, events), e)
    ensures PossibleRun(c, lag, Start, events + [e])
    ensures Run(c, Start, events + [e]) == Step(c, Run(c, Start, events), e)
  {
    var s := Run(c, Start, events);
    assert Run(c, s, [e]) == Step(c, s, e);
    RunSplit(c, Start, events, [e]);
    PossibleThen(c, lag, Start, events, e, s);
  }

  /** What a pipeline that finds `kept` after pruning leaves. */
  lemma Decided(c: Config, s: Shared, id: RequestId, now: int, kept: SortedSet)
    requires kept == Prune(s.entries, now - c.windowMs)
    ensures var latest := if s.latest < now then now else s.latest;
      Step(c, s, Pipeline(id, now)) ==
        if |kept| < c.maxRequests then Shared(kept[id := now], s.pending, latest, s.used + {id}, s.admitted[id := now])
        else Shared(kept[id := now], s.pending + {id}, latest, s.used + {id}, s.admitted)
  {
  }

  // ---------- filling the set at time zero ----------

  /** Exactly `n` requests have come, all at time zero and all allowed. */
  ghost predicate Filled(s: Shared, n: nat) {
    && s.latest == 0 && s.pending == {} && s.entries == s.admitted && |s.entries| == n
    && (forall id :: id in s.entries ==> s.entries[id] == 0)
    && (forall id :: id in s.used ==> id.timestamp == 0 && id.salt < n)
    && s.admitted.Keys <= s.used
  }

  lemma FillsByOne(c: Config, s: Shared, n: nat)
    requires Filled(s, n) && n < c.maxRequests && 0 < c.windowMs
    ensures Filled(Step(c, s, Pipeline(RequestId(0, n), 0)), n + 1)
  {
    assert Prune(s.entries, 0 - c.windowMs) == s.entries;
    Decided(c, s, RequestId(0, n), 0, s.entries);
  }

  lemma {:induction false} FillUp(c: Config, lag: nat, n: nat) returns (events: seq<Event>)
    requires n <= c.maxRequests && 0 < c.windowMs
    ensures PossibleRun(c, lag, Start, events) && Filled(Run(c, Start, events), n)
  {
    if n == 0 {
      events := [];
    } else {
      var before := FillUp(c, lag, n - 1);
      var e := Pipeline(RequestId(0, n - 1), 0);
      FillsByOne(c, Run(c, Start, before), n - 1);
      Then(c, lag, before, e);
      events := before + [e];
    }
  }

  // ---------- overtaking it ----------

  /** A limit of requests allowed at time zero, and a set of which `left` entries remain, a window later. */
  ghost predicate Overtaken(c: Config, s: Shared, left: nat) {
    && s.latest == c.windowMs && |s.entries| == left && (forall id :: id in s.entries ==> s.entries[id] == c.windowMs)
    && c.maxRequests <= |Within(s.admitted, 0, 1)|
    && s.admitted.Keys <= s.used && forall salt :: 3 <= salt ==> RequestId(1, salt) !in s.used
  }

  lemma AllWithin(s: Shared, n: nat)
    requires Filled(s, n)
    ensures Within(s.admitted, 0, 1) == s.admitted.Keys && |Within(s.admitted, 0, 1)| == n
  {
  }

  /** With a limit of two or more the request that prunes the old ones may stay. */
  lemma OvertakeWithRoom(c: Config, lag: nat, filled: seq<Event>) returns (events: seq<Event>)
    requires 2 <= c.maxRequests && 0 < c.windowMs
    requires PossibleRun(c, lag, Start, filled) && Filled(Run(c, Start, filled), c.maxRequests)
    ensures PossibleRun(c, lag, Start, events) && Overtaken(c, Run(c, Start, events), 1)
  {
    var s, e := Run(c, Start, filled), Pipeline(RequestId(1, 1), c.windowMs);
    assert Prune(s.entries, 0) == map[];
    Decided(c, s, RequestId(1, 1), c.windowMs, map[]);
    AllWithin(s, c.maxRequests);
    WithinGrows(s.admitted, RequestId(1, 1), c.windowMs, 0, 1);
    Then(c, lag, filled, e);
    events := filled + [e];
  }

  /** A set holding one old admitted request and one newer rejected one. */
  predicate Blocked(s: Shared, a: RequestId, b: RequestId) {
    s == Shared(map[a := 0, b := 1], {b}, 1, {a, b}, map[a := 0])
  }

  lemma SingleFilled(s: Shared) returns (a: RequestId)
    requires Filled(s, 1)
    ensures a == RequestId(0, 0) && s == Shared(map[a := 0], {}, 0, {a}, map[a := 0])
  {
    a :| a in s.entries;
    assert |s.entries.Keys - {a}| == 0;
    assert s.entries.Keys == {a};
    assert s.entries == map[a := 0];
    assert s.used == {a};
  }

  lemma Block(c: Config, s: Shared, a: RequestId, b: RequestId)
    requires c.maxRequests == 1 && 2 <= c.windowMs && a != b && s == Shared(map[a := 0], {}, 0, {a}, map[a := 0])
    ensures Blocked(Step(c, s, Pipeline(b, 1)), a, b)
  {
    assert Prune(s.entries, 1 - c.windowMs) == s.entries;
    Decided(c, s, b, 1, s.entries);
  }

  lemma BlockAgain(c: Config, s: Shared, a: RequestId, b: RequestId, p: RequestId)
    requires c.maxRequests == 1 && 2 <= c.windowMs && Blocked(s, a, b) && a != b && p != a && p != b
    ensures Step(c, s, Pipeline(p, c.windowMs)) ==
      Shared(map[b := 1, p := c.windowMs], {b, p}, c.windowMs, {a, b, p}, map[a := 0])
  {
    assert Prune(s.entries, 0) == map[b := 1];
    Decided(c, s, p, c.windowMs, map[b := 1]);
  }

  /** The pruning request meets the rejected one and is rejected too; then both are removed. */
  lemma Unblock(c: Config, s: Shared, a: RequestId, b: RequestId, p: RequestId)
    requires c.maxRequests == 1 && 2 <= c.windowMs && Blocked(s, a, b) && a != b && p != a && p != b
    ensures var s1 := Step(c, s, Pipeline(p, c.windowMs));
      && s1 == Shared(map[b := 1, p := c.windowMs], {b, p}, c.windowMs, {a, b, p}, map[a := 0])
      && Step(c, Step(c, s1, Remove(b)), Remove(p)) == Shared(map[], {}, c.windowMs, {a, b, p}, map[a := 0])
  {
    BlockAgain(c, s, a, b, p);
    BothRemoved(c, Step(c, s, Pipeline(p, c.windowMs)), b, p, c.windowMs);
  }

  lemma BothRemoved(c: Config, s: Shared, b: RequestId, p: RequestId, now: int)
    requires b != p && s.entries == map[b := 1, p := now] && s.pending == {b, p}
    ensures Step(c, Step(c, s, Remove(b)), Remove(p)) == s.(entries := map[], pending := {})
  {
    assert map[b := 1, p := now] - {b} == map[p := now];
    assert map[p := now] - {p} == map[];
  }

  lemma ReachBlocked(c: Config, lag: nat, filled: seq<Event>) returns (events: seq<Event>)
    requires c.maxRequests == 1 && 2 <= c.windowMs
    requires PossibleRun(c, lag, Start, filled) && Filled(Run(c, Start, filled), 1)
    ensures PossibleRun(c, lag, Start, events) && Blocked(Run(c, Start, events), RequestId(0, 0), RequestId(1, 0))
  {
    var a := SingleFilled(Run(c, Start, filled));
    Block(c, Run(c, Start, filled), a, RequestId(1, 0));
    Then(c, lag, filled, Pipeline(RequestId(1, 0), 1));
    events := filled + [Pipeline(RequestId(1, 0), 1)];
  }

  lemma Cleared(c: Config, a: RequestId, b: RequestId, p: RequestId)
    requires c.maxRequests == 1 && a == RequestId(0, 0) && b == RequestId(1, 0) && p == RequestId(1, 1)
    ensures Overtaken(c, Shared(map[], {}, c.windowMs, {a, b, p}, map[a := 0]), 0)
  {
    assert Within(map[a := 0], 0, 1) == {a};
  }

  /** With a limit of one it may not, so a rejected request stands in its way. */
  lemma OvertakeAlone(c: Config, lag: nat, filled: seq<Event>) returns (events: seq<Event>)
    requires c.maxRequests == 1 && 2 <= c.windowMs
    requires PossibleRun(c, lag, Start, filled) && Filled(Run(c, Start, filled), 1)
    ensures PossibleRun(c, lag, Start, events) && Overtaken(c, Run(c, Start, events), 0)
  {
    var a, b, p := RequestId(0, 0), RequestId(1, 0), RequestId(1, 1);
    events := ReachBlocked(c, lag, filled);
    Unblock(c, Run(c, Start, events), a, b, p);
    Then(c, lag, events, Pipeline(p, c.windowMs));
    events := events + [Pipeline(p, c.windowMs)];
    Then(c, lag, events, Remove(b));
    events := events + [Remove(b)];
    Then(c, lag, events, Remove(p));
    events := events + [Remove(p)];
    Cleared(c, a, b, p);
  }

  // ---------- the late request ----------

  const STRAGGLER := RequestId(1, 3)

  lemma Straggles(c: Config, lag: nat, s: Shared, left: nat, late: nat)
    requires Overtaken(c, s, left) && left < c.maxRequests && late < c.windowMs <= late + lag
    ensures Possible(lag, s, Pipeline(STRAGGLER, late))
    ensures |Within(Step(c, s, Pipeline(STRAGGLER, late)).admitted, 0, late + 1)| > c.maxRequests
  {
    assert Prune(s.entries, late - c.windowMs) == s.entries;
    Decided(c, s, STRAGGLER, late, s.entries);
    WithinGrows(s.admitted, STRAGGLER, late, 0, late + 1);
    SubsetSize(Within(s.admitted, 0, 1), Within(s.admitted, 0, late + 1));
  }

  /** How many requests a run allows in [from, from + length). */
  function AllowedIn(c: Config, events: seq<Event>, from: int, length: nat): nat {
    |Within(Run(c, Start, events).admitted, from, from + length)|
  }

  lemma Overtake(c: Config, lag: nat) returns (events: seq<Event>, left: nat)
    requires 1 <= c.maxRequests && 1 <= c.windowMs && (c.maxRequests == 1 ==> 2 <= c.windowMs)
    ensures PossibleRun(c, lag, Start, events) && Overtaken(c, Run(c, Start, events), left) && left < c.maxRequests
  {
    var filled := FillUp(c, lag, c.maxRequests);
    if c.maxRequests == 1 {
      events := OvertakeAlone(c, lag, filled);
      left := 0;
    } else {
      events := OvertakeWithRoom(c, lag, filled);
      left := 1;
    }
  }

  /** For every limit, and every lag that reaches back below the window, some possible run allows more
      requests than the limit in an interval just one longer than the lag leaves. */
  lemma LagBreaksLongerInterval(c: Config, lag: nat, late: nat) returns (events: seq<Event>)
    requires 1 <= c.maxRequests && late < c.windowMs <= late + lag && (c.maxRequests == 1 ==> 2 <= c.windowMs)
    ensures PossibleRun(c, lag, Start, events) && AllowedIn(c, events, 0, late + 1) > c.maxRequests
  {
    var before, left := Overtake(c, lag);
    Straggles(c, lag, Run(c, Start, before), left, late);
    Then(c, lag, before, Pipeline(STRAGGLER, late));
    events := before + [Pipeline(STRAGGLER, late)];
  }

  // ---------- when the full window is safe ----------

  ghost predicate Fits(c: Config, lag: nat, events: seq<Event>, from: int, length: nat) {
    PossibleRun(c, lag, Start, events) ==> AllowedIn(c, events, from, length) <= c.maxRequests
  }

  /** No run allows more than the limit in any interval of the given length. */
  ghost predicate Safe(c: Config, lag: nat, length: nat) {
    forall events, from :: Fits(c, lag, events, from, length)
  }

  lemma RemainderFits(c: Config, lag: nat, events: seq<Event>, from: int)
    requires lag < c.windowMs
    ensures Fits(c, lag, events, from, c.windowMs - lag)
  {
    if PossibleRun(c, lag, Start, events) {
      WindowBound(c, lag, events, from);
    }
  }

  lemma Unsafe(c: Config, lag: nat, late: nat)
    requires 1 <= c.maxRequests && late < c.windowMs <= late + lag && (c.maxRequests == 1 ==> 2 <= c.windowMs)
    ensures !Safe(c, lag, late + 1)
  {
    var events := LagBreaksLongerInterval(c, lag, late);
    assert !Fits(c, lag, events, 0, late + 1);
  }

  lemma RemainderIsSafe(c: Config, lag: nat)
    requires lag < c.windowMs
    ensures Safe(c, lag, c.windowMs - lag)
  {
    var length: nat := c.windowMs - lag;
    forall events, from ensures Fits(c, lag, events, from, length) {
      RemainderFits(c, lag, events, from);
    }
  }

  /** The interval that the lag leaves is exactly what is safe: one millisecond more is not. */
  lemma SafeLengthExactly(c: Config, lag: nat)
    requires 1 <= c.maxRequests && 1 <= lag < c.windowMs
    ensures Safe(c, lag, c.windowMs - lag) && !Safe(c, lag, c.windowMs - lag + 1)
  {
    RemainderIsSafe(c, lag);
    Unsafe(c, lag, c.windowMs - lag);
  }

  lemma {:induction false} NothingAdmitted(c: Config, s: Shared, events: seq<Event>)
    requires c.maxRequests == 0
    ensures Run(c, s, events).admitted == s.admitted
    decreases events
  {
    if events != [] {
      NothingAdmitted(c, Step(c, s, events[0]), events[1..]);
    }
  }

  /** With a limit of one and a window of one millisecond, whoever holds the newest millisecond keeps out
      everybody else until a newer one begins. */
  ghost predicate OneEach(s: Shared) {
    && s.pending <= s.used && s.admitted.Keys <= s.used && s.admitted.Keys !! s.pending
    && (forall id :: id in s.entries ==> 0 <= s.entries[id] <= s.latest)
    && (forall id :: id in s.admitted ==> s.admitted[id] <= s.latest)
    && (forall a, b :: a in s.admitted && b in s.admitted && s.admitted[a] == s.admitted[b] ==> a == b)
    && (s == Start || exists id :: Newest(s, id))
  }

  predicate Newest(s: Shared, id: RequestId) {
    id in s.admitted && id in s.entries && s.entries[id] == s.latest
  }

  lemma StepKeepsOneEach(c: Config, lag: nat, s: Shared, e: Event)
    requires c.maxRequests == 1 && c.windowMs == 1 && OneEach(s) && Possible(lag, s, e)
    ensures OneEach(Step(c, s, e))
  {
    match e
    case Remove(_) =>
      var id :| Newest(s, id);
      assert Newest(Step(c, s, e), id);
    case Pipeline(id, now) =>
      var kept := Prune(s.entries, now - 1);
      Decided(c, s, id, now, kept);
      if s.latest < now || s == Start {
        assert kept == map[];
        assert Newest(Step(c, s, e), id);
      } else {
        var newest :| Newest(s, newest);
        assert newest in kept && |kept| == |kept.Keys| && |kept.Keys - {newest}| == |kept.Keys| - 1;
        assert Newest(Step(c, s, e), newest);
      }
  }

  lemma {:induction false} RunKeepsOneEach(c: Config, lag: nat, s: Shared, events: seq<Event>)
    requires c.maxRequests == 1 && c.windowMs == 1 && OneEach(s) && PossibleRun(c, lag, s, events)
    ensures OneEach(Run(c, s, events))
    decreases events
  {
    if events != [] {
      StepKeepsOneEach(c, lag, s, events[0]);
      RunKeepsOneEach(c, lag, Step(c, s, events[0]), events[1..]);
    }
  }

  lemma AtMostOnePerInstant(s: Shared, from: int)
    requires OneEach(s)
    ensures |Within(s.admitted, from, from + 1)| <= 1
  {
    var ids := Within(s.admitted, from, from + 1);
    if a :| a in ids {
      assert ids == {a};
    }
  }

  predicate Harmless(c: Config, lag: nat) {
    lag == 0 || c.maxRequests == 0 || c.windowMs == 0 || (c.windowMs == 1 && c.maxRequests == 1)
  }

  /** The full window is safe over every run just when the clocks do not lag, nothing is ever allowed, or
      the window is too short for a lag to matter. */
  lemma FullWindowSafeExactly(c: Config, lag: nat)
    ensures Safe(c, lag, c.windowMs) <==>
      lag == 0 || c.maxRequests == 0 || c.windowMs == 0 || (c.windowMs == 1 && c.maxRequests == 1)
  {
    if Harmless(c, lag) {
      forall events, from ensures Fits(c, lag, events, from, c.windowMs) {
        FullWindowFits(c, lag, events, from);
      }
    } else {
      Unsafe(c, lag, c.windowMs - 1);
    }
  }

  lemma NoneFit(c: Config, lag: nat, events: seq<Event>, from: int, length: nat)
    requires c.maxRequests == 0 || length == 0
    ensures Fits(c, lag, events, from, length)
  {
    if length > 0 {
      NothingAdmitted(c, Start, events);
    }
    assert Within(Run(c, Start, events).admitted, from, from + length) == {};
  }

  lemma OneFits(c: Config, lag: nat, events: seq<Event>, from: int)
    requires c.maxRequests == 1 && c.windowMs == 1
    ensures Fits(c, lag, events, from, 1)
  {
    if PossibleRun(c, lag, Start, events) {
      RunKeepsOneEach(c, lag, Start, events);
      AtMostOnePerInstant(Run(c, Start, events), from);
    }
  }

  lemma FullWindowFits(c: Config, lag: nat, events: seq<Event>, from: int)
    requires Harmless(c, lag)
    ensures Fits(c, lag, events, from, c.windowMs)
  {
    if c.windowMs == 0 || c.maxRequests == 0 {
      NoneFit(c, lag, events, from, c.windowMs);
    } else if lag == 0 {
      RemainderFits(c, 0, events, from);
    } else {
      OneFits(c, lag, events, from);
    }
  }
}
