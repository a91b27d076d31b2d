/** The sliding-window rate limiter kept in a sorted set: one pipeline (prune, count, add, expire)
    and, for a rejected request, a separate removal. `WindowBound` is the safety of every
    interleaving of those two steps; `RefinesLog` is the exactness of checks that do not overlap. */
module SlidingWindow {
  import opened Common

  /** A member's name: its timestamp with a random part. */
  datatype RequestId = RequestId(timestamp: int, salt: nat)

  /** Members with their scores: request identifiers with their timestamps in milliseconds. */
  type SortedSet = map<RequestId, int>

  /** `bufferSeconds` is what the invitation limiter adds to the key's expiry and the OAuth one does not. */
  datatype Config = Config(windowMs: nat, maxRequests: nat, bufferSeconds: nat)

  datatype Decision = Decision(allowed: bool, remaining: int, resetTime: int, totalHits: int)

  function Prune(z: SortedSet, cutoff: int): SortedSet {
    map m | m in z && !(0 <= z[m] <= cutoff) :: z[m]
  }

  function Decide(c: Config, now: int, count: nat): Decision {
    var allowed := count < c.maxRequests;
    var own := if allowed then 1 else 0;
    var left := c.maxRequests - count - own;
    Decision(allowed, if left < 0 then 0 else left, now + c.windowMs, count + own)
  }

  /** The two reported numbers add up to the limit unless phantoms had pushed the set beyond it. */
  lemma BudgetAddsUp(c: Config, now: int, count: nat)
    ensures Decide(c, now, count).remaining + Decide(c, now, count).totalHits == c.maxRequests <==>
      count <= c.maxRequests
  {
  }

  // ---------- the key in the source's form ----------

  class LimiterKey {
    var entries: SortedSet
    var expireAt: int
    const config: Config

    constructor (config: Config)
      ensures this.config == config && entries == map[] && expireAt == 0
    {
      this.config, entries, expireAt := config, map[], 0;
    }

    /** The atomic pipeline; the count is taken after pruning and before adding. */
    method Pipeline(now: int, id: RequestId) returns (count: nat)
      modifies this
      ensures entries == Prune(old(entries), now - config.windowMs)[id := now]
      ensures count == |Prune(old(entries), now - config.windowMs)|
      ensures expireAt == KeyExpiry(config, now)
    {
      entries := Prune(entries, now - config.windowMs);
      count := |entries|;
      entries := entries[id := now];
      expireAt := now + 1000 * (CeilSeconds(config.windowMs) + config.bufferSeconds);
    }

    method Zrem(id: RequestId)
      modifies this`entries
      ensures entries == old(entries) - {id}
    {
      entries := entries - {id};
    }

    /** A whole check with nothing between its two steps; `evicted` says the key was found expired. */
    method CheckRateLimit(now: int, id: RequestId, evicted: bool) returns (d: Decision)
      modifies this
      ensures SeqStep(config, Key(old(entries), old(expireAt)), Check(id, now, evicted)) ==
        SeqOutcome(Key(entries, expireAt), d)
    {
      if evicted { entries := map[]; }
      var currentCount := Pipeline(now, id);
      var allowed := currentCount < config.maxRequests;
      if !allowed {
        Zrem(id);
      }
      var remaining := config.maxRequests - currentCount - (if allowed then 1 else 0);
      if remaining < 0 { remaining := 0; }
      d := Decision(allowed, remaining, now + config.windowMs, currentCount + if allowed then 1 else 0);
    }

    method GetRateLimitStatus(now: int, evicted: bool) returns (d: Decision)
      modifies this`entries
      ensures SeqStep(config, Key(old(entries), old(expireAt)), Status(now, evicted)) ==
        SeqOutcome(Key(entries, expireAt), d)
    {
      if evicted { entries := map[]; }
      entries := Prune(entries, now - config.windowMs);
      var currentCount := |entries|;
      var remaining := config.maxRequests - currentCount;
      if remaining < 0 { remaining := 0; }
      d := Decision(currentCount < config.maxRequests, remaining, now + config.windowMs, currentCount);
    }
  }

  function KeyExpiry(c: Config, now: int): int {
    now + 1000 * (CeilSeconds(c.windowMs) + c.bufferSeconds)
  }

  // ---------- interleaved checks ----------

  /** What one client does at a time: its pipeline, or the removal that follows a rejection. */
  datatype Event = Pipeline(id: RequestId, now: int) | Remove(id: RequestId)

  /** The set, the rejected requests still waiting to be removed, and the history: the largest
      timestamp seen, the identifiers used, and the requests allowed with their timestamps. */
  datatype Shared = Shared(entries: SortedSet, pending: set<RequestId>, latest: int, used: set<RequestId>,
          admitted: SortedSet)

  const Start := Shared(map[], {}, 0, {}, map[])

  function Step(c: Config, s: Shared, e: Event): Shared {
    match e
    case Pipeline(id, now) =>
      var kept := Prune(s.entries, now - c.windowMs);
      var latest := if s.latest < now then now else s.latest;
      if Decide(c, now, |kept|).allowed
      then Shared(kept[id := now], s.pending, latest, s.used + {id}, s.admitted[id := now])
      else Shared(kept[id := now], s.pending + {id}, latest, s.used + {id}, s.admitted)
    case Remove(id) => s.(entries := s.entries - {id}, pending := s.pending - {id})
  }

  /** Identifiers are unique and no clock lags the largest timestamp seen by more than `lag`. */
  predicate Possible(lag: nat, s: Shared, e: Event) {
    match e
    case Pipeline(id, now) => id !in s.used && 0 <= now && s.latest - lag <= now
    case Remove(id) => id in s.pending
  }

  function Run(c: Config, s: Shared, events: seq<Event>): Shared
    decreases events
  {
    if events == [] then s else Run(c, Step(c, s, events[0]), events[1..])
  }

  ghost predicate PossibleRun(c: Config, lag: nat, s: Shared, events: seq<Event>)
    decreases events
  {
    events == [] || (Possible(lag, s, events[0]) && PossibleRun(c, lag, Step(c, s, events[0]), events[1..]))
  }

  /** The requests allowed with a timestamp in [from, to). */
  function Within(admitted: SortedSet, from: int, to: int): set<RequestId> {
    set id | id in admitted && from <= admitted[id] < to
  }

  /** A request allowed less than a window before the largest timestamp is still in the set. */
  ghost predicate Remembers(c: Config, s: Shared) {
    && s.admitted.Keys <= s.used
    && s.pending <= s.used
    && s.admitted.Keys !! s.pending
    && (forall id :: id in s.entries ==> id in s.used && 0 <= s.entries[id] <= s.latest)
    && (forall id :: id in s.admitted && s.latest - c.windowMs < s.admitted[id] ==>
         id in s.entries && s.entries[id] == s.admitted[id])
    && forall id :: id in s.entries && id !in s.pending ==> id in s.admitted && s.entries[id] == s.admitted[id]
  }

  lemma StepRemembers(c: Config, lag: nat, s: Shared, e: Event)
    requires Remembers(c, s) && Possible(lag, s, e)
    ensures Remembers(c, Step(c, s, e))
  {
  }

  /** With lag below the window, the pipeline of a request still counts everything allowed in an
      interval of length `windowMs - lag` around that request. */
  lemma PipelineCounts(c: Config, lag: nat, s: Shared, e: Event, from: int)
    requires lag < c.windowMs
    requires Remembers(c, s) && Possible(lag, s, e)
    requires e.Pipeline? && from <= e.now < from + c.windowMs - lag
    ensures |Within(s.admitted, from, from + c.windowMs - lag)| <= |Prune(s.entries, e.now - c.windowMs)|
  {
    var kept := Prune(s.entries, e.now - c.windowMs);
    var allowed := Within(s.admitted, from, from + c.windowMs - lag);
    assert allowed <= kept.Keys;
    SubsetSize(allowed, kept.Keys);
    assert |kept| == |kept.Keys|;
  }

  lemma WithinGrows(admitted: SortedSet, id: RequestId, now: int, from: int, to: int)
    requires id !in admitted
    ensures |Within(admitted[id := now], from, to)| == |Within(admitted, from, to)| + if from <= now < to then 1 else 0
  {
    var before, after := Within(admitted, from, to), Within(admitted[id := now], from, to);
    assert after == if from <= now < to then before + {id} else before;
  }

  lemma AdmissionBound(c: Config, s: Shared, e: Event, from: int, to: int)
    requires e.Pipeline? ==> e.id !in s.admitted
    requires e.Pipeline? && from <= e.now < to ==>
      |Within(s.admitted, from, to)| <= |Prune(s.entries, e.now - c.windowMs)|
    requires |Within(s.admitted, from, to)| <= c.maxRequests
    ensures |Within(Step(c, s, e).admitted, from, to)| <= c.maxRequests
  {
    if e.Pipeline? {
      WithinGrows(s.admitted, e.id, e.now, from, to);
    }
  }

  lemma StepBound(c: Config, lag: nat, s: Shared, e: Event, from: int)
    requires lag < c.windowMs
    requires Remembers(c, s) && Possible(lag, s, e)
    requires |Within(s.admitted, from, from + c.windowMs - lag)| <= c.maxRequests
    ensures |Within(Step(c, s, e).admitted, from, from + c.windowMs - lag)| <= c.maxRequests
  {
    if e.Pipeline? && from <= e.now < from + c.windowMs - lag {
      PipelineCounts(c, lag, s, e, from);
    }
    AdmissionBound(c, s, e, from, from + c.windowMs - lag);
  }

  lemma {:induction false} RunBound(c: Config, lag: nat, s: Shared, events: seq<Event>, from: int)
    requires lag < c.windowMs
    requires Remembers(c, s) && PossibleRun(c, lag, s, events)
    requires |Within(s.admitted, from, from + c.windowMs - lag)| <= c.maxRequests
    ensures |Within(Run(c, s, events).admitted, from, from + c.windowMs - lag)| <= c.maxRequests
    decreases events
  {
    if events != [] {
      StepRemembers(c, lag, s, events[0]);
      StepBound(c, lag, s, events[0], from);
      RunBound(c, lag, Step(c, s, events[0]), events[1..], from);
    }
  }

  /** However pipelines and delayed removals interleave, no interval of length `windowMs - lag` sees
      more than `maxRequests` requests allowed; without lag that is the configured window. */
  lemma WindowBound(c: Config, lag: nat, events: seq<Event>, from: int)
    requires lag < c.windowMs
    requires PossibleRun(c, lag, Start, events)
    ensures |Within(Run(c, Start, events).admitted, from, from + c.windowMs - lag)| <= c.maxRequests
  {
    assert Within(Start.admitted, from, from + c.windowMs - lag) == {};
    RunBound(c, lag, Start, events, from);
  }

  /** What a pipeline finds was allowed in the window or is a phantom. */
  lemma KeptHaveCause(c: Config, lag: nat, s: Shared, now: int)
    requires Remembers(c, s)
    ensures Prune(s.entries, now - c.windowMs).Keys <=
      Within(s.admitted, now - c.windowMs + 1, s.latest + 1) + s.pending
  {
  }

  /** Nobody is turned away for nothing: a rejected request met a window full of allowed requests,
      up to the phantoms of checks still waiting for their removal. */
  lemma RejectionHasCause(c: Config, lag: nat, s: Shared, e: Event)
    requires Remembers(c, s) && Possible(lag, s, e)
    requires e.Pipeline? && e.id in Step(c, s, e).pending
    ensures |Within(s.admitted, e.now - c.windowMs + 1, s.latest + 1)| + |s.pending| >= c.maxRequests
  {
    var kept := Prune(s.entries, e.now - c.windowMs);
    var allowed := Within(s.admitted, e.now - c.windowMs + 1, s.latest + 1);
    KeptHaveCause(c, lag, s, e.now);
    SubsetSize(kept.Keys, allowed + s.pending);
    UnionSize(allowed, s.pending);
  }

  // ---------- checks that do not overlap, with the key's expiry ----------

  datatype Op = Check(id: RequestId, now: int, evicted: bool) | Status(now: int, evicted: bool)

  datatype Key = Key(entries: SortedSet, expireAt: int)

  datatype SeqOutcome = SeqOutcome(key: Key, decision: Decision)

  /** A check or a status query on the key, which Redis may have dropped in the meantime. */
  function SeqStep(c: Config, k: Key, op: Op): SeqOutcome {
    var found := Found(c, k, op);
    match op
    case Check(id, now, _) =>
      var d := Decide(c, now, |found|);
      var kept := found[id := now];
      SeqOutcome(Key(if d.allowed then kept else kept - {id}, KeyExpiry(c, now)), d)
    case Status(now, _) =>
      var left := c.maxRequests - |found|;
      SeqOutcome(Key(found, k.expireAt),
                 Decision(|found| < c.maxRequests, if left < 0 then 0 else left, now + c.windowMs, |found|))
  }

  /** The reference: the exact log of admitted requests, never pruned and never expired. */
  function LogStep(c: Config, log: SortedSet, op: Op): (SortedSet, Decision) {
    var recent := |Within(log, op.now - c.windowMs + 1, op.now + 1)|;
    match op
    case Check(id, now, _) =>
      if recent < c.maxRequests
      then (log[id := now], Decision(true, c.maxRequests - recent - 1, now + c.windowMs, recent + 1))
      else (log, Decision(false, 0, now + c.windowMs, c.maxRequests))
    case Status(now, _) =>
      (log, Decision(recent < c.maxRequests, c.maxRequests - recent, now + c.windowMs, recent))
  }

  function SeqRun(c: Config, k: Key, ops: seq<Op>): seq<Decision>
    decreases ops
  {
    if ops == [] then []
    else var o := SeqStep(c, k, ops[0]); [o.decision] + SeqRun(c, o.key, ops[1..])
  }

  function LogRun(c: Config, log: SortedSet, ops: seq<Op>): seq<Decision>
    decreases ops
  {
    if ops == [] then []
    else var (log', d) := LogStep(c, log, ops[0]); [d] + LogRun(c, log', ops[1..])
  }

  /** The clock does not go back, identifiers are not reused, and Redis drops the key only once it expired. */
  ghost predicate Sequential(c: Config, k: Key, ops: seq<Op>, clock: int, used: set<RequestId>)
    decreases ops
  {
    ops == [] ||
    (var op := ops[0];
     && clock <= op.now
     && (op.evicted ==> k.expireAt <= op.now)
     && (op.Check? ==> op.id !in used)
     && Sequential(c, SeqStep(c, k, op).key, ops[1..], op.now, if op.Check? then used + {op.id} else used))
  }

  /** The key holds nothing but admitted requests, all the recent ones among them, and outlives them. */
  ghost predicate Tracks(c: Config, k: Key, log: SortedSet, clock: int) {
    && (forall id :: id in k.entries ==> id in log && k.entries[id] == log[id])
    && (forall id :: id in log ==> 0 <= log[id] <= clock && log[id] + c.windowMs <= k.expireAt)
    && (forall id :: id in log && clock - c.windowMs < log[id] ==> id in k.entries)
  }

  ghost predicate Refines(c: Config, k: Key, log: SortedSet, clock: int, used: set<RequestId>) {
    && 0 <= clock
    && log.Keys <= used
    && Tracks(c, k, log, clock)
    && |Within(log, clock - c.windowMs + 1, clock + 1)| <= c.maxRequests
  }

  /** The members a check or status query finds once the old ones are pruned. */
  function Found(c: Config, k: Key, op: Op): SortedSet {
    Prune(if op.evicted then map[] else k.entries, op.now - c.windowMs)
  }

  /** After pruning, a live or expired key holds exactly the admitted requests of the window. */
  lemma FoundIsRecent(c: Config, k: Key, log: SortedSet, clock: int, op: Op)
    requires 0 <= clock <= op.now && Tracks(c, k, log, clock) && (op.evicted ==> k.expireAt <= op.now)
    ensures Found(c, k, op).Keys == Within(log, op.now - c.windowMs + 1, op.now + 1)
    ensures Found(c, k, op).Keys <= Within(log, clock - c.windowMs + 1, clock + 1)
    ensures |Found(c, k, op)| ==
      |Within(log, op.now - c.windowMs + 1, op.now + 1)| <= |Within(log, clock - c.windowMs + 1, clock + 1)|
  {
    var found := Found(c, k, op);
    SubsetSize(found.Keys, Within(log, clock - c.windowMs + 1, clock + 1));
    assert |found| == |found.Keys|;
  }

  lemma LogStaysBounded(c: Config, log: SortedSet, op: Op)
    requires op.Check? ==> op.id !in log
    requires |Within(log, op.now - c.windowMs + 1, op.now + 1)| <= c.maxRequests
    ensures |Within(LogStep(c, log, op).0, op.now - c.windowMs + 1, op.now + 1)| <= c.maxRequests
  {
    if op.Check? {
      WithinGrows(log, op.id, op.now, op.now - c.windowMs + 1, op.now + 1);
    }
  }

  lemma FoundTracks(c: Config, k: Key, log: SortedSet, clock: int, op: Op, expireAt: int)
    requires 0 <= clock <= op.now && Tracks(c, k, log, clock) && (op.evicted ==> k.expireAt <= op.now)
    requires k.expireAt <= expireAt || op.now + c.windowMs <= expireAt
    ensures Tracks(c, Key(Found(c, k, op), expireAt), log, op.now)
  {
  }

  lemma AdmitTracks(c: Config, k: Key, log: SortedSet, id: RequestId, now: int)
    requires 0 <= now && Tracks(c, k, log, now) && id !in log && now + c.windowMs <= k.expireAt
    ensures Tracks(c, Key(k.entries[id := now], k.expireAt), log[id := now], now)
  {
  }

  /** When the key's count is the log's count, both sides decide alike and admit alike. */
  lemma SameDecision(c: Config, k: Key, log: SortedSet, op: Op)
    requires |Found(c, k, op)| == |Within(log, op.now - c.windowMs + 1, op.now + 1)| <= c.maxRequests
    requires op.Check? ==> op.id !in Found(c, k, op)
    ensures SeqStep(c, k, op).decision == LogStep(c, log, op).1
    ensures SeqStep(c, k, op).key.expireAt == if op.Check? then KeyExpiry(c, op.now) else k.expireAt
    ensures op.Check? && |Found(c, k, op)| < c.maxRequests ==>
              SeqStep(c, k, op).key.entries == Found(c, k, op)[op.id := op.now]
                && LogStep(c, log, op).0 == log[op.id := op.now]
    ensures op.Status? || |Found(c, k, op)| == c.maxRequests ==>
              SeqStep(c, k, op).key.entries == Found(c, k, op) && LogStep(c, log, op).0 == log
  {
  }

  lemma SeqStepTracks(c: Config, k: Key, log: SortedSet, clock: int, op: Op)
    requires 0 <= clock <= op.now && Tracks(c, k, log, clock) && (op.evicted ==> k.expireAt <= op.now)
    requires op.Check? ==> op.id !in log
    requires |Within(log, clock - c.windowMs + 1, clock + 1)| <= c.maxRequests
    ensures SeqStep(c, k, op).decision == LogStep(c, log, op).1
    ensures Tracks(c, SeqStep(c, k, op).key, LogStep(c, log, op).0, op.now)
  {
    var expireAt := if op.Check? then KeyExpiry(c, op.now) else k.expireAt;
    FoundIsRecent(c, k, log, clock, op);
    FoundTracks(c, k, log, clock, op, expireAt);
    SameDecision(c, k, log, op);
    if op.Check? {
      AdmitTracks(c, Key(Found(c, k, op), expireAt), log, op.id, op.now);
    }
  }

  lemma SeqStepRefines(c: Config, k: Key, log: SortedSet, clock: int, used: set<RequestId>, op: Op)
    requires Refines(c, k, log, clock, used) && clock <= op.now && (op.evicted ==> k.expireAt <= op.now)
    requires op.Check? ==> op.id !in used
    ensures SeqStep(c, k, op).decision == LogStep(c, log, op).1
    ensures Refines(c, SeqStep(c, k, op).key, LogStep(c, log, op).0, op.now, if op.Check? then used + {op.id} else used)
  {
    SeqStepTracks(c, k, log, clock, op);
    FoundIsRecent(c, k, log, clock, op);
    LogStaysBounded(c, log, op);
  }

  /** The pruned, expiring set answers every check and status query as the exact log of admitted
      requests would, so rejected attempts and expiry leave no trace; and the reported numbers add up. */
  lemma {:induction false} RefinesLog(c: Config, k: Key, log: SortedSet, ops: seq<Op>, clock: int, used: set<RequestId>)
    requires Refines(c, k, log, clock, used) && Sequential(c, k, ops, clock, used)
    ensures SeqRun(c, k, ops) == LogRun(c, log, ops)
    ensures forall d :: d in SeqRun(c, k, ops) ==> 0 <= d.remaining && d.remaining + d.totalHits == c.maxRequests
    decreases ops
  {
    if ops != [] {
      SeqStepRefines(c, k, log, clock, used, ops[0]);
      FoundIsRecent(c, k, log, clock, ops[0]);
      BudgetAddsUp(c, ops[0].now, |Found(c, k, ops[0])|);
      var k', log' := SeqStep(c, k, ops[0]).key, LogStep(c, log, ops[0]).0;
      RefinesLog(c, k', log', ops[1..], ops[0].now, if ops[0].Check? then used + {ops[0].id} else used);
    }
  }

  lemma RefinesLogFromStart(c: Config, ops: seq<Op>)
    requires Sequential(c, Key(map[], 0), ops, 0, {})
    ensures SeqRun(c, Key(map[], 0), ops) == LogRun(c, map[], ops)
    ensures forall d :: d in SeqRun(c, Key(map[], 0), ops) ==>
      0 <= d.remaining && d.remaining + d.totalHits == c.maxRequests
  {
    assert Within(map[], 0 - c.windowMs + 1, 1) == {};
    RefinesLog(c, Key(map[], 0), map[], ops, 0, {});
  }
}
