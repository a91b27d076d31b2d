/** One-time OAuth states in Redis: every answer of a run is decided by the last operation on the same
    state, cleaning up is never noticed, and no state is validated more often than it was generated. */
module OAuthState {
  import opened Common

  /** The empty string stands for an absent user, tenant or token, as the source treats both alike. */
  datatype Data = Data(timestamp: int, user: string, tenant: string, token: string)

  datatype Record = Record(data: Data, expireAt: int)

  type States = map<nat, Record>

  const LIFETIME := 600 * 1000

  /** Redis drops a key once its expiry has passed. */
  predicate Live(r: Record, now: int) {
    now <= r.expireAt
  }

  predicate Stale(d: Data, now: int) {
    now - d.timestamp > LIFETIME
  }

  // ---------- the operations ----------

  /** The clock is read for the timestamp, then the key is stored with its expiry. */
  function Generate(states: States, state: nat, user: string, tenant: string, token: string, now: int,
          stored: int): States {
    states[state := Record(Data(now, user, tenant, token), stored + LIFETIME)]
  }

  datatype Validation = Validation(states: States, answer: Option<Data>)

  /** The key is read, then the clock. An empty state parameter is `None`. */
  function Validate(states: States, state: Option<nat>, expected: string, read: int, checked: int): Validation {
    if state.None? || state.value !in states || !Live(states[state.value], read) then Validation(states, None)
    else
      var d := states[state.value].data;
      var rest := states - {state.value};
      if Stale(d, checked) then Validation(rest, None)
      else if expected != "" && d.user != expected then Validation(rest, None)
      else if expected == "" && d.user != "" then Validation(rest, None)
      else Validation(rest, Some(d))
  }

  function Removable(states: States, now: int): set<nat> {
    set s | s in states && Live(states[s], now) && Stale(states[s].data, now)
  }

  function Cleanup(states: States, now: int): States {
    states - Removable(states, now)
  }

  datatype Op =
    | OpGenerate(state: nat, user: string, tenant: string, token: string, now: int, stored: int)
    | OpValidate(wanted: Option<nat>, expected: string, read: int, checked: int)
    | OpCleanup(at: int)

  function Step(states: States, op: Op): Validation {
    match op
    case OpGenerate(state, user, tenant, token, now, stored) =>
      Validation(Generate(states, state, user, tenant, token, now, stored), None)
    case OpValidate(state, expected, read, checked) => Validate(states, state, expected, read, checked)
    case OpCleanup(now) => Validation(Cleanup(states, now), None)
  }

  function Run(ops: seq<Op>): States {
    if ops == [] then map[] else Step(Run(ops[..|ops| - 1]), ops[|ops| - 1]).states
  }

  function Begin(op: Op): int {
    match op
    case OpGenerate(_, _, _, _, now, _) => now
    case OpValidate(_, _, read, _) => read
    case OpCleanup(now) => now
  }

  function End(op: Op): int {
    match op
    case OpGenerate(_, _, _, _, _, stored) => stored
    case OpValidate(_, _, _, checked) => checked
    case OpCleanup(now) => now
  }

  /** The operations follow one another in time. */
  ghost predicate Ordered(ops: seq<Op>) {
    && (forall i :: 0 <= i < |ops| ==> Begin(ops[i]) <= End(ops[i]))
    && (forall i, j :: 0 <= i < j < |ops| ==> End(ops[i]) <= Begin(ops[j]))
  }

  /** What operation `k` of a run answers. */
  function Answer(ops: seq<Op>, k: nat): Option<Data>
    requires k < |ops|
  {
    Step(Run(ops[..k]), ops[k]).answer
  }

  // ---------- the reference: the last operation on the state decides ----------

  /** What was last generated under a state, unless it has been asked for since. */
  function Outstanding(ops: seq<Op>, state: nat): Option<Record> {
    if ops == [] then None
    else
      var last := ops[|ops| - 1];
      match last
      case OpGenerate(s, user, tenant, token, now, stored) =>
        if s == state then Some(Record(Data(now, user, tenant, token), stored + LIFETIME))
        else Outstanding(ops[..|ops| - 1], state)
      case OpValidate(s, _, _, _) =>
        if s == Some(state) then None else Outstanding(ops[..|ops| - 1], state)
      case OpCleanup(_) => Outstanding(ops[..|ops| - 1], state)
  }

  /** An outstanding record passes for the very user it is bound to, or for no user when bound to none,
      while its key is stored and it is at most ten minutes old. */
  predicate Passes(r: Record, expected: string, read: int, checked: int) {
    Live(r, read) && checked - r.data.timestamp <= LIFETIME && r.data.user == expected
  }

  /** The store and the history agree but for keys that are dead and records that are stale. */
  ghost predicate Tracks(ops: seq<Op>, states: States, s: nat, now: int) {
    && (s in states ==> Outstanding(ops, s) == Some(states[s]) || !Live(states[s], now))
    && (Outstanding(ops, s).Some? ==>
      (s in states && states[s] == Outstanding(ops, s).value) || Stale(Outstanding(ops, s).value.data, now))
  }

  lemma {:induction false} StoreTracksHistory(ops: seq<Op>, s: nat, now: int)
    requires Ordered(ops) && forall i :: 0 <= i < |ops| ==> End(ops[i]) <= now
    ensures Tracks(ops, Run(ops), s, now)
  {
    if ops != [] {
      var front, last := ops[..|ops| - 1], ops[|ops| - 1];
      StoreTracksHistory(front, s, Begin(last));
      assert Begin(last) <= End(last) <= now;
    }
  }

  /** Every answer of every run: a validation answers non-null just when its state is outstanding and
      passes, and then it answers the data generated. */
  lemma AnswersExactly(ops: seq<Op>, k: nat)
    requires Ordered(ops) && k < |ops| && ops[k].OpValidate?
    ensures var op := ops[k];
      Answer(ops, k) ==
        if op.wanted.Some? && Outstanding(ops[..k], op.wanted.value).Some?
           && Passes(Outstanding(ops[..k], op.wanted.value).value, op.expected, op.read, op.checked)
        then Some(Outstanding(ops[..k], op.wanted.value).value.data) else None
  {
    var op := ops[k];
    if op.wanted.Some? {
      StoreTracksHistory(ops[..k], op.wanted.value, op.read);
    }
  }

  // ---------- consequences ----------

  lemma {:induction false} OutstandingWasGenerated(ops: seq<Op>, s: nat) returns (j: nat)
    requires Outstanding(ops, s).Some?
    ensures j < |ops| && ops[j].OpGenerate? && ops[j].state == s
    ensures var g := ops[j];
      Outstanding(ops, s).value == Record(Data(g.now, g.user, g.tenant, g.token), g.stored + LIFETIME)
    ensures forall i :: j < i < |ops| ==>
      !(ops[i].OpValidate? && ops[i].wanted == Some(s)) && !(ops[i].OpGenerate? && ops[i].state == s)
  {
    var front, last := ops[..|ops| - 1], ops[|ops| - 1];
    if last.OpGenerate? && last.state == s {
      j := |ops| - 1;
    } else {
      j := OutstandingWasGenerated(front, s);
    }
  }

  /** A non-null answer returns what was generated for that state, within ten minutes, to the party it was
      bound to, and is the first look at it since. */
  lemma ValidationIsBound(ops: seq<Op>, k: nat) returns (j: nat)
    requires Ordered(ops) && k < |ops| && ops[k].OpValidate? && Answer(ops, k).Some?
    ensures j < k && ops[j].OpGenerate? && ops[k].wanted == Some(ops[j].state)
    ensures Answer(ops, k) == Some(Data(ops[j].now, ops[j].user, ops[j].tenant, ops[j].token))
    ensures ops[k].checked - ops[j].now <= 600000 && ops[j].user == ops[k].expected
    ensures forall i :: j < i < k ==> !(ops[i].OpValidate? && ops[i].wanted == ops[k].wanted)
  {
    AnswersExactly(ops, k);
    j := OutstandingWasGenerated(ops[..k], ops[k].wanted.value);
  }

  /** The operation asks for the state or generates it. */
  predicate Concerns(op: Op, s: nat) {
    (op.OpValidate? && op.wanted == Some(s)) || (op.OpGenerate? && op.state == s)
  }

  lemma {:induction false} GeneratedIsOutstanding(ops: seq<Op>, j: nat)
    requires j < |ops| && ops[j].OpGenerate? && forall i :: j < i < |ops| ==> !Concerns(ops[i], ops[j].state)
    ensures var g := ops[j];
      Outstanding(ops, g.state) == Some(Record(Data(g.now, g.user, g.tenant, g.token), g.stored + 600000))
  {
    if j < |ops| - 1 {
      assert !Concerns(ops[|ops| - 1], ops[j].state);
      GeneratedIsOutstanding(ops[..|ops| - 1], j);
    }
  }

  /** The first look at a generated state, by the party it is bound to and within ten minutes, answers what
      was generated. */
  lemma FirstLookAnswers(ops: seq<Op>, j: nat, k: nat)
    requires Ordered(ops) && j < k < |ops| && ops[j].OpGenerate? && ops[k].OpValidate?
    requires ops[k].wanted == Some(ops[j].state) && forall i :: j < i < k ==> !Concerns(ops[i], ops[j].state)
    requires ops[k].expected == ops[j].user
    requires ops[k].read <= ops[j].stored + 600000 && ops[k].checked <= ops[j].now + 600000
    ensures Answer(ops, k) == Some(Data(ops[j].now, ops[j].user, ops[j].tenant, ops[j].token))
  {
    GeneratedIsOutstanding(ops[..k], j);
    AnswersExactly(ops, k);
  }

  predicate Generates(op: Op, s: nat) {
    op.OpGenerate? && op.state == s
  }

  function Generations(ops: seq<Op>, s: nat): nat {
    if ops == [] then 0 else Generations(ops[..|ops| - 1], s) + if Generates(ops[|ops| - 1], s) then 1 else 0
  }

  /** How many validations of a state have answered non-null. */
  function Successes(ops: seq<Op>, s: nat): nat {
    if ops == [] then 0
    else
      Successes(ops[..|ops| - 1], s)
      + if ops[|ops| - 1].OpValidate? && ops[|ops| - 1].wanted == Some(s) && Answer(ops, |ops| - 1).Some? then 1 else 0
  }

  /** A state is validated at most as often as it was generated: once, since generated states differ. */
  lemma {:induction false} NoMoreSuccessesThanStates(ops: seq<Op>, s: nat)
    requires Ordered(ops)
    ensures Successes(ops, s) + (if Outstanding(ops, s).Some? then 1 else 0) <= Generations(ops, s)
  {
    if ops != [] {
      var front, last := ops[..|ops| - 1], ops[|ops| - 1];
      NoMoreSuccessesThanStates(front, s);
      if last.OpValidate? && last.wanted == Some(s) {
        AnswersExactly(ops, |ops| - 1);
      }
    }
  }

  lemma {:induction false} CleanupIsInvisible(before: seq<Op>, at: int, after: seq<Op>, s: nat)
    ensures Outstanding(before + [OpCleanup(at)] + after, s) == Outstanding(before + after, s)
  {
    if after == [] {
      assert before + [OpCleanup(at)] + after == before + [OpCleanup(at)];
      assert (before + [OpCleanup(at)])[..|before|] == before;
      assert before + after == before;
    } else {
      var front, last := after[..|after| - 1], after[|after| - 1];
      CleanupIsInvisible(before, at, front, s);
      var longer, shorter := before + [OpCleanup(at)] + after, before + after;
      assert longer[..|longer| - 1] == before + [OpCleanup(at)] + front && longer[|longer| - 1] == last;
      assert shorter[..|shorter| - 1] == before + front && shorter[|shorter| - 1] == last;
    }
  }

  /** Running the cleanup anywhere in a run changes no later answer. */
  lemma CleanupChangesNoAnswer(before: seq<Op>, at: int, after: seq<Op>, k: nat)
    requires Ordered(before + [OpCleanup(at)] + after) && k < |after| && after[k].OpValidate?
    ensures Answer(before + [OpCleanup(at)] + after, |before| + 1 + k) == Answer(before + after, |before| + k)
  {
    var longer, shorter := before + [OpCleanup(at)] + after, before + after;
    forall i | 0 <= i < |shorter| ensures shorter[i] == longer[if i < |before| then i else i + 1] {
    }
    assert Ordered(shorter);
    assert longer[|before| + 1 + k] == after[k] == shorter[|before| + k];
    AnswersExactly(longer, |before| + 1 + k);
    AnswersExactly(shorter, |before| + k);
    assert longer[..|before| + 1 + k] == before + [OpCleanup(at)] + after[..k];
    assert shorter[..|before| + k] == before + after[..k];
    if after[k].wanted.Some? {
      CleanupIsInvisible(before, at, after[..k], after[k].wanted.value);
    }
  }

  // ---------- the service ----------

  class OAuthStateService {
    var states: States

    constructor ()
      ensures states == map[]
    {
      states := map[];
    }

    method GenerateState(state: nat, user: string, tenant: string, token: string, now: int, stored: int)
      modifies this
      ensures states == Generate(old(states), state, user, tenant, token, now, stored)
    {
      var data := Data(now, user, tenant, token);
      states := states[state := Record(data, stored + LIFETIME)];
    }

    method ValidateState(state: Option<nat>, expected: string, read: int, checked: int) returns (answer: Option<Data>)
      modifies this
      ensures Validation(states, answer) == Validate(old(states), state, expected, read, checked)
    {
      if state == None { return None; }
      if state.value !in states || !Live(states[state.value], read) { return None; }
      var data := states[state.value].data;
      if checked - data.timestamp > LIFETIME {
        states := states - {state.value};
        return None;
      }
      if expected != "" && data.user != expected {
        states := states - {state.value};
        return None;
      }
      if expected == "" && data.user != "" {
        states := states - {state.value};
        return None;
      }
      states := states - {state.value};
      return Some(data);
    }

    /** Goes through the keys Redis lists, in whatever order, and counts what it deletes. */
    method CleanupExpiredStates(now: int) returns (deleted: nat)
      modifies this
      ensures states == Cleanup(old(states), now)
      ensures deleted == |Removable(old(states), now)|
    {
      var keys := set s | s in states && Live(states[s], now);
      ghost var before, doomed := states, Removable(states, now);
      deleted := 0;
      while keys != {}
        invariant forall s :: s in keys ==> s in before && Live(before[s], now)
        invariant states == before - (doomed - keys)
        invariant deleted == |doomed - keys|
        decreases keys
      {
        var key :| key in keys;
        CleanupOneKey(before, now, keys, key);
        keys := keys - {key};
        if key in states && now - states[key].data.timestamp > LIFETIME {
          states := states - {key};
          deleted := deleted + 1;
        }
      }
      assert doomed - keys == doomed;
    }

    /** One key more has been gone through. */
    static lemma CleanupOneKey(before: States, now: int, keys: set<nat>, key: nat)
      requires key in keys && key in before && Live(before[key], now)
      ensures var left, next := Removable(before, now) - keys, Removable(before, now) - (keys - {key});
        && key in before - left && (before - left)[key] == before[key]
        && (if Stale(before[key].data, now) then before - next == (before - left) - {key} && |next| == |left| + 1
          else next == left)
    {
      var doomed := Removable(before, now);
      if Stale(before[key].data, now) {
        assert doomed - (keys - {key}) == (doomed - keys) + {key};
      } else {
        assert doomed - (keys - {key}) == doomed - keys;
      }
    }
  }
}
