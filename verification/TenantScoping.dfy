/** The tenant-scoping middleware of the database client, seen as a transformation of queries.
    A shared table holds the rows of every tenant; the middleware rewrites each query before the
    database engine runs it. The main results are `Simulation` (any interleaving of tenants behaves
    like separate private tables) and `StepExact` (for which writes that is true). */
module TenantScoping {
  import opened Common

  // ---------- rows, filters and queries ----------

  datatype Value = Null | Text(text: string) | Number(number: int)

  type Row = map<string, Value>
  type Table = map<nat, Row>

  datatype Cond = Equals(value: Value) | Differs(value: Value) | OneOf(values: seq<Value>)

  /** A `where` object: its column conditions and its AND, OR and NOT lists are conjoined. */
  datatype Where = Where(columns: map<string, Cond>, all: seq<Where>, any: Alternatives, none: seq<Where>)

  /** The OR list, which may be absent. */
  datatype Alternatives = Unrestricted | AnyOf(list: seq<Where>)

  const Everything := Where(map[], [], Unrestricted, [])

  datatype Action =
    | FindUnique | FindFirst | FindMany | Update | UpdateMany | Delete | DeleteMany | Count | Aggregate
    | Create | CreateMany | Upsert
    | UnlistedRead | UnlistedCreate | UnlistedUpdate

  /** `args.data`: absent, one object, or an array of objects. */
  datatype Payload = NoPayload | One(row: Row) | Many(rows: seq<Row>)

  datatype Args = Args(where: Option<Where>, data: Payload, create: Option<Row>, update: Option<Row>)

  datatype Query = Query(model: Option<string>, action: Action, args: Option<Args>)

  const NoArgs := Args(None, NoPayload, None, None)

  predicate IsQueryAction(a: Action) {
    a in {FindUnique, FindFirst, FindMany, Update, UpdateMany, Delete, DeleteMany, Count, Aggregate}
  }

  predicate IsCreateAction(a: Action) {
    a in {Create, CreateMany, Upsert}
  }

  /** In neither of the middleware's lists: the throwing finders and groupings, `createManyAndReturn`,
      `updateManyAndReturn`. */
  predicate IsUnlisted(a: Action) {
    a.UnlistedRead? || a.UnlistedCreate? || a.UnlistedUpdate?
  }

  const TENANT := "tenantId"

  // ---------- three-valued filter evaluation ----------

  datatype Truth = Yes | No | Unknown

  function Column(row: Row, name: string): Value {
    if name in row then row[name] else Null
  }

  function Test(c: Cond, v: Value): Truth {
    match c
    case Equals(Null) => if v == Null then Yes else No
    case Differs(Null) => if v == Null then No else Yes
    case Equals(x) => if v == Null then Unknown else if v == x then Yes else No
    case Differs(x) => if v == Null then Unknown else if v == x then No else Yes
    case OneOf(xs) => if v == Null then Unknown else if v in xs then Yes else No
  }

  function And(a: Truth, b: Truth): Truth {
    if a == No || b == No then No else if a == Yes && b == Yes then Yes else Unknown
  }

  function Or(a: Truth, b: Truth): Truth {
    if a == Yes || b == Yes then Yes else if a == No && b == No then No else Unknown
  }

  function Not(a: Truth): Truth {
    match a case Yes => No case No => Yes case Unknown => Unknown
  }

  function EvalColumns(columns: map<string, Cond>, row: Row): Truth {
    if exists k :: k in columns && Test(columns[k], Column(row, k)) == No then No
    else if exists k :: k in columns && Test(columns[k], Column(row, k)) == Unknown then Unknown
    else Yes
  }

  function Eval(w: Where, row: Row): Truth
    decreases w, 1
  {
    And(EvalColumns(w.columns, row), EvalNested(w, row))
  }

  /** The AND, OR and NOT lists; an absent OR list is no constraint, an empty one selects nothing. */
  function EvalNested(w: Where, row: Row): Truth
    decreases w, 0
  {
    And(EvalAll(w.all, row), And(if w.any.AnyOf? then EvalAny(w.any.list, row) else Yes, EvalNone(w.none, row)))
  }

  function EvalAll(ws: seq<Where>, row: Row): Truth
    decreases ws, 0
  {
    if ws == [] then Yes else And(Eval(ws[0], row), EvalAll(ws[1..], row))
  }

  function EvalAny(ws: seq<Where>, row: Row): Truth
    decreases ws, 0
  {
    if ws == [] then No else Or(Eval(ws[0], row), EvalAny(ws[1..], row))
  }

  function EvalNone(ws: seq<Where>, row: Row): Truth
    decreases ws, 0
  {
    if ws == [] then Yes else And(Not(Eval(ws[0], row)), EvalNone(ws[1..], row))
  }

  // ---------- the rewrite ----------

  const NON_TENANT_SCOPED_MODELS := ["Tenant"]

  function Restrict(w: Where, t: string): Where {
    w.(columns := w.columns[TENANT := Equals(Text(t))])
  }

  function Stamp(row: Row, t: string): Row {
    row[TENANT := Text(t)]
  }

  function StampAll(rows: seq<Row>, t: string): seq<Row> {
    seq(|rows|, i requires 0 <= i < |rows| => Stamp(rows[i], t))
  }

  function Default<T>(o: Option<T>, d: T): T {
    if o.Some? then o.value else d
  }

  function ArgsOf(q: Query): Args {
    Default(q.args, NoArgs)
  }

  function WhereOf(q: Query): Where {
    Default(ArgsOf(q).where, Everything)
  }

  predicate Scopes(q: Query, t: string) {
    q.model.Some? && q.model.value != "" && q.model.value !in NON_TENANT_SCOPED_MODELS && t != ""
  }

  /** `create` stamps the one object it is given, inventing an empty one when there is none. */
  function StampOne(p: Payload, t: string): Payload {
    match p
    case NoPayload => One(Stamp(map[], t))
    case One(row) => One(Stamp(row, t))
    case Many(rows) => Many(rows)
  }

  /** What the middleware makes of a query of tenant `t`. */
  function Scoped(q: Query, t: string): Query {
    if !Scopes(q, t) || IsUnlisted(q.action) then q
    else
      var args := ArgsOf(q);
      var where := Some(Restrict(Default(args.where, Everything), t));
      q.(args := Some(match q.action
        case Create => args.(data := StampOne(args.data, t))
        case CreateMany => if args.data.Many? then args.(data := Many(StampAll(args.data.rows, t))) else args
        case Upsert => args.(create := Some(Stamp(Default(args.create, map[]), t)),
                             update := Some(Default(args.update, map[])), where := where)
        case _ => args.(where := where)))
  }

  // ---------- the middleware in the source's form ----------

  class ArgsObject {
    var where: Option<Where>
    var data: Payload
    var create: Option<Row>
    var update: Option<Row>

    constructor ()
      ensures Value() == NoArgs
    {
      where, data, create, update := None, NoPayload, None, None;
    }

    ghost function Value(): Args
      reads this
    {
      Args(where, data, create, update)
    }
  }

  class Params {
    var model: Option<string>
    var action: Action
    var args: ArgsObject?

    ghost function Value(): Query
      reads this, args
    {
      Query(model, action, if args == null then None else Some(args.Value()))
    }

    /** One pass of the middleware: the arguments are assigned into, then handed to `next`. */
    method Apply(tenantId: string)
      modifies this, args
      ensures Value() == Scoped(old(Value()), tenantId)
      ensures old(args) != null ==> args == old(args)
      ensures args != old(args) ==> fresh(args)
    {
      if model == None || model.value == "" || model.value in NON_TENANT_SCOPED_MODELS { return; }
      if tenantId == "" { return; }
      if IsQueryAction(action) {
        if args == null { args := new ArgsObject(); }
        if args.where == None { args.where := Some(Everything); }
        args.where := Some(Restrict(args.where.value, tenantId));
      }
      if IsCreateAction(action) {
        if args == null { args := new ArgsObject(); }
        if action == Create {
          if args.data == NoPayload { args.data := One(map[]); }
          if args.data.One? { args.data := One(args.data.row[TENANT := Text(tenantId)]); }
        } else if action == CreateMany {
          if args.data.Many? {
            var stamped := StampEach(args.data.rows, tenantId);
            args.data := Many(stamped);
          }
        } else if action == Upsert {
          if args.create == None { args.create := Some(map[]); }
          if args.update == None { args.update := Some(map[]); }
          args.create := Some(args.create.value[TENANT := Text(tenantId)]);
          if args.where == None { args.where := Some(Everything); }
          args.where := Some(Restrict(args.where.value, tenantId));
        }
      }
    }
  }

  method StampEach(rows: seq<Row>, tenantId: string) returns (stamped: seq<Row>)
    ensures stamped == StampAll(rows, tenantId)
  {
    stamped := [];
    for i := 0 to |rows|
      invariant stamped == StampAll(rows[..i], tenantId)
    {
      stamped := stamped + [rows[i][TENANT := Text(tenantId)]];
    }
    assert rows[..|rows|] == rows;
  }

  // ---------- the database engine ----------

  /** `Duplicate` is a write refused by a unique index, `Rejected` one whose arguments make no sense. */
  datatype Result =
    | Rows(rows: Table) | NoRow | OneRow(id: nat, row: Row) | Affected(n: nat) | Summary(over: Table)
    | Missing | Rejected | Duplicate

  datatype Outcome = Outcome(table: Table, result: Result)

  lemma {:induction false} HasLeast(s: set<nat>) returns (m: nat)
    requires s != {}
    ensures m in s && forall x :: x in s ==> m <= x
  {
    m :| m in s;
    if x :| x in s && x < m {
      assert x in s - {m};
      var n := HasLeast(s - {m});
      assert forall y :: y in s ==> y == m || y in s - {m};
      m := n;
    }
  }

  function Least(s: set<nat>): (m: nat)
    requires s != {}
    ensures m in s && forall x :: x in s ==> m <= x
  {
    assert exists m :: m in s && forall x :: x in s ==> m <= x by { var _ := HasLeast(s); }
    var m :| m in s && forall x :: x in s ==> m <= x;
    m
  }

  function Selected(db: Table, w: Where): Table {
    map id | id in db && Eval(w, db[id]["id" := Number(id)]) == Yes :: db[id]
  }

  function RowOf(p: Payload): Row {
    if p.One? then p.row else map[]
  }

  function Patch(row: Row, data: Row): Row {
    row + data
  }

  function PatchAll(db: Table, ids: set<nat>, data: Row): Table {
    map id | id in db :: if id in ids then Patch(db[id], data) else db[id]
  }

  function Insert(db: Table, rows: seq<Row>, newId: nat): Table {
    if rows == [] then db
    else Insert(db, rows[..|rows| - 1], newId)[newId + |rows| - 1 := rows[|rows| - 1]]
  }

  /** The rows a create action brings. */
  function RowsOf(p: Payload): seq<Row> {
    match p case NoPayload => [] case One(row) => [row] case Many(rows) => rows
  }

  function Created(rows: seq<Row>, newId: nat): Table {
    map id | newId <= id < newId + |rows| :: RowAt(rows, newId, id)
  }

  function RowAt(rows: seq<Row>, newId: nat, id: nat): Row
    requires newId <= id < newId + |rows|
  {
    rows[id - newId]
  }

  predicate IsRead(a: Action) {
    a.FindMany? || a.FindUnique? || a.FindFirst? || a.Count? || a.Aggregate? || a.UnlistedRead?
  }

  predicate IsDelete(a: Action) {
    a.Delete? || a.DeleteMany?
  }

  predicate IsUpdate(a: Action) {
    a.Update? || a.UpdateMany? || a.UnlistedUpdate?
  }

  function ReadResult(action: Action, hits: Table): Result
    requires IsRead(action)
  {
    match action
    case FindMany => Rows(hits)
    case UnlistedRead => Rows(hits)
    case Count => Affected(|hits|)
    case Aggregate => Summary(hits)
    case _ => First(hits)
  }

  /** What an action does to the rows its filter hit, as long as no unique index refuses. */
  function Run(db: Table, action: Action, hits: Table, args: Args, newId: nat): Outcome {
    if IsRead(action) then Outcome(db, ReadResult(action, hits))
    else if IsDelete(action) then RunDelete(db, action, hits)
    else if IsUpdate(action) then RunUpdate(db, action, hits, RowOf(args.data))
    else RunCreate(db, action, hits, args, newId)
  }

  function RunDelete(db: Table, action: Action, hits: Table): Outcome
    requires IsDelete(action)
  {
    if action.DeleteMany? then DeleteAll(db, hits)
    else if hits == map[] then Outcome(db, Missing)
    else DeleteOne(db, hits)
  }

  function RunUpdate(db: Table, action: Action, hits: Table, data: Row): Outcome
    requires IsUpdate(action)
  {
    if action.Update? then (if hits == map[] then Outcome(db, Missing) else UpdateOne(db, hits, data))
    else
      Outcome(PatchAll(db, hits.Keys, data),
              if action.UpdateMany? then Affected(|hits|) else Rows(PatchAll(hits, hits.Keys, data)))
  }

  function RunCreate(db: Table, action: Action, hits: Table, args: Args, newId: nat): Outcome
    requires !IsRead(action) && !IsDelete(action) && !IsUpdate(action)
  {
    match action
    case Create =>
      if args.data.Many? then Outcome(db, Rejected)
      else Outcome(Insert(db, [RowOf(args.data)], newId), OneRow(newId, RowOf(args.data)))
    case CreateMany => Outcome(Insert(db, RowsOf(args.data), newId), Affected(|RowsOf(args.data)|))
    case UnlistedCreate => Outcome(Insert(db, RowsOf(args.data), newId), Rows(Created(RowsOf(args.data), newId)))
    case Upsert =>
      var create := Default(args.create, map[]);
      if hits != map[] then UpdateOne(db, hits, Default(args.update, map[]))
      else Outcome(Insert(db, [create], newId), OneRow(newId, create))
  }

  /** The rows an action writes. */
  function Touched(action: Action, hits: Table, args: Args, newId: nat): set<nat> {
    match action
    case Update => if hits == map[] then {} else {Least(hits.Keys)}
    case UpdateMany => hits.Keys
    case UnlistedUpdate => hits.Keys
    case Create => if args.data.Many? then {} else {newId}
    case CreateMany => Created(RowsOf(args.data), newId).Keys
    case UnlistedCreate => Created(RowsOf(args.data), newId).Keys
    case Upsert => if hits == map[] then {newId} else {Least(hits.Keys)}
    case _ => {}
  }

  predicate SameValue(a: Row, b: Row, column: string) {
    Column(a, column) != Null && Column(a, column) == Column(b, column)
  }

  /** Some written row shares a value with another row in a column that must be unique. */
  predicate Collides(uniques: set<string>, table: Table, written: set<nat>) {
    exists id, j, c :: id in written && j in table && j != id && c in uniques && Shares(table, id, j, c)
  }

  predicate Shares(table: Table, id: nat, j: nat, column: string) {
    id in table && j in table && SameValue(table[id], table[j], column)
  }

  /** A query before the unique indexes are consulted; rows it creates get identifiers from `newId` on. */
  function Attempt(db: Table, q: Query, newId: nat): Outcome {
    Run(db, q.action, Selected(db, WhereOf(q)), ArgsOf(q), newId)
  }

  function Written(db: Table, q: Query, newId: nat): set<nat> {
    Touched(q.action, Selected(db, WhereOf(q)), ArgsOf(q), newId)
  }

  predicate Refused(uniques: set<string>, db: Table, q: Query, newId: nat) {
    Collides(uniques, Attempt(db, q, newId).table, Written(db, q, newId))
  }

  /** Runs one query against a table whose columns `uniques` are unique across all rows. */
  function Exec(uniques: set<string>, db: Table, q: Query, newId: nat): Outcome {
    if Refused(uniques, db, q, newId) then Outcome(db, Duplicate) else Attempt(db, q, newId)
  }

  function First(hits: Table): Result {
    if hits == map[] then NoRow else var id := Least(hits.Keys); OneRow(id, hits[id])
  }

  function DeleteOne(db: Table, hits: Table): Outcome
    requires hits != map[]
  {
    var id := Least(hits.Keys);
    Outcome(db - {id}, OneRow(id, hits[id]))
  }

  function DeleteAll(db: Table, hits: Table): Outcome {
    Outcome(db - hits.Keys, Affected(|hits|))
  }

  function UpdateOne(db: Table, hits: Table, data: Row): Outcome
    requires hits != map[]
  {
    var id := Least(hits.Keys);
    Outcome(db[id := Patch(hits[id], data)], OneRow(id, Patch(hits[id], data)))
  }

  // ---------- what scoping a filter selects ----------

  /** The part of the table a tenant owns. */
  function Slice(db: Table, t: string): Table {
    map id | id in db && Column(db[id], TENANT) == Text(t) :: db[id]
  }

  function WithoutTenant(w: Where): Where {
    w.(columns := w.columns - {TENANT})
  }

  lemma EvalYes(w: Where, row: Row)
    ensures Eval(w, row) == Yes <==>
            (forall k :: k in w.columns ==> Test(w.columns[k], Column(row, k)) == Yes) && EvalNested(w, row) == Yes
  {
  }

  /** The rewritten filter selects exactly the tenant's rows that the filter selects once any
      tenant condition of its own is dropped. */
  lemma RestrictSelects(w: Where, t: string, row: Row)
    ensures Eval(Restrict(w, t), row) == Yes <==> Column(row, TENANT) == Text(t) && Eval(WithoutTenant(w), row) == Yes
  {
  }

  lemma RestrictTwice(w: Where, t: string)
    ensures Restrict(Restrict(w, t), t) == Restrict(w, t)
  {
  }

  predicate OwnTenantOnly(w: Where, t: string) {
    TENANT in w.columns ==> Test(w.columns[TENANT], Text(t)) == Yes
  }

  lemma OwnTenantIsFree(w: Where, t: string, row: Row)
    requires OwnTenantOnly(w, t) && Column(row, TENANT) == Text(t)
    ensures Eval(WithoutTenant(w), row) == Eval(w, row) || (Eval(WithoutTenant(w), row) != Yes && Eval(w, row) != Yes)
  {
  }

  /** On a shared table the rewritten filter finds what the original finds on the tenant's own table. */
  lemma SelectedInSlice(db: Table, w: Where, t: string)
    requires OwnTenantOnly(w, t)
    ensures Selected(db, Restrict(w, t)) == Selected(Slice(db, t), w)
  {
    forall id | id in db
      ensures id in Selected(db, Restrict(w, t)) <==> id in Selected(Slice(db, t), w)
    {
      var row := db[id]["id" := Number(id)];
      assert Column(row, TENANT) == Column(db[id], TENANT);
      RestrictSelects(w, t, row);
      if Column(row, TENANT) == Text(t) {
        OwnTenantIsFree(w, t, row);
      }
    }
  }

  /** A foreign tenant condition at the top of the filter is replaced, not conjoined: the rewritten
      filter departs from the tenant's own reading of the original on exactly those of the tenant's
      rows that only the foreign condition kept out. */
  lemma RewriteAgreesExactly(w: Where, t: string, row: Row)
    ensures (Eval(Restrict(w, t), row) == Yes <==> Column(row, TENANT) == Text(t) && Eval(w, row) == Yes)
            <==>
            (OwnTenantOnly(w, t) || Column(row, TENANT) != Text(t) || Eval(WithoutTenant(w), row) != Yes)
  {
  }

  // ---------- one step: shared against private ----------

  function StampRows(p: Payload, t: string): Payload {
    match p
    case NoPayload => NoPayload
    case One(row) => One(Stamp(row, t))
    case Many(rows) => Many(StampAll(rows, t))
  }

  /** The private run keeps the query as written and only stamps what it creates. */
  function Stamped(q: Query, t: string): Query {
    var args := ArgsOf(q);
    match q.action
    case Create => q.(args := Some(args.(data := StampOne(args.data, t))))
    case CreateMany => q.(args := Some(args.(data := StampRows(args.data, t))))
    case UnlistedCreate => q.(args := Some(args.(data := StampRows(args.data, t))))
    case Upsert => q.(args := Some(args.(create := Some(Stamp(Default(args.create, map[]), t)))))
    case _ => q
  }

  predicate KeepsTenant(data: Row, t: string) {
    TENANT in data ==> data[TENANT] == Text(t)
  }

  predicate Listed(a: Action) {
    || a.FindUnique? || a.FindFirst? || a.FindMany? || a.Update? || a.UpdateMany? || a.Delete? || a.DeleteMany?
    || a.Count? || a.Aggregate? || a.Create? || a.CreateMany? || a.Upsert?
  }

  /** What the middleware promises to scope: every model but `Tenant`, in a listed action, for a tenant. */
  predicate ToBeScoped(q: Query, t: string) {
    q.model.Some? && q.model.value != "" && q.model.value != "Tenant" && t != "" && Listed(q.action)
  }

  /** A query to be scoped that has no foreign tenant condition of its own. */
  predicate Covered(q: Query, t: string) {
    ToBeScoped(q, t) && OwnTenantOnly(WhereOf(q), t)
  }

  ghost predicate Fresh(db: Table, q: Query, newId: nat) {
    var data := ArgsOf(q).data;
    var rows := if q.action.Create? || q.action.Upsert? then 1 else |RowsOf(data)|;
    forall id :: id in db ==> id < newId || newId + rows <= id
  }

  /** What is updated keeps its tenant, and a `createMany` given a bare object instead of an array brings
      its own stamp. */
  predicate Contained(db: Table, q: Query, t: string) {
    var args := ArgsOf(q);
    var hits := Selected(db, Restrict(WhereOf(q), t));
    match q.action
    case Update => hits == map[] || KeepsTenant(RowOf(args.data), t)
    case UpdateMany => hits == map[] || KeepsTenant(RowOf(args.data), t)
    case Upsert => hits == map[] || KeepsTenant(Default(args.update, map[]), t)
    case CreateMany => args.data.One? ==> TENANT in args.data.row && args.data.row[TENANT] == Text(t)
    case _ => true
  }

  /** The writes the middleware really confines: the unique indexes refuse on the shared table just when
      they would on the tenant's own, and what is written stays the tenant's. */
  predicate Confined(uniques: set<string>, db: Table, q: Query, t: string, newId: nat) {
    var refused := Refused(uniques, db, Scoped(q, t), newId);
    refused == Refused(uniques, Slice(db, t), Stamped(q, t), newId) && (refused || Contained(db, q, t))
  }

  /** Some written row shares a unique value with a row that is not the tenant's. */
  predicate HeldElsewhere(uniques: set<string>, db: Table, q: Query, t: string, newId: nat) {
    CollidesAbroad(uniques, Attempt(db, q, newId).table, Written(db, q, newId), t)
  }

  predicate CollidesAbroad(uniques: set<string>, table: Table, written: set<nat>, t: string) {
    exists id, j, c :: id in written && j in table && j !in Slice(table, t) && c in uniques && Shares(table, id, j, c)
  }

  /** The shared outcome is the private one seen from the whole table: same answer, same rows of the
      tenant, and no other tenant's rows moved. */
  ghost predicate Mirrors(db: Table, shared: Outcome, private: Outcome, t: string) {
    && Slice(shared.table, t) == private.table
    && shared.result == private.result
    && forall u :: u != t ==> Slice(shared.table, u) == Slice(db, u)
  }

  /** Running tenant `t`'s query on the shared table is running it on the tenant's own table. */
  ghost predicate Simulates(uniques: set<string>, db: Table, q: Query, t: string, newId: nat) {
    Mirrors(db, Exec(uniques, db, Scoped(q, t), newId), Exec(uniques, Slice(db, t), Stamped(q, t), newId), t)
  }

  lemma SliceOfPut(db: Table, id: nat, row: Row, t: string)
    requires id !in db && Column(row, TENANT) == Text(t)
    ensures Slice(db[id := row], t) == Slice(db, t)[id := row]
    ensures forall u :: u != t ==> Slice(db[id := row], u) == Slice(db, u)
  {
  }

  lemma {:induction false} InsertStamped(db: Table, rows: seq<Row>, t: string, newId: nat)
    requires forall id :: id in db ==> id < newId || newId + |rows| <= id
    requires forall r :: r in rows ==> Column(r, TENANT) == Text(t)
    ensures Slice(Insert(db, rows, newId), t) == Insert(Slice(db, t), rows, newId)
    ensures forall u :: u != t ==> Slice(Insert(db, rows, newId), u) == Slice(db, u)
    ensures forall id :: id in Insert(db, rows, newId) ==> id in db || newId <= id < newId + |rows|
  {
    if rows != [] {
      var front, last := rows[..|rows| - 1], rows[|rows| - 1];
      InsertStamped(db, front, t, newId);
      assert Column(last, TENANT) == Text(t) by { assert last in rows; }
      var before, own, id := Insert(db, front, newId), Insert(Slice(db, t), front, newId), newId + |rows| - 1;
      SliceOfPut(before, id, last, t);
      assert Insert(db, rows, newId) == before[id := last];
      assert Insert(Slice(db, t), rows, newId) == own[id := last];
    }
  }

  lemma HitsAreOwned(db: Table, w: Where, t: string)
    ensures forall id :: id in Selected(db, Restrict(w, t)) ==> Column(db[id], TENANT) == Text(t)
  {
    forall id | id in Selected(db, Restrict(w, t)) ensures Column(db[id], TENANT) == Text(t) {
      var row := db[id]["id" := Number(id)];
      assert Column(row, TENANT) == Column(db[id], TENANT);
      RestrictSelects(w, t, row);
    }
  }

  /** Of every model but `Tenant`, a query or upsert of a tenant finds rows stamped with that tenant only,
      whatever its own filter says. */
  lemma FindsOwnRowsOnly(db: Table, q: Query, t: string, id: nat)
    requires q.model.Some? && q.model.value != "" && q.model.value != "Tenant" && t != ""
    requires !q.action.Create? && !q.action.CreateMany?
    requires !q.action.UnlistedRead? && !q.action.UnlistedCreate? && !q.action.UnlistedUpdate?
    requires id in Selected(db, WhereOf(Scoped(q, t)))
    ensures id in db && "tenantId" in db[id] && db[id]["tenantId"] == Text(t)
  {
    HitsAreOwned(db, WhereOf(q), t);
    assert WhereOf(Scoped(q, t)) == Restrict(WhereOf(q), t);
  }

  /** And what it creates is stamped: the one object of `create`, an empty one if need be, every object of
      an array given to `createMany`, and the object an upsert creates. */
  lemma CreatesOwnRowsOnly(q: Query, t: string, i: nat)
    requires q.model.Some? && q.model.value != "" && q.model.value != "Tenant" && t != ""
    ensures var given, sent := ArgsOf(q), ArgsOf(Scoped(q, t));
      && (q.action.Create? && !given.data.Many? ==> sent.data == One(RowOf(given.data)["tenantId" := Text(t)]))
      && (q.action.CreateMany? && given.data.Many? ==> sent.data.Many? && |sent.data.rows| == |given.data.rows|)
      && (q.action.CreateMany? && given.data.Many? && i < |given.data.rows| ==>
          sent.data.rows[i] == given.data.rows[i]["tenantId" := Text(t)])
      && (q.action.Upsert? ==> sent.create == Some(Default(given.create, map[])["tenantId" := Text(t)]))
  {
  }

  ghost predicate OwnedHits(db: Table, hits: Table, t: string) {
    forall id :: id in hits ==> id in db && hits[id] == db[id] && Column(db[id], TENANT) == Text(t)
  }

  lemma UpdateExact(db: Table, hits: Table, data: Row, t: string)
    requires OwnedHits(db, hits, t) && hits != map[]
    ensures Mirrors(db, UpdateOne(db, hits, data), UpdateOne(Slice(db, t), hits, data), t) <==> KeepsTenant(data, t)
  {
    var id := Least(hits.Keys);
    PatchTenant(db[id], data, t);
    assert id in UpdateOne(Slice(db, t), hits, data).table;
  }

  lemma PatchTenant(row: Row, data: Row, t: string)
    requires Column(row, TENANT) == Text(t)
    ensures Column(Patch(row, data), TENANT) == Text(t) <==> KeepsTenant(data, t)
  {
  }

  lemma PatchKept(db: Table, ids: set<nat>, data: Row, t: string)
    requires forall id :: id in ids ==> id in db && Column(db[id], TENANT) == Text(t)
    requires KeepsTenant(data, t)
    ensures Slice(PatchAll(db, ids, data), t) == PatchAll(Slice(db, t), ids, data)
    ensures forall u :: u != t ==> Slice(PatchAll(db, ids, data), u) == Slice(db, u)
  {
    var after := PatchAll(db, ids, data);
    forall id | id in db ensures Column(after[id], TENANT) == Column(db[id], TENANT) {
      if id in ids { PatchTenant(db[id], data, t); }
    }
    assert Slice(after, t).Keys == Slice(db, t).Keys;
  }

  lemma UpdateManyExact(db: Table, hits: Table, data: Row, t: string)
    requires OwnedHits(db, hits, t)
    ensures Mirrors(db, Outcome(PatchAll(db, hits.Keys, data), Affected(|hits|)),
                    Outcome(PatchAll(Slice(db, t), hits.Keys, data), Affected(|hits|)), t)
            <==> hits == map[] || KeepsTenant(data, t)
  {
    if KeepsTenant(data, t) {
      PatchKept(db, hits.Keys, data, t);
    } else if hits == map[] {
      assert PatchAll(db, hits.Keys, data) == db;
      assert PatchAll(Slice(db, t), hits.Keys, data) == Slice(db, t);
    } else {
      var id :| id in hits;
      PatchTenant(db[id], data, t);
      assert id in PatchAll(Slice(db, t), hits.Keys, data) && id !in Slice(PatchAll(db, hits.Keys, data), t);
    }
  }

  lemma CreateManyExact(db: Table, data: Payload, t: string, newId: nat)
    requires data != NoPayload
    requires forall id :: id in db ==> id < newId || newId + (if data.Many? then |data.rows| else 1) <= id
    ensures
      var shared := if data.Many? then StampAll(data.rows, t) else [data.row];
      var own := if data.Many? then StampAll(data.rows, t) else [Stamp(data.row, t)];
      Mirrors(db, Outcome(Insert(db, shared, newId), Affected(|shared|)),
        Outcome(Insert(Slice(db, t), own, newId), Affected(|own|)), t)
      <==> (data.One? ==> TENANT in data.row && data.row[TENANT] == Text(t))
  {
    if data.Many? {
      InsertStamped(db, StampAll(data.rows, t), t, newId);
    } else if TENANT in data.row && data.row[TENANT] == Text(t) {
      assert Stamp(data.row, t) == data.row;
      InsertStamped(db, [data.row], t, newId);
    } else {
      assert newId in Insert(Slice(db, t), [Stamp(data.row, t)], newId);
      assert Insert(db, [data.row], newId)[newId] == data.row;
    }
  }

  /** Both sides act on the same rows. */
  lemma SameHits(db: Table, q: Query, t: string, newId: nat) returns (hits: Table)
    requires Covered(q, t) && !q.action.Create? && !q.action.CreateMany?
    ensures hits == Selected(db, Restrict(WhereOf(q), t)) && OwnedHits(db, hits, t)
    ensures Attempt(db, Scoped(q, t), newId) == Run(db, q.action, hits, ArgsOf(Scoped(q, t)), newId)
    ensures Attempt(Slice(db, t), Stamped(q, t), newId) ==
      Run(Slice(db, t), q.action, hits, ArgsOf(Stamped(q, t)), newId)
    ensures Written(db, Scoped(q, t), newId) == Touched(q.action, hits, ArgsOf(Scoped(q, t)), newId)
    ensures Written(Slice(db, t), Stamped(q, t), newId) == Touched(q.action, hits, ArgsOf(Stamped(q, t)), newId)
  {
    hits := Selected(db, Restrict(WhereOf(q), t));
    SelectedInSlice(db, WhereOf(q), t);
    HitsAreOwned(db, WhereOf(q), t);
    ScopedFilter(q, t);
  }

  lemma ScopedFilter(q: Query, t: string)
    requires Covered(q, t) && !q.action.Create? && !q.action.CreateMany?
    ensures WhereOf(Scoped(q, t)) == Restrict(WhereOf(q), t) && WhereOf(Stamped(q, t)) == WhereOf(q)
    ensures Scoped(q, t).action == Stamped(q, t).action == q.action
    ensures !q.action.Upsert? ==> ArgsOf(Scoped(q, t)).data == ArgsOf(Stamped(q, t)).data == ArgsOf(q).data
  {
  }

  ghost predicate Corresponds(db: Table, q: Query, t: string, newId: nat) {
    Mirrors(db, Attempt(db, Scoped(q, t), newId), Attempt(Slice(db, t), Stamped(q, t), newId), t)
  }

  lemma ReadStep(db: Table, q: Query, t: string, newId: nat)
    requires Covered(q, t) && IsRead(q.action)
    ensures Corresponds(db, q, t, newId)
  {
    var hits := SameHits(db, q, t, newId);
  }

  lemma UpdateStep(db: Table, q: Query, t: string, newId: nat)
    requires Covered(q, t) && IsUpdate(q.action)
    ensures Corresponds(db, q, t, newId) <==> Contained(db, q, t)
  {
    var hits := SameHits(db, q, t, newId);
    var data := RowOf(ArgsOf(q).data);
    ScopedFilter(q, t);
    if q.action == UpdateMany {
      UpdateManyExact(db, hits, data, t);
    } else if hits != map[] {
      UpdateExact(db, hits, data, t);
    }
  }

  lemma DeleteStep(db: Table, q: Query, t: string, newId: nat)
    requires Covered(q, t) && IsDelete(q.action)
    ensures Corresponds(db, q, t, newId)
  {
    var hits := SameHits(db, q, t, newId);
    DeleteOwned(db, q.action, hits, t);
  }

  lemma DeleteOwned(db: Table, action: Action, hits: Table, t: string)
    requires OwnedHits(db, hits, t) && IsDelete(action)
    ensures Mirrors(db, RunDelete(db, action, hits), RunDelete(Slice(db, t), action, hits), t)
  {
    if action.DeleteMany? {
      RemoveOwned(db, hits.Keys, t);
    } else if hits != map[] {
      RemoveOwned(db, {Least(hits.Keys)}, t);
    }
  }

  lemma RemoveOwned(db: Table, ids: set<nat>, t: string)
    requires forall id :: id in ids ==> id in db && Column(db[id], TENANT) == Text(t)
    ensures Slice(db - ids, t) == Slice(db, t) - ids
    ensures forall u :: u != t ==> Slice(db - ids, u) == Slice(db, u)
  {
  }

  lemma UpsertStep(db: Table, q: Query, t: string, newId: nat)
    requires Covered(q, t) && Fresh(db, q, newId) && q.action == Upsert
    ensures Corresponds(db, q, t, newId) <==> Contained(db, q, t)
  {
    var args := ArgsOf(q);
    var hits := SameHits(db, q, t, newId);
    if hits == map[] {
      InsertStamped(db, [Stamp(Default(args.create, map[]), t)], t, newId);
    } else {
      UpdateExact(db, hits, Default(args.update, map[]), t);
    }
  }

  lemma CreateStep(db: Table, q: Query, t: string, newId: nat)
    requires Covered(q, t) && Fresh(db, q, newId) && (q.action.Create? || q.action.CreateMany?)
    ensures Corresponds(db, q, t, newId) <==> Contained(db, q, t)
  {
    var data := ArgsOf(q).data;
    if q.action == CreateMany {
      if data != NoPayload { CreateManyExact(db, data, t, newId); }
    } else if !data.Many? {
      InsertStamped(db, [StampOne(data, t).row], t, newId);
    }
  }

  /** Before the unique indexes are consulted, a covered query acts on the shared table as on the private
      one exactly when it keeps to its tenant. */
  lemma AttemptExact(db: Table, q: Query, t: string, newId: nat)
    requires Covered(q, t) && Fresh(db, q, newId)
    ensures Corresponds(db, q, t, newId) <==> Contained(db, q, t)
  {
    if IsRead(q.action) {
      ReadStep(db, q, t, newId);
    } else if IsDelete(q.action) {
      DeleteStep(db, q, t, newId);
    } else if IsUpdate(q.action) {
      UpdateStep(db, q, t, newId);
    } else if q.action == Upsert {
      UpsertStep(db, q, t, newId);
    } else {
      CreateStep(db, q, t, newId);
    }
  }

  // ---------- unique columns ----------

  lemma NeverDuplicate(db: Table, action: Action, hits: Table, args: Args, newId: nat)
    ensures Run(db, action, hits, args, newId).result != Duplicate
  {
  }

  /** With the unique indexes on both sides, the outcomes mirror each other exactly when both sides refuse,
      or neither does and they mirrored before. */
  lemma GuardExact(uniques: set<string>, db: Table, shared: Query, private: Query, t: string, newId: nat)
    ensures Mirrors(db, Exec(uniques, db, shared, newId), Exec(uniques, Slice(db, t), private, newId), t) <==>
      var refused := Refused(uniques, db, shared, newId);
      refused == Refused(uniques, Slice(db, t), private, newId)
      && (refused || Mirrors(db, Attempt(db, shared, newId), Attempt(Slice(db, t), private, newId), t))
  {
    NeverDuplicate(db, shared.action, Selected(db, WhereOf(shared)), ArgsOf(shared), newId);
    NeverDuplicate(Slice(db, t), private.action, Selected(Slice(db, t), WhereOf(private)), ArgsOf(private), newId);
  }

  /** For a covered query, the shared table simulates the private one exactly when its writes are confined. */
  lemma StepExact(uniques: set<string>, db: Table, q: Query, t: string, newId: nat)
    requires Covered(q, t) && Fresh(db, q, newId)
    ensures Simulates(uniques, db, q, t, newId) <==> Confined(uniques, db, q, t, newId)
  {
    AttemptExact(db, q, t, newId);
    GuardExact(uniques, db, Scoped(q, t), Stamped(q, t), t, newId);
  }

  /** The written rows are the same on both sides, and present in the tenant's own table. */
  lemma SameWritten(db: Table, q: Query, t: string, newId: nat)
    requires Covered(q, t) && Contained(db, q, t)
    ensures Written(db, Scoped(q, t), newId) == Written(Slice(db, t), Stamped(q, t), newId)
  {
    if !q.action.Create? && !q.action.CreateMany? {
      var _ := SameHits(db, q, t, newId);
    }
  }

  lemma {:induction false} InsertedKeys(db: Table, rows: seq<Row>, newId: nat)
    ensures Insert(db, rows, newId).Keys == db.Keys + Created(rows, newId).Keys
  {
    if rows != [] {
      InsertedKeys(db, rows[..|rows| - 1], newId);
      assert Created(rows, newId).Keys == Created(rows[..|rows| - 1], newId).Keys + {newId + |rows| - 1};
    }
  }

  lemma WrittenIsThere(db: Table, action: Action, hits: Table, args: Args, newId: nat)
    requires hits.Keys <= db.Keys
    ensures Touched(action, hits, args, newId) <= Run(db, action, hits, args, newId).table.Keys
  {
    match action
    case CreateMany => InsertedKeys(db, RowsOf(args.data), newId);
    case UnlistedCreate => InsertedKeys(db, RowsOf(args.data), newId);
    case _ =>
  }

  /** What a contained query is refused for on the shared table: what would refuse it on the tenant's own,
      or a value of a unique column that a row of somebody else holds. */
  lemma RefusedExactly(uniques: set<string>, db: Table, q: Query, t: string, newId: nat)
    requires Covered(q, t) && Fresh(db, q, newId) && Contained(db, q, t)
    ensures Refused(uniques, db, Scoped(q, t), newId) <==>
      Refused(uniques, Slice(db, t), Stamped(q, t), newId) || HeldElsewhere(uniques, db, Scoped(q, t), t, newId)
  {
    var own := Stamped(q, t);
    AttemptExact(db, q, t, newId);
    SameWritten(db, q, t, newId);
    WrittenIsThere(Slice(db, t), own.action, Selected(Slice(db, t), WhereOf(own)), ArgsOf(own), newId);
    CollisionSplits(uniques, Attempt(db, Scoped(q, t), newId).table, Written(db, Scoped(q, t), newId), t);
  }

  lemma CollisionSplits(uniques: set<string>, after: Table, written: set<nat>, t: string)
    requires written <= Slice(after, t).Keys
    ensures Collides(uniques, after, written) <==>
      Collides(uniques, Slice(after, t), written) || CollidesAbroad(uniques, after, written, t)
  {
    var own := Slice(after, t);
    assert forall i :: i in own ==> i in after && own[i] == after[i];
    if Collides(uniques, after, written) {
      var id: nat, j: nat, c :| id in written && j in after && j != id && c in uniques && Shares(after, id, j, c);
      assert j in own ==> Shares(own, id, j, c);
    }
    if Collides(uniques, own, written) {
      var id: nat, j: nat, c :| id in written && j in own && j != id && c in uniques && Shares(own, id, j, c);
      assert Shares(after, id, j, c);
    }
  }

  /** So a contained query is simulated exactly when no row of somebody else holds a unique value that it
      writes, unless its own table refuses it as well. */
  lemma ContainedSimulatesExactly(uniques: set<string>, db: Table, q: Query, t: string, newId: nat)
    requires Covered(q, t) && Fresh(db, q, newId) && Contained(db, q, t)
    ensures Simulates(uniques, db, q, t, newId) <==>
      !HeldElsewhere(uniques, db, Scoped(q, t), t, newId) || Refused(uniques, Slice(db, t), Stamped(q, t), newId)
  {
    StepExact(uniques, db, q, t, newId);
    RefusedExactly(uniques, db, q, t, newId);
  }

  /** The situation arises for every tenant and row: creating a row with a value in a unique column that a
      row of somebody else holds is refused, while the tenant's own table would take it. */
  lemma ForeignValueRefuses(uniques: set<string>, db: Table, model: string, t: string, row: Row, newId: nat, j: nat,
          c: string)
    requires t != "" && model != "" && model != "Tenant" && newId !in db
    requires c in uniques && c != TENANT && j in db && j !in Slice(db, t) && SameValue(row, db[j], c)
    requires forall i, d :: i in Slice(db, t) && d in uniques ==> !SameValue(Stamp(row, t), db[i], d)
    ensures var q := Query(Some(model), Create, Some(NoArgs.(data := One(row))));
      && Exec(uniques, db, Scoped(q, t), newId) == Outcome(db, Duplicate)
      && Exec(uniques, Slice(db, t), Stamped(q, t), newId).result == OneRow(newId, Stamp(row, t))
  {
    var q := Query(Some(model), Create, Some(NoArgs.(data := One(row))));
    var stamped := Stamp(row, t);
    assert Insert(db, [stamped], newId) == db[newId := stamped] by { assert [stamped][..0] == []; }
    assert Insert(Slice(db, t), [stamped], newId) == Slice(db, t)[newId := stamped] by { assert [stamped][..0] == []; }
    assert Shares(db[newId := stamped], newId, j, c);
  }

  lemma StampAllTwice(rows: seq<Row>, t: string)
    ensures StampAll(StampAll(rows, t), t) == StampAll(rows, t)
  {
    forall i | 0 <= i < |rows| ensures Stamp(Stamp(rows[i], t), t) == Stamp(rows[i], t) {
    }
  }

  /** Rewriting a rewritten query changes nothing more. */
  lemma ScopedTwice(q: Query, t: string)
    ensures Scoped(Scoped(q, t), t) == Scoped(q, t)
  {
    var args := ArgsOf(q);
    RestrictTwice(Default(args.where, Everything), t);
    match q.action
    case Create =>
      var row := RowOf(args.data);
      assert Stamp(Stamp(row, t), t) == Stamp(row, t);
    case CreateMany =>
      if args.data.Many? { StampAllTwice(args.data.rows, t); }
    case Upsert =>
      var create := Default(args.create, map[]);
      assert Stamp(Stamp(create, t), t) == Stamp(create, t);
    case _ =>
  }

  // ---------- whole runs ----------

  datatype Call = Call(tenant: string, query: Query, newId: nat)

  datatype History = History(table: Table, results: seq<Result>)

  /** Every call goes through the middleware to the one shared table. */
  function SharedRun(uniques: set<string>, db: Table, calls: seq<Call>): History
    decreases calls
  {
    if calls == [] then History(db, [])
    else
      var c := calls[0];
      var now := Exec(uniques, db, Scoped(c.query, c.tenant), c.newId);
      var later := SharedRun(uniques, now.table, calls[1..]);
      History(later.table, [now.result] + later.results)
  }

  /** Only the calls of tenant `t`, unscoped, on a table holding only its rows. */
  function PrivateRun(uniques: set<string>, own: Table, calls: seq<Call>, t: string): History
    decreases calls
  {
    if calls == [] then History(own, [])
    else if calls[0].tenant != t then PrivateRun(uniques, own, calls[1..], t)
    else
      var now := Exec(uniques, own, Stamped(calls[0].query, t), calls[0].newId);
      var later := PrivateRun(uniques, now.table, calls[1..], t);
      History(later.table, [now.result] + later.results)
  }

  /** The answers that tenant `t` received. */
  function ResultsOf(calls: seq<Call>, results: seq<Result>, t: string): seq<Result>
    requires |results| == |calls|
  {
    if calls == [] then []
    else (if calls[0].tenant == t then [results[0]] else []) + ResultsOf(calls[1..], results[1..], t)
  }

  lemma {:induction false} SharedRunLength(uniques: set<string>, db: Table, calls: seq<Call>)
    ensures |SharedRun(uniques, db, calls).results| == |calls|
    decreases calls
  {
    if calls != [] {
      var call := calls[0];
      SharedRunLength(uniques, Exec(uniques, db, Scoped(call.query, call.tenant), call.newId).table, calls[1..]);
    }
  }

  /** Every call is covered and confined, with fresh identifiers, when its turn comes. */
  ghost predicate Admissible(uniques: set<string>, db: Table, calls: seq<Call>)
    decreases calls
  {
    calls == [] ||
    (var c := calls[0];
     && Covered(c.query, c.tenant)
     && Fresh(db, c.query, c.newId)
     && Confined(uniques, db, c.query, c.tenant, c.newId)
     && Admissible(uniques, Exec(uniques, db, Scoped(c.query, c.tenant), c.newId).table, calls[1..]))
  }

  /** However the calls of the tenants interleave, each tenant gets the answers, and ends with the
      rows, of running its own calls alone on a private table that held just its rows. */
  lemma {:induction false} Simulation(uniques: set<string>, db: Table, calls: seq<Call>, t: string)
    requires Admissible(uniques, db, calls)
    ensures |SharedRun(uniques, db, calls).results| == |calls|
    ensures Slice(SharedRun(uniques, db, calls).table, t) == PrivateRun(uniques, Slice(db, t), calls, t).table
    ensures ResultsOf(calls, SharedRun(uniques, db, calls).results, t) ==
      PrivateRun(uniques, Slice(db, t), calls, t).results
    decreases calls
  {
    SharedRunLength(uniques, db, calls);
    if calls != [] {
      var c := calls[0];
      var now := Exec(uniques, db, Scoped(c.query, c.tenant), c.newId);
      StepExact(uniques, db, c.query, c.tenant, c.newId);
      assert Simulates(uniques, db, c.query, c.tenant, c.newId);
      Simulation(uniques, now.table, calls[1..], t);
      assert SharedRun(uniques, db, calls).results[1..] == SharedRun(uniques, now.table, calls[1..]).results;
      if c.tenant != t {
        assert Slice(now.table, t) == Slice(db, t);
      }
    }
  }

  /** A tenant that makes no call finds its rows as they were, whatever the others did. */
  lemma {:induction false} BystanderUntouched(uniques: set<string>, db: Table, calls: seq<Call>, t: string)
    requires Admissible(uniques, db, calls)
    requires forall c :: c in calls ==> c.tenant != t
    ensures Slice(SharedRun(uniques, db, calls).table, t) == Slice(db, t)
    decreases calls
  {
    if calls != [] {
      var c := calls[0];
      StepExact(uniques, db, c.query, c.tenant, c.newId);
      assert Simulates(uniques, db, c.query, c.tenant, c.newId);
      BystanderUntouched(uniques, Exec(uniques, db, Scoped(c.query, c.tenant), c.newId).table, calls[1..], t);
    }
  }
}
