/** Queries the middleware passes on as they are: those with an action in neither of its lists, those of a
    model it does not scope, and all of them when no tenant is in the context. For each of them: exactly
    when running it on the shared table still is running it on the tenant's own. */
module UnscopedQueries {
  import opened Common
  import opened TenantScoping

  /** What passes unchanged. */
  predicate Bypasses(q: Query, context: string) {
    !ToBeScoped(q, context)
  }

  lemma BypassIsUnchanged(q: Query, context: string)
    requires Bypasses(q, context)
    ensures Scoped(q, context) == q
  {
  }

  predicate Owned(row: Row, t: string) {
    Column(row, TENANT) == Text(t)
  }

  predicate AllOwned(hits: Table, t: string) {
    forall id :: id in hits ==> Owned(hits[id], t)
  }

  /** The row a single-row action picks is the tenant's, or there is none. */
  predicate FirstOwned(hits: Table, t: string) {
    hits == map[] || Owned(hits[Least(hits.Keys)], t)
  }

  predicate AllStamped(rows: seq<Row>, t: string) {
    forall i :: 0 <= i < |rows| ==> Owned(rows[i], t)
  }

  /** Whether the answer shows the tenant's rows only: one row where a single one is asked for. */
  predicate ReadKeeps(action: Action, hits: Table, t: string) {
    if action.FindUnique? || action.FindFirst? then FirstOwned(hits, t) else AllOwned(hits, t)
  }

  predicate DeleteKeeps(action: Action, hits: Table, t: string) {
    if action.DeleteMany? then AllOwned(hits, t) else FirstOwned(hits, t)
  }

  predicate UpdateKeeps(action: Action, hits: Table, data: Row, t: string) {
    && (if action.Update? then FirstOwned(hits, t) else AllOwned(hits, t))
    && (hits == map[] || KeepsTenant(data, t))
  }

  predicate CreateKeeps(action: Action, hits: Table, args: Args, t: string) {
    match action
    case Create => args.data.Many? || Owned(RowOf(args.data), t)
    case Upsert =>
      if hits == map[] then Owned(Default(args.create, map[]), t)
      else FirstOwned(hits, t) && KeepsTenant(Default(args.update, map[]), t)
    case _ => AllStamped(RowsOf(args.data), t)
  }

  /** What an unscoped query must satisfy to keep to tenant `t`: the rows its own filter selects, or the one
      row it picks, are the tenant's, and what it writes carries the tenant's stamp. */
  predicate KeepsToTenant(db: Table, q: Query, t: string) {
    var hits, args := Selected(db, WhereOf(q)), ArgsOf(q);
    if IsRead(q.action) then ReadKeeps(q.action, hits, t)
    else if IsDelete(q.action) then DeleteKeeps(q.action, hits, t)
    else if IsUpdate(q.action) then UpdateKeeps(q.action, hits, RowOf(args.data), t)
    else CreateKeeps(q.action, hits, args, t)
  }

  ghost predicate Agrees(db: Table, q: Query, t: string, newId: nat) {
    Mirrors(db, Attempt(db, q, newId), Attempt(Slice(db, t), Stamped(q, t), newId), t)
  }

  // ---------- the rows found ----------

  function OwnedPart(hits: Table, t: string): Table {
    map id | id in hits && Owned(hits[id], t) :: hits[id]
  }

  lemma PrivateHits(db: Table, w: Where, t: string)
    ensures Selected(Slice(db, t), w) == OwnedPart(Selected(db, w), t)
  {
  }

  lemma OwnedPartExactly(hits: Table, t: string)
    ensures OwnedPart(hits, t) == hits <==> AllOwned(hits, t)
    ensures |OwnedPart(hits, t)| == |hits| <==> AllOwned(hits, t)
  {
    var own := OwnedPart(hits, t);
    assert |own| == |own.Keys| && |hits| == |hits.Keys|;
    if !AllOwned(hits, t) {
      var id :| id in hits && !Owned(hits[id], t);
      SubsetSize(own.Keys, hits.Keys - {id});
    } else {
      assert own == hits;
    }
  }

  /** Both tables pick the same row just when the one picked on the shared table is the tenant's. */
  lemma FirstExactly(hits: Table, t: string)
    ensures FirstOwned(hits, t) && hits != map[] ==>
      OwnedPart(hits, t) != map[] && Least(OwnedPart(hits, t).Keys) == Least(hits.Keys)
    ensures !FirstOwned(hits, t) ==> OwnedPart(hits, t) == map[] || Least(OwnedPart(hits, t).Keys) != Least(hits.Keys)
  {
    if FirstOwned(hits, t) && hits != map[] {
      assert Least(hits.Keys) in OwnedPart(hits, t);
    }
  }

  lemma FirstResultExactly(hits: Table, t: string)
    ensures First(hits) == First(OwnedPart(hits, t)) <==> FirstOwned(hits, t)
  {
    FirstExactly(hits, t);
    if hits == map[] {
      assert OwnedPart(hits, t) == map[];
    }
  }

  // ---------- one kind of action after another ----------

  /** Both sides run the same action, each on its own part of the rows. */
  lemma Sides(db: Table, q: Query, t: string, newId: nat) returns (hits: Table)
    ensures hits == Selected(db, WhereOf(q)) && forall id :: id in hits ==> id in db && hits[id] == db[id]
    ensures Attempt(db, q, newId) == Run(db, q.action, hits, ArgsOf(q), newId)
    ensures Attempt(Slice(db, t), Stamped(q, t), newId)
            == Run(Slice(db, t), q.action, OwnedPart(hits, t), ArgsOf(Stamped(q, t)), newId)
  {
    hits := Selected(db, WhereOf(q));
    PrivateHits(db, WhereOf(q), t);
    assert WhereOf(Stamped(q, t)) == WhereOf(q) && Stamped(q, t).action == q.action;
  }

  lemma ReadAgrees(db: Table, q: Query, t: string, newId: nat)
    requires IsRead(q.action)
    ensures Agrees(db, q, t, newId) <==> KeepsToTenant(db, q, t)
  {
    var hits := Sides(db, q, t, newId);
    AnswersAgree(q.action, hits, t);
  }

  lemma AnswersAgree(action: Action, hits: Table, t: string)
    requires IsRead(action)
    ensures ReadResult(action, hits) == ReadResult(action, OwnedPart(hits, t)) <==> ReadKeeps(action, hits, t)
  {
    OwnedPartExactly(hits, t);
    FirstResultExactly(hits, t);
  }

  lemma DeleteAgrees(db: Table, q: Query, t: string, newId: nat)
    requires IsDelete(q.action)
    ensures Agrees(db, q, t, newId) <==> KeepsToTenant(db, q, t)
  {
    var hits := Sides(db, q, t, newId);
    DeletionAgrees(db, q.action, hits, t);
  }

  lemma DeletionAgrees(db: Table, action: Action, hits: Table, t: string)
    requires IsDelete(action) && forall id :: id in hits ==> id in db && hits[id] == db[id]
    ensures Mirrors(db, RunDelete(db, action, hits), RunDelete(Slice(db, t), action, OwnedPart(hits, t)), t) <==>
      DeleteKeeps(action, hits, t)
  {
    OwnedPartExactly(hits, t);
    FirstExactly(hits, t);
    if action.DeleteMany? && AllOwned(hits, t) {
      RemoveOwned(db, hits.Keys, t);
    } else if action.Delete? && FirstOwned(hits, t) && hits != map[] {
      RemoveOwned(db, {Least(hits.Keys)}, t);
    } else if hits == map[] {
      assert OwnedPart(hits, t) == map[];
    }
  }

  lemma UpdateAgrees(db: Table, q: Query, t: string, newId: nat)
    requires IsUpdate(q.action)
    ensures Agrees(db, q, t, newId) <==> KeepsToTenant(db, q, t)
  {
    var hits := Sides(db, q, t, newId);
    assert ArgsOf(Stamped(q, t)) == ArgsOf(q);
    if q.action.Update? {
      SingleUpdateAgrees(db, hits, RowOf(ArgsOf(q).data), t);
    } else {
      ManyUpdateAgrees(db, q.action, hits, RowOf(ArgsOf(q).data), t);
    }
  }

  lemma SingleUpdateAgrees(db: Table, hits: Table, data: Row, t: string)
    requires forall id :: id in hits ==> id in db && hits[id] == db[id]
    ensures Mirrors(db, RunUpdate(db, Update, hits, data),
      RunUpdate(Slice(db, t), Update, OwnedPart(hits, t), data), t) <==>
      UpdateKeeps(Update, hits, data, t)
  {
    FirstExactly(hits, t);
    if hits == map[] {
      assert OwnedPart(hits, t) == map[];
    } else if FirstOwned(hits, t) {
      PickedUpdateExact(db, Least(hits.Keys), data, t);
    }
  }

  /** Updating one row of the tenant mirrors exactly when the data keeps the tenant. */
  lemma PickedUpdateExact(db: Table, id: nat, data: Row, t: string)
    requires id in db && Owned(db[id], t)
    ensures Slice(db[id := Patch(db[id], data)], t) == Slice(db, t)[id := Patch(db[id], data)] <==> KeepsTenant(data, t)
    ensures KeepsTenant(data, t) ==> forall u :: u != t ==> Slice(db[id := Patch(db[id], data)], u) == Slice(db, u)
  {
    PatchTenant(db[id], data, t);
    assert id in Slice(db, t)[id := Patch(db[id], data)];
  }

  lemma ManyUpdateAgrees(db: Table, action: Action, hits: Table, data: Row, t: string)
    requires action.UpdateMany? || action.UnlistedUpdate?
    requires forall id :: id in hits ==> id in db && hits[id] == db[id]
    ensures Mirrors(db, RunUpdate(db, action, hits, data),
      RunUpdate(Slice(db, t), action, OwnedPart(hits, t), data), t) <==>
      UpdateKeeps(action, hits, data, t)
  {
    OwnedPartExactly(hits, t);
    if AllOwned(hits, t) {
      UpdateManyExact(db, hits, data, t);
    } else {
      var own := OwnedPart(hits, t);
      assert PatchAll(own, own.Keys, data).Keys == own.Keys && PatchAll(hits, hits.Keys, data).Keys == hits.Keys;
      assert own.Keys != hits.Keys;
    }
  }

  // ---------- creating ----------

  lemma {:induction false} InsertedAt(db: Table, rows: seq<Row>, newId: nat, k: nat)
    requires k < |rows|
    ensures newId + k in Insert(db, rows, newId) && Insert(db, rows, newId)[newId + k] == rows[k]
  {
    if k < |rows| - 1 {
      InsertedAt(db, rows[..|rows| - 1], newId, k);
    }
  }

  /** Rows inserted as they come mirror rows inserted with a stamp exactly when they carry it already. */
  lemma InsertionAgrees(db: Table, rows: seq<Row>, newId: nat, t: string)
    requires forall id :: id in db ==> id < newId || newId + |rows| <= id
    ensures AllStamped(rows, t) ==> StampAll(rows, t) == rows
    ensures AllStamped(rows, t) ==> forall u :: u != t ==> Slice(Insert(db, rows, newId), u) == Slice(db, u)
    ensures Slice(Insert(db, rows, newId), t) == Insert(Slice(db, t), StampAll(rows, t), newId) <==> AllStamped(rows, t)
  {
    if AllStamped(rows, t) {
      forall i | 0 <= i < |rows| ensures StampAll(rows, t)[i] == rows[i] {
        assert Owned(rows[i], t);
      }
      InsertStamped(db, rows, t, newId);
    } else {
      var k :| 0 <= k < |rows| && !Owned(rows[k], t);
      InsertedAt(db, rows, newId, k);
      InsertedAt(Slice(db, t), StampAll(rows, t), newId, k);
      assert newId + k !in Slice(Insert(db, rows, newId), t);
    }
  }

  lemma CreateManyAgrees(db: Table, q: Query, t: string, newId: nat)
    requires (q.action.CreateMany? || q.action.UnlistedCreate?) && Fresh(db, q, newId)
    ensures Agrees(db, q, t, newId) <==> KeepsToTenant(db, q, t)
  {
    var rows := RowsOf(ArgsOf(q).data);
    assert RowsOf(StampRows(ArgsOf(q).data, t)) == StampAll(rows, t);
    InsertionAgrees(db, rows, newId, t);
  }

  lemma CreateAgrees(db: Table, q: Query, t: string, newId: nat)
    requires q.action.Create? && Fresh(db, q, newId)
    ensures Agrees(db, q, t, newId) <==> KeepsToTenant(db, q, t)
  {
    var data := ArgsOf(q).data;
    if !data.Many? {
      assert StampAll([RowOf(data)], t) == [StampOne(data, t).row];
      InsertionAgrees(db, [RowOf(data)], newId, t);
    }
  }

  lemma UpsertAgrees(db: Table, q: Query, t: string, newId: nat)
    requires q.action.Upsert? && Fresh(db, q, newId)
    ensures Agrees(db, q, t, newId) <==> KeepsToTenant(db, q, t)
  {
    var hits := Sides(db, q, t, newId);
    var create, update := Default(ArgsOf(q).create, map[]), Default(ArgsOf(q).update, map[]);
    assert Default(ArgsOf(Stamped(q, t)).create, map[]) == Stamp(create, t);
    assert Default(ArgsOf(Stamped(q, t)).update, map[]) == update;
    if hits == map[] {
      assert OwnedPart(hits, t) == map[];
      assert StampAll([create], t) == [Stamp(create, t)];
      InsertionAgrees(db, [create], newId, t);
    } else {
      UpsertHitAgrees(db, hits, ArgsOf(q), ArgsOf(Stamped(q, t)), newId, t);
    }
  }

  lemma UpsertHitAgrees(db: Table, hits: Table, args: Args, own: Args, newId: nat, t: string)
    requires hits != map[] && forall id :: id in hits ==> id in db && hits[id] == db[id]
    requires Default(own.update, map[]) == Default(args.update, map[]) && newId !in db
    ensures Mirrors(db, RunCreate(db, Upsert, hits, args, newId),
      RunCreate(Slice(db, t), Upsert, OwnedPart(hits, t), own, newId), t) <==>
      FirstOwned(hits, t) && KeepsTenant(Default(args.update, map[]), t)
  {
    FirstExactly(hits, t);
    if FirstOwned(hits, t) {
      PickedUpdateExact(db, Least(hits.Keys), Default(args.update, map[]), t);
    }
  }

  // ---------- every unscoped query ----------

  lemma AgreesExactly(db: Table, q: Query, t: string, newId: nat)
    requires Fresh(db, q, newId)
    ensures Agrees(db, q, t, newId) <==> KeepsToTenant(db, q, t)
  {
    if IsRead(q.action) {
      ReadAgrees(db, q, t, newId);
    } else if IsDelete(q.action) {
      DeleteAgrees(db, q, t, newId);
    } else if IsUpdate(q.action) {
      UpdateAgrees(db, q, t, newId);
    } else if q.action.Upsert? {
      UpsertAgrees(db, q, t, newId);
    } else if q.action.Create? {
      CreateAgrees(db, q, t, newId);
    } else {
      CreateManyAgrees(db, q, t, newId);
    }
  }

  /** A query that passes unscoped runs on the shared table as on the tenant's own exactly when both sides
      refuse it for a unique index, or neither does and it keeps to the tenant of itself: its own filter
      selects, or picks, only rows of the tenant, and it writes only with the tenant's stamp. */
  lemma BypassExact(uniques: set<string>, db: Table, q: Query, context: string, t: string, newId: nat)
    requires Bypasses(q, context) && Fresh(db, q, newId)
    ensures Mirrors(db, Exec(uniques, db, Scoped(q, context), newId),
      Exec(uniques, Slice(db, t), Stamped(q, t), newId), t) <==>
      var refused := Refused(uniques, db, q, newId);
      refused == Refused(uniques, Slice(db, t), Stamped(q, t), newId) && (refused || KeepsToTenant(db, q, t))
  {
    BypassIsUnchanged(q, context);
    AgreesExactly(db, q, t, newId);
    GuardExact(uniques, db, q, Stamped(q, t), t, newId);
  }

  // ---------- what goes wrong ----------

  /** A throwing finder, or any other unlisted read, without a filter returns the rows of everybody: it shows
      a tenant rows that are not its own whenever there are any. */
  lemma UnlistedReadLeaks(uniques: set<string>, db: Table, model: string, t: string, newId: nat, id: nat)
    requires id in db && !Owned(db[id], t)
    ensures var q := Query(Some(model), UnlistedRead, None);
      var o := Exec(uniques, db, Scoped(q, t), newId);
      o.result == Rows(db) && id in o.result.rows && id !in Slice(db, t)
  {
    forall i | i in db ensures Eval(Everything, db[i]["id" := Number(i)]) == Yes {
      EvalYes(Everything, db[i]["id" := Number(i)]);
    }
    assert Selected(db, Everything) == db;
  }

  /** `createManyAndReturn` inserts its rows without a stamp, so the tenant does not find them among its own. */
  lemma UnlistedCreateIsLost(uniques: set<string>, db: Table, model: string, t: string, rows: seq<Row>, newId: nat,
          k: nat)
    requires k < |rows| && TENANT !in rows[k]
    ensures var q := Query(Some(model), UnlistedCreate, Some(NoArgs.(data := Many(rows))));
      var o := Exec(uniques, db, Scoped(q, t), newId);
      o.result != Duplicate ==> newId + k in o.table && newId + k !in Slice(o.table, t)
  {
    InsertedAt(db, rows, newId, k);
  }

  /** `updateManyAndReturn` without a filter rewrites the rows of everybody. */
  lemma UnlistedUpdateReachesOthers(uniques: set<string>, db: Table, model: string, t: string, data: Row, newId: nat,
          id: nat)
    requires id in db && !Owned(db[id], t) && Patch(db[id], data) != db[id]
    ensures var q := Query(Some(model), UnlistedUpdate, Some(NoArgs.(data := One(data))));
      var o := Exec(uniques, db, Scoped(q, t), newId);
      o.result != Duplicate ==> id in o.table && o.table[id] != db[id]
  {
    EvalYes(Everything, db[id]["id" := Number(id)]);
  }
}
