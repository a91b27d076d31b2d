/** The two merge loops that list a user's effective permissions, and why the list says the same as the
    permissions guard, which computes its answer by another route. */
module EffectivePermissions {
  import opened Common
  import opened Directory
  import opened DirectoryScope

  /** A permission row as the relation query returns it. */
  datatype Row = Row(id: Id, permission: Permission)

  datatype RoleRow = RoleRow(id: Id, name: string, permissions: seq<Row>)

  datatype Entry = ViaRole(row: Row, roleName: string) | Direct(row: Row)

  /** Each role's permissions in turn, tagged with the role's name. */
  function RoleEntries(roles: seq<RoleRow>): seq<Entry> {
    if roles == [] then [] else Tagged(roles[0].permissions, roles[0].name) + RoleEntries(roles[1..])
  }

  function Tagged(rows: seq<Row>, name: string): seq<Entry> {
    seq(|rows|, i requires 0 <= i < |rows| => ViaRole(rows[i], name))
  }

  function DirectEntries(rows: seq<Row>): seq<Entry> {
    seq(|rows|, i requires 0 <= i < |rows| => Direct(rows[i]))
  }

  predicate Lists(entries: seq<Entry>, id: Id) {
    exists i :: 0 <= i < |entries| && entries[i].row.id == id
  }

  /** What the map holds after the loops, in insertion order: the first entry of each identifier. */
  function FirstOnly(entries: seq<Entry>): seq<Entry> {
    if entries == [] then []
    else
      var front, last := entries[..|entries| - 1], entries[|entries| - 1];
      if Lists(front, last.row.id) then FirstOnly(front) else FirstOnly(front) + [last]
  }

  /** `getEffectivePermissions`: role entries first, then direct ones, each kept when its identifier is new. */
  method GetEffectivePermissions(roles: seq<RoleRow>, direct: seq<Row>) returns (effective: seq<Entry>)
    ensures effective == FirstOnly(RoleEntries(roles) + DirectEntries(direct))
  {
    var viaRoles, own := RoleEntries(roles), DirectEntries(direct);
    var order: seq<Id>, held: map<Id, Entry> := [], map[];
    for i := 0 to |viaRoles|
      invariant Holds(order, held, viaRoles[..i])
    {
      Extended(viaRoles, i);
      MapFollows(order, held, viaRoles[..i], viaRoles[i]);
      if viaRoles[i].row.id !in held {
        order := order + [viaRoles[i].row.id];
        held := held[viaRoles[i].row.id := viaRoles[i]];
      }
    }
    assert viaRoles[..|viaRoles|] == viaRoles;
    assert viaRoles + own[..0] == viaRoles;
    for i := 0 to |own|
      invariant Holds(order, held, viaRoles + own[..i])
    {
      assert viaRoles + own[..i + 1] == viaRoles + own[..i] + [own[i]];
      MapFollows(order, held, viaRoles + own[..i], own[i]);
      if own[i].row.id !in held {
        order := order + [own[i].row.id];
        held := held[own[i].row.id := own[i]];
      }
    }
    assert own[..|own|] == own;
    effective := seq(|order|, i requires 0 <= i < |order| => held[order[i]]);
  }

  /** The map's keys in insertion order and its entries, after the given ones were offered to it. */
  ghost predicate Holds(order: seq<Id>, held: map<Id, Entry>, offered: seq<Entry>) {
    && |order| == |FirstOnly(offered)|
    && (forall i :: 0 <= i < |order| ==> order[i] in held && held[order[i]] == FirstOnly(offered)[i])
    && (forall id :: id in held <==> Lists(offered, id))
  }

  lemma Extended(s: seq<Entry>, i: nat)
    requires i < |s|
    ensures s[..i + 1] == s[..i] + [s[i]]
  {
  }

  lemma MapFollows(order: seq<Id>, held: map<Id, Entry>, offered: seq<Entry>, e: Entry)
    requires Holds(order, held, offered)
    ensures e.row.id in held ==> Holds(order, held, offered + [e])
    ensures e.row.id !in held ==> Holds(order + [e.row.id], held[e.row.id := e], offered + [e])
  {
  }

  // ---------- what the list says ----------

  /** The position of an identifier's first entry. */
  predicate IsFirst(entries: seq<Entry>, k: nat) {
    k < |entries| && !Lists(entries[..k], entries[k].row.id)
  }

  /** The list is the first entries, all of them, in their order: each identifier once. */
  lemma {:induction false} FirstOnlyExactly(entries: seq<Entry>) returns (at: seq<nat>)
    ensures |at| == |FirstOnly(entries)|
    ensures forall i :: 0 <= i < |at| ==>
      at[i] < |entries| && IsFirst(entries, at[i]) && FirstOnly(entries)[i] == entries[at[i]]
    ensures forall i, j :: 0 <= i < j < |at| ==> at[i] < at[j]
    ensures forall k :: IsFirst(entries, k) ==> k in at
  {
    if entries == [] {
      at := [];
    } else {
      var n := |entries| - 1;
      var front := entries[..n];
      at := FirstOnlyExactly(front);
      forall k: nat | k < n ensures IsFirst(entries, k) <==> IsFirst(front, k) {
        assert entries[..k] == front[..k];
      }
      if !Lists(front, entries[n].row.id) {
        at := at + [n];
      }
    }
  }

  lemma EachOnce(entries: seq<Entry>)
    ensures forall i, j :: 0 <= i < j < |FirstOnly(entries)| ==>
      FirstOnly(entries)[i].row.id != FirstOnly(entries)[j].row.id
    ensures forall id :: Lists(FirstOnly(entries), id) <==> Lists(entries, id)
  {
    var at := FirstOnlyExactly(entries);
    forall i, j | 0 <= i < j < |at| ensures FirstOnly(entries)[i].row.id != FirstOnly(entries)[j].row.id {
      assert IsFirst(entries, at[j]) && entries[..at[j]][at[i]] == entries[at[i]];
    }
    forall id | Lists(entries, id) ensures Lists(FirstOnly(entries), id) {
      var k := FirstOf(entries, id);
      var i :| 0 <= i < |at| && at[i] == k;
      assert FirstOnly(entries)[i].row.id == id;
    }
    forall id | Lists(FirstOnly(entries), id) ensures Lists(entries, id) {
      var i :| 0 <= i < |at| && FirstOnly(entries)[i].row.id == id;
      assert entries[at[i]].row.id == id;
    }
  }

  lemma {:induction false} FirstOf(entries: seq<Entry>, id: Id) returns (k: nat)
    requires Lists(entries, id)
    ensures IsFirst(entries, k) && entries[k].row.id == id
  {
    var front := entries[..|entries| - 1];
    assert entries == front + [entries[|entries| - 1]];
    if Lists(front, id) {
      k := FirstOf(front, id);
      assert entries[..k] == front[..k];
    } else {
      k := |entries| - 1;
    }
  }

  /** A role entry always wins over a direct one. */
  lemma RoleEntryWins(roles: seq<RoleRow>, direct: seq<Row>, e: Entry)
    requires e in FirstOnly(RoleEntries(roles) + DirectEntries(direct))
    ensures if Lists(RoleEntries(roles), e.row.id) then e.ViaRole? && e in RoleEntries(roles)
      else e.Direct? && e.row in direct
  {
    var viaRoles, own := RoleEntries(roles), DirectEntries(direct);
    var all := viaRoles + own;
    var at := FirstOnlyExactly(all);
    var i :| 0 <= i < |at| && FirstOnly(all)[i] == e;
    if at[i] < |viaRoles| {
      assert e == viaRoles[at[i]];
      assert e in viaRoles;
      RoleEntriesAreTagged(roles);
    } else {
      assert e == own[at[i] - |viaRoles|];
      forall j | 0 <= j < |viaRoles| ensures viaRoles[j].row.id != e.row.id {
        assert all[..at[i]][j] == viaRoles[j];
      }
    }
  }

  lemma {:induction false} RoleEntriesAreTagged(roles: seq<RoleRow>)
    ensures forall e :: e in RoleEntries(roles) <==>
      exists r, p :: r in roles && p in r.permissions && e == ViaRole(p, r.name)
  {
    if roles != [] {
      RoleEntriesAreTagged(roles[1..]);
      assert roles == [roles[0]] + roles[1..];
      forall p | p in roles[0].permissions
        ensures ViaRole(p, roles[0].name) in Tagged(roles[0].permissions, roles[0].name)
      {
        var i :| 0 <= i < |roles[0].permissions| && roles[0].permissions[i] == p;
        assert Tagged(roles[0].permissions, roles[0].name)[i] == ViaRole(p, roles[0].name);
      }
    }
  }

  lemma {:induction false} RolesInOrder(a: seq<RoleRow>, b: seq<RoleRow>)
    ensures RoleEntries(a + b) == RoleEntries(a) + RoleEntries(b)
  {
    if a == [] {
      assert a + b == b;
    } else {
      assert (a + b)[1..] == a[1..] + b;
      RolesInOrder(a[1..], b);
    }
  }

  lemma FirstIsKept(entries: seq<Entry>, k: nat)
    requires IsFirst(entries, k)
    ensures entries[k] in FirstOnly(entries)
  {
    var at := FirstOnlyExactly(entries);
    var i :| 0 <= i < |at| && at[i] == k;
    assert FirstOnly(entries)[i] == entries[k];
  }

  lemma MiddleIsKept(first: seq<Entry>, own: seq<Entry>, rest: seq<Entry>, k: nat)
    requires k < |own| && !Lists(first, own[k].row.id)
    requires forall j :: 0 <= j < k ==> own[j].row.id != own[k].row.id
    ensures own[k] in FirstOnly(first + own + rest)
  {
    var all := first + own + rest;
    assert all[..|first| + k] == first + own[..k];
    ListsEither(first, own[..k], own[k].row.id);
    FirstIsKept(all, |first| + k);
  }

  lemma RolesAround(before: seq<RoleRow>, role: RoleRow, after: seq<RoleRow>)
    ensures RoleEntries(before + [role] + after) ==
      RoleEntries(before) + Tagged(role.permissions, role.name) + RoleEntries(after)
  {
    RolesInOrder(before + [role], after);
    RolesInOrder(before, [role]);
    assert RoleEntries([role]) == Tagged(role.permissions, role.name) + [];
  }

  /** Among several roles with a permission the first one names its entry. */
  lemma FirstRoleNames(before: seq<RoleRow>, role: RoleRow, after: seq<RoleRow>, direct: seq<Row>, k: nat)
    requires k < |role.permissions| && !Lists(RoleEntries(before), role.permissions[k].id)
    requires forall j :: 0 <= j < k ==> role.permissions[j].id != role.permissions[k].id
    ensures ViaRole(role.permissions[k], role.name) in
      FirstOnly(RoleEntries(before + [role] + after) + DirectEntries(direct))
  {
    var first, own, last := RoleEntries(before), Tagged(role.permissions, role.name), RoleEntries(after);
    RolesAround(before, role, after);
    MiddleIsKept(first, own, last + DirectEntries(direct), k);
    assert first + own + (last + DirectEntries(direct)) == first + own + last + DirectEntries(direct);
  }

  // ---------- the list and the guard ----------

  /** The rows list exactly the permissions `ids` of the tables. */
  predicate RowsOf(db: Db, rows: seq<Row>, ids: set<Id>) {
    && (forall q :: q in rows ==> q.id in ids && q.id in db.permissions && q.permission == db.permissions[q.id])
    && (forall p :: p in ids ==> exists q :: q in rows && q.id == p)
  }

  /** The rows are what the relation query returns for user `u`, in any order. */
  predicate ReadsUser(db: Db, u: Id, roles: seq<RoleRow>, direct: seq<Row>) {
    && (forall r :: r in roles ==> r.id in Linked(db.userRoles, u) && r.id in db.roles && r.name == db.roles[r.id].name)
    && (forall r :: r in roles ==> RowsOf(db, r.permissions, Linked(db.rolePermissions, r.id)))
    && (forall id :: id in Linked(db.userRoles, u) ==> exists r :: r in roles && r.id == id)
    && RowsOf(db, direct, Linked(db.userPermissions, u))
  }

  lemma RoleListing(db: Db, u: Id, roles: seq<RoleRow>, direct: seq<Row>, id: Id)
    requires LinksFit(db) && ReadsUser(db, u, roles, direct)
    ensures Lists(RoleEntries(roles), id) <==> id in RoleGrants(db, u)
  {
    RoleEntriesAreTagged(roles);
    if Lists(RoleEntries(roles), id) {
      var i :| 0 <= i < |RoleEntries(roles)| && RoleEntries(roles)[i].row.id == id;
      assert RoleEntries(roles)[i] in RoleEntries(roles);
      var r, p :| r in roles && p in r.permissions && RoleEntries(roles)[i] == ViaRole(p, r.name);
      assert (u, r.id) in db.userRoles && (r.id, id) in db.rolePermissions;
    }
    if id in RoleGrants(db, u) {
      var l, m :| l in db.userRoles && l.0 == u && m in db.rolePermissions && m.0 == l.1 && m.1 == id;
      assert l.1 in Linked(db.userRoles, u) && id in Linked(db.rolePermissions, l.1);
      var r :| r in roles && r.id == l.1;
      var q :| q in r.permissions && q.id == id;
      assert ViaRole(q, r.name) in RoleEntries(roles);
    }
  }

  lemma DirectListing(db: Db, u: Id, roles: seq<RoleRow>, direct: seq<Row>, id: Id)
    requires LinksFit(db) && ReadsUser(db, u, roles, direct)
    ensures Lists(DirectEntries(direct), id) <==> id in DirectGrants(db, u)
  {
    if Lists(DirectEntries(direct), id) {
      var i :| 0 <= i < |DirectEntries(direct)| && DirectEntries(direct)[i].row.id == id;
      assert direct[i] in direct;
    }
    if id in DirectGrants(db, u) {
      assert id in Linked(db.userPermissions, u);
      var q :| q in direct && q.id == id;
      var i :| 0 <= i < |direct| && direct[i] == q;
      assert DirectEntries(direct)[i].row.id == id;
    }
  }

  lemma ListsEither(a: seq<Entry>, b: seq<Entry>, id: Id)
    ensures Lists(a + b, id) <==> Lists(a, id) || Lists(b, id)
  {
    if i :| 0 <= i < |a| && a[i].row.id == id {
      assert (a + b)[i].row.id == id;
    } else if i :| 0 <= i < |b| && b[i].row.id == id {
      assert (a + b)[|a| + i].row.id == id;
    }
  }

  /** For the rows of a scoped state the list holds each granted permission once and no other, tells role
      and direct grants apart, and reads as exactly the strings the guard tests requests against. */
  lemma ListingAgreesWithGuard(db: Db, u: Id, roles: seq<RoleRow>, direct: seq<Row>)
    requires LinksFit(db) && ReadsUser(db, u, roles, direct)
    ensures var effective := FirstOnly(RoleEntries(roles) + DirectEntries(direct));
      && (forall id :: Lists(effective, id) <==> id in Granted(db, u))
      && (forall e :: e in effective ==> EntryTells(db, u, e))
      && (set e | e in effective :: Format(e.row.permission)) == Effective(db, u)
  {
    var viaRoles, own := RoleEntries(roles), DirectEntries(direct);
    var effective := FirstOnly(viaRoles + own);
    EachOnce(viaRoles + own);
    forall id ensures Lists(effective, id) <==> id in Granted(db, u) {
      ListsEither(viaRoles, own, id);
      RoleListing(db, u, roles, direct, id);
      DirectListing(db, u, roles, direct, id);
    }
    forall e | e in effective ensures EntryTells(db, u, e) {
      EntryIsRead(db, u, roles, direct, e);
    }
    StringsAgree(db, u, effective);
  }

  /** An entry shows the stored permission and says rightly how it is held. */
  predicate EntryTells(db: Db, u: Id, e: Entry) {
    && e.row.id in db.permissions && e.row.permission == db.permissions[e.row.id]
    && (e.ViaRole? <==> e.row.id in RoleGrants(db, u))
    && (e.ViaRole? ==> exists r ::
          r in Linked(db.userRoles, u) && r in db.roles && db.roles[r].name == e.roleName
          && (r, e.row.id) in db.rolePermissions)
  }

  lemma EntryIsRead(db: Db, u: Id, roles: seq<RoleRow>, direct: seq<Row>, e: Entry)
    requires LinksFit(db) && ReadsUser(db, u, roles, direct)
    requires e in FirstOnly(RoleEntries(roles) + DirectEntries(direct))
    ensures EntryTells(db, u, e)
  {
    RoleEntryWins(roles, direct, e);
    RoleListing(db, u, roles, direct, e.row.id);
    if e.ViaRole? {
      RoleEntriesAreTagged(roles);
      var r, p :| r in roles && p in r.permissions && e == ViaRole(p, r.name);
      assert r.id in Linked(db.userRoles, u) && (r.id, p.id) in db.rolePermissions;
    }
  }

  lemma StringsAgree(db: Db, u: Id, effective: seq<Entry>)
    requires forall id :: Lists(effective, id) <==> id in Granted(db, u)
    requires forall e :: e in effective ==> EntryTells(db, u, e)
    ensures (set e | e in effective :: Format(e.row.permission)) == Effective(db, u)
  {
  }
}
