/** A snapshot diff read as a patch: forwards it gives the later snapshot, backwards the earlier one. */
module HistoryPatch {
  import opened Ordering
  import opened Ovsdb
  import opened HistoryDiff

  // ---------- patching ----------

  function PatchRow(row: Row, changes: seq<FieldChange>): Row {
    if changes == [] then row
    else PatchRow(row, changes[..|changes| - 1])[changes[|changes| - 1].field := changes[|changes| - 1].newValue]
  }

  function UuidOf(d: Row): string {
    if Col(d, "_uuid").Str? then Col(d, "_uuid").s else ""
  }

  /** The changes listed for a row, none if it is not listed. */
  function ChangesFor(modified: seq<RowDiff>, u: string): seq<FieldChange> {
    if modified == [] then []
    else if modified[|modified| - 1].uuid == u then modified[|modified| - 1].fields
    else ChangesFor(modified[..|modified| - 1], u)
  }

  function WithAdded(rows: Rows, added: seq<Row>): Rows {
    if added == [] then rows
    else WithAdded(rows, added[..|added| - 1])[UuidOf(added[|added| - 1]) := added[|added| - 1]]
  }

  function Kept(rows: Rows, td: TableDiff): Rows {
    map u | u in rows && u !in Ids(td.removed) :: PatchRow(rows[u], ChangesFor(td.modified, u))
  }

  function Ids(listed: seq<Row>): set<string> {
    set d | d in listed :: UuidOf(d)
  }

  /** Removed rows go, modified rows change, added rows come, each under the UUID its data carries. */
  function PatchTable(rows: Rows, td: TableDiff): Rows {
    WithAdded(Kept(rows, td), td.added)
  }

  function Patch(s: Snapshot, tables: seq<TableDiff>): Snapshot {
    if tables == [] then s
    else
      var before, td := Patch(s, tables[..|tables| - 1]), tables[|tables| - 1];
      before[td.key := PatchTable(RowsAt(before, td.key), td)]
  }

  function ReverseChange(c: FieldChange): FieldChange {
    FieldChange(c.field, c.newValue, c.oldValue)
  }

  function ReverseRow(m: RowDiff): RowDiff {
    RowDiff(m.uuid, seq(|m.fields|, i requires 0 <= i < |m.fields| => ReverseChange(m.fields[i])))
  }

  function ReverseTable(td: TableDiff): TableDiff {
    TableDiff(td.key, td.removed, td.added,
              seq(|td.modified|, i requires 0 <= i < |td.modified| => ReverseRow(td.modified[i])))
  }

  function Reverse(tables: seq<TableDiff>): seq<TableDiff> {
    seq(|tables|, i requires 0 <= i < |tables| => ReverseTable(tables[i]))
  }

  // ---------- equality up to null ----------

  ghost predicate SameRow(a: Row, b: Row) {
    forall f :: Col(a, f) == Col(b, f)
  }

  ghost predicate SameRows(a: Rows, b: Rows) {
    a.Keys == b.Keys && forall u | u in a :: SameRow(a[u], b[u])
  }

  ghost predicate SameSnapshot(a: Snapshot, b: Snapshot) {
    forall k :: SameRows(RowsAt(a, k), RowsAt(b, k))
  }

  /** Every row's data carries its own UUID. */
  ghost predicate Named(rows: Rows) {
    forall u | u in rows :: Col(rows[u], "_uuid") == Str(u)
  }

  ghost predicate AllNamed(s: Snapshot) {
    forall k | k in s :: Named(s[k])
  }

  // ---------- rows ----------

  lemma {:induction false} PatchRowColumn(row: Row, changes: seq<FieldChange>, f: string)
    requires forall i, j | 0 <= i < j < |changes| :: Less(changes[i].field, changes[j].field)
    ensures (forall c | c in changes :: c.field != f) ==> Col(PatchRow(row, changes), f) == Col(row, f)
    ensures forall c | c in changes && c.field == f :: Col(PatchRow(row, changes), f) == c.newValue
    decreases |changes|
  {
    if changes != [] {
      hide Less;
      var front, last := changes[..|changes| - 1], changes[|changes| - 1];
      assert changes == front + [last];
      PatchRowColumn(row, front, f);
      LessIrreflexive(f);
      assert forall c | c in front :: Less(c.field, last.field);
      assert Col(PatchRow(row, changes), f) == if last.field == f then last.newValue else Col(PatchRow(row, front), f);
    }
  }

  lemma PatchedRowIsNew(a: Row, b: Row, changes: seq<FieldChange>)
    requires FieldsDiff(a, b, changes)
    ensures SameRow(PatchRow(a, changes), b)
  {
    forall f
      ensures Col(PatchRow(a, changes), f) == Col(b, f)
    {
      PatchRowColumn(a, changes, f);
      if FieldDiffers(a, b, f) {
        assert FieldChange(f, Col(a, f), Col(b, f)) in changes;
      }
    }
  }

  // ---------- tables ----------

  lemma {:induction false} ChangesForListed(modified: seq<RowDiff>, u: string)
    requires forall i, j | 0 <= i < j < |modified| :: modified[i].uuid != modified[j].uuid
    ensures (forall m | m in modified :: m.uuid != u) ==> ChangesFor(modified, u) == []
    ensures forall m | m in modified && m.uuid == u :: ChangesFor(modified, u) == m.fields
    decreases |modified|
  {
    if modified != [] {
      var front, last := modified[..|modified| - 1], modified[|modified| - 1];
      assert modified == front + [last];
      ChangesForListed(front, u);
    }
  }

  lemma KeptRow(a: Rows, b: Rows, td: TableDiff, u: string)
    requires TableDiffOk(a, b, td) && u in a && u in b
    ensures SameRow(PatchRow(a[u], ChangesFor(td.modified, u)), b[u])
  {
    hide FieldsDiff;
    ChangesForListed(td.modified, u);
    if a[u] != b[u] {
      var m :| m in td.modified && m.uuid == u;
      PatchedRowIsNew(a[u], b[u], m.fields);
    } else if exists m :: m in td.modified && m.uuid == u {
      var m :| m in td.modified && m.uuid == u;
      PatchedRowIsNew(a[u], b[u], m.fields);
    }
  }

  lemma {:induction false} WithAddedIs(rows: Rows, added: seq<Row>, b: Rows)
    requires forall d | d in added :: UuidOf(d) in b && b[UuidOf(d)] == d
    ensures WithAdded(rows, added).Keys == rows.Keys + Ids(added)
    ensures forall u | u in Ids(added) :: u in b && WithAdded(rows, added)[u] == b[u]
    ensures forall u | u in rows && u !in Ids(added) :: WithAdded(rows, added)[u] == rows[u]
    decreases |added|
  {
    hide UuidOf;
    if added != [] {
      var front, last := added[..|added| - 1], added[|added| - 1];
      assert added == front + [last];
      assert Ids(added) == Ids(front) + {UuidOf(last)};
      WithAddedIs(rows, front, b);
    }
  }

  /** The listed extra rows carry exactly the UUIDs that only b has. */
  lemma ExtraIds(a: Rows, b: Rows, listed: seq<Row>)
    requires Named(b) && ListsExtra(a, b, listed)
    ensures Ids(listed) == b.Keys - a.Keys
    ensures forall d | d in listed :: UuidOf(d) in b && b[UuidOf(d)] == d
  {
    var ids :| ListedBy(a, b, ids, listed);
    forall d | d in listed
      ensures UuidOf(d) in b && UuidOf(d) !in a && b[UuidOf(d)] == d
    {
      var i :| 0 <= i < |listed| && listed[i] == d;
      assert UuidOf(d) == ids[i] && ids[i] in ids;
    }
    forall u | u in b.Keys - a.Keys
      ensures u in Ids(listed)
    {
      assert u in ids;
      var i :| 0 <= i < |ids| && ids[i] == u;
      assert listed[i] in listed && UuidOf(listed[i]) == u;
    }
  }

  lemma PatchTableGives(a: Rows, b: Rows, td: TableDiff)
    requires TableDiffOk(a, b, td) && Named(a) && Named(b)
    ensures SameRows(PatchTable(a, td), b)
  {
    hide SameRow, PatchRow, ChangesFor, WithAdded, UuidOf, ListsModified, ListsExtra, Ids, Named;
    ExtraIds(a, b, td.added);
    ExtraIds(b, a, td.removed);
    WithAddedIs(Kept(a, td), td.added, b);
    forall u | u in b
      ensures SameRow(PatchTable(a, td)[u], b[u])
    {
      if u in a {
        KeptRow(a, b, td, u);
      } else {
        Reflexive(b[u]);
      }
    }
  }

  lemma Reflexive(row: Row)
    ensures SameRow(row, row)
  {
  }

  // ---------- snapshots ----------

  lemma {:induction false} PatchAt(s: Snapshot, tables: seq<TableDiff>, k: TableKey)
    requires forall i, j | 0 <= i < j < |tables| :: tables[i].key != tables[j].key
    ensures (forall td | td in tables :: td.key != k) ==> RowsAt(Patch(s, tables), k) == RowsAt(s, k)
    ensures forall td | td in tables && td.key == k :: RowsAt(Patch(s, tables), k) == PatchTable(RowsAt(s, k), td)
    decreases |tables|
  {
    hide PatchTable;
    if tables != [] {
      var front, last := tables[..|tables| - 1], tables[|tables| - 1];
      assert tables == front + [last];
      PatchAt(s, front, k);
    }
  }

  lemma DistinctTables(tables: seq<TableDiff>)
    requires forall i, j | 0 <= i < j < |tables| :: KeyLess(tables[i].key, tables[j].key)
    ensures forall i, j | 0 <= i < j < |tables| :: tables[i].key != tables[j].key
  {
    forall i, j | 0 <= i < j < |tables|
      ensures tables[i].key != tables[j].key
    {
      LessIrreflexive(tables[i].key.database);
      LessIrreflexive(tables[i].key.table);
    }
  }

  lemma NamedAt(s: Snapshot, k: TableKey)
    requires AllNamed(s)
    ensures Named(RowsAt(s, k))
  {
  }

  /** Patching the earlier snapshot with the diff gives the later one, null counting as absent. */
  lemma PatchGivesLater(a: Snapshot, b: Snapshot, tables: seq<TableDiff>)
    requires DiffOk(a, b, tables) && AllNamed(a) && AllNamed(b)
    ensures SameSnapshot(Patch(a, tables), b)
  {
    hide KeyLess, TableDiffOk, RowsAt, Patch, PatchTable, AllNamed, SameRow, Named, Changed;
    DistinctTables(tables);
    forall k
      ensures SameRows(RowsAt(Patch(a, tables), k), RowsAt(b, k))
    {
      PatchAt(a, tables, k);
      NamedAt(a, k);
      NamedAt(b, k);
      if exists td :: td in tables && td.key == k {
        var td :| td in tables && td.key == k;
        PatchTableGives(RowsAt(a, k), RowsAt(b, k), td);
      } else {
        SameRowsReflexive(RowsAt(b, k));
      }
    }
  }

  lemma SameRowsReflexive(rows: Rows)
    ensures SameRows(rows, rows)
  {
  }

  // ---------- the reverse ----------

  lemma ReverseFields(a: Row, b: Row, m: RowDiff)
    requires FieldsDiff(a, b, m.fields)
    ensures FieldsDiff(b, a, ReverseRow(m).fields)
  {
    var r := ReverseRow(m).fields;
    forall c | c in r
      ensures FieldDiffers(b, a, c.field) && c == FieldChange(c.field, Col(b, c.field), Col(a, c.field))
    {
      var i :| 0 <= i < |r| && r[i] == c;
      assert m.fields[i] in m.fields;
    }
    forall f | FieldDiffers(b, a, f)
      ensures FieldChange(f, Col(b, f), Col(a, f)) in r
    {
      assert FieldDiffers(a, b, f);
      var i :| 0 <= i < |m.fields| && m.fields[i] == FieldChange(f, Col(a, f), Col(b, f));
      assert r[i] == ReverseChange(m.fields[i]);
    }
  }

  lemma ReverseModified(a: Rows, b: Rows, td: TableDiff)
    requires ListsModified(a, b, td.modified)
    ensures ListsModified(b, a, ReverseTable(td).modified)
  {
    hide FieldsDiff;
    var r := ReverseTable(td).modified;
    forall m | m in r
      ensures m.uuid in a && m.uuid in b && m.fields != [] && FieldsDiff(b[m.uuid], a[m.uuid], m.fields)
    {
      var i :| 0 <= i < |r| && r[i] == m;
      var o := td.modified[i];
      assert o in td.modified;
      ReverseFields(a[o.uuid], b[o.uuid], o);
    }
    forall u | u in a && u in b && a[u] != b[u]
      ensures exists m :: m in r && m.uuid == u
    {
      var o :| o in td.modified && o.uuid == u;
      var i :| 0 <= i < |td.modified| && td.modified[i] == o;
      assert r[i].uuid == u;
    }
  }

  lemma ReverseIsDiff(a: Snapshot, b: Snapshot, tables: seq<TableDiff>)
    requires DiffOk(a, b, tables)
    ensures DiffOk(b, a, Reverse(tables))
  {
    hide KeyLess, RowsAt, ListsModified, ListsExtra;
    var r := Reverse(tables);
    forall td | td in r
      ensures Changed(td) && TableDiffOk(RowsAt(b, td.key), RowsAt(a, td.key), td)
    {
      var i :| 0 <= i < |r| && r[i] == td;
      var o := tables[i];
      assert o in tables;
      ReverseModified(RowsAt(a, o.key), RowsAt(b, o.key), o);
    }
    forall k | RowsAt(b, k) != RowsAt(a, k)
      ensures exists td :: td in r && td.key == k
    {
      var o :| o in tables && o.key == k;
      var i :| 0 <= i < |tables| && tables[i] == o;
      assert r[i].key == k;
    }
  }

  /** Patching the later snapshot with the reversed diff gives the earlier one back. */
  lemma ReverseGivesEarlier(a: Snapshot, b: Snapshot, tables: seq<TableDiff>)
    requires DiffOk(a, b, tables) && AllNamed(a) && AllNamed(b)
    ensures SameSnapshot(Patch(b, Reverse(tables)), a)
  {
    hide DiffOk, Reverse, Patch, AllNamed;
    ReverseIsDiff(a, b, tables);
    PatchGivesLater(b, a, Reverse(tables));
  }

  /** Nothing is reported exactly if the snapshots hold the same rows, null and absent being different here. */
  lemma EmptyDiffMeansEqual(a: Snapshot, b: Snapshot, tables: seq<TableDiff>)
    requires DiffOk(a, b, tables)
    ensures tables == [] <==> forall k :: RowsAt(a, k) == RowsAt(b, k)
  {
    if tables != [] {
      var td := tables[0];
      assert td in tables;
      ChangedMeansDifferent(RowsAt(a, td.key), RowsAt(b, td.key), td);
    }
  }
}
