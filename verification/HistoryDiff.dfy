/** The diff of two recorded snapshots. */
module HistoryDiff {
  import opened Wrappers
  import opened Ordering
  import opened Ovsdb

  datatype TableKey = TableKey(database: string, table: string)

  datatype SnapshotRow = SnapshotRow(key: TableKey, uuid: string, data: Row)

  type Rows = map<string, Row>

  type Snapshot = map<TableKey, Rows>

  datatype FieldChange = FieldChange(field: string, oldValue: Value, newValue: Value)

  datatype RowDiff = RowDiff(uuid: string, fields: seq<FieldChange>)

  datatype TableDiff = TableDiff(key: TableKey, added: seq<Row>, removed: seq<Row>, modified: seq<RowDiff>)

  function RowsAt(s: Snapshot, k: TableKey): Rows {
    if k in s then s[k] else map[]
  }

  // ---------- fields ----------

  /** The field is present on one side only, or with different values. */
  predicate FieldDiffers(a: Row, b: Row, f: string) {
    (f in a) != (f in b) || (f in a && f in b && a[f] != b[f])
  }

  /** Exactly the differing fields, sorted, with both values; a missing field shows as null. */
  ghost predicate FieldsDiff(a: Row, b: Row, changes: seq<FieldChange>) {
    && (forall i, j | 0 <= i < j < |changes| :: Less(changes[i].field, changes[j].field))
    && (forall c | c in changes ::
          FieldDiffers(a, b, c.field) && c == FieldChange(c.field, Col(a, c.field), Col(b, c.field)))
    && (forall f | FieldDiffers(a, b, f) :: FieldChange(f, Col(a, f), Col(b, f)) in changes)
  }

  /** The differing fields among these, in order. */
  ghost predicate FieldsSoFar(a: Row, b: Row, keys: seq<string>, changes: seq<FieldChange>) {
    && (forall x, y | 0 <= x < y < |changes| :: Less(changes[x].field, changes[y].field))
    && (forall c | c in changes ::
          c.field in keys && FieldDiffers(a, b, c.field) && c == FieldChange(c.field, Col(a, c.field), Col(b, c.field)))
    && (forall f | f in keys && FieldDiffers(a, b, f) :: FieldChange(f, Col(a, f), Col(b, f)) in changes)
  }

  lemma OneMoreField(a: Row, b: Row, keys: seq<string>, k: string, changes: seq<FieldChange>)
    requires FieldsSoFar(a, b, keys, changes) && forall x | x in keys :: Less(x, k)
    ensures var c := FieldChange(k, Col(a, k), Col(b, k));
            FieldsSoFar(a, b, keys + [k], if FieldDiffers(a, b, k) then changes + [c] else changes)
  {
    hide FieldDiffers, Col;
    assert forall x | 0 <= x < |changes| :: changes[x] in changes;
  }

  lemma KeysBefore(keys: seq<string>, i: nat)
    requires Increasing(keys) && i < |keys|
    ensures forall x | x in keys[..i] :: Less(x, keys[i])
  {
  }

  method DiffFields(a: Row, b: Row) returns (changes: seq<FieldChange>)
    ensures FieldsDiff(a, b, changes)
  {
    hide FieldsSoFar, Increasing;
    var keys := SortKeys(a.Keys + b.Keys);
    changes := [];
    NoFieldsYet(a, b);
    for i := 0 to |keys|
      invariant FieldsSoFar(a, b, keys[..i], changes)
    {
      var k := keys[i];
      assert keys[..i + 1] == keys[..i] + [k];
      KeysBefore(keys, i);
      OneMoreField(a, b, keys[..i], k, changes);
      assert k in keys;
      if k !in a {
        changes := changes + [FieldChange(k, Null, b[k])];
      } else if k !in b {
        changes := changes + [FieldChange(k, a[k], Null)];
      } else if a[k] != b[k] {
        changes := changes + [FieldChange(k, a[k], b[k])];
      }
    }
    assert keys[..|keys|] == keys;
    AllFields(a, b, keys, changes);
  }

  lemma NoFieldsYet(a: Row, b: Row)
    ensures FieldsSoFar(a, b, [], [])
  {
  }

  lemma AllFields(a: Row, b: Row, keys: seq<string>, changes: seq<FieldChange>)
    requires FieldsSoFar(a, b, keys, changes) && forall k :: k in keys <==> k in a.Keys + b.Keys
    ensures FieldsDiff(a, b, changes)
  {
    forall f | FieldDiffers(a, b, f)
      ensures FieldChange(f, Col(a, f), Col(b, f)) in changes
    {
      assert f in a.Keys + b.Keys && f in keys;
    }
  }

  /** A row counts as modified exactly if it differs at all, a null field counting as present. */
  lemma NoChangesMeansEqual(a: Row, b: Row, changes: seq<FieldChange>)
    requires FieldsDiff(a, b, changes)
    ensures changes == [] <==> a == b
  {
    if changes == [] {
      forall f
        ensures f in a <==> f in b
      {
        assert !FieldDiffers(a, b, f);
      }
      forall f | f in a
        ensures a[f] == b[f]
      {
        assert !FieldDiffers(a, b, f);
      }
    } else {
      assert changes[0] in changes;
    }
  }

  // ---------- one table ----------

  /** The rows with these UUIDs, in this order; they are the ones in b but not in a, each once. */
  ghost predicate ListedBy(a: Rows, b: Rows, ids: seq<string>, listed: seq<Row>) {
    && |ids| == |listed|
    && (forall i, j | 0 <= i < j < |ids| :: ids[i] != ids[j])
    && (forall u :: u in ids <==> u in b && u !in a)
    && (forall i | 0 <= i < |ids| :: ids[i] in b && listed[i] == b[ids[i]])
  }

  /** The rows of b that a lacks, each listed once. */
  ghost predicate ListsExtra(a: Rows, b: Rows, listed: seq<Row>) {
    exists ids :: ListedBy(a, b, ids, listed)
  }

  ghost predicate ListsModified(a: Rows, b: Rows, listed: seq<RowDiff>) {
    && (forall m | m in listed ::
          m.uuid in a && m.uuid in b && m.fields != [] && FieldsDiff(a[m.uuid], b[m.uuid], m.fields))
    && (forall u | u in a && u in b && a[u] != b[u] :: exists m :: m in listed && m.uuid == u)
    && (forall i, j | 0 <= i < j < |listed| :: listed[i].uuid != listed[j].uuid)
  }

  ghost predicate TableDiffOk(a: Rows, b: Rows, td: TableDiff) {
    ListsExtra(a, b, td.added) && ListsExtra(b, a, td.removed) && ListsModified(a, b, td.modified)
  }

  method Extra(a: Rows, b: Rows) returns (listed: seq<Row>)
    ensures ListsExtra(a, b, listed)
  {
    listed := [];
    ghost var ids: seq<string> := [];
    var rest := b.Keys;
    while rest != {}
      invariant rest <= b.Keys && |ids| == |listed|
      invariant forall i, j | 0 <= i < j < |ids| :: ids[i] != ids[j]
      invariant forall u :: u in ids <==> u in b && u !in a && u !in rest
      invariant forall i | 0 <= i < |ids| :: ids[i] in b && listed[i] == b[ids[i]]
      decreases |rest|
    {
      var u := Pick(rest);
      rest := rest - {u};
      if u !in a {
        listed, ids := listed + [b[u]], ids + [u];
      }
    }
    assert ListedBy(a, b, ids, listed);
  }

  method Modified(a: Rows, b: Rows) returns (listed: seq<RowDiff>)
    ensures ListsModified(a, b, listed)
  {
    listed := [];
    var rest := b.Keys;
    while rest != {}
      invariant rest <= b.Keys
      invariant ListsModified(a, b - rest, listed)
      decreases |rest|
    {
      hide FieldsDiff, ListsModified;
      var u := Pick(rest);
      ghost var done := b - rest;
      rest := rest - {u};
      assert b - rest == done[u := b[u]];
      if u in a {
        var changes := DiffFields(a[u], b[u]);
        NoChangesMeansEqual(a[u], b[u], changes);
        if changes != [] {
          OneMoreModified(a, done, u, b[u], changes, listed);
          listed := listed + [RowDiff(u, changes)];
        } else {
          NotModified(a, done, u, b[u], listed);
        }
      } else {
        NotModified(a, done, u, b[u], listed);
      }
    }
    assert b - rest == b;
  }

  lemma OneMoreModified(a: Rows, b: Rows, u: string, row: Row, changes: seq<FieldChange>, listed: seq<RowDiff>)
    requires ListsModified(a, b, listed) && u in a && u !in b && changes != [] && FieldsDiff(a[u], row, changes)
    ensures ListsModified(a, b[u := row], listed + [RowDiff(u, changes)])
  {
    hide FieldsDiff;
    var all := listed + [RowDiff(u, changes)];
    assert forall m :: m in all <==> m in listed || m == RowDiff(u, changes);
    assert forall i | 0 <= i < |listed| :: listed[i] in listed;
  }

  lemma NotModified(a: Rows, b: Rows, u: string, row: Row, listed: seq<RowDiff>)
    requires ListsModified(a, b, listed) && u !in b && (u in a ==> a[u] == row)
    ensures ListsModified(a, b[u := row], listed)
  {
    hide FieldsDiff;
  }

  method DiffTable(key: TableKey, a: Rows, b: Rows) returns (td: TableDiff)
    ensures td.key == key && TableDiffOk(a, b, td)
  {
    var added := Extra(a, b);
    var modified := Modified(a, b);
    var removed := Extra(b, a);
    td := TableDiff(key, added, removed, modified);
  }

  // ---------- whole snapshots ----------

  predicate KeyLess(a: TableKey, b: TableKey) {
    if a.database != b.database then Less(a.database, b.database) else Less(a.table, b.table)
  }

  ghost predicate SortedTables(keys: seq<TableKey>) {
    forall i, j | 0 <= i < j < |keys| :: KeyLess(keys[i], keys[j])
  }

  predicate Changed(td: TableDiff) {
    td.added != [] || td.removed != [] || td.modified != []
  }

  /** The tables that changed, sorted, each with its own diff. */
  ghost predicate DiffOk(a: Snapshot, b: Snapshot, tables: seq<TableDiff>) {
    && (forall i, j | 0 <= i < j < |tables| :: KeyLess(tables[i].key, tables[j].key))
    && (forall td | td in tables :: Changed(td) && TableDiffOk(RowsAt(a, td.key), RowsAt(b, td.key), td))
    && (forall k | RowsAt(a, k) != RowsAt(b, k) :: exists td :: td in tables && td.key == k)
  }

  function Grouped(rows: seq<SnapshotRow>): Snapshot {
    if rows == [] then map[]
    else
      var r := rows[|rows| - 1];
      var before := Grouped(rows[..|rows| - 1]);
      before[r.key := RowsAt(before, r.key)[r.uuid := r.data]]
  }

  method Group(rows: seq<SnapshotRow>) returns (s: Snapshot)
    ensures s == Grouped(rows)
  {
    s := map[];
    for i := 0 to |rows|
      invariant s == Grouped(rows[..i])
    {
      assert rows[..i + 1][..i] == rows[..i];
      s := s[rows[i].key := RowsAt(s, rows[i].key)[rows[i].uuid := rows[i].data]];
    }
    assert rows[..|rows|] == rows;
  }

  /** The position of the first dot, or the length if there is none. */
  function FirstDot(filter: string): (i: nat)
    ensures i <= |filter| && '.' !in filter[..i] && (i < |filter| ==> filter[i] == '.')
  {
    if filter == "" || filter[0] == '.' then 0 else FirstDot(filter[1..]) + 1
  }

  /** What a filter asks for: a filter without a dot after its first character asks for nothing in particular. */
  function FilterKey(filter: string): TableKey {
    var i := FirstDot(filter);
    if 0 < i < |filter| then TableKey(filter[..i], filter[i + 1..]) else TableKey("", "")
  }

  /** The rows a query with this key returns: an empty part of it restricts nothing. */
  predicate Admits(filter: TableKey, k: TableKey) {
    (filter.database == "" || filter.database == k.database) && (filter.table == "" || filter.table == k.table)
  }

  function Queried(rows: seq<SnapshotRow>, filter: TableKey): seq<SnapshotRow> {
    if rows == [] then []
    else Queried(rows[..|rows| - 1], filter) + (if Admits(filter, rows[|rows| - 1].key) then [rows[|rows| - 1]] else [])
  }

  lemma GroupedSnoc(rows: seq<SnapshotRow>, r: SnapshotRow, k: TableKey)
    ensures RowsAt(Grouped(rows + [r]), k) ==
              if k == r.key then RowsAt(Grouped(rows), k)[r.uuid := r.data] else RowsAt(Grouped(rows), k)
  {
    assert (rows + [r])[..|rows|] == rows;
  }

  lemma QueriedSnoc(rows: seq<SnapshotRow>, r: SnapshotRow, filter: TableKey)
    ensures Queried(rows + [r], filter) ==
              if Admits(filter, r.key) then Queried(rows, filter) + [r] else Queried(rows, filter)
  {
    assert (rows + [r])[..|rows|] == rows;
  }

  function RowPairs(rows: seq<SnapshotRow>): (p: seq<((TableKey, string), Row)>)
    ensures |p| == |rows| && forall i | 0 <= i < |rows| :: p[i] == ((rows[i].key, rows[i].uuid), rows[i].data)
  {
    seq(|rows|, i requires 0 <= i < |rows| => ((rows[i].key, rows[i].uuid), rows[i].data))
  }

  /** The rows of a table are those recorded for it, of several records for one row the last. */
  lemma {:induction false} GroupedIs(rows: seq<SnapshotRow>, k: TableKey, u: string, data: Row)
    ensures u in RowsAt(Grouped(rows), k) && RowsAt(Grouped(rows), k)[u] == data <==>
              LastEntry(RowPairs(rows), (k, u), data)
    decreases |rows|
  {
    if rows != [] {
      hide LastEntry, Grouped, RowsAt;
      var front, last := rows[..|rows| - 1], rows[|rows| - 1];
      GroupedIs(front, k, u, data);
      assert rows == front + [last];
      GroupedSnoc(front, last, k);
      assert RowPairs(rows) == RowPairs(front) + [((last.key, last.uuid), last.data)];
      LastEntrySnoc(RowPairs(front), ((last.key, last.uuid), last.data), (k, u), data);
    }
  }

  /** A query sees the admitted tables whole and nothing of the others. */
  lemma {:induction false} QueriedIs(rows: seq<SnapshotRow>, filter: TableKey, k: TableKey)
    ensures RowsAt(Grouped(Queried(rows, filter)), k) == if Admits(filter, k) then RowsAt(Grouped(rows), k) else map[]
    decreases |rows|
  {
    if rows != [] {
      hide Admits, Grouped, RowsAt, Queried;
      var front, last := rows[..|rows| - 1], rows[|rows| - 1];
      assert rows == front + [last];
      QueriedIs(front, filter, k);
      QueriedSnoc(front, last, filter);
      GroupedSnoc(front, last, k);
      GroupedSnoc(Queried(front, filter), last, k);
    }
  }

  /** The filtered diff reports exactly the admitted ones of the tables that changed. */
  lemma FilteredDiffIs(fromRows: seq<SnapshotRow>, toRows: seq<SnapshotRow>, filter: TableKey, tables: seq<TableDiff>,
                       k: TableKey)
    requires DiffOk(Grouped(Queried(fromRows, filter)), Grouped(Queried(toRows, filter)), tables)
    ensures (exists td :: td in tables && td.key == k) <==>
              Admits(filter, k) && RowsAt(Grouped(fromRows), k) != RowsAt(Grouped(toRows), k)
  {
    hide Grouped, Queried, Admits, TableDiffOk, RowsAt, KeyLess;
    QueriedIs(fromRows, filter, k);
    QueriedIs(toRows, filter, k);
    if td :| td in tables && td.key == k {
      ChangedMeansDifferent(RowsAt(Grouped(Queried(fromRows, filter)), k),
        RowsAt(Grouped(Queried(toRows, filter)), k), td);
    }
  }

  /** A filter that names a database and a table asks for that table, an empty one for everything. */
  lemma FilterMeansItsTable(db: string, table: string, k: TableKey)
    requires db != "" && '.' !in db && table != ""
    ensures Admits(FilterKey(db + "." + table), k) <==> k == TableKey(db, table)
    ensures Admits(FilterKey(""), k) && Admits(FilterKey(db), k)
    ensures Admits(FilterKey(db + "."), k) <==> k.database == db
  {
    var named, whole := db + "." + table, db + ".";
    assert named[|db|] == '.' && named[..|db|] == db && named[|db| + 1..] == table;
    assert whole[|db|] == '.' && whole[..|db|] == db && whole[|db| + 1..] == "";
    DotAt(named, |db|);
    DotAt(whole, |db|);
    NoDot(db);
  }

  lemma DotAt(filter: string, n: nat)
    requires n < |filter| && filter[n] == '.' && '.' !in filter[..n]
    ensures FirstDot(filter) == n
  {
    var i := FirstDot(filter);
    assert forall j | 0 <= j < n :: filter[..n][j] == filter[j];
    assert forall j | 0 <= j < i :: filter[..i][j] == filter[j];
  }

  lemma NoDot(filter: string)
    requires '.' !in filter
    ensures FirstDot(filter) == |filter|
  {
  }

  /** Only a filter with something before and after its first dot restricts the diff to one table. */
  lemma FilterNamesOneTable(filter: string)
    ensures (forall k :: Admits(FilterKey(filter), k) <==> k == FilterKey(filter)) <==>
              0 < FirstDot(filter) < |filter| - 1
  {
    var key := FilterKey(filter);
    var other := TableKey(key.database, key.table + "x");
    assert key.table == "" ==> Admits(key, other) && other != key;
    assert 0 < FirstDot(filter) < |filter| ==> key.database != "" && |key.table| == |filter| - FirstDot(filter) - 1;
  }

  lemma ChangedMeansDifferent(a: Rows, b: Rows, td: TableDiff)
    requires TableDiffOk(a, b, td) && Changed(td)
    ensures a != b
  {
    if td.added != [] {
      assert td.added[0] in td.added;
    } else if td.removed != [] {
      assert td.removed[0] in td.removed;
    } else {
      var m := td.modified[0];
      assert m in td.modified;
      NoChangesMeansEqual(a[m.uuid], b[m.uuid], m.fields);
    }
  }

  lemma InOrder(tables: seq<TableDiff>)
    requires forall i, j | 0 <= i < j < |tables| :: KeyLess(tables[i].key, tables[j].key)
    ensures forall i, j | 0 <= i < j < |tables| ::
              || Less(tables[i].key.database, tables[j].key.database)
              || (tables[i].key.database == tables[j].key.database && Less(tables[i].key.table, tables[j].key.table))
  {
  }

  /** The rows are those of the two snapshots; the filter goes into the queries for them. */
  method DiffSnapshots(fromAll: seq<SnapshotRow>, toAll: seq<SnapshotRow>, filter: string)
    returns (tables: seq<TableDiff>)
    ensures DiffOk(Grouped(Queried(fromAll, FilterKey(filter))), Grouped(Queried(toAll, FilterKey(filter))), tables)
    ensures forall i, j | 0 <= i < j < |tables| ::
              || Less(tables[i].key.database, tables[j].key.database)
              || (tables[i].key.database == tables[j].key.database && Less(tables[i].key.table, tables[j].key.table))
  {
    hide ListsExtra, ListsModified, Grouped, Queried, FilterKey;
    var fromRows, toRows := Queried(fromAll, FilterKey(filter)), Queried(toAll, FilterKey(filter));
    var from := Group(fromRows);
    var to := Group(toRows);
    var keys := SortTableKeys(from.Keys + to.Keys);
    tables := [];
    for i := 0 to |keys|
      invariant PartialDiff(from, to, keys[..i], tables)
    {
      hide PartialDiff, SortedTables, TableDiffOk, RowsAt;
      assert keys[..i + 1] == keys[..i] + [keys[i]];
      var td := DiffTable(keys[i], RowsAt(from, keys[i]), RowsAt(to, keys[i]));
      SortedPrefix(keys, i);
      OneMoreTable(from, to, keys[..i], keys[i], tables, td);
      if Changed(td) {
        tables := tables + [td];
      }
    }
    assert keys[..|keys|] == keys;
    InOrder(tables);
    forall k | RowsAt(from, k) != RowsAt(to, k)
      ensures exists td :: td in tables && td.key == k
    {
      assert k in from.Keys + to.Keys && k in keys;
    }
  }

  /** The diff of the tables visited so far. */
  ghost predicate PartialDiff(a: Snapshot, b: Snapshot, keys: seq<TableKey>, tables: seq<TableDiff>) {
    && (forall i, j | 0 <= i < j < |tables| :: KeyLess(tables[i].key, tables[j].key))
    && (forall td | td in tables ::
          td.key in keys && Changed(td) && TableDiffOk(RowsAt(a, td.key), RowsAt(b, td.key), td))
    && (forall k | k in keys && RowsAt(a, k) != RowsAt(b, k) :: exists td :: td in tables && td.key == k)
  }

  lemma SortedPrefix(keys: seq<TableKey>, i: nat)
    requires SortedTables(keys) && i < |keys|
    ensures forall k | k in keys[..i] :: KeyLess(k, keys[i])
  {
    hide KeyLess;
  }

  lemma OneMoreTable(a: Snapshot, b: Snapshot, keys: seq<TableKey>, k: TableKey, tables: seq<TableDiff>, td: TableDiff)
    requires PartialDiff(a, b, keys, tables) && forall x | x in keys :: KeyLess(x, k)
    requires td.key == k && TableDiffOk(RowsAt(a, k), RowsAt(b, k), td)
    ensures PartialDiff(a, b, keys + [k], if Changed(td) then tables + [td] else tables)
  {
    hide KeyLess, TableDiffOk, RowsAt, Changed;
    UnchangedTable(RowsAt(a, k), RowsAt(b, k), td);
    var more := if Changed(td) then tables + [td] else tables;
    if Changed(td) {
      TablesGrow(tables, td);
    }
    forall x | x in keys + [k] && RowsAt(a, x) != RowsAt(b, x)
      ensures exists y :: y in more && y.key == x
    {
      if x in keys {
        var y :| y in tables && y.key == x;
        assert y in more;
      } else {
        assert td in more;
      }
    }
  }

  lemma TablesGrow(tables: seq<TableDiff>, td: TableDiff)
    requires forall i, j | 0 <= i < j < |tables| :: KeyLess(tables[i].key, tables[j].key)
    requires forall x | x in tables :: KeyLess(x.key, td.key)
    ensures var all := tables + [td];
            && (forall i, j | 0 <= i < j < |all| :: KeyLess(all[i].key, all[j].key))
            && (forall x :: x in all <==> x in tables || x == td)
  {
    hide KeyLess;
  }

  lemma UnchangedTable(a: Rows, b: Rows, td: TableDiff)
    requires TableDiffOk(a, b, td)
    ensures a != b ==> Changed(td)
  {
    hide FieldsDiff;
    if !Changed(td) {
      assert a.Keys == b.Keys;
      assert a == b;
    }
  }

  method SortTableKeys(keys: set<TableKey>) returns (s: seq<TableKey>)
    ensures SortedTables(s) && forall k :: k in s <==> k in keys
  {
    s := [];
    var rest := keys;
    while rest != {}
      invariant rest <= keys && SortedTables(s) && forall k :: k in s <==> k in keys && k !in rest
      decreases |rest|
    {
      hide SortedTables;
      var k := Pick(rest);
      s := InsertKey(s, k);
      rest := rest - {k};
    }
  }

  method InsertKey(s: seq<TableKey>, k: TableKey) returns (t: seq<TableKey>)
    requires SortedTables(s) && k !in s
    ensures SortedTables(t) && forall x :: x in t <==> x in s || x == k
  {
    hide SortedTables, KeyLess;
    var n := 0;
    while n < |s| && KeyLess(s[n], k)
      invariant n <= |s| && forall i | 0 <= i < n :: KeyLess(s[i], k)
    {
      n := n + 1;
    }
    t := s[..n] + [k] + s[n..];
    assert s == s[..n] + s[n..];
    InsertKeepsSorted(s, k, n);
  }

  lemma KeyOrder(a: TableKey, b: TableKey, c: TableKey)
    ensures a == b || KeyLess(a, b) || KeyLess(b, a)
    ensures KeyLess(a, b) && KeyLess(b, c) ==> KeyLess(a, c)
  {
    LessTotal(a.database, b.database);
    LessTotal(a.table, b.table);
    if KeyLess(a, b) && KeyLess(b, c) {
      if a.database != b.database && b.database != c.database {
        LessTransitive(a.database, b.database, c.database);
        if a.database == c.database {
          LessIrreflexive(a.database);
        }
      } else if a.database == b.database == c.database {
        LessTransitive(a.table, b.table, c.table);
      }
    }
  }

  lemma InsertKeepsSorted(s: seq<TableKey>, k: TableKey, n: nat)
    requires SortedTables(s) && k !in s && n <= |s|
    requires forall i | 0 <= i < n :: KeyLess(s[i], k)
    requires n < |s| ==> !KeyLess(s[n], k)
    ensures SortedTables(s[..n] + [k] + s[n..])
  {
    hide KeyLess;
    var t := s[..n] + [k] + s[n..];
    forall i, j | 0 <= i < j < |t|
      ensures KeyLess(t[i], t[j])
    {
      if i == n {
        KeyOrder(k, s[n], s[j - 1]);
      }
    }
  }
}
