/** Loading a dump into the in-memory database: one transaction with one insert for each row. */
module SnapshotLoad {
  import opened Wrappers
  import opened Ordering
  import opened SnapshotPruning

  /** A dumped row; row is None if its model does not decode. */
  datatype Record = Record(uuid: string, row: Option<WireRow>)

  type Dump = map<string, seq<Record>>

  datatype Insert = Insert(table: string, uuid: string, row: WireRow)

  /** The columns of an insert before pruning: _uuid and _version are not regular columns. */
  function Columns(row: WireRow): WireRow {
    row - {"_uuid", "_version"}
  }

  function InsertOf(schema: Schema, table: string, rec: Record, present: set<string>): Insert
    requires rec.row.Some?
  {
    Insert(table, rec.uuid, Pruned(schema, table, Columns(rec.row.value), present))
  }

  /** The inserts of one table. */
  ghost predicate TableInserts(schema: Schema, table: string, recs: seq<Record>, present: set<string>,
                               ops: seq<Insert>) {
    |ops| == |recs| && forall i | 0 <= i < |recs| ::
      recs[i].row.Some? && ops[i] == InsertOf(schema, table, recs[i], present)
  }

  /** The UUIDs of the records in these tables. */
  ghost function UuidsOf(d: Dump, tables: seq<string>): set<string> {
    set t, i | t in tables && t in d && 0 <= i < |d[t]| :: d[t][i].uuid
  }

  /** The inserts of the tables, table by table. */
  ghost predicate DumpInserts(schema: Schema, d: Dump, tables: seq<string>, present: set<string>, ops: seq<Insert>)
    decreases |tables|
  {
    if tables == [] then ops == []
    else
      var t := tables[|tables| - 1];
      t in d && |d[t]| <= |ops|
      && DumpInserts(schema, d, tables[..|tables| - 1], present, ops[..|ops| - |d[t]|])
      && TableInserts(schema, t, d[t], present, ops[|ops| - |d[t]|..])
  }

  method CollectPresent(d: Dump, tables: seq<string>) returns (present: set<string>)
    requires forall t | t in tables :: t in d
    ensures present == UuidsOf(d, tables)
  {
    present := {};
    for i := 0 to |tables|
      invariant present == UuidsOf(d, tables[..i])
    {
      assert tables[..i + 1] == tables[..i] + [tables[i]];
      var recs := d[tables[i]];
      ghost var before := present;
      for j := 0 to |recs|
        invariant present == before + set k | 0 <= k < j :: recs[k].uuid
      {
        present := present + {recs[j].uuid};
      }
    }
    assert tables[..|tables|] == tables;
  }

  method InsertTable(schema: Schema, table: string, recs: seq<Record>, present: set<string>)
    returns (r: Option<seq<Insert>>)
    ensures r.None? <==> exists i :: 0 <= i < |recs| && recs[i].row.None?
    ensures r.Some? ==> TableInserts(schema, table, recs, present, r.value)
  {
    var ops: seq<Insert> := [];
    for i := 0 to |recs|
      invariant |ops| == i
      invariant forall j | 0 <= j < i :: recs[j].row.Some? && ops[j] == InsertOf(schema, table, recs[j], present)
    {
      if recs[i].row.None? {
        return None;
      }
      var row := PruneDanglingRowRefs(schema, table, Columns(recs[i].row.value), present);
      ops := ops + [Insert(table, recs[i].uuid, row)];
    }
    r := Some(ops);
  }

  /** The tables of the dump that this build models. */
  function Modelled(d: Dump, known: set<string>): set<string> {
    set t | t in d && t in known
  }

  ghost predicate Undecodable(d: Dump, t: string) {
    t in d && exists i :: 0 <= i < |d[t]| && d[t][i].row.None?
  }

  datatype LoadError = Undecoded | RowRefused(row: nat) | NotCommitted

  /** No modelled table has a record. */
  ghost predicate NothingToLoad(d: Dump, known: set<string>) {
    forall t | t in Modelled(d, known) :: d[t] == []
  }

  /**
   * refused says of each result of the transaction whether it is an error, commits whether the
   * commit succeeds. On success the inserts are in the database, otherwise nothing is.
   */
  method LoadDump(schema: Schema, known: set<string>, d: Dump, refused: seq<bool>, commits: bool)
    returns (r: Result<seq<Insert>, LoadError>)
    ensures r == Err(Undecoded) <==> exists t :: t in Modelled(d, known) && Undecodable(d, t)
    ensures r.Ok? ==> forall tables | SortedListing(tables, Modelled(d, known)) ::
              DumpInserts(schema, d, tables, UuidsOf(d, tables), r.value)
    ensures r.Ok? ==> LoadsAll(d, known, r.value)
    ensures r != Err(Undecoded) ==> (r.Ok? <==> NothingToLoad(d, known) || (true !in refused && commits))
    ensures r.Err? && r.error.RowRefused? ==>
              r.error.row < |refused| && refused[r.error.row] && true !in refused[..r.error.row]
  {
    var built, tables := BuildInserts(schema, known, d);
    if built.None? {
      return Err(Undecoded);
    }
    AnythingToLoad(schema, d, known, tables, built.value);
    AllLoaded(schema, d, known, tables, built.value);
    if |built.value| == 0 {
      return Ok([]);
    }
    for i := 0 to |refused|
      invariant true !in refused[..i]
    {
      if refused[i] {
        return Err(RowRefused(i));
      }
    }
    assert refused[..|refused|] == refused;
    return if commits then Ok(built.value) else Err(NotCommitted);
  }

  lemma AnythingToLoad(schema: Schema, d: Dump, known: set<string>, tables: seq<string>, ops: seq<Insert>)
    requires SortedListing(tables, Modelled(d, known)) && DumpInserts(schema, d, tables, UuidsOf(d, tables), ops)
    ensures ops == [] <==> NothingToLoad(d, known)
  {
    hide DumpInserts, Increasing;
    InsertedAre(schema, d, tables, UuidsOf(d, tables), ops);
    if ops != [] {
      assert ops[0].uuid in Inserted(ops);
    }
    forall t | t in Modelled(d, known) && d[t] != []
      ensures ops != []
    {
      assert t in tables && d[t][0].uuid in Inserted(ops);
    }
  }

  /** The inserts are of the records of the known tables, each under its own table and UUID. */
  ghost predicate LoadsAll(d: Dump, known: set<string>, ops: seq<Insert>) {
    && (forall op | op in ops :: op.table in d && op.table in known && HasRecord(d[op.table], op.uuid))
    && (forall t, rec | t in d && t in known && rec in d[t] :: HasInsert(ops, t, rec.uuid))
  }

  ghost predicate HasRecord(recs: seq<Record>, u: string) {
    exists rec :: rec in recs && rec.uuid == u
  }

  ghost predicate HasInsert(ops: seq<Insert>, t: string, u: string) {
    exists op :: op in ops && op.table == t && op.uuid == u
  }

  lemma {:induction false} RecordsAreInserted(schema: Schema, d: Dump, tables: seq<string>, present: set<string>,
                                              ops: seq<Insert>, t: string, rec: Record)
    requires DumpInserts(schema, d, tables, present, ops) && t in tables && t in d && rec in d[t]
    ensures HasInsert(ops, t, rec.uuid)
    decreases |tables|
  {
    hide InsertOf;
    var last := tables[|tables| - 1];
    var n := |ops| - |d[last]|;
    if last == t {
      var i :| 0 <= i < |d[t]| && d[t][i] == rec;
      assert ops[n..][i] == InsertOf(schema, t, rec, present);
      InsertIsOf(schema, t, rec, present);
      assert ops[n + i] in ops;
    } else {
      RecordsAreInserted(schema, d, tables[..|tables| - 1], present, ops[..n], t, rec);
    }
  }

  lemma InsertIsOf(schema: Schema, table: string, rec: Record, present: set<string>)
    requires rec.row.Some?
    ensures InsertOf(schema, table, rec, present).table == table
              && InsertOf(schema, table, rec, present).uuid == rec.uuid
  {
  }

  lemma AllLoaded(schema: Schema, d: Dump, known: set<string>, tables: seq<string>, ops: seq<Insert>)
    requires SortedListing(tables, Modelled(d, known)) && DumpInserts(schema, d, tables, UuidsOf(d, tables), ops)
    ensures LoadsAll(d, known, ops)
  {
    hide DumpInserts, Increasing, UuidsOf, InsertOf;
    var present := UuidsOf(d, tables);
    InsertsComeFromRecords(schema, d, tables, present, ops);
    forall op | op in ops
      ensures op.table in d && op.table in known && HasRecord(d[op.table], op.uuid)
    {
      assert ComesFrom(schema, d, tables, present, op);
      var i :| 0 <= i < |d[op.table]| && d[op.table][i].row.Some?
          && op == InsertOf(schema, op.table, d[op.table][i], present);
      InsertIsOf(schema, op.table, d[op.table][i], present);
      assert d[op.table][i] in d[op.table];
    }
    forall t, rec | t in d && t in known && rec in d[t]
      ensures HasInsert(ops, t, rec.uuid)
    {
      RecordsAreInserted(schema, d, tables, present, ops, t, rec);
    }
  }

  /**
   * An inserted row is the record's, without the two columns the server keeps itself and without
   * references to missing rows.
   */
  lemma InsertedRowIs(schema: Schema, table: string, rec: Record, present: set<string>, col: string)
    requires rec.row.Some?
    ensures var row, out := rec.row.value, InsertOf(schema, table, rec, present).row;
            && (col in out <==>
                  && col in row && col != "_uuid" && col != "_version"
                  && !(row[col].AtomicUuid? && RefersByKey(schema, table, col) && row[col].uuid != ""
                        && row[col].uuid !in present))
            && (col in out && (row[col].AtomicUuid? || row[col].Scalar?) ==> out[col] == row[col])
  {
    hide Pruned;
    PrunedColumns(schema, table, Columns(rec.row.value), present, col);
  }

  /** The inserts of loadDump: the modelled tables in their sorted order, or None if a record does not decode. */
  method BuildInserts(schema: Schema, known: set<string>, d: Dump)
    returns (r: Option<seq<Insert>>, ghost tables: seq<string>)
    ensures SortedListing(tables, Modelled(d, known))
    ensures r.None? <==> exists t :: t in Modelled(d, known) && Undecodable(d, t)
    ensures r.Some? ==> DumpInserts(schema, d, tables, UuidsOf(d, tables), r.value)
    ensures r.Some? ==> forall other | SortedListing(other, Modelled(d, known)) ::
              DumpInserts(schema, d, other, UuidsOf(d, other), r.value)
  {
    hide DumpInserts, UuidsOf, Undecodable, Increasing;
    var names: set<string> := {};
    var rest := d.Keys;
    while rest != {}
      invariant rest <= d.Keys && names == Modelled(d, known) - rest
      decreases |rest|
    {
      var t := Pick(rest);
      rest := rest - {t};
      if t in known {
        names := names + {t};
      }
    }
    assert names == Modelled(d, known);
    var sorted := SortKeys(names);
    OnlyListing(sorted, names);
    tables := sorted;
    r := LoadTables(schema, d, sorted);
  }

  /** The loops over the loaded tables and their records. */
  method LoadTables(schema: Schema, d: Dump, tables: seq<string>) returns (r: Option<seq<Insert>>)
    requires forall t | t in tables :: t in d
    ensures r.None? <==> exists j :: 0 <= j < |tables| && Undecodable(d, tables[j])
    ensures r.Some? ==> DumpInserts(schema, d, tables, UuidsOf(d, tables), r.value)
  {
    hide DumpInserts, UuidsOf, Undecodable, TableInserts;
    var present := CollectPresent(d, tables);
    var ops: seq<Insert> := [];
    NoInserts(schema, d, present);
    for i := 0 to |tables|
      invariant DumpInserts(schema, d, tables[..i], present, ops)
      invariant forall j | 0 <= j < i :: !Undecodable(d, tables[j])
    {
      assert tables[i] in tables;
      var more := InsertTable(schema, tables[i], d[tables[i]], present);
      if more.None? {
        NotDecoded(d, tables[i]);
        return None;
      }
      InsertsGrow(schema, d, tables[..i], tables[i], present, ops, more.value);
      assert tables[..i + 1] == tables[..i] + [tables[i]];
      ops := ops + more.value;
    }
    assert tables[..|tables|] == tables;
    r := Some(ops);
  }

  lemma OnlyListing(s: seq<string>, keys: set<string>)
    requires SortedListing(s, keys)
    ensures forall t | SortedListing(t, keys) :: t == s
    ensures forall k | k in keys :: exists j :: 0 <= j < |s| && s[j] == k
  {
    forall t | SortedListing(t, keys)
      ensures t == s
    {
      SortedListingUnique(t, s, keys);
    }
    assert forall k | k in keys :: k in s;
  }

  lemma NoInserts(schema: Schema, d: Dump, present: set<string>)
    ensures DumpInserts(schema, d, [], present, [])
  {
  }

  lemma NotDecoded(d: Dump, t: string)
    requires t in d && exists i :: 0 <= i < |d[t]| && d[t][i].row.None?
    ensures Undecodable(d, t)
  {
  }

  lemma InsertsGrow(schema: Schema, d: Dump, tables: seq<string>, t: string, present: set<string>, ops: seq<Insert>,
                    more: seq<Insert>)
    requires DumpInserts(schema, d, tables, present, ops) && t in d && TableInserts(schema, t, d[t], present, more)
    ensures DumpInserts(schema, d, tables + [t], present, ops + more)
    ensures !Undecodable(d, t)
  {
    var all := tables + [t];
    assert all[..|all| - 1] == tables && |more| == |d[t]|;
    assert (ops + more)[..|ops|] == ops && (ops + more)[|ops|..] == more;
  }

  // ---------- what is loaded ----------

  ghost function Inserted(ops: seq<Insert>): set<string> {
    set i | 0 <= i < |ops| :: ops[i].uuid
  }

  ghost function RecordUuids(recs: seq<Record>): set<string> {
    set i | 0 <= i < |recs| :: recs[i].uuid
  }

  lemma InsertedConcat(a: seq<Insert>, b: seq<Insert>)
    ensures Inserted(a + b) == Inserted(a) + Inserted(b)
  {
    forall u
      ensures u in Inserted(a + b) <==> u in Inserted(a) || u in Inserted(b)
    {
      if u in Inserted(b) {
        var i :| 0 <= i < |b| && b[i].uuid == u;
        assert (a + b)[|a| + i].uuid == u;
      }
      if u in Inserted(a) {
        var i :| 0 <= i < |a| && a[i].uuid == u;
        assert (a + b)[i].uuid == u;
      }
    }
  }

  lemma TableInserted(schema: Schema, table: string, recs: seq<Record>, present: set<string>, ops: seq<Insert>)
    requires TableInserts(schema, table, recs, present, ops)
    ensures Inserted(ops) == RecordUuids(recs)
  {
    hide Pruned;
    assert forall i | 0 <= i < |recs| :: ops[i].uuid == recs[i].uuid;
  }

  lemma UuidsSnoc(d: Dump, tables: seq<string>, t: string)
    requires t in d
    ensures UuidsOf(d, tables + [t]) == UuidsOf(d, tables) + RecordUuids(d[t])
  {
    assert forall x :: x in tables + [t] <==> x in tables || x == t;
  }

  /** The rows inserted are exactly the records of the loaded tables. */
  lemma {:induction false} InsertedAre(schema: Schema, d: Dump, tables: seq<string>, present: set<string>,
                                       ops: seq<Insert>)
    requires DumpInserts(schema, d, tables, present, ops)
    ensures Inserted(ops) == UuidsOf(d, tables)
    decreases |tables|
  {
    if tables != [] {
      hide TableInserts, UuidsOf, Inserted, RecordUuids;
      var t := tables[|tables| - 1];
      var n := |ops| - |d[t]|;
      assert ops == ops[..n] + ops[n..] && tables == tables[..|tables| - 1] + [t];
      InsertedAre(schema, d, tables[..|tables| - 1], present, ops[..n]);
      InsertedConcat(ops[..n], ops[n..]);
      TableInserted(schema, t, d[t], present, ops[n..]);
      UuidsSnoc(d, tables[..|tables| - 1], t);
    }
  }

  /** Each insert is the pruned row of a record. */
  ghost predicate ComesFrom(schema: Schema, d: Dump, tables: seq<string>, present: set<string>, op: Insert) {
    exists i :: op.table in tables && op.table in d && 0 <= i < |d[op.table]| && d[op.table][i].row.Some?
                && op == InsertOf(schema, op.table, d[op.table][i], present)
  }

  lemma TableComesFrom(schema: Schema, d: Dump, tables: seq<string>, t: string, present: set<string>, ops: seq<Insert>)
    requires t in tables && t in d && TableInserts(schema, t, d[t], present, ops)
    ensures forall op | op in ops :: ComesFrom(schema, d, tables, present, op)
  {
    hide Pruned;
    forall op | op in ops
      ensures ComesFrom(schema, d, tables, present, op)
    {
      var i :| 0 <= i < |ops| && ops[i] == op;
      assert op == InsertOf(schema, t, d[t][i], present);
    }
  }

  lemma MoreTables(schema: Schema, d: Dump, tables: seq<string>, t: string, present: set<string>, op: Insert)
    requires ComesFrom(schema, d, tables, present, op)
    ensures ComesFrom(schema, d, tables + [t], present, op)
  {
    hide InsertOf;
  }

  lemma {:induction false} InsertsComeFromRecords(schema: Schema, d: Dump, tables: seq<string>, present: set<string>,
                                                  ops: seq<Insert>)
    requires DumpInserts(schema, d, tables, present, ops)
    ensures forall op | op in ops :: ComesFrom(schema, d, tables, present, op)
    decreases |tables|
  {
    if tables != [] {
      hide TableInserts, ComesFrom;
      var t := tables[|tables| - 1];
      var n := |ops| - |d[t]|;
      assert ops == ops[..n] + ops[n..] && tables == tables[..|tables| - 1] + [t];
      InsertsComeFromRecords(schema, d, tables[..|tables| - 1], present, ops[..n]);
      TableComesFrom(schema, d, tables, t, present, ops[n..]);
      forall op | op in ops[..n]
        ensures ComesFrom(schema, d, tables, present, op)
      {
        MoreTables(schema, d, tables[..|tables| - 1], t, present, op);
      }
    }
  }

  /**
   * Every reference in an inserted row names a row inserted by the same transaction, also
   * when tables were skipped, unless it is an empty atomic reference.
   */
  lemma LoadedRefsResolve(schema: Schema, d: Dump, tables: seq<string>, ops: seq<Insert>, op: Insert)
    requires DumpInserts(schema, d, tables, UuidsOf(d, tables), ops) && op in ops && "" !in UuidsOf(d, tables)
    ensures NoDanglingRefs(schema, op.table, op.row, Inserted(ops)) <==> !HasEmptyRef(schema, op.table, op.row)
  {
    hide DumpInserts, Pruned, NoDanglingRefs, HasEmptyRef, InsertOf;
    var present := UuidsOf(d, tables);
    InsertedAre(schema, d, tables, present, ops);
    InsertsComeFromRecords(schema, d, tables, present, ops);
    assert ComesFrom(schema, d, tables, present, op);
    var i :| 0 <= i < |d[op.table]| && d[op.table][i].row.Some?
        && op == InsertOf(schema, op.table, d[op.table][i], present);
    InsertedRow(schema, op.table, d[op.table][i], present);
    var row := Columns(d[op.table][i].row.value);
    PrunedHasNoDanglingRefs(schema, op.table, row, present);
    EmptyRefsStay(schema, op.table, row, present);
  }

  lemma InsertedRow(schema: Schema, table: string, rec: Record, present: set<string>)
    requires rec.row.Some?
    ensures InsertOf(schema, table, rec, present).row == Pruned(schema, table, Columns(rec.row.value), present)
  {
  }

  lemma EmptyRefsStay(schema: Schema, table: string, row: WireRow, present: set<string>)
    requires "" !in present
    ensures HasEmptyRef(schema, table, Pruned(schema, table, row, present)) <==> HasEmptyRef(schema, table, row)
  {
    var out := Pruned(schema, table, row, present);
    if HasEmptyRef(schema, table, row) {
      var col :| col in row && row[col] == AtomicUuid("") && ColumnOf(schema, table, col).keyRef;
      assert col in out && out[col] == AtomicUuid("");
    }
  }
}
