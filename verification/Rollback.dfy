/** Rolling the writable tables back to a recorded snapshot. */
module Rollback {
  import opened Wrappers
  import opened Ovsdb
  import opened WritePlans
  import opened WriteTransactions
  import opened WriteGuarantees

  datatype SnapshotRow = SnapshotRow(id: RowId, data: Row)

  type Snapshot = map<RowId, Row>

  /** The recorded rows by identity; a later record of the same row wins. */
  function Recorded(rows: seq<SnapshotRow>): Snapshot {
    if rows == [] then map[] else Recorded(rows[..|rows| - 1])[rows[|rows| - 1].id := rows[|rows| - 1].data]
  }

  /** The recorded fields of a row that differ from its current state. */
  function Changed(data: Row, current: Row): Row {
    map k | k in data && k != "_uuid" && data[k] != Col(current, k) :: data[k]
  }

  /** The row is recorded, in a writable table, and still exists. */
  predicate Restorable(snap: Snapshot, db: Db, reg: Registry, id: RowId) {
    id in snap && id.table in reg && id in db
  }

  function RestoreOp(snap: Snapshot, db: Db, id: RowId): WriteOperation
    requires id in snap && id in db
  {
    WriteOperation(UpdateRow, id.table, id.uuid, Changed(snap[id], db[id]))
  }

  /** One update for each row that differs, in any order. */
  ghost predicate RollbackOps(snap: Snapshot, db: Db, reg: Registry, ops: seq<WriteOperation>) {
    && (forall op | op in ops ::
          Restorable(snap, db, reg, Target(op)) && op == RestoreOp(snap, db, Target(op)) && op.fields != map[])
    && (forall id | Restorable(snap, db, reg, id) && Changed(snap[id], db[id]) != map[] ::
          RestoreOp(snap, db, id) in ops)
    && (forall i, j | 0 <= i < j < |ops| :: Target(ops[i]) != Target(ops[j]))
  }

  /** What a rollback proposes: the operations of a plan (none when nothing differs) and the rows that are gone. */
  datatype Proposal = Proposal(ops: seq<WriteOperation>, missing: seq<RowId>)

  // ---------- the same from the recorded rows ----------

  function Pairs(rows: seq<SnapshotRow>): (p: seq<(RowId, Row)>)
    ensures |p| == |rows| && forall i | 0 <= i < |rows| :: p[i] == (rows[i].id, rows[i].data)
  {
    seq(|rows|, i requires 0 <= i < |rows| => (rows[i].id, rows[i].data))
  }

  /** The last of the rows recorded for id holds data. */
  ghost predicate LastRecord(rows: seq<SnapshotRow>, id: RowId, data: Row) {
    exists i :: 0 <= i < |rows| && rows[i] == SnapshotRow(id, data) && forall j | i < j < |rows| :: rows[j].id != id
  }

  lemma {:induction false} RecordedIs(rows: seq<SnapshotRow>, id: RowId, data: Row)
    ensures LastRecord(rows, id, data) <==> id in Recorded(rows) && Recorded(rows)[id] == data
    ensures id in Recorded(rows) <==> exists i :: 0 <= i < |rows| && rows[i].id == id
    decreases |rows|
  {
    LastRecordIsLastEntry(rows, id, data);
    if rows != [] {
      hide LastRecord, LastEntry;
      var front, last := rows[..|rows| - 1], rows[|rows| - 1];
      RecordedIs(front, id, data);
      LastRecordIsLastEntry(front, id, data);
      assert Pairs(rows) == Pairs(front) + [(last.id, last.data)];
      LastEntrySnoc(Pairs(front), (last.id, last.data), id, data);
      assert forall i | 0 <= i < |front| :: rows[i] == front[i];
    }
  }

  lemma LastRecordIsLastEntry(rows: seq<SnapshotRow>, id: RowId, data: Row)
    ensures LastRecord(rows, id, data) <==> LastEntry(Pairs(rows), id, data)
  {
    var p := Pairs(rows);
    if LastRecord(rows, id, data) {
      var i :| 0 <= i < |rows| && rows[i] == SnapshotRow(id, data) && forall j | i < j < |rows| :: rows[j].id != id;
      assert p[i] == (id, data);
    }
    if LastEntry(p, id, data) {
      var i :| 0 <= i < |p| && p[i] == (id, data) && forall j | i < j < |p| :: p[j].0 != id;
      assert rows[i] == SnapshotRow(id, data);
      assert forall j | i < j < |rows| :: p[j].0 == rows[j].id;
    }
  }

  /**
   * The update writes exactly the recorded fields that differ from the current row, the UUID aside,
   * and there is one.
   */
  ghost predicate Restores(op: WriteOperation, id: RowId, data: Row, current: Row) {
    && op.action == UpdateRow && RowId(op.table, op.uuid) == id && op.fields != map[]
    && (forall k :: k in op.fields <==>
          k in data && k != "_uuid" && data[k] != (if k in current then current[k] else Null))
    && forall k | k in op.fields :: op.fields[k] == data[k]
  }

  ghost predicate Differs(data: Row, current: Row) {
    exists k :: k in data && k != "_uuid" && data[k] != (if k in current then current[k] else Null)
  }

  /** One update for each recorded row of a writable table that is there and differs; the missing ones are listed. */
  ghost predicate ProposalOk(rows: seq<SnapshotRow>, cache: Db, reg: Registry, r: Proposal) {
    && (forall op | op in r.ops :: exists id, data ::
          LastRecord(rows, id, data) && id.table in reg && id in cache && Restores(op, id, data, cache[id]))
    && (forall id, data | LastRecord(rows, id, data) && id.table in reg && id in cache && Differs(data, cache[id]) ::
          exists op :: op in r.ops && Restores(op, id, data, cache[id]))
    && (forall i, j | 0 <= i < j < |r.ops| ::
          RowId(r.ops[i].table, r.ops[i].uuid) != RowId(r.ops[j].table, r.ops[j].uuid))
    && (forall id :: id in r.missing <==>
          id.table in reg && id !in cache && exists i :: 0 <= i < |rows| && rows[i].id == id)
  }

  lemma RestoreOpRestores(id: RowId, data: Row, current: Row)
    ensures var op := WriteOperation(UpdateRow, id.table, id.uuid, Changed(data, current));
            && (op.fields != map[] <==> Differs(data, current))
            && (Differs(data, current) ==> Restores(op, id, data, current))
  {
    var fields := Changed(data, current);
    if Differs(data, current) {
      var k :| k in data && k != "_uuid" && data[k] != (if k in current then current[k] else Null);
      assert k in fields;
    } else {
      assert forall k :: k !in fields;
    }
  }

  lemma ProposalFromRows(rows: seq<SnapshotRow>, cache: Db, reg: Registry, r: Proposal)
    requires RollbackOps(Recorded(rows), cache, reg, r.ops)
    requires forall id :: id in r.missing <==> id in Recorded(rows) && id.table in reg && id !in cache
    ensures ProposalOk(rows, cache, reg, r)
  {
    hide Recorded, Changed, Differs, Restores, LastRecord;
    var snap := Recorded(rows);
    forall op | op in r.ops
      ensures exists id, data ::
                LastRecord(rows, id, data) && id.table in reg && id in cache && Restores(op, id, data, cache[id])
    {
      var id := Target(op);
      RecordedIs(rows, id, snap[id]);
      RestoreOpRestores(id, snap[id], cache[id]);
    }
    forall id, data | LastRecord(rows, id, data) && id.table in reg && id in cache && Differs(data, cache[id])
      ensures exists op :: op in r.ops && Restores(op, id, data, cache[id])
    {
      RecordedIs(rows, id, data);
      RestoreOpRestores(id, data, cache[id]);
      assert RestoreOp(snap, cache, id) in r.ops;
    }
    forall id
      ensures id in snap <==> exists i :: 0 <= i < |rows| && rows[i].id == id
    {
      RecordedIs(rows, id, map[]);
    }
  }

  method Group(rows: seq<SnapshotRow>) returns (snap: Snapshot)
    ensures snap == Recorded(rows)
  {
    snap := map[];
    for i := 0 to |rows|
      invariant snap == Recorded(rows[..i])
    {
      assert rows[..i + 1][..i] == rows[..i];
      snap := snap[rows[i].id := rows[i].data];
    }
    assert rows[..|rows|] == rows;
  }

  /** The loop over the fields of one recorded row. */
  method ChangedFields(data: Row, current: Row) returns (fields: Row)
    ensures fields == Changed(data, current)
  {
    fields := map[];
    var rest := data.Keys;
    while rest != {}
      invariant rest <= data.Keys
      invariant fields == map k | k in data && k !in rest && k != "_uuid" && data[k] != Col(current, k) :: data[k]
      decreases |rest|
    {
      var k := Pick(rest);
      rest := rest - {k};
      if k != "_uuid" && data[k] != Col(current, k) {
        fields := fields[k := data[k]];
      }
    }
  }

  /** The rows before done, and then one more. */
  method ProposeRow(cache: Db, reg: Registry, id: RowId, data: Row, ops: seq<WriteOperation>, ghost done: Snapshot)
    returns (more: seq<WriteOperation>, gone: bool)
    requires RollbackOps(done, cache, reg, ops) && id !in done
    ensures RollbackOps(done[id := data], cache, reg, more)
    ensures gone <==> id.table in reg && id !in cache
  {
    more, gone := ops, false;
    if id.table !in reg {
      SkippedRow(done, cache, reg, ops, id, data);
    } else if id !in cache {
      gone := true;
      SkippedRow(done, cache, reg, ops, id, data);
    } else {
      var fields := ChangedFields(data, cache[id]);
      if fields != map[] {
        OneMoreRow(done, cache, reg, ops, id, data);
        more := ops + [WriteOperation(UpdateRow, id.table, id.uuid, fields)];
      } else {
        SkippedRow(done, cache, reg, ops, id, data);
      }
    }
  }

  method Propose(rows: seq<SnapshotRow>, cache: Db, reg: Registry) returns (r: Option<Proposal>)
    ensures r.None? <==> rows == []
    ensures r.Some? ==> RollbackOps(Recorded(rows), cache, reg, r.value.ops)
    ensures r.Some? ==> ProposalOk(rows, cache, reg, r.value)
  {
    hide RollbackOps, Recorded, ProposalOk;
    if rows == [] {
      return None;
    }
    var snap := Group(rows);
    var ops: seq<WriteOperation> := [];
    var missing: seq<RowId> := [];
    var rest := snap.Keys;
    NothingToDo(snap - rest, cache, reg);
    while rest != {}
      invariant rest <= snap.Keys
      invariant forall id :: id in missing <==> id in snap && id !in rest && id.table in reg && id !in cache
      invariant RollbackOps(snap - rest, cache, reg, ops)
      decreases |rest|
    {
      var id := Pick(rest);
      var gone: bool;
      ghost var done := snap - rest;
      ops, gone := ProposeRow(cache, reg, id, snap[id], ops, done);
      if gone {
        missing := missing + [id];
      }
      OneLess(snap, rest, id);
      rest := rest - {id};
    }
    assert snap - rest == snap;
    ProposalFromRows(rows, cache, reg, Proposal(ops, missing));
    r := Some(Proposal(ops, missing));
  }

  lemma OneLess(snap: Snapshot, rest: set<RowId>, id: RowId)
    requires id in snap && id in rest
    ensures snap - (rest - {id}) == (snap - rest)[id := snap[id]]
  {
  }

  lemma NothingToDo(done: Snapshot, db: Db, reg: Registry)
    requires done == map[]
    ensures RollbackOps(done, db, reg, [])
  {
  }

  lemma SkippedRow(done: Snapshot, db: Db, reg: Registry, ops: seq<WriteOperation>, id: RowId, data: Row)
    requires RollbackOps(done, db, reg, ops) && id !in done
    requires id.table in reg && id in db ==> Changed(data, db[id]) == map[]
    ensures RollbackOps(done[id := data], db, reg, ops)
  {
  }

  lemma OneMoreRow(done: Snapshot, db: Db, reg: Registry, ops: seq<WriteOperation>, id: RowId, data: Row)
    requires RollbackOps(done, db, reg, ops) && id !in done
    requires id.table in reg && id in db && Changed(data, db[id]) != map[]
    ensures RollbackOps(done[id := data], db, reg,
              ops + [WriteOperation(UpdateRow, id.table, id.uuid, Changed(data, db[id]))])
  {
    var op := WriteOperation(UpdateRow, id.table, id.uuid, Changed(data, db[id]));
    assert forall x | x in ops + [op] :: x in ops || x == op;
    assert forall i | 0 <= i < |ops| :: ops[i] in ops;
    forall x | Restorable(done[id := data], db, reg, x) && Changed(done[id := data][x], db[x]) != map[]
      ensures RestoreOp(done[id := data], db, x) in ops + [op]
    {
      if x != id {
        assert RestoreOp(done, db, x) in ops;
      }
    }
  }

  // ---------- applying a rollback ----------

  /** Updates never fail inside a transaction. */
  lemma {:induction false} UpdatesRun(db: Db, reg: Registry, ops: seq<WriteOperation>, uuids: seq<string>)
    requires |uuids| == |ops| && forall op | op in ops :: op.action == UpdateRow && Encodable(reg, op)
    ensures PlanApplied(db, reg, ops, uuids).Some?
    decreases |ops|
  {
    if ops != [] {
      var n := |ops| - 1;
      assert Effects(reg, ops)[..n] == Effects(reg, ops[..n]);
      UpdatesRun(db, reg, ops[..n], uuids[..n]);
      assert ops[n] in ops;
    }
  }

  /** An accepted rollback: valid operations whose values fit their columns. */
  ghost predicate Accepted(reg: Registry, ops: seq<WriteOperation>) {
    ValidOps(ops, reg) && forall op | op in ops :: Encodable(reg, op)
  }

  /** With no write in between, an accepted rollback commits unless the server refuses it. */
  lemma QuietRollbackCommits(snap: Snapshot, cache: Db, db: Db, reg: Registry, ops: seq<WriteOperation>,
                             diffs: seq<PlanDiff>, o: Outcome)
    requires WellTyped(cache, reg) && Mirrors(cache, db)
    requires RollbackOps(snap, cache, reg, ops) && Accepted(reg, ops) && Previewed(cache, ops, diffs)
    requires |o.uuids| == |ops|
    ensures Committed(db, reg, ops, diffs, o) <==> o.commits
  {
    GuardsDetectForeignWrites(cache, db, ops, diffs);
    forall op | op in ops
      ensures SameTarget(cache, db, op)
    {
      forall k | k in op.fields
        ensures SameValue(Col(db[Target(op)], k), Col(cache[Target(op)], k))
      {
        assert SameValue(Col(cache[Target(op)], k), Col(db[Target(op)], k));
      }
    }
    PreviewIsGuardable(cache, reg, ops, diffs);
    UpdatesRun(db, reg, ops, o.uuids);
  }

  /**
   * An accepted rollback was proposed from the cache and applied to the database it mirrors,
   * which became db1; cache1 is what the client then reads.
   */
  ghost predicate RolledBack(snap: Snapshot, reg: Registry, cache: Db, db: Db, ops: seq<WriteOperation>,
                             uuids: seq<string>, db1: Db, cache1: Db) {
    && RollbackOps(snap, cache, reg, ops) && Accepted(reg, ops) && Mirrors(cache, db)
    && |uuids| == |ops| && PlanApplied(db, reg, ops, uuids) == Some(db1)
    && ReadBack(cache, db1, cache1)
  }

  /** Rows that are not restored are left exactly as they were. */
  lemma RollbackTouchesNothingElse(snap: Snapshot, reg: Registry, cache: Db, db: Db, ops: seq<WriteOperation>,
                                   uuids: seq<string>, db1: Db, cache1: Db, id: RowId)
    requires RolledBack(snap, reg, cache, db, ops, uuids, db1, cache1)
    requires !Restorable(snap, cache, reg, id) || Changed(snap[id], cache[id]) == map[]
    ensures Lookup(db1, id) == Lookup(db, id)
  {
    forall i | 0 <= i < |ops|
      ensures !Concerns(ops[i], uuids[i], id)
    {
      assert ops[i] in ops;
    }
    OtherRowsUntouched(db, reg, ops, uuids, id);
  }

  /**
   * After an accepted rollback every recorded field of a restored row that differed has the
   * recorded value, as far as the column can hold it, and every other field is as before.
   */
  lemma RollbackRestores(snap: Snapshot, reg: Registry, cache: Db, db: Db, ops: seq<WriteOperation>, uuids: seq<string>,
                         db1: Db, cache1: Db, id: RowId, k: string)
    requires RolledBack(snap, reg, cache, db, ops, uuids, db1, cache1) && Restorable(snap, cache, reg, id)
    ensures id in db1 && Col(db1[id], k) == RestoredValue(snap[id], cache[id], db[id], reg[id.table], k)
  {
    if Changed(snap[id], cache[id]) == map[] {
      RollbackTouchesNothingElse(snap, reg, cache, db, ops, uuids, db1, cache1, id);
      assert k !in Changed(snap[id], cache[id]);
    } else {
      var op := RestoreOp(snap, cache, id);
      assert op in ops;
      var j :| 0 <= j < |ops| && ops[j] == op;
      forall i | 0 <= i < |ops| && i != j
        ensures !Concerns(ops[i], uuids[i], id)
      {
        assert ops[i] in ops;
        assert Target(ops[i]) != Target(ops[j]);
      }
      ConcernedRow(db, reg, ops, uuids, id, j);
      RowAfterUpdate(db, reg, op, uuids[j], id, db1, k);
    }
  }

  lemma RowAfterUpdate(db: Db, reg: Registry, op: WriteOperation, uuid: string, id: RowId, db1: Db, k: string)
    requires Encodable(reg, op) && op.action == UpdateRow && id in db
    requires RowAfter(db, reg, op, uuid, id, Lookup(db1, id))
    ensures id in db1 && Col(db1[id], k) == UpdatedColumn(db[id], reg[op.table], op.fields, k)
  {
  }

  /**
   * The value a column has after the rollback, where the client saw one row and the server stores
   * another form of it.
   */
  function RestoredValue(data: Row, seen: Row, stored: Row, spec: TableSpec, k: string): Value {
    if k in Changed(data, seen) && k in spec.columns && Coerce(data[k], spec.columns[k]).Some?
    then Coerce(data[k], spec.columns[k]).value
    else Col(stored, k)
  }

  /** A recorded value is one its column can hold, as every value read from the database is. */
  ghost predicate Canonical(snap: Snapshot, reg: Registry) {
    forall id, k | id in snap && id.table in reg && k in snap[id] && k in reg[id.table].columns ::
      Fits(snap[id][k], reg[id.table].columns[k])
  }

  // ---------- what the next rollback sees ----------

  /** A field the rollback did not propose is read as before; one it proposed is read as written, a set in any order. */
  lemma ReadAfterRollback(snap: Snapshot, reg: Registry, cache: Db, db: Db, ops: seq<WriteOperation>,
                          uuids: seq<string>, db1: Db, cache1: Db, id: RowId, k: string)
    requires RolledBack(snap, reg, cache, db, ops, uuids, db1, cache1) && Restorable(snap, cache, reg, id)
    ensures id in cache1
    ensures k !in Changed(snap[id], cache[id]) ==> Col(cache1[id], k) == Col(cache[id], k)
    ensures k in Changed(snap[id], cache[id]) ==>
              && k in reg[id.table].columns && Coerce(snap[id][k], reg[id.table].columns[k]).Some?
              && SameValue(Col(cache1[id], k), Coerce(snap[id][k], reg[id.table].columns[k]).value)
  {
    RollbackRestores(snap, reg, cache, db, ops, uuids, db1, cache1, id, k);
    assert SameValue(Col(cache[id], k), Col(db[id], k)) && SameValue(Col(cache1[id], k), Col(db1[id], k));
    if k in Changed(snap[id], cache[id]) {
      var op := RestoreOp(snap, cache, id);
      assert op in ops && k in op.fields && Encodable(reg, op);
    }
  }

  /**
   * A field still differs from the snapshot after an accepted rollback exactly if it did
   * before and the column cannot hold the recorded value as it is, or holds a set that is
   * read back in another order.
   */
  lemma DiffersAfterRollback(snap: Snapshot, reg: Registry, cache: Db, db: Db, ops: seq<WriteOperation>,
                             uuids: seq<string>, db1: Db, cache1: Db, id: RowId, k: string)
    requires RolledBack(snap, reg, cache, db, ops, uuids, db1, cache1) && Restorable(snap, cache, reg, id)
    ensures id in cache1 && (k in Changed(snap[id], cache[id]) ==> k in reg[id.table].columns)
    ensures k in Changed(snap[id], cache1[id]) <==>
              && k in Changed(snap[id], cache[id])
              && (!Fits(snap[id][k], reg[id.table].columns[k])
                    || (snap[id][k].Set? && Col(cache1[id], k) != snap[id][k]))
  {
    ReadAfterRollback(snap, reg, cache, db, ops, uuids, db1, cache1, id, k);
  }

  /** Each set the rollback restored is read back in the recorded order. */
  ghost predicate OrdersKept(snap: Snapshot, reg: Registry, cache: Db, cache1: Db)
    requires cache.Keys <= cache1.Keys
  {
    forall id, k | Restorable(snap, cache, reg, id) && k in Changed(snap[id], cache[id]) && snap[id][k].Set? ::
      Col(cache1[id], k) == snap[id][k]
  }

  lemma SameRowsAfterRollback(snap: Snapshot, reg: Registry, cache: Db, db: Db, ops: seq<WriteOperation>,
                              uuids: seq<string>, db1: Db, cache1: Db)
    requires RolledBack(snap, reg, cache, db, ops, uuids, db1, cache1)
    ensures cache1.Keys == cache.Keys
  {
    forall id
      ensures id in cache1 <==> id in cache
    {
      if Restorable(snap, cache, reg, id) {
        ReadAfterRollback(snap, reg, cache, db, ops, uuids, db1, cache1, id, "");
      } else {
        RollbackTouchesNothingElse(snap, reg, cache, db, ops, uuids, db1, cache1, id);
      }
    }
  }

  /**
   * After an accepted rollback to recorded database values, the next rollback proposes no
   * change exactly if each restored set is read back in the recorded order.
   */
  lemma SecondRollbackIsEmpty(snap: Snapshot, reg: Registry, cache: Db, db: Db, ops: seq<WriteOperation>,
                              uuids: seq<string>, db1: Db, cache1: Db, again: seq<WriteOperation>)
    requires RolledBack(snap, reg, cache, db, ops, uuids, db1, cache1) && Canonical(snap, reg)
    requires RollbackOps(snap, cache1, reg, again)
    ensures cache.Keys <= cache1.Keys
    ensures again == [] <==> OrdersKept(snap, reg, cache, cache1)
  {
    SameRowsAfterRollback(snap, reg, cache, db, ops, uuids, db1, cache1);
    if again != [] {
      var op := again[0];
      assert op in again;
      var k := Witness(op.fields);
      DiffersAfterRollback(snap, reg, cache, db, ops, uuids, db1, cache1, Target(op), k);
    } else {
      forall id, k | Restorable(snap, cache, reg, id) && k in Changed(snap[id], cache[id]) && snap[id][k].Set?
        ensures Col(cache1[id], k) == snap[id][k]
      {
        NothingProposed(snap, reg, cache1, again, id, k);
      }
    }
  }

  lemma NothingProposed(snap: Snapshot, reg: Registry, cache: Db, ops: seq<WriteOperation>, id: RowId, k: string)
    requires RollbackOps(snap, cache, reg, ops) && Restorable(snap, cache, reg, id)
    ensures ops == [] ==> k !in Changed(snap[id], cache[id])
  {
    if k in Changed(snap[id], cache[id]) {
      assert RestoreOp(snap, cache, id) in ops;
    }
  }

  lemma Witness(fields: Row) returns (k: string)
    requires fields != map[]
    ensures k in fields
  {
    assert fields.Keys != {};
    k :| k in fields;
  }

  /**
   * A recorded set whose elements the row still has, in another order, is never restored: the
   * server sees no change, so the client keeps its order and every later rollback proposes it again.
   */
  lemma ReorderedSetIsNeverRestored(snap: Snapshot, reg: Registry, cache: Db, db: Db, ops: seq<WriteOperation>,
                                    uuids: seq<string>, db1: Db, cache1: Db, id: RowId, k: string)
    requires RolledBack(snap, reg, cache, db, ops, uuids, db1, cache1) && Restorable(snap, cache, reg, id)
    requires k in Changed(snap[id], cache[id]) && snap[id][k].Set? && SameValue(snap[id][k], Col(cache[id], k))
    ensures id in cache1 && Col(cache1[id], k) == Col(cache[id], k) && k in Changed(snap[id], cache1[id])
  {
    ReadAfterRollback(snap, reg, cache, db, ops, uuids, db1, cache1, id, k);
    RollbackRestores(snap, reg, cache, db, ops, uuids, db1, cache1, id, k);
    assert SameValue(Col(cache[id], k), Col(db1[id], k));
  }

  /** The concrete case: recorded as a, b and live as b, a, the same update is proposed over and over. */
  lemma ReorderedSetKeepsComing(reg: Registry, id: RowId, k: string, cache: Db, db: Db)
    requires id.table in reg && k in reg[id.table].columns && reg[id.table].columns[k] == SetColumn && k != "_uuid"
    requires k !in reg[id.table].readOnly && !reg[id.table].deleteOnly && id.uuid != ""
    requires Mirrors(cache, db) && id in cache && Col(cache[id], k) == Set(["b", "a"])
    ensures var snap, ops := map[id := map[k := Set(["a", "b"])]],
                             [WriteOperation(UpdateRow, id.table, id.uuid, map[k := Set(["a", "b"])])];
            && RollbackOps(snap, cache, reg, ops) && Accepted(reg, ops) && PlanApplied(db, reg, ops, [""]).Some?
            && forall cache1 | ReadBack(cache, PlanApplied(db, reg, ops, [""]).value, cache1) ::
                  RollbackOps(snap, cache1, reg, ops)
  {
    var snap := map[id := map[k := Set(["a", "b"])]];
    var op := WriteOperation(UpdateRow, id.table, id.uuid, map[k := Set(["a", "b"])]);
    DifferentOrders();
    OneUpdateProposed(snap, reg, cache, id, k, Set(["a", "b"]), Set(["b", "a"]));
    UpdatesRun(db, reg, [op], [""]);
    var db1 := PlanApplied(db, reg, [op], [""]).value;
    forall cache1 | ReadBack(cache, db1, cache1)
      ensures RollbackOps(snap, cache1, reg, [op])
    {
      ReorderedSetIsNeverRestored(snap, reg, cache, db, [op], [""], db1, cache1, id, k);
      OneUpdateProposed(snap, reg, cache1, id, k, Set(["a", "b"]), Set(["b", "a"]));
    }
  }

  lemma DifferentOrders()
    ensures Set(["a", "b"]) != Set(["b", "a"]) && SameValue(Set(["a", "b"]), Set(["b", "a"]))
  {
    assert ["a", "b"][0] != ["b", "a"][0];
  }

  lemma OneUpdateProposed(snap: Snapshot, reg: Registry, cache: Db, id: RowId, k: string, recorded: Value, live: Value)
    requires snap == map[id := map[k := recorded]] && recorded != live && k != "_uuid"
    requires id.table in reg && id in cache && Col(cache[id], k) == live
    ensures RollbackOps(snap, cache, reg, [WriteOperation(UpdateRow, id.table, id.uuid, map[k := recorded])])
    ensures k in Changed(snap[id], cache[id])
  {
    assert Changed(snap[id], cache[id]) == map[k := recorded];
    assert RestoreOp(snap, cache, id) == WriteOperation(UpdateRow, id.table, id.uuid, map[k := recorded]);
  }
}
