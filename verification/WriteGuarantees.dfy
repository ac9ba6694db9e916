/** What a previewed plan does to the database when it is applied. */
module WriteGuarantees {
  import opened Wrappers
  import opened Ovsdb
  import opened WritePlans
  import opened WriteTransactions

  /** The diffs a preview computed over this cache. */
  ghost predicate Previewed(cache: Db, ops: seq<WriteOperation>, diffs: seq<PlanDiff>) {
    |diffs| == |ops| && forall i | 0 <= i < |ops| :: DiffOf(cache, ops[i], diffs[i])
  }

  /** Every registered table has a read-only _uuid column. */
  ghost predicate RegistryOk(reg: Registry) {
    forall t | t in reg ::
      "_uuid" in reg[t].columns && reg[t].columns["_uuid"] == StrColumn && "_uuid" in reg[t].readOnly
  }

  /** What a preview recorded over a typed cache survives the typed model. */
  lemma PreviewIsTyped(cache: Db, reg: Registry, ops: seq<WriteOperation>, diffs: seq<PlanDiff>)
    requires WellTyped(cache, reg) && Previewed(cache, ops, diffs)
    ensures forall i | 0 <= i < |ops| :: Typed(reg, ops[i], diffs[i].before)
  {
    forall i | 0 <= i < |ops|
      ensures Typed(reg, ops[i], diffs[i].before)
    {
      assert DiffOf(cache, ops[i], diffs[i]);
    }
  }

  /** The guards of a valid previewed plan can always be built. */
  lemma PreviewIsGuardable(cache: Db, reg: Registry, ops: seq<WriteOperation>, diffs: seq<PlanDiff>)
    requires WellTyped(cache, reg) && Previewed(cache, ops, diffs) && ValidOps(ops, reg)
    ensures forall i | 0 <= i < |ops| :: Guardable(reg, ops[i], diffs[i].before)
  {
    forall i | 0 <= i < |ops|
      ensures Guardable(reg, ops[i], diffs[i].before)
    {
      assert DiffOf(cache, ops[i], diffs[i]) && ops[i] in ops && ValidOperation(ops[i], reg);
    }
  }

  /** The database still has what the preview saw, as far as this operation is concerned. */
  predicate SameTarget(cache: Db, db: Db, op: WriteOperation) {
    match op.action
    case UpdateRow =>
      && Target(op) in cache && Target(op) in db
      && forall k | k in op.fields :: SameValue(Col(db[Target(op)], k), Col(cache[Target(op)], k))
    case DeleteRow => Target(op) in cache && Target(op) in db
    case CreateRow => true
    case UnknownAction => true
  }

  /**
   * The guards pass exactly when foreign writers left every updated column and every
   * deleted row as the preview saw them; whatever else they did does not matter.
   */
  lemma GuardsDetectForeignWrites(cache: Db, db: Db, ops: seq<WriteOperation>, diffs: seq<PlanDiff>)
    requires Previewed(cache, ops, diffs)
    ensures PlanHolds(db, ops, diffs) <==> forall op | op in ops :: SameTarget(cache, db, op)
  {
    forall i | 0 <= i < |ops|
      ensures TargetUnchanged(db, ops[i], diffs[i].before) <==> SameTarget(cache, db, ops[i])
    {
      assert DiffOf(cache, ops[i], diffs[i]);
    }
    if PlanHolds(db, ops, diffs) {
      forall op | op in ops
        ensures SameTarget(cache, db, op)
      {
        var i :| 0 <= i < |ops| && ops[i] == op;
        assert TargetUnchanged(db, ops[i], diffs[i].before);
      }
    }
  }

  // ---------- the state a committed plan leaves ----------

  /** op, applied with this UUID for a new row, concerns the row. */
  predicate Concerns(op: WriteOperation, uuid: string, id: RowId) {
    if op.action == CreateRow then RowId(op.table, uuid) == id else Target(op) == id
  }

  /** Rows no operation concerns are untouched. */
  lemma OtherRowsUntouched(db: Db, reg: Registry, ops: seq<WriteOperation>, uuids: seq<string>, id: RowId)
    requires |uuids| == |ops| && (forall op | op in ops :: Encodable(reg, op)) && PlanApplied(db, reg, ops, uuids).Some?
    requires forall i | 0 <= i < |ops| :: !Concerns(ops[i], uuids[i], id)
    ensures Lookup(PlanApplied(db, reg, ops, uuids).value, id) == Lookup(db, id)
  {
    RunLeavesAlone(db, Effects(reg, ops), uuids, id);
  }

  /** A column after an update of these fields. */
  function UpdatedColumn(row: Row, spec: TableSpec, fields: Row, k: string): Value
    requires Hydrates(spec, fields)
  {
    if k in fields then Coerce(fields[k], spec.columns[k]).value else Col(row, k)
  }

  /** The row after the one operation of a plan that concerns it. */
  ghost predicate RowAfter(db: Db, reg: Registry, op: WriteOperation, uuid: string, id: RowId, after: Option<Row>)
    requires Encodable(reg, op)
  {
    match op.action
    case CreateRow =>
      && id !in db && after.Some? && Col(after.value, "_uuid") == Str(uuid)
      && (forall k | k != "_uuid" && k in reg[op.table].columns ::
            k in after.value && Coerce(Col(op.fields, k), reg[op.table].columns[k]) == Some(after.value[k]))
    case UpdateRow =>
      && (after.Some? <==> id in db)
      && (after.Some? ==> forall k :: Col(after.value, k) == UpdatedColumn(db[id], reg[op.table], op.fields, k))
    case DeleteRow => after.None?
  }

  lemma ConcernedRow(db: Db, reg: Registry, ops: seq<WriteOperation>, uuids: seq<string>, id: RowId, j: nat)
    requires |uuids| == |ops| && (forall op | op in ops :: Encodable(reg, op)) && PlanApplied(db, reg, ops, uuids).Some?
    requires j < |ops| && Concerns(ops[j], uuids[j], id)
    requires forall i | 0 <= i < |ops| && i != j :: !Concerns(ops[i], uuids[i], id)
    ensures RowAfter(db, reg, ops[j], uuids[j], id, Lookup(PlanApplied(db, reg, ops, uuids).value, id))
  {
    assert ops[j] in ops;
    RunTargetsOnce(db, Effects(reg, ops), uuids, id, j);
  }

  // ---------- typing is kept ----------

  lemma CreatedRowFits(spec: TableSpec, fields: Row, uuid: string)
    requires "_uuid" in spec.columns && spec.columns["_uuid"] == StrColumn && Hydrates(spec, fields)
    ensures RowFits((ZeroRow(spec) + Hydrated(spec, fields))["_uuid" := Str(uuid)], spec, uuid)
  {
    assert (ZeroRow(spec) + Hydrated(spec, fields))["_uuid" := Str(uuid)].Keys == spec.columns.Keys;
  }

  lemma UpdatedRowFits(row: Row, spec: TableSpec, fields: Row, uuid: string)
    requires RowFits(row, spec, uuid) && Hydrates(spec, fields) && "_uuid" !in fields
    ensures RowFits(row + Hydrated(spec, fields), spec, uuid)
  {
    assert (row + Hydrated(spec, fields)).Keys == spec.columns.Keys;
  }

  lemma EffectKeepsTyping(db: Db, reg: Registry, op: WriteOperation, uuid: string)
    requires RegistryOk(reg) && WellTyped(db, reg) && ValidOperation(op, reg) && Encodable(reg, op)
    requires Step(db, Effect(reg, op), uuid).Some?
    ensures WellTyped(Step(db, Effect(reg, op), uuid).value, reg)
  {
    hide RowFits, Hydrated, ZeroRow, Hydrates;
    if op.action == CreateRow {
      CreatedRowFits(reg[op.table], op.fields, uuid);
    } else if op.action == UpdateRow && Target(op) in db {
      UpdatedRowFits(db[Target(op)], reg[op.table], op.fields, op.uuid);
    }
  }

  /** Applying an accepted plan leaves a well-typed database. */
  lemma {:induction false} PlanKeepsTyping(db: Db, reg: Registry, ops: seq<WriteOperation>, uuids: seq<string>)
    requires RegistryOk(reg) && WellTyped(db, reg) && |uuids| == |ops|
    requires forall op | op in ops :: ValidOperation(op, reg) && Encodable(reg, op)
    requires PlanApplied(db, reg, ops, uuids).Some?
    ensures WellTyped(PlanApplied(db, reg, ops, uuids).value, reg)
    decreases |ops|
  {
    if ops != [] {
      var n := |ops| - 1;
      assert Effects(reg, ops)[..n] == Effects(reg, ops[..n]);
      PlanKeepsTyping(db, reg, ops[..n], uuids[..n]);
      assert ops[n] in ops;
      EffectKeepsTyping(PlanApplied(db, reg, ops[..n], uuids[..n]).value, reg, ops[n], uuids[n]);
    }
  }
}
