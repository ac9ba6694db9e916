/** What an accepted plan can never do, and when it is sure to commit. */
module WriteSafety {
  import opened Ovsdb
  import opened WritePlans
  import opened WriteTransactions
  import opened WriteGuarantees

  // ---------- what stays out of reach ----------

  /**
   * From db to db1: rows of a delete-only table are at most removed, read-only columns of a row
   * that stays keep their value, and only the tables of one database change.
   */
  ghost predicate Respects(db: Db, db1: Db, reg: Registry, d: Database) {
    && (forall id | id in db1 && id.table in reg && reg[id.table].deleteOnly :: id in db && db1[id] == db[id])
    && (forall id, k | id in db && id in db1 && id.table in reg && k in reg[id.table].readOnly ::
          Col(db1[id], k) == Col(db[id], k))
    && (forall id: RowId | id.table !in reg || reg[id.table].database != d :: Lookup(db1, id) == Lookup(db, id))
  }

  /** The rows the plan creates get UUIDs that are not in use. */
  ghost predicate FreshUuids(db: Db, ops: seq<WriteOperation>, uuids: seq<string>)
    requires |uuids| == |ops|
  {
    && (forall i | 0 <= i < |ops| && ops[i].action == CreateRow :: RowId(ops[i].table, uuids[i]) !in db)
    && (forall i, j | 0 <= i < j < |ops| && ops[i].action == CreateRow && ops[j].action == CreateRow ::
          uuids[i] != uuids[j])
  }

  lemma StepRespects(db: Db, w: Db, reg: Registry, op: WriteOperation, uuid: string, d: Database)
    requires WellFormedOp(op, reg) && Encodable(reg, op) && reg[op.table].database == d && Respects(db, w, reg, d)
    requires op.action == CreateRow ==> RowId(op.table, uuid) !in db
    requires Step(w, Effect(reg, op), uuid).Some?
    ensures Respects(db, Step(w, Effect(reg, op), uuid).value, reg, d)
  {
    hide Coerce;
  }

  /** An accepted plan, applied, respects delete-only tables, read-only columns and the other database. */
  lemma {:induction false} AcceptedPlanRespects(db: Db, reg: Registry, ops: seq<WriteOperation>, uuids: seq<string>,
                                                d: Database)
    requires |uuids| == |ops| && FreshUuids(db, ops, uuids)
    requires forall op | op in ops :: WellFormedOp(op, reg) && Encodable(reg, op) && reg[op.table].database == d
    requires PlanApplied(db, reg, ops, uuids).Some?
    ensures Respects(db, PlanApplied(db, reg, ops, uuids).value, reg, d)
    decreases |ops|
  {
    if ops != [] {
      hide WellFormedOp, Encodable, Effect, Step, Respects;
      var n := |ops| - 1;
      assert Effects(reg, ops)[..n] == Effects(reg, ops[..n]);
      AcceptedPlanRespects(db, reg, ops[..n], uuids[..n], d);
      assert ops[n] in ops;
      StepRespects(db, PlanApplied(db, reg, ops[..n], uuids[..n]).value, reg, ops[n], uuids[n], d);
    } else {
      NothingRespects(db, reg, d);
    }
  }

  lemma NothingRespects(db: Db, reg: Registry, d: Database)
    ensures Respects(db, db, reg, d)
  {
  }

  // ---------- created rows ----------

  /** A created row holds the given values in the given columns, and the defaults of their types in the others. */
  lemma CreatedRow(db: Db, reg: Registry, ops: seq<WriteOperation>, uuids: seq<string>, j: nat, k: string)
    requires |uuids| == |ops| && (forall op | op in ops :: Encodable(reg, op)) && PlanApplied(db, reg, ops, uuids).Some?
    requires j < |ops| && ops[j].action == CreateRow
    requires forall i | 0 <= i < |ops| && i != j :: !Concerns(ops[i], uuids[i], RowId(ops[j].table, uuids[j]))
    ensures var id, w := RowId(ops[j].table, uuids[j]), PlanApplied(db, reg, ops, uuids).value;
            && id !in db && id in w && Col(w[id], "_uuid") == Str(uuids[j])
            && id.table in reg
            && (k != "_uuid" && k in reg[id.table].columns ==>
                  && k in w[id]
                  && (Col(ops[j].fields, k) != Null ==> w[id][k] == Col(ops[j].fields, k))
                  && (Col(ops[j].fields, k) == Null ==> IsDefault(w[id][k], reg[id.table].columns[k])))
  {
    var id := RowId(ops[j].table, uuids[j]);
    ConcernedRow(db, reg, ops, uuids, id, j);
    assert ops[j] in ops;
    if k in reg[id.table].columns {
      CoerceIs(Col(ops[j].fields, k), reg[id.table].columns[k]);
    }
  }

  // ---------- when a plan is sure to commit ----------

  /** Every value the plan writes has the type of its column, null standing for the default. */
  ghost predicate ValuesFit(reg: Registry, ops: seq<WriteOperation>) {
    forall op, k | op in ops && op.action != DeleteRow && k in op.fields ::
      op.table in reg && k in reg[op.table].columns
        && (op.fields[k].Null? || OfType(op.fields[k], reg[op.table].columns[k]))
  }

  lemma FittingIsEncodable(reg: Registry, op: WriteOperation)
    requires WellFormedOp(op, reg)
    ensures Encodable(reg, op) <==> ValuesFit(reg, [op])
  {
    assert op in [op];
    forall k | k in op.fields
      ensures Coerce(op.fields[k], reg[op.table].columns[k]).Some?
         <==> op.fields[k].Null? || OfType(op.fields[k], reg[op.table].columns[k])
    {
      CoerceIs(op.fields[k], reg[op.table].columns[k]);
    }
  }

  lemma AllFitting(reg: Registry, ops: seq<WriteOperation>)
    requires forall op | op in ops :: WellFormedOp(op, reg)
    ensures (forall op | op in ops :: Encodable(reg, op)) <==> ValuesFit(reg, ops)
  {
    hide WellFormedOp, Encodable, OfType;
    forall op | op in ops
      ensures Encodable(reg, op) <==> ValuesFit(reg, [op])
    {
      FittingIsEncodable(reg, op);
    }
    if forall op | op in ops :: Encodable(reg, op) {
      forall op, k | op in ops && op.action != DeleteRow && k in op.fields
        ensures op.table in reg && k in reg[op.table].columns
        ensures op.fields[k].Null? || OfType(op.fields[k], reg[op.table].columns[k])
      {
        assert ValuesFit(reg, [op]);
      }
    }
  }

  /** With fresh UUIDs no operation of the plan can fail, and only those rows are new. */
  lemma {:induction false} FreshPlanRuns(db: Db, reg: Registry, ops: seq<WriteOperation>, uuids: seq<string>)
    requires |uuids| == |ops| && FreshUuids(db, ops, uuids) && forall op | op in ops :: Encodable(reg, op)
    ensures PlanApplied(db, reg, ops, uuids).Some?
    ensures forall id | id in PlanApplied(db, reg, ops, uuids).value ::
              id in db || exists i ::
                0 <= i < |ops| && ops[i].action == CreateRow && id == RowId(ops[i].table, uuids[i])
    decreases |ops|
  {
    if ops != [] {
      hide Encodable, Hydrated, Hydrates;
      var n := |ops| - 1;
      assert Effects(reg, ops)[..n] == Effects(reg, ops[..n]);
      FreshPlanRuns(db, reg, ops[..n], uuids[..n]);
      assert ops[n] in ops;
      var w := PlanApplied(db, reg, ops[..n], uuids[..n]).value;
      EffectRuns(w, reg, ops[n], uuids[n]);
    }
  }

  lemma EffectRuns(w: Db, reg: Registry, op: WriteOperation, uuid: string)
    requires Encodable(reg, op) && (op.action == CreateRow ==> RowId(op.table, uuid) !in w)
    ensures Step(w, Effect(reg, op), uuid).Some?
    ensures forall id | id in Step(w, Effect(reg, op), uuid).value ::
              id in w || (op.action == CreateRow && id == RowId(op.table, uuid))
  {
    hide Hydrated;
  }

  /**
   * If nobody wrote since the preview, an accepted plan commits exactly if its values fit
   * their columns and the server commits it.
   */
  lemma QuietPlanCommits(cache: Db, db: Db, reg: Registry, ops: seq<WriteOperation>, diffs: seq<PlanDiff>, o: Outcome)
    requires WellTyped(cache, reg) && Mirrors(cache, db)
    requires ValidOps(ops, reg) && Previewed(cache, ops, diffs)
    requires |o.uuids| == |ops| && FreshUuids(db, ops, o.uuids)
    ensures Committed(db, reg, ops, diffs, o) <==> ValuesFit(reg, ops) && o.commits
  {
    GuardsDetectForeignWrites(cache, db, ops, diffs);
    forall op | op in ops
      ensures SameTarget(cache, db, op)
    {
      RowStillThere(cache, db, ops, diffs, op);
    }
    PreviewIsGuardable(cache, reg, ops, diffs);
    forall op | op in ops
      ensures WellFormedOp(op, reg)
    {
      ValidMeansWellFormed(op, reg);
    }
    hide WellTyped, Mirrors, ValidOps, Previewed, WellFormedOp, ValuesFit, Encodable, FreshUuids;
    AllFitting(reg, ops);
    if ValuesFit(reg, ops) {
      FreshPlanRuns(db, reg, ops, o.uuids);
    }
  }

  lemma RowStillThere(cache: Db, db: Db, ops: seq<WriteOperation>, diffs: seq<PlanDiff>, op: WriteOperation)
    requires Mirrors(cache, db) && Previewed(cache, ops, diffs) && op in ops
    ensures SameTarget(cache, db, op)
  {
    var i :| 0 <= i < |ops| && ops[i] == op;
    assert DiffOf(cache, ops[i], diffs[i]);
    if op.action == UpdateRow {
      forall k | k in op.fields
        ensures SameValue(Col(db[Target(op)], k), Col(cache[Target(op)], k))
      {
        assert SameValue(Col(cache[Target(op)], k), Col(db[Target(op)], k));
      }
    }
  }
}
