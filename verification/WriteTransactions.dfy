/**
 * How a plan becomes one guarded transaction, and what that transaction guarantees
 * against a database that others write between preview and apply.
 */
module WriteTransactions {
  import opened Wrappers
  import opened Ovsdb
  import opened WritePlans

  // ---------- what the guards mean ----------

  /** The row the operation targets still holds what the preview saw: an update's columns, a delete's row. */
  predicate TargetUnchanged(db: Db, op: WriteOperation, before: Row) {
    match op.action
    case UpdateRow => Target(op) in db && forall k | k in op.fields :: SameValue(Col(db[Target(op)], k), Col(before, k))
    case DeleteRow => Target(op) in db
    case CreateRow => true
    case UnknownAction => true
  }

  predicate PlanHolds(db: Db, ops: seq<WriteOperation>, diffs: seq<PlanDiff>)
    requires |diffs| == |ops|
  {
    forall i | 0 <= i < |ops| :: TargetUnchanged(db, ops[i], diffs[i].before)
  }

  /** What one operation does to a row store; uuid names a created row. */
  function Effect(reg: Registry, op: WriteOperation): Op
    requires Encodable(reg, op)
  {
    match op.action
    case CreateRow => Insert(op.table, ZeroRow(reg[op.table]) + Hydrated(reg[op.table], op.fields))
    case UpdateRow => Update(Target(op), Hydrated(reg[op.table], op.fields))
    case DeleteRow => Delete(Target(op))
  }

  predicate Encodable(reg: Registry, op: WriteOperation) {
    && op.table in reg && op.action != UnknownAction
    && (op.action == CreateRow || op.action == UpdateRow ==> Hydrates(reg[op.table], op.fields))
  }

  /** The guard of one operation can be built from the diff. */
  predicate Guardable(reg: Registry, op: WriteOperation, before: Row) {
    && op.table in reg
    && (op.action == UpdateRow ==> Hydrates(reg[op.table], OldValues(op, before)))
  }

  /** The columns an update changes, with the values the preview saw. */
  function OldValues(op: WriteOperation, before: Row): Row {
    map k | k in op.fields :: Col(before, k)
  }

  predicate Buildable(reg: Registry, ops: seq<WriteOperation>, diffs: seq<PlanDiff>)
    requires |diffs| == |ops|
  {
    && (forall i | 0 <= i < |ops| :: Guardable(reg, ops[i], diffs[i].before))
    && (forall op | op in ops :: Encodable(reg, op))
  }

  /** The preview values survive the trip through the typed model. */
  predicate Typed(reg: Registry, op: WriteOperation, before: Row) {
    op.action == UpdateRow && op.table in reg ==>
      forall k | k in op.fields && k in reg[op.table].columns :: Fits(Col(before, k), reg[op.table].columns[k])
  }

  // ---------- building the operations ----------

  /** The wait operations of one plan operation. */
  method GuardOne(reg: Registry, op: WriteOperation, before: Row) returns (r: Result<seq<Op>, WriteError>)
    requires Typed(reg, op, before)
    ensures r.Ok? <==> Guardable(reg, op, before)
    ensures r.Ok? ==> AllWait(r.value) && forall db | RowsNamed(db) ::
              AllHold(db, r.value) <==> TargetUnchanged(db, op, before)
    ensures r.Err? ==> r.error == Unbuildable
  {
    if op.table !in reg {
      return Err(Unbuildable);
    }
    match op.action
    case UpdateRow =>
      var subset := OldValues(op, before);
      if !Hydrates(reg[op.table], subset) {
        return Err(Unbuildable);
      }
      var w := Wait(Target(op), Hydrated(reg[op.table], subset));
      OneWait(w);
      r := Ok([w]);
    case DeleteRow =>
      var w := Wait(Target(op), map["_uuid" := Str(op.uuid)]);
      OneWait(w);
      r := Ok([w]);
    case CreateRow =>
      r := Ok([]);
    case UnknownAction =>
      r := Ok([]);
  }

  lemma OneWait(w: Op)
    requires w.Wait?
    ensures AllWait([w]) && forall db :: AllHold(db, [w]) <==> Holds(db, w.id, w.wanted)
  {
    forall db
      ensures AllHold(db, [w]) <==> Holds(db, w.id, w.wanted)
    {
      assert w in [w];
    }
  }

  /** Rows carry their own UUID. */
  ghost predicate RowsNamed(db: Db) {
    forall id | id in db :: Col(db[id], "_uuid") == Str(id.uuid)
  }

  method BuildWaitOps(reg: Registry, ops: seq<WriteOperation>, diffs: seq<PlanDiff>)
    returns (r: Result<seq<Op>, WriteError>)
    requires |diffs| == |ops| && forall i | 0 <= i < |ops| :: Typed(reg, ops[i], diffs[i].before)
    ensures r.Ok? <==> forall i | 0 <= i < |ops| :: Guardable(reg, ops[i], diffs[i].before)
    ensures r.Ok? ==> AllWait(r.value) && forall db | RowsNamed(db) ::
              AllHold(db, r.value) <==> PlanHolds(db, ops, diffs)
    ensures r.Err? ==> r.error == Unbuildable
  {
    hide TargetUnchanged, Guardable, RowsNamed, Typed;
    var waits: seq<Op> := [];
    for i := 0 to |ops|
      invariant AllWait(waits)
      invariant forall j | 0 <= j < i :: Guardable(reg, ops[j], diffs[j].before)
      invariant forall db | RowsNamed(db) :: AllHold(db, waits) <==> PlanHolds(db, ops[..i], diffs[..i])
    {
      var more := GuardOne(reg, ops[i], diffs[i].before);
      if more.Err? {
        return Err(more.error);
      }
      GuardsGrow(waits, more.value, ops, diffs, i);
      waits := waits + more.value;
    }
    assert ops[..|ops|] == ops && diffs[..|ops|] == diffs;
    r := Ok(waits);
  }

  lemma GuardsGrow(waits: seq<Op>, more: seq<Op>, ops: seq<WriteOperation>, diffs: seq<PlanDiff>, i: nat)
    requires |diffs| == |ops| && i < |ops| && AllWait(waits) && AllWait(more)
    ensures AllWait(waits + more)
    ensures forall db :: AllHold(db, waits + more) <==> AllHold(db, waits) && AllHold(db, more)
    ensures forall db :: PlanHolds(db, ops[..i + 1], diffs[..i + 1])
                    <==> PlanHolds(db, ops[..i], diffs[..i]) && TargetUnchanged(db, ops[i], diffs[i].before)
  {
    hide TargetUnchanged, Holds;
    forall db
      ensures AllHold(db, waits + more) <==> AllHold(db, waits) && AllHold(db, more)
    {
      assert forall w :: w in waits + more <==> w in waits || w in more;
    }
    forall db
      ensures PlanHolds(db, ops[..i + 1], diffs[..i + 1])
         <==> PlanHolds(db, ops[..i], diffs[..i]) && TargetUnchanged(db, ops[i], diffs[i].before)
    {
      PlanHoldsPrefix(db, ops, diffs, i);
    }
  }

  lemma PlanHoldsPrefix(db: Db, ops: seq<WriteOperation>, diffs: seq<PlanDiff>, i: nat)
    requires |diffs| == |ops| && i < |ops|
    ensures PlanHolds(db, ops[..i + 1], diffs[..i + 1])
       <==> PlanHolds(db, ops[..i], diffs[..i]) && TargetUnchanged(db, ops[i], diffs[i].before)
  {
    hide TargetUnchanged;
    var ops1, diffs1 := ops[..i + 1], diffs[..i + 1];
    assert forall j | 0 <= j < i :: ops[..i][j] == ops1[j] && diffs[..i][j] == diffs1[j];
    assert ops1[i] == ops[i] && diffs1[i] == diffs[i];
  }

  method BuildOps(reg: Registry, ops: seq<WriteOperation>) returns (r: Result<seq<Op>, WriteError>)
    ensures r.Ok? <==> forall op | op in ops :: Encodable(reg, op)
    ensures r.Ok? ==> r.value == Effects(reg, ops)
    ensures r.Err? ==> r.error == Unbuildable
  {
    var built: seq<Op> := [];
    for i := 0 to |ops|
      invariant |built| == i
      invariant forall j | 0 <= j < i :: Encodable(reg, ops[j]) && built[j] == Effect(reg, ops[j])
    {
      if !Encodable(reg, ops[i]) {
        assert ops[i] in ops;
        return Err(Unbuildable);
      }
      built := built + [Effect(reg, ops[i])];
    }
    r := Ok(built);
  }

  function Effects(reg: Registry, ops: seq<WriteOperation>): seq<Op>
    requires forall op | op in ops :: Encodable(reg, op)
  {
    seq(|ops|, i requires 0 <= i < |ops| => Effect(reg, ops[i]))
  }

  // ---------- the transaction ----------

  /** ovsdb.CheckOperationResults: no result is missing and none is an error. */
  method CheckResults(results: seq<OpResult>, n: nat) returns (ok: bool)
    ensures ok <==> |results| >= n && Failed !in results
  {
    if |results| < n {
      return false;
    }
    for i := 0 to |results|
      invariant forall j | 0 <= j < i :: results[j] != Failed
    {
      if results[i] == Failed {
        return false;
      }
    }
    return true;
  }

  /** Whether one of the first n results is an error. */
  method AnyFailed(results: seq<OpResult>, n: nat) returns (failed: bool)
    ensures failed <==> exists i :: 0 <= i < n && i < |results| && results[i] == Failed
  {
    for i := 0 to |results|
      invariant forall j | 0 <= j < i && j < n :: results[j] != Failed
    {
      if i < n && results[i] == Failed {
        return true;
      }
    }
    return false;
  }

  /** The state after the plan's operations, guards aside. */
  function PlanApplied(db: Db, reg: Registry, ops: seq<WriteOperation>, uuids: seq<string>): Option<Db>
    requires |uuids| == |ops| && forall op | op in ops :: Encodable(reg, op)
  {
    Run(db, Effects(reg, ops), uuids)
  }

  datatype Outcome = Outcome(uuids: seq<string>, commits: bool, delivered: bool)

  /** The transaction took effect: everything could be built, the guards held, and the server ran and committed it. */
  predicate Committed(db: Db, reg: Registry, ops: seq<WriteOperation>, diffs: seq<PlanDiff>, o: Outcome)
    requires |diffs| == |ops| && |o.uuids| == |ops|
  {
    && Buildable(reg, ops, diffs) && PlanHolds(db, ops, diffs)
    && PlanApplied(db, reg, ops, o.uuids).Some? && o.commits
  }

  /** What transactOps reports, and the database it leaves. */
  ghost predicate Transacts(db: Db, db1: Db, reg: Registry, ops: seq<WriteOperation>, diffs: seq<PlanDiff>, o: Outcome,
                            r: Result<bool, WriteError>)
    requires |diffs| == |ops| && |o.uuids| == |ops|
  {
    && db1 == (if Committed(db, reg, ops, diffs, o) then PlanApplied(db, reg, ops, o.uuids).value else db)
    && (r.Ok? <==> Committed(db, reg, ops, diffs, o) && o.delivered)
    && (r == Err(StaleState) <==> Buildable(reg, ops, diffs) && o.delivered && !PlanHolds(db, ops, diffs))
    && (r == Err(Unbuildable) <==> !Buildable(reg, ops, diffs))
    && (r.Err? ==> r.error == Unbuildable || r.error == StaleState || r.error == TransactFailed)
  }

  lemma TransactErrors(db: Db, db1: Db, reg: Registry, ops: seq<WriteOperation>, diffs: seq<PlanDiff>, o: Outcome,
                       r: Result<bool, WriteError>)
    requires |diffs| == |ops| && |o.uuids| == |ops| && Transacts(db, db1, reg, ops, diffs, o, r)
    ensures r != Err(NoClient)
  {
  }

  method TransactOps(server: Server, reg: Registry, ops: seq<WriteOperation>, diffs: seq<PlanDiff>, o: Outcome)
    returns (r: Result<bool, WriteError>)
    requires |diffs| == |ops| && |o.uuids| == |ops| && RowsNamed(server.db)
    requires forall i | 0 <= i < |ops| :: Typed(reg, ops[i], diffs[i].before)
    modifies server
    ensures Transacts(old(server.db), server.db, reg, ops, diffs, o, r)
  {
    hide Typed, Guardable, Encodable, PlanHolds, RowsNamed, Run, Results;
    var waits := BuildWaitOps(reg, ops, diffs);
    if waits.Err? {
      return Err(Unbuildable);
    }
    var built := BuildOps(reg, ops);
    if built.Err? {
      return Err(Unbuildable);
    }
    var n := |waits.value|;
    var all := waits.value + built.value;
    var fate := Fate(seq(n, i => "") + o.uuids, o.commits, o.delivered);
    ghost var db := server.db;
    GuardedRun(db, waits.value, built.value, o.uuids, fate);
    var reply := server.Transact(all, fate);
    if reply.None? {
      return Err(TransactFailed);
    }
    var stale := AnyFailed(reply.value, n);
    if stale {
      return Err(StaleState);
    }
    var ok := CheckResults(reply.value, |all|);
    r := if ok then Ok(true) else Err(TransactFailed);
  }

  /** The guards in front decide on the database as it is, and the reply tells which part failed. */
  lemma GuardedRun(db: Db, waits: seq<Op>, ops: seq<Op>, uuids: seq<string>, fate: Fate)
    requires AllWait(waits) && |uuids| == |ops| && fate.uuids == seq(|waits|, i => "") + uuids
    ensures Run(db, waits + ops, fate.uuids) == if AllHold(db, waits) then Run(db, ops, uuids) else None
    ensures |Results(db, waits + ops, fate)| >= |waits| + |ops|
    ensures (exists i :: 0 <= i < |waits| && Results(db, waits + ops, fate)[i] == Failed) <==> !AllHold(db, waits)
    ensures Failed in Results(db, waits + ops, fate) <==> Run(db, waits + ops, fate.uuids).None? || !fate.commits
  {
    var all, n := waits + ops, |waits|;
    var blanks := seq(n, i => "");
    RunWaits(db, waits, blanks);
    RunConcat(db, waits, ops, blanks, uuids);
    FailureShows(db, all, fate, n);
    assert all[..n] == waits && fate.uuids[..n] == blanks;
    FailureShows(db, all, fate, |all|);
    assert all[..|all|] == all && fate.uuids[..|all|] == fate.uuids;
  }
}
