/** Evacuating a chassis and restoring it again. */
module HaRoundTrip {
  import opened Wrappers
  import opened Ovsdb
  import opened WritePlans
  import opened WriteTransactions
  import opened HaDrain

  /** The tables of the groups are writable and have the two columns a drain changes. */
  ghost predicate HaTables(reg: Registry, groups: seq<Group>) {
    forall g | g in groups :: g.table in reg && HaColumns(reg[g.table])
  }

  predicate HaColumns(spec: TableSpec) {
    && "priority" in spec.columns && spec.columns["priority"] == IntColumn
    && "external_ids" in spec.columns && spec.columns["external_ids"] == MapColumn
    && !spec.deleteOnly && "priority" !in spec.readOnly && "external_ids" !in spec.readOnly
  }

  /** An update whose values are what the columns hold. */
  ghost predicate Writes(reg: Registry, op: WriteOperation) {
    op.action == UpdateRow && Encodable(reg, op) && Hydrated(reg[op.table], op.fields) == op.fields
  }

  /** Updates whose values are what the columns hold, and equal wherever they target the same row. */
  ghost predicate Uniform(reg: Registry, ops: seq<WriteOperation>) {
    && (forall op | op in ops :: Writes(reg, op))
    && (forall a, b | a in ops && b in ops && Target(a) == Target(b) :: a == b)
  }

  ghost predicate Targeted(ops: seq<WriteOperation>, id: RowId) {
    exists op :: op in ops && Target(op) == id
  }

  /** Such a plan always applies, and each row ends up with its own operation applied once. */
  lemma {:induction false} UniformPlan(db: Db, reg: Registry, ops: seq<WriteOperation>, uuids: seq<string>)
    requires Uniform(reg, ops) && |uuids| == |ops|
    ensures PlanApplied(db, reg, ops, uuids).Some?
    ensures var w := PlanApplied(db, reg, ops, uuids).value;
            && (forall op | op in ops && Target(op) in db ::
                  Target(op) in w && w[Target(op)] == db[Target(op)] + op.fields)
            && (forall id | !Targeted(ops, id) || id !in db :: Lookup(w, id) == Lookup(db, id))
    decreases |ops|
  {
    if ops != [] {
      var n := |ops| - 1;
      var front, last := ops[..n], ops[n];
      assert forall op :: op in ops <==> op in front || op == last;
      assert Writes(reg, last) && forall op | op in front :: Writes(reg, op);
      assert Effects(reg, ops)[..n] == Effects(reg, front);
      UniformPlan(db, reg, front, uuids[..n]);
      OneMoreUpdate(db, reg, front, last, PlanApplied(db, reg, front, uuids[..n]).value,
        PlanApplied(db, reg, ops, uuids).value);
    }
  }

  lemma OneMoreUpdate(db: Db, reg: Registry, front: seq<WriteOperation>, last: WriteOperation, w: Db, w1: Db)
    requires forall op | op in front && Target(op) in db ::
              Target(op) in w && w[Target(op)] == db[Target(op)] + op.fields
    requires forall id | !Targeted(front, id) || id !in db :: Lookup(w, id) == Lookup(db, id)
    requires w1 == if Target(last) in w then w[Target(last) := w[Target(last)] + last.fields] else w
    requires forall op | op in front && Target(op) == Target(last) :: op == last
    ensures forall op | (op in front || op == last) && Target(op) in db ::
              Target(op) in w1 && w1[Target(op)] == db[Target(op)] + op.fields
    ensures forall id | !(Targeted(front, id) || id == Target(last)) || id !in db :: Lookup(w1, id) == Lookup(db, id)
  {
    var t := Target(last);
    if t in db {
      if Targeted(front, t) {
        assert last in front;
        assert (db[t] + last.fields) + last.fields == db[t] + last.fields;
      } else {
        assert Lookup(w, t) == Lookup(db, t);
      }
    } else {
      assert Lookup(w, t) == Lookup(db, t);
    }
  }

  lemma OpsAreUniform(d: Direction, db: Db, reg: Registry, groups: seq<Group>, chassis: string,
                      ops: seq<WriteOperation>)
    requires HaTables(reg, groups) && OpsFor(d, db, groups, chassis, ops)
    ensures Uniform(reg, ops)
  {
    hide HaRow, Affected, MemberOf, OpFor, HaColumns, Writes;
    forall op | op in ops
      ensures Writes(reg, op)
    {
      assert Listed(groups, Target(op)) && op.table in reg && HaColumns(reg[op.table]);
      MemberIdIs(Target(op), db[Target(op)]);
      OpFits(d, reg, MemberOf(Target(op), db[Target(op)]));
    }
  }

  lemma OpFits(d: Direction, reg: Registry, m: Member)
    requires m.id.table in reg && HaColumns(reg[m.id.table])
    ensures Writes(reg, OpFor(d, m))
  {
    if d == Evacuating {
      SetPriorityFits(reg[m.id.table], 0, m.externalIds[MARKER := Decimal.Itoa(m.priority)]);
    } else {
      SetPriorityFits(reg[m.id.table], RestorePriority(m), m.externalIds - {MARKER});
    }
  }

  lemma SetPriorityFits(spec: TableSpec, p: int, ids: map<string, string>)
    requires HaColumns(spec)
    ensures var fields := map["priority" := Int(p), "external_ids" := Map(ids)];
            Hydrates(spec, fields) && Hydrated(spec, fields) == fields
  {
  }

  /** A member after its operation, if it is affected. */
  function AfterOp(d: Direction, m: Member, chassis: string): Member {
    if !Affected(d, m, chassis) then m
    else if d == Evacuating then m.(priority := 0, externalIds := m.externalIds[MARKER := Decimal.Itoa(m.priority)])
    else m.(priority := RestorePriority(m), externalIds := m.externalIds - {MARKER})
  }

  /** The plan of an evacuation or restore proposed over db, applied to it, leaves db1. */
  ghost predicate Carried(d: Direction, db: Db, reg: Registry, groups: seq<Group>, chassis: string,
                          ops: seq<WriteOperation>, uuids: seq<string>, db1: Db) {
    OpsFor(d, db, groups, chassis, ops) && |uuids| == |ops| && Uniform(reg, ops)
      && PlanApplied(db, reg, ops, uuids) == Some(db1)
  }

  /** A proposed plan can always be carried out. */
  lemma ProposalApplies(d: Direction, db: Db, reg: Registry, groups: seq<Group>, chassis: string,
                        ops: seq<WriteOperation>, uuids: seq<string>) returns (db1: Db)
    requires HaTables(reg, groups) && OpsFor(d, db, groups, chassis, ops) && |uuids| == |ops|
    ensures Carried(d, db, reg, groups, chassis, ops, uuids, db1)
  {
    hide HaTables, OpsFor, Uniform;
    OpsAreUniform(d, db, reg, groups, chassis, ops);
    UniformPlan(db, reg, ops, uuids);
    UniformEncodable(reg, ops);
    db1 := PlanApplied(db, reg, ops, uuids).value;
  }

  lemma UniformEncodable(reg: Registry, ops: seq<WriteOperation>)
    requires Uniform(reg, ops)
    ensures forall op | op in ops :: Encodable(reg, op)
  {
  }

  /** What a whole evacuation or restore does to each member, and that it does nothing else. */
  lemma PlanEffect(d: Direction, db: Db, reg: Registry, groups: seq<Group>, chassis: string,
                   ops: seq<WriteOperation>, uuids: seq<string>, db1: Db, id: RowId)
    requires HaRows(db, groups) && Carried(d, db, reg, groups, chassis, ops, uuids, db1)
    ensures id in db1 <==> id in db
    ensures id in db ==>
              if Listed(groups, id) then HaRow(db1[id])
                  && MemberOf(id, db1[id]) == AfterOp(d, MemberOf(id, db[id]), chassis)
              else db1[id] == db[id]
  {
    hide Listed, HaRow, Affected, OpFor, MemberOf, AfterOp, PlanApplied;
    UniformPlan(db, reg, ops, uuids);
    if id in db && Listed(groups, id) && Affected(d, MemberOf(id, db[id]), chassis) {
      var op := OpFor(d, MemberOf(id, db[id]));
      assert op in ops;
      OpTarget(d, MemberOf(id, db[id]));
      MemberIdIs(id, db[id]);
      RowAfterOp(d, db[id], id, chassis);
    } else {
      assert !Targeted(ops, id) || id !in db;
      assert Lookup(db1, id) == Lookup(db, id);
      if id in db && Listed(groups, id) {
        NotAffected(d, MemberOf(id, db[id]), chassis);
      }
    }
  }

  lemma MemberIdIs(id: RowId, row: Row)
    requires HaRow(row)
    ensures MemberOf(id, row).id == id
  {
  }

  lemma NotAffected(d: Direction, m: Member, chassis: string)
    requires !Affected(d, m, chassis)
    ensures AfterOp(d, m, chassis) == m
  {
  }

  lemma RowAfterOp(d: Direction, row: Row, id: RowId, chassis: string)
    requires HaRow(row) && Affected(d, MemberOf(id, row), chassis)
    ensures HaRow(row + OpFor(d, MemberOf(id, row)).fields)
    ensures MemberOf(id, row + OpFor(d, MemberOf(id, row)).fields) == AfterOp(d, MemberOf(id, row), chassis)
  {
    var m := MemberOf(id, row);
    assert "priority" != "chassis_name" && "external_ids" != "chassis_name" && "priority" != "external_ids";
  }

  /** The marker holds a positive number that fits 64 bits. */
  ghost predicate Marks(ids: map<string, string>, p: int) {
    MARKER in ids && Decimal.Atoi(ids[MARKER]) == Some(p) && p > 0
  }

  /**
   * After an evacuation every listed member of the chassis has priority zero, and those that had
   * another one carry it in the marker; nothing else about any member changed.
   */
  lemma EvacuatedIsDrained(db: Db, reg: Registry, groups: seq<Group>, chassis: string,
                           ops: seq<WriteOperation>, uuids: seq<string>, db1: Db, id: RowId)
    requires HaRows(db, groups) && Carried(Evacuating, db, reg, groups, chassis, ops, uuids, db1)
    requires id in db && Listed(groups, id)
    ensures id in db1 && HaRow(db1[id])
    ensures var m, m1 := MemberOf(id, db[id]), MemberOf(id, db1[id]);
            && m1.chassis == m.chassis
            && m1.priority == (if m.chassis == chassis then 0 else m.priority)
            && m1.externalIds == (if m.chassis == chassis && m.priority != 0
                                  then m.externalIds[MARKER := Decimal.Itoa(m.priority)] else m.externalIds)
  {
    hide HaRow, Listed, Carried, MemberOf;
    PlanEffect(Evacuating, db, reg, groups, chassis, ops, uuids, db1, id);
  }

  /**
   * A restore gives exactly the listed members of the chassis at priority zero another one: the
   * positive number their marker holds, or one; the marker goes, and nothing else changes.
   */
  lemma RestoredIsBack(db: Db, reg: Registry, groups: seq<Group>, chassis: string,
                       ops: seq<WriteOperation>, uuids: seq<string>, db1: Db, id: RowId)
    requires HaRows(db, groups) && Carried(Restoring, db, reg, groups, chassis, ops, uuids, db1)
    requires id in db && Listed(groups, id)
    ensures id in db1 && HaRow(db1[id])
    ensures var m, m1 := MemberOf(id, db[id]), MemberOf(id, db1[id]);
            if m.chassis == chassis && m.priority == 0 then
              && m1.chassis == m.chassis && m1.externalIds == m.externalIds - {MARKER}
              && (if exists p :: Marks(m.externalIds, p) then Marks(m.externalIds, m1.priority) else m1.priority == 1)
            else m1 == m
  {
    hide HaRow, Listed, Carried, MemberOf;
    PlanEffect(Restoring, db, reg, groups, chassis, ops, uuids, db1, id);
    RestorePriorityIs(MemberOf(id, db[id]));
    hide Marks, RestorePriority;
  }

  lemma RestorePriorityIs(m: Member)
    ensures if exists p :: Marks(m.externalIds, p) then Marks(m.externalIds, RestorePriority(m))
              else RestorePriority(m) == 1
  {
    if MARKER in m.externalIds && Decimal.Atoi(m.externalIds[MARKER]).Some? {
      var p := Decimal.Atoi(m.externalIds[MARKER]).value;
      assert p > 0 ==> Marks(m.externalIds, p);
    }
  }

  /** The marker of a drained member reads back as the priority it had. */
  lemma RestoreReadsMarker(m: Member, chassis: string)
    requires Drainable(m, chassis) && Decimal.IsInt64(m.priority)
    ensures RestorePriority(AfterOp(Evacuating, m, chassis)) == if m.priority > 0 then m.priority else 1
  {
    Decimal.ParseItoa(m.priority);
  }

  /**
   * Evacuate, then restore: every member of the chassis gets its external ids back without the
   * marker, and its priority back exactly if that was positive. Other rows are untouched.
   */
  lemma EvacuateThenRestore(db: Db, reg: Registry, groups: seq<Group>, chassis: string,
                            drain: seq<WriteOperation>, u: seq<string>, db1: Db,
                            restore: seq<WriteOperation>, v: seq<string>, db2: Db, id: RowId)
    requires HaRows(db, groups)
    requires Carried(Evacuating, db, reg, groups, chassis, drain, u, db1)
    requires Carried(Restoring, db1, reg, groups, chassis, restore, v, db2)
    requires id in db
    ensures id in db2
    ensures Listed(groups, id) ==> HaRow(db2[id])
    ensures Listed(groups, id) && MemberOf(id, db[id]).chassis == chassis ==>
              && MemberOf(id, db2[id]).externalIds == MemberOf(id, db[id]).externalIds - {MARKER}
              && (MemberOf(id, db2[id]).priority == MemberOf(id, db[id]).priority <==>
                    MemberOf(id, db[id]).priority > 0)
    ensures !Listed(groups, id) ==> db2[id] == db[id]
    ensures Listed(groups, id) && MemberOf(id, db[id]).chassis != chassis ==>
              MemberOf(id, db2[id]) == MemberOf(id, db[id])
  {
    hide HaRow, Listed, Carried, MemberOf, AfterOp;
    StillHaRows(Evacuating, db, reg, groups, chassis, drain, u, db1);
    PlanEffect(Evacuating, db, reg, groups, chassis, drain, u, db1, id);
    PlanEffect(Restoring, db1, reg, groups, chassis, restore, v, db2, id);
    if Listed(groups, id) {
      MemberRoundTrip(MemberOf(id, db[id]), chassis, id, db[id]);
    }
  }

  lemma StillHaRows(d: Direction, db: Db, reg: Registry, groups: seq<Group>, chassis: string,
                    ops: seq<WriteOperation>, uuids: seq<string>, db1: Db)
    requires HaRows(db, groups) && Carried(d, db, reg, groups, chassis, ops, uuids, db1)
    ensures HaRows(db1, groups)
  {
    hide HaRow, Listed, Carried, MemberOf, AfterOp;
    forall id | id in db1 && Listed(groups, id)
      ensures HaRow(db1[id])
    {
      PlanEffect(d, db, reg, groups, chassis, ops, uuids, db1, id);
    }
  }

  lemma MemberRoundTrip(m: Member, chassis: string, id: RowId, row: Row)
    requires HaRow(row) && m == MemberOf(id, row)
    ensures var r := AfterOp(Restoring, AfterOp(Evacuating, m, chassis), chassis);
            if m.chassis != chassis then r == m
            else r.externalIds == m.externalIds - {MARKER} && (r.priority == m.priority <==> m.priority > 0)
  {
    if Drainable(m, chassis) {
      RestoreReadsMarker(m, chassis);
    }
  }

  /** After an evacuation every member of the chassis is drained, and evacuating again proposes nothing. */
  lemma SecondEvacuationIsEmpty(db: Db, reg: Registry, groups: seq<Group>, chassis: string,
                                drain: seq<WriteOperation>, u: seq<string>, db1: Db, again: seq<WriteOperation>)
    requires HaRows(db, groups) && Carried(Evacuating, db, reg, groups, chassis, drain, u, db1)
    requires OpsFor(Evacuating, db1, groups, chassis, again)
    ensures again == []
  {
    hide HaRow, Listed, Carried, MemberOf, OpFor;
    if again != [] {
      assert again[0] in again;
      var id := Target(again[0]);
      PlanEffect(Evacuating, db, reg, groups, chassis, drain, u, db1, id);
      NothingLeft(MemberOf(id, db[id]), chassis);
      assert false;
    }
  }

  lemma NothingLeft(m: Member, chassis: string)
    ensures !Drainable(AfterOp(Evacuating, m, chassis), chassis)
  {
  }
}
