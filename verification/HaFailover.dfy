/** Failing an HA group over to another chassis. */
module HaFailover {
  import opened Wrappers
  import opened Ordering
  import opened Ovsdb
  import opened WritePlans
  import opened WriteTransactions
  import opened HaDrain
  import opened HaRoundTrip

  const MAX_PRIORITY := 32767

  datatype FailoverError = TooFewMembers | NoSuchChassis

  function Priority(x: Member): int {
    x.priority
  }

  function PriorityOp(id: RowId, priority: int): WriteOperation {
    WriteOperation(UpdateRow, id.table, id.uuid, map["priority" := Int(priority)])
  }

  function Bumped(priority: int): int {
    if priority + 1 > MAX_PRIORITY then priority - 1 else priority + 1
  }

  function SwapOps(a: Member, b: Member): seq<WriteOperation> {
    [PriorityOp(a.id, b.priority), PriorityOp(b.id, a.priority)]
  }

  ghost predicate Leads(m: Member, members: seq<Member>) {
    m in members && forall x | x in members :: x.priority <= m.priority
  }

  /** The target swaps priorities with a current leader, or is bumped if it is that leader. */
  ghost predicate FailoverOps(members: seq<Member>, chassis: string, active: Member, target: Member,
                              ops: seq<WriteOperation>) {
    && Leads(active, members)
    && target in members && target.chassis == chassis
    && (forall x | x in members && x.chassis == chassis :: x.priority <= target.priority)
    && ops == if target.id.uuid == active.id.uuid then [PriorityOp(target.id, Bumped(target.priority))]
          else SwapOps(active, target)
  }

  method Failover(members: seq<Member>, chassis: string)
    returns (r: Result<seq<WriteOperation>, FailoverError>, ghost active: Option<Member>, ghost target: Option<Member>)
    ensures r == Err(TooFewMembers) <==> |members| < 2
    ensures r == Err(NoSuchChassis) <==> |members| >= 2 && forall m | m in members :: m.chassis != chassis
    ensures r.Ok? ==> active.Some? && target.Some? && FailoverOps(members, chassis, active.value, target.value, r.value)
  {
    active, target := None, None;
    if |members| < 2 {
      return Err(TooFewMembers), None, None;
    }
    var sorted := SortDescending(members, Priority);
    SameMembers(sorted, members);
    var first := sorted[0];
    assert Leads(first, members);
    var i := 0;
    while i < |sorted| && sorted[i].chassis != chassis
      invariant i <= |sorted| && forall j | 0 <= j < i :: sorted[j].chassis != chassis
    {
      i := i + 1;
    }
    if i == |sorted| {
      return Err(NoSuchChassis), None, None;
    }
    var found := sorted[i];
    active, target := Some(first), Some(found);
    if found.id.uuid == first.id.uuid {
      r := Ok([PriorityOp(found.id, Bumped(found.priority))]);
    } else {
      r := Ok(SwapOps(first, found));
    }
  }

  lemma SameMembers(a: seq<Member>, b: seq<Member>)
    requires multiset(a) == multiset(b)
    ensures |a| == |b| && forall m :: m in a <==> m in b
  {
    assert |multiset(a)| == |a| && |multiset(b)| == |b|;
    forall m
      ensures m in a <==> m in b
    {
      assert m in multiset(a) <==> m in multiset(b);
    }
  }

  // ---------- the group after a failover ----------

  function PriorityOf(db: Db, id: RowId): int {
    if id in db && Col(db[id], "priority").Int? then Col(db[id], "priority").n else 0
  }

  function Priorities(db: Db, members: seq<Member>): seq<int> {
    seq(|members|, i requires 0 <= i < |members| => PriorityOf(db, members[i].id))
  }

  /** The members are rows of the database, each listed once, in writable tables. */
  ghost predicate GroupRowsOk(db: Db, reg: Registry, members: seq<Member>) {
    && (forall m | m in members ::
          m.id in db && PriorityOf(db, m.id) == m.priority && m.id.table in reg && HaColumns(reg[m.id.table]))
    && (forall i, j | 0 <= i < j < |members| :: members[i].id.uuid != members[j].id.uuid)
  }

  lemma PriorityOpWrites(reg: Registry, id: RowId, p: int)
    requires id.table in reg && HaColumns(reg[id.table])
    ensures Writes(reg, PriorityOp(id, p))
  {
    assert Hydrated(reg[id.table], map["priority" := Int(p)]) == map["priority" := Int(p)];
  }

  /** The plan, applied to db, leaves db1. */
  ghost predicate Applies(db: Db, reg: Registry, ops: seq<WriteOperation>, uuids: seq<string>, db1: Db) {
    |uuids| == |ops| && Uniform(reg, ops) && PlanApplied(db, reg, ops, uuids) == Some(db1)
  }

  lemma PriorityAfter(db1: Db, row: Row, id: RowId, p: int)
    requires id in db1 && db1[id] == row + PriorityOp(id, p).fields
    ensures PriorityOf(db1, id) == p
  {
  }

  /** A swap can always be applied; who has which priority afterwards. */
  lemma SwapEffect(db: Db, reg: Registry, members: seq<Member>, a: Member, b: Member, uuids: seq<string>)
    returns (db1: Db)
    requires GroupRowsOk(db, reg, members) && a in members && b in members && a.id.uuid != b.id.uuid && |uuids| == 2
    ensures Applies(db, reg, SwapOps(a, b), uuids, db1)
    ensures forall id | id in db :: PriorityOf(db1, id) ==
              if id == a.id then b.priority else if id == b.id then a.priority else PriorityOf(db, id)
  {
    var ops := SwapOps(a, b);
    assert Target(ops[0]) == a.id && Target(ops[1]) == b.id;
    PriorityOpWrites(reg, a.id, b.priority);
    PriorityOpWrites(reg, b.id, a.priority);
    hide PriorityOf, PlanApplied;
    UniformPlan(db, reg, ops, uuids);
    db1 := PlanApplied(db, reg, ops, uuids).value;
    forall id | id in db
      ensures PriorityOf(db1, id) ==
                if id == a.id then b.priority else if id == b.id then a.priority else PriorityOf(db, id)
    {
      if id == a.id {
        assert ops[0] in ops;
        PriorityAfter(db1, db[id], id, b.priority);
      } else if id == b.id {
        assert ops[1] in ops;
        PriorityAfter(db1, db[id], id, a.priority);
      } else {
        assert !Targeted(ops, id);
        SamePriority(db, db1, id);
      }
    }
  }

  lemma SamePriority(db: Db, db1: Db, id: RowId)
    requires Lookup(db1, id) == Lookup(db, id)
    ensures PriorityOf(db1, id) == PriorityOf(db, id)
  {
  }

  /** The only member with the highest priority. */
  ghost predicate LeadsAlone(db: Db, members: seq<Member>, id: RowId) {
    forall m | m in members && m.id.uuid != id.uuid :: PriorityOf(db, m.id) < PriorityOf(db, id)
  }

  /**
   * A proposed swap can always be applied. It makes the target a leader of its group and keeps
   * the priorities in use the same, with their multiplicities. The target leads alone exactly if
   * the old leader did; and nothing changes exactly if the two already had the same priority.
   */
  lemma SwapMovesTheLead(db: Db, reg: Registry, members: seq<Member>, chassis: string, a: Member, b: Member,
                         uuids: seq<string>) returns (db1: Db)
    requires GroupRowsOk(db, reg, members) && a.id.uuid != b.id.uuid && |uuids| == 2
    requires FailoverOps(members, chassis, a, b, SwapOps(a, b))
    ensures Applies(db, reg, SwapOps(a, b), uuids, db1)
    ensures forall m | m in members :: PriorityOf(db1, m.id) <= PriorityOf(db1, b.id)
    ensures multiset(Priorities(db1, members)) == multiset(Priorities(db, members))
    ensures LeadsAlone(db1, members, b.id) <==> LeadsAlone(db, members, a.id)
    ensures (forall id | id in db :: PriorityOf(db1, id) == PriorityOf(db, id)) <==> a.priority == b.priority
  {
    hide Applies, PriorityOf, SwapOps;
    db1 := SwapEffect(db, reg, members, a, b, uuids);
    SwapIsAPermutation(db, members, a, b, db1);
    assert LeadsAlone(db1, members, b.id) ==> PriorityOf(db1, a.id) < PriorityOf(db1, b.id);
    assert LeadsAlone(db, members, a.id) ==> PriorityOf(db, b.id) < PriorityOf(db, a.id);
  }

  lemma SwapIsAPermutation(db: Db, members: seq<Member>, a: Member, b: Member, db1: Db)
    requires a in members && b in members && a.id.uuid != b.id.uuid
    requires forall m | m in members :: m.id in db && PriorityOf(db, m.id) == m.priority
    requires forall i, j | 0 <= i < j < |members| :: members[i].id.uuid != members[j].id.uuid
    requires forall id | id in db :: PriorityOf(db1, id) ==
              if id == a.id then b.priority else if id == b.id then a.priority else PriorityOf(db, id)
    ensures multiset(Priorities(db1, members)) == multiset(Priorities(db, members))
  {
    hide PriorityOf;
    var i :| 0 <= i < |members| && members[i] == a;
    var j :| 0 <= j < |members| && members[j] == b;
    var before, after := Priorities(db, members), Priorities(db1, members);
    forall k | 0 <= k < |members|
      ensures after[k] == if k == i then b.priority else if k == j then a.priority else before[k]
    {
      assert members[k] in members;
      if k != i && k != j {
        assert members[k].id.uuid != members[i].id.uuid && members[k].id.uuid != members[j].id.uuid;
      }
    }
    assert after == before[i := before[j]][j := before[i]];
    SwapKeepsMultiset(before, i, j);
  }

  /** Two members at the same priority: failing over to the second is proposed and changes no priority. */
  lemma TiedFailoverChangesNothing(a: Member, b: Member)
    requires a.priority == b.priority && a.chassis != b.chassis && a.id.uuid != b.id.uuid
    ensures FailoverOps([a, b], b.chassis, a, b, SwapOps(a, b))
    ensures SwapOps(a, b) == [PriorityOp(a.id, a.priority), PriorityOp(b.id, b.priority)]
  {
  }

  lemma SwapKeepsMultiset(s: seq<int>, i: nat, j: nat)
    requires i < |s| && j < |s|
    ensures multiset(s[i := s[j]][j := s[i]]) == multiset(s)
  {
  }

  /** A bump moves the target's priority by one, within the valid range, and down only from the maximum. */
  lemma BumpChangesPriority(priority: int)
    requires 0 <= priority <= 32767
    ensures 0 <= Bumped(priority) <= 32767 && Bumped(priority) != priority
    ensures Bumped(priority) - priority == 1 || priority - Bumped(priority) == 1
    ensures Bumped(priority) < priority <==> priority == 32767
  {
  }

  /** The bumped leader still leads exactly unless it was at the top of the range next to another member there. */
  lemma BumpKeepsTheLead(members: seq<Member>, target: Member)
    requires Leads(target, members) && forall m | m in members :: 0 <= m.priority <= MAX_PRIORITY
    ensures (forall m | m in members && m.id != target.id :: m.priority <= Bumped(target.priority))
       <==> target.priority < MAX_PRIORITY || forall m | m in members && m.id != target.id :: m.priority < MAX_PRIORITY
  {
  }
}
