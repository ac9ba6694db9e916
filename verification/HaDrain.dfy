/** Draining a chassis from its HA groups, restoring it, and failing a group over. */
module HaDrain {
  import opened Wrappers
  import opened Ordering
  import opened Ovsdb
  import opened WritePlans
  import Decimal

  const MARKER := "northwatch:pre-drain-priority"

  datatype Member = Member(id: RowId, chassis: string, priority: int, externalIds: map<string, string>)

  /** An HA chassis group or a router port, with the rows it lists. */
  datatype Group = Group(name: string, table: string, uuids: seq<string>)

  /** A chassis row as the typed client reads it; priorities are 64-bit integers. */
  predicate HaRow(row: Row) {
    && Col(row, "chassis_name").Str? && Col(row, "priority").Int? && Col(row, "external_ids").Map?
    && Decimal.IsInt64(Col(row, "priority").n)
  }

  ghost predicate HaRows(db: Db, groups: seq<Group>) {
    forall id | id in db && Listed(groups, id) :: HaRow(db[id])
  }

  function MemberOf(id: RowId, row: Row): Member
    requires HaRow(row)
  {
    Member(id, Col(row, "chassis_name").s, Col(row, "priority").n, Col(row, "external_ids").entries)
  }

  predicate Listed(groups: seq<Group>, id: RowId) {
    exists g :: g in groups && g.table == id.table && id.uuid in g.uuids
  }

  /** The existing rows a group lists, in its order. */
  ghost predicate MembersOf(db: Db, g: Group, members: seq<Member>) {
    && (forall m | m in members ::
          && m.id.table == g.table && m.id.uuid in g.uuids && m.id in db && HaRow(db[m.id])
          && m == MemberOf(m.id, db[m.id]))
    && (forall u | u in g.uuids && RowId(g.table, u) in db ::
          HaRow(db[RowId(g.table, u)]) && MemberOf(RowId(g.table, u), db[RowId(g.table, u)]) in members)
  }

  method CollectGroup(db: Db, g: Group) returns (members: seq<Member>)
    requires forall u | u in g.uuids && RowId(g.table, u) in db :: HaRow(db[RowId(g.table, u)])
    ensures MembersOf(db, g, members)
  {
    members := [];
    for i := 0 to |g.uuids|
      invariant MembersOf(db, g.(uuids := g.uuids[..i]), members)
    {
      var id := RowId(g.table, g.uuids[i]);
      assert g.uuids[..i + 1] == g.uuids[..i] + [g.uuids[i]];
      if id in db {
        assert id.uuid in g.uuids;
        members := members + [MemberOf(id, db[id])];
      }
    }
    assert g.uuids[..|g.uuids|] == g.uuids;
  }

  // ---------- the operations ----------

  function MergeExternalIds(existing: map<string, string>, key: string, value: string): map<string, string> {
    existing[key := value]
  }

  function RemoveExternalId(existing: map<string, string>, key: string): map<string, string> {
    existing - {key}
  }

  function SetPriority(m: Member, priority: int, ids: map<string, string>): WriteOperation {
    WriteOperation(UpdateRow, m.id.table, m.id.uuid, map["priority" := Int(priority), "external_ids" := Map(ids)])
  }

  predicate Drainable(m: Member, chassis: string) {
    m.chassis == chassis && m.priority != 0
  }

  function DrainOp(m: Member): WriteOperation {
    SetPriority(m, 0, MergeExternalIds(m.externalIds, MARKER, Decimal.Itoa(m.priority)))
  }

  predicate Drained(m: Member, chassis: string) {
    m.chassis == chassis && m.priority == 0
  }

  /** The priority a drained member gets back: the marker's, if it is a positive number, else one. */
  function RestorePriority(m: Member): int {
    if MARKER !in m.externalIds then 1
    else
      match Decimal.Atoi(m.externalIds[MARKER])
      case Some(p) => if p > 0 then p else 1
      case None => 1
  }

  function RestoreOp(m: Member): WriteOperation {
    SetPriority(m, RestorePriority(m), RemoveExternalId(m.externalIds, MARKER))
  }

  datatype Direction = Evacuating | Restoring

  predicate Affected(d: Direction, m: Member, chassis: string) {
    if d == Evacuating then Drainable(m, chassis) else Drained(m, chassis)
  }

  function OpFor(d: Direction, m: Member): WriteOperation {
    if d == Evacuating then DrainOp(m) else RestoreOp(m)
  }

  /** The operations name exactly the affected members of all groups. */
  ghost predicate OpsFor(d: Direction, db: Db, groups: seq<Group>, chassis: string, ops: seq<WriteOperation>) {
    && (forall op | op in ops ::
          Listed(groups, Target(op)) && Target(op) in db && HaRow(db[Target(op)])
          && Affected(d, MemberOf(Target(op), db[Target(op)]), chassis)
                && op == OpFor(d, MemberOf(Target(op), db[Target(op)])))
    && (forall id | Listed(groups, id) && id in db && HaRow(db[id]) && Affected(d, MemberOf(id, db[id]), chassis) ::
          OpFor(d, MemberOf(id, db[id])) in ops)
  }

  /** The loop over the members of one group. */
  method GroupOps(d: Direction, members: seq<Member>, chassis: string) returns (ops: seq<WriteOperation>)
    ensures forall op | op in ops :: exists m :: m in members && Affected(d, m, chassis) && op == OpFor(d, m)
    ensures forall m | m in members && Affected(d, m, chassis) :: OpFor(d, m) in ops
  {
    ops := [];
    for i := 0 to |members|
      invariant forall op | op in ops :: exists m :: m in members && Affected(d, m, chassis) && op == OpFor(d, m)
      invariant forall j | 0 <= j < i && Affected(d, members[j], chassis) :: OpFor(d, members[j]) in ops
    {
      hide Affected, OpFor;
      if Affected(d, members[i], chassis) {
        assert members[i] in members;
        ops := ops + [OpFor(d, members[i])];
      }
    }
  }

  method Propose(d: Direction, db: Db, groups: seq<Group>, chassis: string) returns (r: Option<seq<WriteOperation>>)
    requires HaRows(db, groups)
    ensures r.Some? ==> r.value != [] && OpsFor(d, db, groups, chassis, r.value)
    ensures r.Some? ==> OrderedByUuid(r.value)
    ensures r.None? ==> OpsFor(d, db, groups, chassis, [])
  {
    var ops: seq<WriteOperation> := [];
    for i := 0 to |groups|
      invariant OpsFor(d, db, groups[..i], chassis, ops)
    {
      hide HaRow, Affected, OpFor, MemberOf, OpsFor;
      GroupRows(db, groups, i);
      var members := CollectGroup(db, groups[i]);
      var more := GroupOps(d, members, chassis);
      OneMoreGroup(d, db, groups[..i], groups[i], members, chassis, ops, more);
      assert groups[..i + 1] == groups[..i] + [groups[i]];
      ops := ops + more;
    }
    assert groups[..|groups|] == groups;
    if ops == [] {
      return None;
    }
    var sorted := SortOpsByUuid(ops);
    SameOps(d, db, groups, chassis, ops, sorted);
    r := Some(sorted);
  }

  lemma GroupRows(db: Db, groups: seq<Group>, i: nat)
    requires HaRows(db, groups) && i < |groups|
    ensures forall u | u in groups[i].uuids && RowId(groups[i].table, u) in db :: HaRow(db[RowId(groups[i].table, u)])
  {
    hide HaRow;
    forall u | u in groups[i].uuids && RowId(groups[i].table, u) in db
      ensures HaRow(db[RowId(groups[i].table, u)])
    {
      assert groups[i] in groups && Listed(groups, RowId(groups[i].table, u));
    }
  }

  lemma OneMoreGroup(d: Direction, db: Db, groups: seq<Group>, g: Group, members: seq<Member>, chassis: string,
                     ops: seq<WriteOperation>, more: seq<WriteOperation>)
    requires OpsFor(d, db, groups, chassis, ops) && MembersOf(db, g, members)
    requires forall op | op in more :: exists m :: m in members && Affected(d, m, chassis) && op == OpFor(d, m)
    requires forall m | m in members && Affected(d, m, chassis) :: OpFor(d, m) in more
    ensures OpsFor(d, db, groups + [g], chassis, ops + more)
  {
    hide HaRow, Affected, MemberOf, OpFor;
    var all := groups + [g];
    forall id
      ensures Listed(all, id) <==> Listed(groups, id) || (g.table == id.table && id.uuid in g.uuids)
    {
      ListedSnoc(groups, g, id);
    }
    forall op | op in ops + more
      ensures Listed(all, Target(op)) && Target(op) in db && HaRow(db[Target(op)])
      ensures Affected(d, MemberOf(Target(op), db[Target(op)]), chassis)
                && op == OpFor(d, MemberOf(Target(op), db[Target(op)]))
    {
      if op !in ops {
        var m :| m in members && Affected(d, m, chassis) && op == OpFor(d, m);
        OpTarget(d, m);
      }
    }
  }

  lemma OpTarget(d: Direction, m: Member)
    ensures Target(OpFor(d, m)) == m.id
  {
  }

  lemma ListedSnoc(groups: seq<Group>, g: Group, id: RowId)
    ensures Listed(groups + [g], id) <==> Listed(groups, id) || (g.table == id.table && id.uuid in g.uuids)
  {
    var all := groups + [g];
    assert forall x :: x in all <==> x in groups || x == g;
  }

  lemma SameOps(d: Direction, db: Db, groups: seq<Group>, chassis: string, ops: seq<WriteOperation>,
                sorted: seq<WriteOperation>)
    requires OpsFor(d, db, groups, chassis, ops) && multiset(sorted) == multiset(ops)
    ensures OpsFor(d, db, groups, chassis, sorted)
  {
    hide HaRow, Affected, MemberOf, OpFor, Listed;
    forall op
      ensures op in sorted <==> op in ops
    {
      assert op in multiset(sorted) <==> op in multiset(ops);
    }
  }

  method SortOpsByUuid(ops: seq<WriteOperation>) returns (sorted: seq<WriteOperation>)
    ensures multiset(sorted) == multiset(ops)
    ensures OrderedByUuid(sorted)
  {
    sorted := [];
    for n := 0 to |ops|
      invariant multiset(sorted) == multiset(ops[..n])
      invariant OrderedByUuid(sorted)
    {
      assert ops[..n + 1] == ops[..n] + [ops[n]];
      sorted := InsertOp(sorted, ops[n]);
    }
    assert ops[..|ops|] == ops;
  }

  ghost predicate OrderedByUuid(s: seq<WriteOperation>) {
    forall i, j | 0 <= i < j < |s| :: !Less(s[j].uuid, s[i].uuid)
  }

  method InsertOp(s: seq<WriteOperation>, op: WriteOperation) returns (t: seq<WriteOperation>)
    requires OrderedByUuid(s)
    ensures multiset(t) == multiset(s) + multiset{op}
    ensures OrderedByUuid(t)
  {
    hide OrderedByUuid;
    var n := 0;
    while n < |s| && !Less(op.uuid, s[n].uuid)
      invariant n <= |s| && forall i | 0 <= i < n :: !Less(op.uuid, s[i].uuid)
    {
      n := n + 1;
    }
    t := s[..n] + [op] + s[n..];
    assert s == s[..n] + s[n..];
    InsertKeepsOrder(s, op, n);
  }

  lemma InsertKeepsOrder(s: seq<WriteOperation>, op: WriteOperation, n: nat)
    requires OrderedByUuid(s) && n <= |s|
    requires forall i | 0 <= i < n :: !Less(op.uuid, s[i].uuid)
    requires n < |s| ==> Less(op.uuid, s[n].uuid)
    ensures OrderedByUuid(s[..n] + [op] + s[n..])
  {
    hide Less;
    var t := s[..n] + [op] + s[n..];
    forall i, j | 0 <= i < j < |t|
      ensures !Less(t[j].uuid, t[i].uuid)
    {
      if i == n {
        if j - 1 == n {
          LessAsymmetric(op.uuid, s[n].uuid);
        } else {
          AboveStays(op.uuid, s[n].uuid, s[j - 1].uuid);
        }
      }
    }
  }

  lemma LessAsymmetric(a: string, b: string)
    requires Less(a, b)
    ensures !Less(b, a)
  {
    if Less(b, a) {
      LessTransitive(a, b, a);
      LessIrreflexive(a);
    }
  }

  lemma AboveStays(a: string, b: string, c: string)
    requires Less(a, b) && !Less(c, b)
    ensures !Less(c, a)
  {
    if Less(c, a) {
      LessTransitive(c, a, b);
    }
  }
}
