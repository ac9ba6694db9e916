/**
 * An OVSDB server as the write engine sees it: typed rows and atomic transactions (RFC 7047,
 * sections 4.1.3 and 5.2).
 */
module Ovsdb {
  import opened Wrappers

  /** A column value as a client holds it: a set is a slice, in some order. */
  datatype Value =
    | Null
    | Str(s: string)
    | Int(n: int)
    | Bool(b: bool)
    | Set(elems: seq<string>)
    | Map(entries: map<string, string>)

  /** Equality as the server sees it: the order of a set does not count. */
  predicate SameValue(a: Value, b: Value) {
    || a == b
    || (a.Set? && b.Set? && (forall x | x in a.elems :: x in b.elems) && forall x | x in b.elems :: x in a.elems)
  }

  ghost function Elements(v: Value): set<string>
    requires v.Set?
  {
    set x | x in v.elems
  }

  /** Two sets are the same exactly if they have the same elements; two other values only if they are equal. */
  lemma SameValueIs(a: Value, b: Value)
    ensures a.Set? && b.Set? ==> (SameValue(a, b) <==> Elements(a) == Elements(b))
    ensures !(a.Set? && b.Set?) ==> (SameValue(a, b) <==> a == b)
  {
    if a.Set? && b.Set? && Elements(a) == Elements(b) {
      forall x
        ensures x in a.elems <==> x in b.elems
      {
        assert x in Elements(a) <==> x in Elements(b);
      }
    }
  }

  type Row = map<string, Value>

  datatype RowId = RowId(table: string, uuid: string)

  type Db = map<RowId, Row>

  /** A row as a Go map reads it: a missing column is nil. */
  function Col(row: Row, column: string): Value {
    if column in row then row[column] else Null
  }

  /** A client's cache holds the rows of the database, each set in an order of its own. */
  ghost predicate Mirrors(cache: Db, db: Db) {
    cache.Keys == db.Keys && forall id, k | id in db :: SameValue(Col(cache[id], k), Col(db[id], k))
  }

  /**
   * The cache after the database became db: a column whose value is still the same for the
   * server keeps its order, a changed set comes back in any order.
   */
  ghost predicate ReadBack(cache: Db, db: Db, cache1: Db) {
    && Mirrors(cache1, db)
    && forall id, k | id in cache && id in db && SameValue(Col(cache[id], k), Col(db[id], k)) ::
         Col(cache1[id], k) == Col(cache[id], k)
  }

  datatype Op =
    | Wait(id: RowId, wanted: Row)
    | Update(id: RowId, values: Row)
    | Delete(id: RowId)
    | Insert(table: string, row: Row)

  /** A wait with timeout zero and condition "==" on one row: it exists and holds these values. */
  predicate Holds(db: Db, id: RowId, wanted: Row) {
    id in db && forall k | k in wanted :: SameValue(Col(db[id], k), wanted[k])
  }

  /**
   * One operation on the working copy of a transaction; uuid names the row an insert creates.
   * Updating or deleting a row that does not exist succeeds and changes nothing.
   */
  function Step(db: Db, op: Op, uuid: string): Option<Db> {
    match op
    case Wait(id, wanted) => if Holds(db, id, wanted) then Some(db) else None
    case Update(id, values) => Some(if id in db then db[id := db[id] + values] else db)
    case Delete(id) => Some(db - {id})
    case Insert(table, row) =>
      if RowId(table, uuid) in db then None else Some(db[RowId(table, uuid) := row["_uuid" := Str(uuid)]])
  }

  /** The working copy after the operations, or None if one failed. */
  function Run(db: Db, ops: seq<Op>, uuids: seq<string>): Option<Db>
    requires |uuids| == |ops|
    decreases |ops|
  {
    if ops == [] then Some(db)
    else
      match Run(db, ops[..|ops| - 1], uuids[..|ops| - 1])
      case None => None
      case Some(w) => Step(w, ops[|ops| - 1], uuids[|ops| - 1])
  }

  datatype OpResult = Done | Failed | Skipped

  /** How the server's choices go: the UUIDs of inserted rows, whether it commits, whether its reply arrives. */
  datatype Fate = Fate(uuids: seq<string>, commits: bool, delivered: bool)

  /** A transaction takes effect as a whole or not at all. */
  function Transacted(db: Db, ops: seq<Op>, fate: Fate): Db
    requires |fate.uuids| == |ops|
  {
    match Run(db, ops, fate.uuids)
    case Some(w) => if fate.commits then w else db
    case None => db
  }

  /**
   * One result per operation: those up to the first failure, the failure, and nothing for the
   * rest; an extra error when all succeeded but the commit did not.
   */
  function Results(db: Db, ops: seq<Op>, fate: Fate): seq<OpResult>
    requires |fate.uuids| == |ops|
  {
    seq(|ops|, i requires 0 <= i < |ops| =>
      if Run(db, ops[..i + 1], fate.uuids[..i + 1]).Some? then Done
      else if Run(db, ops[..i], fate.uuids[..i]).Some? then Failed
      else Skipped)
    + (if Run(db, ops, fate.uuids).Some? && !fate.commits then [Failed] else [])
  }

  class Server {
    var db: Db

    constructor (db: Db)
      ensures this.db == db
    {
      this.db := db;
    }

    /** A transaction by this client; None when the reply is lost. */
    method Transact(ops: seq<Op>, fate: Fate) returns (reply: Option<seq<OpResult>>)
      requires |fate.uuids| == |ops|
      modifies this
      ensures db == Transacted(old(db), ops, fate)
      ensures reply == if fate.delivered then Some(Results(old(db), ops, fate)) else None
    {
      reply := if fate.delivered then Some(Results(db, ops, fate)) else None;
      db := Transacted(db, ops, fate);
    }
  }

  // ---------- facts about transactions ----------

  lemma RunSnoc(db: Db, ops: seq<Op>, uuids: seq<string>, op: Op, uuid: string)
    requires |uuids| == |ops|
    ensures Run(db, ops + [op], uuids + [uuid])
         == match Run(db, ops, uuids) case None => None case Some(w) => Step(w, op, uuid)
  {
    assert (ops + [op])[..|ops|] == ops;
    assert (uuids + [uuid])[..|ops|] == uuids;
  }

  predicate AllWait(ops: seq<Op>) {
    forall op | op in ops :: op.Wait?
  }

  predicate AllHold(db: Db, waits: seq<Op>)
    requires AllWait(waits)
  {
    forall w | w in waits :: Holds(db, w.id, w.wanted)
  }

  /** Waits at the front of a transaction look at the database itself, before any mutation. */
  lemma {:induction false} RunWaits(db: Db, waits: seq<Op>, uuids: seq<string>)
    requires AllWait(waits) && |uuids| == |waits|
    ensures Run(db, waits, uuids) == if AllHold(db, waits) then Some(db) else None
    decreases |waits|
  {
    if waits != [] {
      var front, w := waits[..|waits| - 1], waits[|waits| - 1];
      assert waits == front + [w];
      RunWaits(db, front, uuids[..|front|]);
    }
  }

  lemma {:induction false} RunConcat(db: Db, a: seq<Op>, b: seq<Op>, u: seq<string>, v: seq<string>)
    requires |u| == |a| && |v| == |b|
    ensures Run(db, a + b, u + v) == match Run(db, a, u) case None => None case Some(w) => Run(w, b, v)
    decreases |b|
  {
    if b == [] {
      assert a + b == a && u + v == u;
    } else {
      var n := |b| - 1;
      assert a + b == (a + b[..n]) + [b[n]] && u + v == (u + v[..n]) + [v[n]];
      RunConcat(db, a, b[..n], u, v[..n]);
      RunSnoc(db, a + b[..n], u + v[..n], b[n], v[n]);
    }
  }

  /** A failed operation among the first n is reported there. */
  lemma {:induction false} FailureShows(db: Db, ops: seq<Op>, fate: Fate, n: nat)
    requires |fate.uuids| == |ops| && n <= |ops|
    ensures (exists i :: 0 <= i < n && Results(db, ops, fate)[i] == Failed) <==>
              Run(db, ops[..n], fate.uuids[..n]).None?
    decreases n
  {
    if n > 0 {
      hide Run, Results;
      FailureShows(db, ops, fate, n - 1);
      FailsOnce(db, ops, fate, n - 1);
    }
  }

  /** An operation is reported as failed exactly if those before it ran and it did not. */
  lemma FailsOnce(db: Db, ops: seq<Op>, fate: Fate, i: nat)
    requires |fate.uuids| == |ops| && i < |ops|
    ensures Results(db, ops, fate)[i] == Failed <==>
              Run(db, ops[..i], fate.uuids[..i]).Some? && Run(db, ops[..i + 1], fate.uuids[..i + 1]).None?
    ensures Run(db, ops[..i], fate.uuids[..i]).None? ==> Run(db, ops[..i + 1], fate.uuids[..i + 1]).None?
  {
    hide Step;
    assert ops[..i + 1][..i] == ops[..i] && fate.uuids[..i + 1][..i] == fate.uuids[..i];
  }

  // ---------- what a transaction does to one row ----------

  predicate Targets(op: Op, uuid: string, id: RowId) {
    match op
    case Wait(_, _) => false
    case Update(target, _) => target == id
    case Delete(target) => target == id
    case Insert(table, _) => RowId(table, uuid) == id
  }

  function Lookup(db: Db, id: RowId): Option<Row> {
    if id in db then Some(db[id]) else None
  }

  lemma {:induction false} RunLeavesAlone(db: Db, ops: seq<Op>, uuids: seq<string>, id: RowId)
    requires |uuids| == |ops| && Run(db, ops, uuids).Some?
    requires forall i | 0 <= i < |ops| :: !Targets(ops[i], uuids[i], id)
    ensures Lookup(Run(db, ops, uuids).value, id) == Lookup(db, id)
    decreases |ops|
  {
    if ops != [] {
      RunLeavesAlone(db, ops[..|ops| - 1], uuids[..|ops| - 1], id);
    }
  }

  /** A row that one operation of a transaction targets ends up as if that operation were alone. */
  lemma {:induction false} RunTargetsOnce(db: Db, ops: seq<Op>, uuids: seq<string>, id: RowId, j: nat)
    requires |uuids| == |ops| && Run(db, ops, uuids).Some?
    requires j < |ops| && Targets(ops[j], uuids[j], id)
    requires forall i | 0 <= i < |ops| && i != j :: !Targets(ops[i], uuids[i], id)
    ensures Step(db, ops[j], uuids[j]).Some?
    ensures Lookup(Run(db, ops, uuids).value, id) == Lookup(Step(db, ops[j], uuids[j]).value, id)
    decreases |ops|
  {
    var n := |ops| - 1;
    if j == n {
      RunLeavesAlone(db, ops[..n], uuids[..n], id);
    } else {
      RunTargetsOnce(db, ops[..n], uuids[..n], id, j);
    }
  }
}
