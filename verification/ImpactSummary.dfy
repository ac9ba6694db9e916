/** What the counters of an impact report count: rows of the database, kinds of references, levels of the tree. */
module ImpactSummary {
  import opened ImpactGraph
  import opened ImpactAnalysis

  // ---------- by table ----------

  /** The node and all below it are rows of g under their own tables, and none is marked as root. */
  ghost predicate Labelled(g: Graph, n: Node)
    decreases n
  {
    && n.uuid in g.rows && n.table == g.rows[n.uuid].table && n.kind != Root
    && forall c | c in n.children :: Labelled(g, c)
  }

  ghost function OfTable(g: Graph, uuids: seq<string>, t: string): set<string> {
    set u | u in uuids && u in g.rows && g.rows[u].table == t
  }

  lemma DistinctSplit(a: seq<string>, b: seq<string>)
    requires Distinct(a + b)
    ensures Distinct(a) && Distinct(b) && forall u | u in a :: u !in b
  {
    var s := a + b;
    assert forall i | 0 <= i < |a| :: s[i] == a[i];
    assert forall i | 0 <= i < |b| :: s[|a| + i] == b[i];
    forall u | u in a
      ensures u !in b
    {
      var i :| 0 <= i < |a| && a[i] == u;
      assert forall j | 0 <= j < |b| :: b[j] != s[i];
    }
  }

  lemma OfTableConcat(g: Graph, a: seq<string>, b: seq<string>, t: string)
    requires Distinct(a + b)
    ensures |OfTable(g, a + b, t)| == |OfTable(g, a, t)| + |OfTable(g, b, t)|
    ensures Distinct(a) && Distinct(b)
  {
    DistinctSplit(a, b);
    hide Distinct;
    assert OfTable(g, a + b, t) == OfTable(g, a, t) + OfTable(g, b, t);
    assert OfTable(g, a, t) !! OfTable(g, b, t);
  }

  lemma {:induction false} ForestTables(g: Graph, ns: seq<Node>, t: string)
    requires (forall n | n in ns :: Labelled(g, n)) && Distinct(ForestUuids(ns))
    ensures ForestTableCount(ns, t) == |OfTable(g, ForestUuids(ns), t)|
  {
    if ns != [] {
      var front, n := ns[..|ns| - 1], ns[|ns| - 1];
      assert n in ns;
      OfTableConcat(g, ForestUuids(front), TreeUuids(n), t);
      OfTableConcat(g, [n.uuid], ForestUuids(n.children), t);
      assert OfTable(g, [n.uuid], t) == if n.table == t then {n.uuid} else {};
      ForestTables(g, front, t);
      ForestTables(g, n.children, t);
    }
  }

  /** Every node of the forest, at any level, is of one of these tables. */
  ghost predicate TablesIn(n: Node, ts: set<string>)
    decreases n
  {
    n.table in ts && forall c | c in n.children :: TablesIn(c, ts)
  }

  lemma {:induction false} NoneOfTable(ns: seq<Node>, ts: set<string>, t: string)
    requires (forall n | n in ns :: TablesIn(n, ts)) && t !in ts
    ensures ForestTableCount(ns, t) == 0
  {
    if ns != [] {
      var front, n := ns[..|ns| - 1], ns[|ns| - 1];
      assert n in ns;
      NoneOfTable(front, ts, t);
      NoneOfTable(n.children, ts, t);
    }
  }

  lemma {:induction false} HangingIsLabelled(g: Graph, table: string, fields: map<string, Column>, n: Node)
    requires RootFree(g) && Hangs(g, table, fields, n)
    ensures Labelled(g, n)
    decreases n
  {
    HangingHasNoRoot(g, table, fields, n);
    forall c | c in n.children
      ensures Labelled(g, c)
    {
      HangingIsLabelled(g, n.table, g.rows[n.uuid].fields, c);
    }
  }

  lemma {:induction false} TableCountConcat(a: seq<Node>, b: seq<Node>, t: string)
    ensures ForestTableCount(a + b, t) == ForestTableCount(a, t) + ForestTableCount(b, t)
    decreases |b|
  {
    if b == [] {
      assert a + b == a;
    } else {
      assert (a + b)[..|a + b| - 1] == a + b[..|b| - 1];
      TableCountConcat(a, b[..|b| - 1], t);
    }
  }

  const SOUTH_TABLES := {"Datapath_Binding", "Port_Binding"}

  function Count<K>(m: map<K, nat>, k: K): nat {
    if k in m then m[k] else 0
  }

  /** The rows the report is about: those the root reaches and those that refer to it, without the root. */
  ghost function Affected(g: Graph, edges: seq<ReverseEdge>, uuid: string, t: string): set<string> {
    set u | u in g.rows && g.rows[u].table == t && u != uuid && (Reachable(g, uuid, u) || Refers(g, edges, uuid, u))
  }

  lemma PartsByTable(g: Graph, edges: seq<ReverseEdge>, south: seq<string>, uuid: string, p: Parts, t: string)
    requires Sound(g, edges, south, uuid, p) && RootFree(g) && t !in SOUTH_TABLES
    ensures ForestTableCount(p.forward + p.reverse + p.correlated, t)
         == |OfTable(g, ForestUuids(p.forward) + ForestUuids(p.reverse), t)|
  {
    var nb := p.forward + p.reverse;
    forall n | n in nb
      ensures Labelled(g, n)
    {
      if n in p.forward {
        HangingIsLabelled(g, g.rows[uuid].table, g.rows[uuid].fields, n);
      }
    }
    ForestAppend(p.forward, p.reverse);
    assert [uuid] + ForestUuids(p.forward) + ForestUuids(p.reverse) == [uuid] + ForestUuids(nb);
    OfTableConcat(g, [uuid], ForestUuids(nb), t);
    ForestTables(g, nb, t);
    NoneOfTable(p.correlated, SOUTH_TABLES, t);
    TableCountConcat(nb, p.correlated, t);
  }

  /**
   * The count of a table is the number of its rows in the tree; in a complete tree, the
   * number of its rows that the root reaches or that refer to the root.
   */
  lemma CountsAreRows(g: Graph, edges: seq<ReverseEdge>, south: seq<string>, maxDepth: int, limit: int,
                      rank: string -> nat, table: string, uuid: string, result: ImpactResult, p: Parts, t: string)
    requires Report(g, edges, south, maxDepth, limit, rank, table, uuid, result, p) && RootFree(g) && t !in SOUTH_TABLES
    ensures Count(result.summary.byTable, t) == |OfTable(g, ForestUuids(p.forward) + ForestUuids(p.reverse), t)|
    ensures Complete(g, edges, south, uuid, p) ==> Count(result.summary.byTable, t) == |Affected(g, edges, uuid, t)|
  {
    PartsByTable(g, edges, south, uuid, p, t);
    assert TableCount(result.root, t) == Tally(result.summary.byTable, t);
    if Complete(g, edges, south, uuid, p) {
      CompleteIsAffected(g, edges, south, uuid, p, t);
    }
  }

  lemma CompleteIsAffected(g: Graph, edges: seq<ReverseEdge>, south: seq<string>, uuid: string, p: Parts, t: string)
    requires Sound(g, edges, south, uuid, p) && Complete(g, edges, south, uuid, p)
    ensures OfTable(g, ForestUuids(p.forward) + ForestUuids(p.reverse), t) == Affected(g, edges, uuid, t)
  {
    var nb := ForestUuids(p.forward) + ForestUuids(p.reverse);
    assert [uuid] + ForestUuids(p.forward) + ForestUuids(p.reverse) == [uuid] + nb;
    DistinctSplit([uuid], nb);
    hide Distinct, Reachable, Refers, AllHang, ReverseLeaf, CorrelationNode, ForestUuids;
    forall u
      ensures u in nb <==> u != uuid && (Reachable(g, uuid, u) || Refers(g, edges, uuid, u))
    {
      assert u in [uuid] + ForestUuids(p.forward) <==> u == uuid || u in ForestUuids(p.forward);
      assert uuid in [uuid] + ForestUuids(p.forward);
    }
  }

  // ---------- by kind ----------

  ghost predicate KindsIn(n: Node, ks: set<RefType>)
    decreases n
  {
    n.kind in ks && forall c | c in n.children :: KindsIn(c, ks)
  }

  lemma {:induction false} NoneOfKind(ns: seq<Node>, ks: set<RefType>, k: RefType)
    requires (forall n | n in ns :: KindsIn(n, ks)) && k !in ks
    ensures ForestKindCount(ns, k) == 0
  {
    if ns != [] {
      var front, n := ns[..|ns| - 1], ns[|ns| - 1];
      assert n in ns;
      NoneOfKind(front, ks, k);
      NoneOfKind(n.children, ks, k);
    }
  }

  lemma {:induction false} EitherKind(ns: seq<Node>, a: RefType, b: RefType)
    requires (forall n | n in ns :: KindsIn(n, {a, b})) && a != Root && b != Root && a != b
    ensures ForestKindCount(ns, a) + ForestKindCount(ns, b) == |ForestUuids(ns)|
  {
    if ns != [] {
      var front, n := ns[..|ns| - 1], ns[|ns| - 1];
      assert n in ns;
      EitherKind(front, a, b);
      EitherKind(n.children, a, b);
    }
  }

  lemma {:induction false} KindCountConcat(a: seq<Node>, b: seq<Node>, k: RefType)
    ensures ForestKindCount(a + b, k) == ForestKindCount(a, k) + ForestKindCount(b, k)
    decreases |b|
  {
    if b == [] {
      assert a + b == a;
    } else {
      assert (a + b)[..|a + b| - 1] == a + b[..|b| - 1];
      KindCountConcat(a, b[..|b| - 1], k);
    }
  }

  lemma {:induction false} HangingIsPlain(g: Graph, table: string, fields: map<string, Column>, n: Node)
    requires PlainKinds(g) && Hangs(g, table, fields, n)
    ensures KindsIn(n, {Strong, Weak})
    decreases n
  {
    var i :| 0 <= i < |Edges(g, table)| && Edges(g, table)[i] == RefEdge(n.column, n.table, n.kind);
    forall c | c in n.children
      ensures KindsIn(c, {Strong, Weak})
    {
      HangingIsPlain(g, n.table, g.rows[n.uuid].fields, c);
    }
  }

  lemma PartsByKind(g: Graph, edges: seq<ReverseEdge>, south: seq<string>, uuid: string, p: Parts, k: RefType)
    requires Sound(g, edges, south, uuid, p) && PlainKinds(g)
    ensures ForestKindCount(p.forward + p.reverse + p.correlated, k)
         == ForestKindCount(p.forward, k) + ForestKindCount(p.reverse, k) + ForestKindCount(p.correlated, k)
    ensures k !in {Strong, Weak} ==> ForestKindCount(p.forward, k) == 0
    ensures k != Reverse ==> ForestKindCount(p.reverse, k) == 0
    ensures k != Correlation ==> ForestKindCount(p.correlated, k) == 0
  {
    KindCountConcat(p.forward + p.reverse, p.correlated, k);
    KindCountConcat(p.forward, p.reverse, k);
    forall n | n in p.forward
      ensures KindsIn(n, {Strong, Weak})
    {
      HangingIsPlain(g, g.rows[uuid].table, g.rows[uuid].fields, n);
    }
    if k !in {Strong, Weak} {
      NoneOfKind(p.forward, {Strong, Weak}, k);
    }
    if k != Reverse {
      NoneOfKind(p.reverse, {Reverse}, k);
    }
    if k != Correlation {
      NoneOfKind(p.correlated, {Correlation}, k);
    }
  }

  /** The counts by kind split the tree into its three parts. */
  lemma KindsArePartSizes(g: Graph, edges: seq<ReverseEdge>, south: seq<string>, maxDepth: int, limit: int,
                          rank: string -> nat, table: string, uuid: string, result: ImpactResult, p: Parts)
    requires Report(g, edges, south, maxDepth, limit, rank, table, uuid, result, p) && PlainKinds(g)
    ensures Count(result.summary.byKind, Strong) + Count(result.summary.byKind, Weak) == |ForestUuids(p.forward)|
    ensures Count(result.summary.byKind, Reverse) == |ForestUuids(p.reverse)|
    ensures Count(result.summary.byKind, Correlation) == |ForestUuids(p.correlated)|
  {
    hide PlainKinds, Sound, KindsIn, AllHang, ReverseLeaf, CorrelationNode;
    forall k
      ensures Count(result.summary.byKind, k) == ForestKindCount(p.forward + p.reverse + p.correlated, k)
    {
      assert KindCount(result.root, k) == Tally(result.summary.byKind, k);
      RootIsNotCounted(table, uuid, p, k);
    }
    PartsByKind(g, edges, south, uuid, p, Strong);
    PartsByKind(g, edges, south, uuid, p, Weak);
    PartsByKind(g, edges, south, uuid, p, Reverse);
    PartsByKind(g, edges, south, uuid, p, Correlation);
    PartSizes(g, edges, south, uuid, p);
  }

  lemma PartSizes(g: Graph, edges: seq<ReverseEdge>, south: seq<string>, uuid: string, p: Parts)
    requires Sound(g, edges, south, uuid, p) && PlainKinds(g)
    ensures ForestKindCount(p.forward, Strong) + ForestKindCount(p.forward, Weak) == |ForestUuids(p.forward)|
    ensures ForestKindCount(p.reverse, Reverse) == |ForestUuids(p.reverse)|
    ensures ForestKindCount(p.correlated, Correlation) == |ForestUuids(p.correlated)|
  {
    PartsByKind(g, edges, south, uuid, p, Strong);
    forall n | n in p.forward
      ensures KindsIn(n, {Strong, Weak})
    {
      HangingIsPlain(g, g.rows[uuid].table, g.rows[uuid].fields, n);
    }
    EitherKind(p.forward, Strong, Weak);
    EitherKind(p.reverse, Reverse, Strong);
    EitherKind(p.correlated, Correlation, Strong);
  }

  lemma RootIsNotCounted(table: string, uuid: string, p: Parts, k: RefType)
    ensures KindCount(RootNode(table, uuid, p), k) == ForestKindCount(p.forward + p.reverse + p.correlated, k)
  {
  }

  // ---------- depth ----------

  /** A way down from one of the nodes, level by level. */
  ghost predicate Descent(ns: seq<Node>, way: seq<Node>)
    decreases |way|
  {
    way != [] ==> way[0] in ns && Descent(way[0].children, way[1..])
  }

  lemma {:induction false} NoDeeper(ns: seq<Node>, way: seq<Node>)
    requires Descent(ns, way)
    ensures |way| <= ForestHeight(ns)
    decreases |way|, |ns|
  {
    if way != [] {
      var front, last := ns[..|ns| - 1], ns[|ns| - 1];
      assert ns == front + [last];
      if way[0] in front {
        NoDeeper(front, way);
      } else {
        NoDeeper(last.children, way[1..]);
      }
    }
  }

  lemma {:induction false} DeepestWay(ns: seq<Node>) returns (way: seq<Node>)
    ensures Descent(ns, way) && |way| == ForestHeight(ns)
    decreases ns
  {
    if ns == [] {
      way := [];
    } else {
      var front, last := ns[..|ns| - 1], ns[|ns| - 1];
      if ForestHeight(front) >= 1 + Height(last) {
        way := DeepestWay(front);
        assert way[0] in ns;
      } else {
        var below := DeepestWay(last.children);
        way := [last] + below;
        assert way[1..] == below;
      }
    }
  }

  /** The reported depth is the length of the longest way down from the root. */
  lemma DepthIsLongestWay(g: Graph, edges: seq<ReverseEdge>, south: seq<string>, maxDepth: int, limit: int,
                          rank: string -> nat, table: string, uuid: string, result: ImpactResult, p: Parts)
    returns (way: seq<Node>)
    requires Report(g, edges, south, maxDepth, limit, rank, table, uuid, result, p)
    ensures Descent(result.root.children, way) && |way| == result.summary.maxDepth
    ensures forall other | Descent(result.root.children, other) :: |other| <= result.summary.maxDepth
  {
    way := DeepestWay(result.root.children);
    forall other | Descent(result.root.children, other)
      ensures |other| <= result.summary.maxDepth
    {
      NoDeeper(result.root.children, other);
    }
  }
}
