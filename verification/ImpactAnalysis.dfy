/** A whole impact analysis: the tree, its completeness, its size and its summary. */
module ImpactAnalysis {
  import opened Wrappers
  import opened ImpactGraph
  import opened ImpactResolver

  datatype ImpactError = UnsupportedDb | UnknownTable | NotFound

  datatype Summary = Summary(total: nat, byTable: map<string, nat>, byKind: map<RefType, nat>, maxDepth: nat,
                             truncated: bool)

  datatype ImpactResult = ImpactResult(root: Node, summary: Summary)

  function Tally<K>(m: map<K, nat>, k: K): nat {
    if k in m then m[k] else 0
  }

  /** The counters walkSummary updates. */
  class Counters {
    var total: nat
    var byTable: map<string, nat>
    var byKind: map<RefType, nat>
    var maxDepth: nat

    constructor ()
      ensures total == 0 && byTable == map[] && byKind == map[] && maxDepth == 0
    {
      total, byTable, byKind, maxDepth := 0, map[], map[], 0;
    }
  }

  function Max(a: nat, b: nat): nat {
    if a >= b then a else b
  }

  lemma PrefixCounts(ns: seq<Node>, i: nat)
    requires i < |ns|
    ensures ForestCount(ns[..i + 1]) == ForestCount(ns[..i]) + NodeCount(ns[i])
    ensures forall t :: ForestTableCount(ns[..i + 1], t) == ForestTableCount(ns[..i], t) + TableCount(ns[i], t)
    ensures forall k :: ForestKindCount(ns[..i + 1], k) == ForestKindCount(ns[..i], k) + KindCount(ns[i], k)
    ensures ForestHeight(ns[..i + 1]) == Max(ForestHeight(ns[..i]), 1 + Height(ns[i]))
  {
    assert ns[..i + 1][..i] == ns[..i];
  }

  /** The node itself, without its children. */
  method CountNode(n: Node, depth: nat, s: Counters)
    modifies s
    ensures s.total == old(s.total) + (if n.kind != Root then 1 else 0)
    ensures forall t ::
              Tally(s.byTable, t) == Tally(old(s.byTable), t) + (if n.kind != Root && n.table == t then 1 else 0)
    ensures forall k :: Tally(s.byKind, k) == Tally(old(s.byKind), k) + (if n.kind != Root && n.kind == k then 1 else 0)
    ensures s.maxDepth == Max(old(s.maxDepth), depth)
  {
    if depth > s.maxDepth {
      s.maxDepth := depth;
    }
    if n.kind != Root {
      s.total := s.total + 1;
      s.byTable := s.byTable[n.table := Tally(s.byTable, n.table) + 1];
      s.byKind := s.byKind[n.kind := Tally(s.byKind, n.kind) + 1];
    }
  }

  method WalkSummary(n: Node, depth: nat, s: Counters)
    modifies s
    ensures s.total == old(s.total) + NodeCount(n)
    ensures forall t :: Tally(s.byTable, t) == Tally(old(s.byTable), t) + TableCount(n, t)
    ensures forall k :: Tally(s.byKind, k) == Tally(old(s.byKind), k) + KindCount(n, k)
    ensures s.maxDepth == Max(old(s.maxDepth), depth + Height(n))
    decreases n
  {
    hide Tally;
    CountNode(n, depth, s);
    ghost var total, byTable, byKind, deepest := s.total, s.byTable, s.byKind, s.maxDepth;
    for i := 0 to |n.children|
      invariant s.total == total + ForestCount(n.children[..i])
      invariant forall t :: Tally(s.byTable, t) == Tally(byTable, t) + ForestTableCount(n.children[..i], t)
      invariant forall k :: Tally(s.byKind, k) == Tally(byKind, k) + ForestKindCount(n.children[..i], k)
      invariant s.maxDepth == Max(deepest, depth + ForestHeight(n.children[..i]))
    {
      hide ForestCount, ForestTableCount, ForestKindCount, ForestHeight, NodeCount, TableCount, KindCount, Height;
      PrefixCounts(n.children, i);
      WalkSummary(n.children[i], depth + 1, s);
    }
    assert n.children[..|n.children|] == n.children;
  }

  method ComputeSummary(root: Node, truncated: bool) returns (s: Summary)
    ensures s.total == NodeCount(root) && s.maxDepth == Height(root) && s.truncated == truncated
    ensures forall t :: Tally(s.byTable, t) == TableCount(root, t)
    ensures forall k :: Tally(s.byKind, k) == KindCount(root, k)
  {
    var c := new Counters();
    WalkSummary(root, 0, c);
    s := Summary(c.total, c.byTable, c.byKind, c.maxDepth, truncated);
  }

  // ---------- the whole tree ----------

  /** The three parts of an impact tree. */
  datatype Parts = Parts(forward: seq<Node>, reverse: seq<Node>, correlated: seq<Node>)

  function RootNode(table: string, uuid: string, p: Parts): Node {
    Node("nb", table, uuid, Root, "", p.forward + p.reverse + p.correlated)
  }

  /** Southbound rows carry pairwise distinct UUIDs, none of which the NB side knows. */
  ghost predicate SouthApart(g: Graph, south: seq<string>) {
    && Distinct(south)
    && (forall u | u in south :: u !in g.rows && forall r | r in g.rows :: !RefersTo(g, r, u))
  }

  /** u refers to uuid by one of the reverse edges. */
  ghost predicate Refers(g: Graph, edges: seq<ReverseEdge>, uuid: string, u: string) {
    u != "" && exists i :: 0 <= i < |edges| && PointsAt(g, edges[i].source, edges[i].column, u, uuid)
  }

  /**
   * What an unlimited analysis would visit: the row itself, everything mentioned by rows it
   * reaches, the rows that refer to it, and its southbound realization.
   */
  ghost function Entities(g: Graph, edges: seq<ReverseEdge>, south: seq<string>, uuid: string): set<string> {
    {uuid}
    + (set v | v in MentionedUuids(g) && MentionedBelow(g, uuid, v))
    + (set u | u in g.rows && Refers(g, edges, uuid, u))
    + Elements(south)
  }

  /**
   * The forward part is exactly what is reachable, the reverse part the other referring rows, the
   * rest all of south.
   */
  ghost predicate Complete(g: Graph, edges: seq<ReverseEdge>, south: seq<string>, uuid: string, p: Parts) {
    && (forall u :: u in [uuid] + ForestUuids(p.forward) <==> Reachable(g, uuid, u))
    && (forall u :: u in ForestUuids(p.reverse) <==> Refers(g, edges, uuid, u) && !Reachable(g, uuid, u))
    && ForestUuids(p.correlated) == south
  }

  /** Everything in the tree is really there, and nothing of NB twice. */
  ghost predicate Sound(g: Graph, edges: seq<ReverseEdge>, south: seq<string>, uuid: string, p: Parts) {
    && uuid in g.rows
    && AllHang(g, g.rows[uuid].table, g.rows[uuid].fields, p.forward)
    && (forall n | n in p.reverse :: ReverseLeaf(g, edges, uuid, n))
    && (forall n | n in p.correlated :: CorrelationNode(n))
    && Distinct([uuid] + ForestUuids(p.forward) + ForestUuids(p.reverse))
    && ForestUuids(p.correlated) <= south
  }

  lemma TreeOfParts(table: string, uuid: string, p: Parts)
    ensures TreeUuids(RootNode(table, uuid, p)) == [uuid] + ForestUuids(p.forward) + ForestUuids(p.reverse) +
              ForestUuids(p.correlated)
  {
    ForestAppend(p.forward + p.reverse, p.correlated);
    ForestAppend(p.forward, p.reverse);
  }

  lemma DistinctParts(uuid: string, a: seq<string>, b: seq<string>, v: set<string>)
    requires Distinct(a) && Distinct(b)
    requires forall u | u in a :: u in v && u != uuid
    requires forall u | u in b :: u !in v
    requires uuid in v
    ensures Distinct([uuid] + a + b)
  {
    var s := [uuid] + a + b;
    assert forall i | 0 <= i < |a| :: a[i] in a;
    assert forall i | 0 <= i < |b| :: b[i] in b;
  }

  lemma SizeBound(nb: seq<string>, south: seq<string>, visited: set<string>)
    requires Distinct(nb) && Distinct(south)
    requires forall u | u in nb :: u in visited && u !in south
    requires forall u | u in south :: u in visited
    ensures |nb + south| <= |visited|
  {
    var s := nb + south;
    assert forall i | 0 <= i < |nb| :: nb[i] in nb;
    assert forall i | 0 <= i < |south| :: south[i] in south;
    DistinctSize(s);
    assert forall u | u in s :: u in visited;
    SubsetSize(Elements(s), visited);
  }

  lemma PartsComplete(g: Graph, edges: seq<ReverseEdge>, south: seq<string>, uuid: string, p: Parts, v1: set<string>,
                      v2: set<string>)
    requires WellTyped(g) && uuid in g.rows
    requires Covers(g, p.forward, {uuid}, v1) && Closed(g, {uuid}, v1)
    requires AllHang(g, g.rows[uuid].table, g.rows[uuid].fields, p.forward)
    requires forall v | RefersTo(g, uuid, v) :: v in v1
    requires Leaves(g, edges, uuid, p.reverse, v1, v2) && v1 <= v2
    requires forall i, u | 0 <= i < |edges| && PointsAt(g, edges[i].source, edges[i].column, u, uuid) && u != "" ::
              u in v2
    requires ForestUuids(p.correlated) == south
    ensures Complete(g, edges, south, uuid, p)
  {
    assert Closed(g, {}, v1);
    WalkIsExact(g, uuid, p.forward, v1);
    forall u
      ensures u in ForestUuids(p.reverse) <==> Refers(g, edges, uuid, u) && !Reachable(g, uuid, u)
    {
      if u in ForestUuids(p.reverse) {
        LeafRefers(g, edges, uuid, p.reverse, u);
      }
    }
  }

  lemma {:induction false} LeafRefers(g: Graph, edges: seq<ReverseEdge>, uuid: string, ns: seq<Node>, u: string)
    requires forall n | n in ns :: ReverseLeaf(g, edges, uuid, n)
    requires u in ForestUuids(ns)
    ensures Refers(g, edges, uuid, u) && u in g.rows
  {
    var front, n := ns[..|ns| - 1], ns[|ns| - 1];
    assert n in ns;
    ForestLeaf(front, n);
    assert front + [n] == ns;
    if u in ForestUuids(front) {
      LeafRefers(g, edges, uuid, front, u);
    } else {
      assert u == n.uuid;
    }
  }

  lemma SummaryOfTree(g: Graph, edges: seq<ReverseEdge>, south: seq<string>, table: string, uuid: string, p: Parts)
    requires RootFree(g) && Sound(g, edges, south, uuid, p)
    ensures NodeCount(RootNode(table, uuid, p)) == |TreeUuids(RootNode(table, uuid, p))| - 1
  {
    var root := RootNode(table, uuid, p);
    forall n | n in root.children
      ensures NoRoot(n)
    {
      if n in p.forward {
        HangingHasNoRoot(g, g.rows[uuid].table, g.rows[uuid].fields, n);
      }
    }
    CountIsSize(root.children);
  }

  /** What the three passes from {uuid} over v1 and v2 to v3 established. */
  ghost predicate Passes(g: Graph, edges: seq<ReverseEdge>, south: seq<string>, limit: int, table: string,
                         uuid: string, p: Parts, v1: set<string>, v2: set<string>, v3: set<string>, t1: bool,
                         t2: bool, t3: bool) {
    && Readable(g, table, uuid)
    && Passed(g, table, g.rows[uuid].fields, p.forward, {uuid}, v1, false, t1)
    && (!t1 ==> forall v | Mentions(g, table, g.rows[uuid].fields, v) :: v in v1)
    && v1 <= v2 && (t1 ==> t2) && (t2 ==> t3) && |v3| <= limit
    && Leaves(g, edges, uuid, p.reverse, v1, v2)
    && (!t2 ==> forall i, u | 0 <= i < |edges| && PointsAt(g, edges[i].source, edges[i].column, u, uuid) && u != "" ::
          u in v2)
    && ForestUuids(p.correlated) <= south && v3 == v2 + Elements(ForestUuids(p.correlated))
    && (ForestUuids(p.correlated) == south || t3)
    && (forall n | n in p.correlated :: CorrelationNode(n))
  }

  lemma PassesSound(g: Graph, edges: seq<ReverseEdge>, south: seq<string>, limit: int, table: string, uuid: string,
                    p: Parts, v1: set<string>, v2: set<string>, v3: set<string>, t1: bool, t2: bool, t3: bool)
    requires Passes(g, edges, south, limit, table, uuid, p, v1, v2, v3, t1, t2, t3)
    ensures Sound(g, edges, south, uuid, p)
    ensures WellTyped(g) && !t3 ==> Complete(g, edges, south, uuid, p)
  {
    DistinctParts(uuid, ForestUuids(p.forward), ForestUuids(p.reverse), v1);
    if WellTyped(g) && !t3 {
      PartsComplete(g, edges, south, uuid, p, v1, v2);
    }
  }

  /** The forward pass visits nothing but what the root and the rows it reaches mention. */
  lemma ForwardInEntities(g: Graph, edges: seq<ReverseEdge>, south: seq<string>, table: string, uuid: string,
                          kids: seq<Node>, v1: set<string>, t1: bool)
    requires Readable(g, table, uuid) && Passed(g, table, g.rows[uuid].fields, kids, {uuid}, v1, false, t1)
    ensures v1 <= Entities(g, edges, south, uuid)
  {
    assert Path(g, [uuid]);
    ForestReachable(g, uuid, uuid, kids, [uuid]);
    forall v | v in v1
      ensures v in Entities(g, edges, south, uuid)
    {
      if v != uuid {
        var w := if Mentions(g, table, g.rows[uuid].fields, v) then uuid else MentionIn(g, kids, v);
        assert Reachable(g, uuid, w) && RefersTo(g, w, v);
        MentionedIs(g, v);
      }
    }
  }

  ghost function MentionIn(g: Graph, kids: seq<Node>, v: string): (w: string)
    requires MentionedIn(g, kids, v)
    ensures w in ForestUuids(kids) && RefersTo(g, w, v)
  {
    var w :| w in ForestUuids(kids) && RefersTo(g, w, v);
    w
  }

  lemma PassesInEntities(g: Graph, edges: seq<ReverseEdge>, south: seq<string>, limit: int, table: string, uuid: string,
                         p: Parts, v1: set<string>, v2: set<string>, v3: set<string>, t1: bool, t2: bool, t3: bool)
    requires Passes(g, edges, south, limit, table, uuid, p, v1, v2, v3, t1, t2, t3)
    ensures |v3| <= |Entities(g, edges, south, uuid)|
  {
    var all := Entities(g, edges, south, uuid);
    ForwardInEntities(g, edges, south, table, uuid, p.forward, v1, t1);
    forall u | u in v3
      ensures u in all
    {
      if u in v2 && u !in v1 {
        LeafRefers(g, edges, uuid, p.reverse, u);
      } else if u !in v2 {
        assert u in ForestUuids(p.correlated);
        assert u in south;
      }
    }
    SubsetSize(v3, all);
  }

  /** An untruncated analysis of well-typed references visited all of it. */
  lemma PassesAll(g: Graph, edges: seq<ReverseEdge>, south: seq<string>, limit: int, table: string, uuid: string,
                  p: Parts, v1: set<string>, v2: set<string>, v3: set<string>, t1: bool, t2: bool, t3: bool)
    requires Passes(g, edges, south, limit, table, uuid, p, v1, v2, v3, t1, t2, t3)
    requires WellTyped(g) && !t3
    ensures |Entities(g, edges, south, uuid)| <= limit
  {
    var all := Entities(g, edges, south, uuid);
    PassesSound(g, edges, south, limit, table, uuid, p, v1, v2, v3, t1, t2, t3);
    forall v | v in all
      ensures v in v3
    {
      if MentionedBelow(g, uuid, v) {
        var w :| Reachable(g, uuid, w) && RefersTo(g, w, v);
        assert w in [uuid] + ForestUuids(p.forward);
      } else if Refers(g, edges, uuid, v) {
        assert v in v2;
      }
    }
    SubsetSize(all, v3);
  }

  lemma PassesSize(g: Graph, edges: seq<ReverseEdge>, south: seq<string>, limit: int, table: string, uuid: string,
                   p: Parts, v1: set<string>, v2: set<string>, v3: set<string>, t1: bool, t2: bool, t3: bool)
    requires Passes(g, edges, south, limit, table, uuid, p, v1, v2, v3, t1, t2, t3)
    requires Sound(g, edges, south, uuid, p) && SouthApart(g, south)
    ensures |TreeUuids(RootNode(table, uuid, p))| <= limit
  {
    TreeOfParts(table, uuid, p);
    var nb, c := [uuid] + ForestUuids(p.forward) + ForestUuids(p.reverse), ForestUuids(p.correlated);
    forall u | u in nb
      ensures u in v3 && u !in c
    {
      if u in ForestUuids(p.reverse) {
        LeafRefers(g, edges, uuid, p.reverse, u);
      }
    }
    assert forall i | 0 <= i < |c| :: c[i] == south[i];
    SizeBound(nb, c, v3);
  }

  /** Where the depth cuts nothing, fewer entities than the limit are never truncated, and more always are. */
  ghost predicate CutBySize(g: Graph, edges: seq<ReverseEdge>, south: seq<string>, limit: int, uuid: string,
                            deep: bool, truncated: bool) {
    && (deep && |Entities(g, edges, south, uuid)| < limit ==> !truncated)
    && (WellTyped(g) && |Entities(g, edges, south, uuid)| > limit ==> truncated)
  }

  /** What the impact report of a row says, with these limits and any ranking of the tables. */
  ghost predicate Report(g: Graph, edges: seq<ReverseEdge>, south: seq<string>, maxDepth: int, limit: int,
                         rank: string -> nat, table: string, uuid: string, result: ImpactResult, p: Parts) {
    && result.root == RootNode(table, uuid, p)
    && Sound(g, edges, south, uuid, p)
    && (WellTyped(g) && !result.summary.truncated ==> Complete(g, edges, south, uuid, p))
    && CutBySize(g, edges, south, limit, uuid, DeepEnough(g, rank, table, 0, maxDepth), result.summary.truncated)
    && (SouthApart(g, south) ==> |TreeUuids(result.root)| <= limit)
    && result.summary.maxDepth == Height(result.root)
    && (forall t :: Tally(result.summary.byTable, t) == TableCount(result.root, t))
    && (forall k :: Tally(result.summary.byKind, k) == KindCount(result.root, k))
    && (RootFree(g) ==> result.summary.total == |TreeUuids(result.root)| - 1)
  }

  /** Resolve, for any ranking of the tables. */
  method Resolve(r: Resolver, db: string, table: string, uuid: string, ghost rank: string -> nat)
    returns (result: Result<ImpactResult, ImpactError>, ghost p: Parts)
    requires r.maxDepth > 0 && r.maxEntities > 0
    ensures result == Err(NotFound) <==>
              db == "nb" && table in r.g.tables && !(uuid in r.g.rows && r.g.rows[uuid].table == table)
    ensures result == Err(UnsupportedDb) <==> db != "nb"
    ensures result == Err(UnknownTable) <==> db == "nb" && table !in r.g.tables
    ensures result.Ok? ==> Report(r.g, ReverseEdges(r.reverse, table), Realizing(r.correlations, r.south, table, uuid),
                                  r.maxDepth, r.maxEntities, rank, table, uuid, result.value, p)
  {
    p := Parts([], [], []);
    if db != "nb" {
      return Err(UnsupportedDb), p;
    }
    if table !in r.g.tables {
      return Err(UnknownTable), p;
    }
    if !Readable(r.g, table, uuid) {
      return Err(NotFound), p;
    }
    var root, truncated;
    root, truncated, p := BuildTree(r, table, uuid, rank);
    var summary := ComputeSummary(root, truncated);
    if RootFree(r.g) {
      SummaryOfTree(r.g, ReverseEdges(r.reverse, table), Realizing(r.correlations, r.south, table, uuid), table, uuid,
        p);
    }
    result := Ok(ImpactResult(root, summary));
  }

  /** The walk of Resolve: forward references, then reverse references, then the southbound side. */
  method BuildTree(r: Resolver, table: string, uuid: string, ghost rank: string -> nat)
    returns (root: Node, truncated: bool, ghost p: Parts)
    requires r.maxDepth > 0 && r.maxEntities > 0 && Readable(r.g, table, uuid)
    ensures root == RootNode(table, uuid, p)
    ensures var edges, south := ReverseEdges(r.reverse, table), Realizing(r.correlations, r.south, table, uuid);
            && Sound(r.g, edges, south, uuid, p)
            && (WellTyped(r.g) && !truncated ==> Complete(r.g, edges, south, uuid, p))
            && (SouthApart(r.g, south) ==> |TreeUuids(root)| <= r.maxEntities)
            && CutBySize(r.g, edges, south, r.maxEntities, uuid, DeepEnough(r.g, rank, table, 0, r.maxDepth), truncated)
  {
    hide Passes, Sound, Complete, SouthApart, WellTyped, Readable, TreeUuids, ForestUuids, Realizing, ReverseEdges,
      Ranked, Entities;
    ghost var edges, south := ReverseEdges(r.reverse, table), Realizing(r.correlations, r.south, table, uuid);
    ghost var v1, v2, v3, t1, t2;
    root, truncated, p, v1, v2, v3, t1, t2 := Walks(r, table, uuid, rank);
    PassesSound(r.g, edges, south, r.maxEntities, table, uuid, p, v1, v2, v3, t1, t2, truncated);
    PassesInEntities(r.g, edges, south, r.maxEntities, table, uuid, p, v1, v2, v3, t1, t2, truncated);
    if WellTyped(r.g) && !truncated {
      PassesAll(r.g, edges, south, r.maxEntities, table, uuid, p, v1, v2, v3, t1, t2, truncated);
    }
    if SouthApart(r.g, south) {
      PassesSize(r.g, edges, south, r.maxEntities, table, uuid, p, v1, v2, v3, t1, t2, truncated);
    }
  }

  /** The three passes, with the states of the shared walk between them. */
  method Walks(r: Resolver, table: string, uuid: string, ghost rank: string -> nat)
    returns (root: Node, truncated: bool, ghost p: Parts,
             ghost v1: set<string>, ghost v2: set<string>, ghost v3: set<string>, ghost t1: bool, ghost t2: bool)
    requires r.maxDepth > 0 && r.maxEntities > 0 && Readable(r.g, table, uuid)
    ensures root == RootNode(table, uuid, p)
    ensures Passes(r.g, ReverseEdges(r.reverse, table), Realizing(r.correlations, r.south, table, uuid), r.maxEntities,
                   table, uuid, p, v1, v2, v3, t1, t2, truncated)
    ensures DeepEnough(r.g, rank, table, 0, r.maxDepth) && truncated ==> |v3| >= r.maxEntities
  {
    hide Passed, Leaves, Readable, ForestUuids, Realizing, ReverseEdges, Mentions, PointsAt, CorrelationNode, Ranked,
      Elements;
    RowOf(r.g, table, uuid);
    var w := new Walk(uuid);
    var forward := r.ResolveForward(w, table, r.g.rows[uuid].fields, 0, uuid, rank);
    v1, t1 := w.visited, w.truncated;
    var reverse := r.ResolveReverse(w, table, uuid);
    v2, t2 := w.visited, w.truncated;
    var correlated := r.ResolveCorrelation(w, table, uuid);
    v3 := w.visited;
    p := Parts(forward, reverse, correlated);
    root := Node("nb", table, uuid, Root, "", forward + reverse + correlated);
    truncated := w.truncated;
    SubsetSize(v2, v3);
  }

  lemma RowOf(g: Graph, table: string, uuid: string)
    requires Readable(g, table, uuid)
    ensures uuid in g.rows && g.rows[uuid] == Row(table, g.rows[uuid].fields)
  {
  }
}
