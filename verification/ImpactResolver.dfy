/** The impact resolver: a walk bounded in depth and size with one shared visited set. */
module ImpactResolver {
  import opened Wrappers
  import opened ImpactGraph

  /** The mutable state the walk shares: the visited set and the truncation flag. */
  class Walk {
    var visited: set<string>
    var truncated: bool

    constructor (root: string)
      ensures visited == {root} && !truncated
    {
      visited, truncated := {root}, false;
    }
  }

  /** The southbound rows the correlation reads. */
  datatype South = South(datapaths: seq<Datapath>, ports: seq<PortBinding>)

  /** A row of the forest mentions v. */
  ghost predicate MentionedIn(g: Graph, kids: seq<Node>, v: string) {
    exists u :: u in ForestUuids(kids) && RefersTo(g, u, v)
  }

  /** What a (partial) forward pass from visited v0 to v1 guarantees. */
  ghost predicate Passed(g: Graph, table: string, fields: map<string, Column>, kids: seq<Node>,
                         v0: set<string>, v1: set<string>, t0: bool, t1: bool) {
    && Covers(g, kids, v0, v1)
    && AllHang(g, table, fields, kids)
    && (forall u | u in v1 && u !in v0 :: Mentions(g, table, fields, u) || MentionedIn(g, kids, u))
    && (t0 ==> t1)
    && (WellTyped(g) && !t1 ==> Closed(g, v0, v1))
  }

  lemma PassedMissing(g: Graph, table: string, fields: map<string, Column>, kids: seq<Node>,
                      v0: set<string>, v: set<string>, t0: bool, t: bool, u: string)
    requires Passed(g, table, fields, kids, v0, v, t0, t)
    requires u !in v && Mentions(g, table, fields, u) && (WellTyped(g) ==> u !in g.rows)
    ensures Passed(g, table, fields, kids, v0, v + {u}, t0, t)
  {
    CoversMissing(g, kids, v0, v, u);
  }

  /** What was visited for a child is mentioned by the row itself, by the child or below it. */
  lemma MentionsOfChild(g: Graph, table: string, fields: map<string, Column>, kids: seq<Node>,
                        v0: set<string>, v: set<string>, n: Node, v1: set<string>)
    requires Mentions(g, table, fields, n.uuid) && n.uuid in g.rows && g.rows[n.uuid].table == n.table
    requires forall u | u in v && u !in v0 :: Mentions(g, table, fields, u) || MentionedIn(g, kids, u)
    requires forall u | u in v1 && u !in v + {n.uuid} ::
               Mentions(g, n.table, g.rows[n.uuid].fields, u) || MentionedIn(g, n.children, u)
    ensures forall u | u in v1 && u !in v0 :: Mentions(g, table, fields, u) || MentionedIn(g, kids + [n], u)
  {
    ForestSnoc(kids, n);
    hide Mentions, ForestUuids;
    forall u | u in v1 && u !in v0 && !Mentions(g, table, fields, u)
      ensures MentionedIn(g, kids + [n], u)
    {
      if u in v {
        var w :| w in ForestUuids(kids) && RefersTo(g, w, u);
        assert w in ForestUuids(kids + [n]);
      } else if MentionedIn(g, n.children, u) {
        var w :| w in ForestUuids(n.children) && RefersTo(g, w, u);
        assert w in ForestUuids(kids + [n]);
      } else {
        assert RefersTo(g, n.uuid, u);
        assert n.uuid in ForestUuids(kids + [n]);
      }
    }
  }

  lemma PassedChild(g: Graph, table: string, fields: map<string, Column>, kids: seq<Node>,
                    v0: set<string>, v: set<string>, t0: bool, t: bool, n: Node, v1: set<string>, t1: bool)
    requires Passed(g, table, fields, kids, v0, v, t0, t)
    requires n.uuid !in v && Mentions(g, table, fields, n.uuid) && Hangs(g, table, fields, n)
    requires Passed(g, n.table, g.rows[n.uuid].fields, n.children, v + {n.uuid}, v1, t, t1)
    requires WellTyped(g) && !t1 ==> forall w | Mentions(g, n.table, g.rows[n.uuid].fields, w) :: w in v1
    ensures Passed(g, table, fields, kids + [n], v0, v1, t0, t1)
  {
    CoversChild(g, kids, v0, v, n, v1);
    MentionsOfChild(g, table, fields, kids, v0, v, n, v1);
    if WellTyped(g) && !t1 {
      ClosedChild(g, v0, v, n.uuid, v1);
    }
  }

  lemma HangsBelow(g: Graph, table: string, fields: map<string, Column>, i: nat, u: string, kids: seq<Node>)
    requires i < |Edges(g, table)| && NamesAt(fields, Edges(g, table)[i].column, u)
    requires u in g.rows && g.rows[u].table == Edges(g, table)[i].target
    requires AllHang(g, g.rows[u].table, g.rows[u].fields, kids)
    ensures Hangs(g, table, fields, Node("nb", Edges(g, table)[i].target, u, Edges(g, table)[i].kind,
              Edges(g, table)[i].column, kids))
  {
    var e := Edges(g, table)[i];
    assert Edges(g, table)[i] == RefEdge(e.column, e.target, e.kind);
  }

  /** ranks decrease along references, so they bound how deep a walk can go. */
  ghost predicate Ranked(refs: map<string, seq<RefEdge>>, rank: string -> nat) {
    forall table, i | table in refs && 0 <= i < |refs[table]| :: rank(refs[table][i].target) < rank(table)
  }

  /** No walk from this table at this depth can hit the depth limit. */
  ghost predicate DeepEnough(g: Graph, rank: string -> nat, table: string, depth: int, maxDepth: int) {
    Ranked(g.refs, rank) && depth + rank(table) < maxDepth
  }

  /**
   * The walk went from v to v1 within the limit; when it cannot hit the depth limit (deep),
   * it only became truncated because the limit on entities was reached.
   */
  ghost predicate Progress(limit: int, v: set<string>, v1: set<string>, t: bool, t1: bool, deep: bool) {
    && v <= v1 && |v| <= |v1| <= limit && (t ==> t1)
    && (deep && t1 ==> t || |v1| >= limit)
  }

  class Resolver {
    const g: Graph
    const reverse: map<string, seq<ReverseEdge>>
    const correlations: map<string, string>
    const south: Option<South>
    var maxDepth: int
    var maxEntities: int

    constructor (g: Graph, reverse: map<string, seq<ReverseEdge>>, correlations: map<string, string>,
                 south: Option<South>)
      ensures this.g == g && this.reverse == reverse && this.correlations == correlations && this.south == south
      ensures maxDepth == 5 && maxEntities == 1000
    {
      this.g, this.reverse, this.correlations, this.south := g, reverse, correlations, south;
      maxDepth, maxEntities := 5, 1000;
    }

    method SetLimits(depth: int, entities: int)
      modifies this
      ensures maxDepth == if depth > 0 then depth else old(maxDepth)
      ensures maxEntities == if entities > 0 then entities else old(maxEntities)
    {
      if depth > 0 {
        maxDepth := depth;
      }
      if entities > 0 {
        maxEntities := entities;
      }
    }

    /** The children that resolveForward appends to the node of the row self. */
    method ResolveForward(w: Walk, table: string, fields: map<string, Column>, depth: int,
                          ghost self: string, ghost rank: string -> nat) returns (kids: seq<Node>)
      requires self in g.rows && g.rows[self] == Row(table, fields)
      requires |w.visited| <= maxEntities
      modifies w
      ensures Passed(g, table, fields, kids, old(w.visited), w.visited, old(w.truncated), w.truncated)
      ensures Progress(maxEntities, old(w.visited), w.visited, old(w.truncated), w.truncated,
                DeepEnough(g, rank, table, depth, maxDepth))
      ensures !w.truncated ==> forall v | Mentions(g, table, fields, v) :: v in w.visited
      decreases maxDepth - depth
    {
      kids := [];
      if depth >= maxDepth {
        w.truncated := true;
        return;
      }
      var edges := Edges(g, table);
      for i := 0 to |edges|
        invariant Passed(g, table, fields, kids, old(w.visited), w.visited, old(w.truncated), w.truncated)
        invariant Progress(maxEntities, old(w.visited), w.visited, old(w.truncated), w.truncated,
                  DeepEnough(g, rank, table, depth, maxDepth))
        invariant !w.truncated ==>
                  forall k, v | 0 <= k < i && NamesAt(fields, edges[k].column, v) :: v in w.visited
      {
        kids := ResolveEdge(w, table, fields, depth, i, kids, old(w.visited), old(w.truncated), self, rank);
      }
    }

    /** One iteration of the loop over the reference columns: the children so far and those of column i. */
    method ResolveEdge(w: Walk, table: string, fields: map<string, Column>, depth: int, i: nat, before: seq<Node>,
                       ghost v0: set<string>, ghost t0: bool, ghost self: string,
                       ghost rank: string -> nat) returns (kids: seq<Node>)
      requires self in g.rows && g.rows[self] == Row(table, fields)
      requires depth < maxDepth && i < |Edges(g, table)| && |w.visited| <= maxEntities
      requires Passed(g, table, fields, before, v0, w.visited, t0, w.truncated)
      modifies w
      ensures Passed(g, table, fields, kids, v0, w.visited, t0, w.truncated)
      ensures Progress(maxEntities, old(w.visited), w.visited, old(w.truncated), w.truncated,
                DeepEnough(g, rank, table, depth, maxDepth))
      ensures !w.truncated ==> forall v | NamesAt(fields, Edges(g, table)[i].column, v) :: v in w.visited
      decreases maxDepth - depth, 1
    {
      var uuids := ExtractUuids(fields, Edges(g, table)[i].column);
      ExtractsReferences(fields, Edges(g, table)[i].column);
      kids := before;
      for j := 0 to |uuids|
        invariant Passed(g, table, fields, kids, v0, w.visited, t0, w.truncated)
        invariant Progress(maxEntities, old(w.visited), w.visited, old(w.truncated), w.truncated,
                  DeepEnough(g, rank, table, depth, maxDepth))
        invariant !w.truncated ==> forall k | 0 <= k < j :: uuids[k] in w.visited
      {
        kids := VisitReference(w, table, fields, depth, i, uuids[j], kids, v0, t0, self, rank);
      }
    }

    /** One reference u of column i: skipped, marked as missing, or turned into a child. */
    method VisitReference(w: Walk, table: string, fields: map<string, Column>, depth: int, i: nat, u: string,
                          before: seq<Node>, ghost v0: set<string>, ghost t0: bool, ghost self: string,
                          ghost rank: string -> nat) returns (kids: seq<Node>)
      requires self in g.rows && g.rows[self] == Row(table, fields)
      requires depth < maxDepth && i < |Edges(g, table)| && |w.visited| <= maxEntities
      requires NamesAt(fields, Edges(g, table)[i].column, u)
      requires Passed(g, table, fields, before, v0, w.visited, t0, w.truncated)
      modifies w
      ensures Passed(g, table, fields, kids, v0, w.visited, t0, w.truncated)
      ensures Progress(maxEntities, old(w.visited), w.visited, old(w.truncated), w.truncated,
                DeepEnough(g, rank, table, depth, maxDepth))
      ensures !w.truncated ==> u in w.visited
      decreases maxDepth - depth, 0
    {
      var edge := Edges(g, table)[i];
      kids := before;
      if u in w.visited || |w.visited| >= maxEntities {
        if |w.visited| >= maxEntities {
          w.truncated := true;
        }
        return;
      }
      ghost var v, t := w.visited, w.truncated;
      assert Mentions(g, table, fields, u);
      w.visited := w.visited + {u};
      if !Readable(g, edge.target, u) {
        assert WellTyped(g) ==> u !in g.rows;
        PassedMissing(g, table, fields, kids, v0, v, t0, t, u);
        return;
      }
      var below := ResolveForward(w, edge.target, g.rows[u].fields, depth + 1, u, rank);
      var child := Node("nb", edge.target, u, edge.kind, edge.column, below);
      HangsBelow(g, table, fields, i, u, below);
      PassedChild(g, table, fields, kids, v0, v, t0, t, child, w.visited, w.truncated);
      kids := kids + [child];
    }

    /** The rows of a table whose column mentions uuid, in some order. */
    method ListReferencing(source: string, column: string, uuid: string) returns (found: seq<string>)
      ensures forall u :: u in found <==> PointsAt(g, source, column, u, uuid)
    {
      found := [];
      var rest := g.rows.Keys;
      while rest != {}
        invariant rest <= g.rows.Keys
        invariant forall u :: u in found <==> u !in rest && PointsAt(g, source, column, u, uuid)
        decreases |rest|
      {
        var u :| u in rest;
        if Readable(g, source, u) && column in g.rows[u].fields && ContainsUuid(g.rows[u].fields[column], uuid) {
          found := found + [u];
        }
        rest := rest - {u};
      }
    }

    method ResolveReverse(w: Walk, table: string, uuid: string) returns (kids: seq<Node>)
      requires |w.visited| <= maxEntities
      modifies w
      ensures Progress(maxEntities, old(w.visited), w.visited, old(w.truncated), w.truncated, true)
      ensures Leaves(g, ReverseEdges(reverse, table), uuid, kids, old(w.visited), w.visited)
      ensures !w.truncated ==> forall i, u | 0 <= i < |ReverseEdges(reverse, table)|
                && PointsAt(g, ReverseEdges(reverse, table)[i].source, ReverseEdges(reverse, table)[i].column, u,
                      uuid) && u != "" ::
                u in w.visited
    {
      kids := [];
      var edges := ReverseEdges(reverse, table);
      for i := 0 to |edges|
        invariant Progress(maxEntities, old(w.visited), w.visited, old(w.truncated), w.truncated, true)
        invariant Leaves(g, edges, uuid, kids, old(w.visited), w.visited)
        invariant !w.truncated ==>
                  forall k, u | 0 <= k < i && PointsAt(g, edges[k].source, edges[k].column, u, uuid) && u != "" ::
                    u in w.visited
      {
        var matches := ListReferencing(edges[i].source, edges[i].column, uuid);
        for j := 0 to |matches|
          invariant Progress(maxEntities, old(w.visited), w.visited, old(w.truncated), w.truncated, true)
          invariant Leaves(g, edges, uuid, kids, old(w.visited), w.visited)
          invariant !w.truncated ==>
                    forall k, u | 0 <= k < i && PointsAt(g, edges[k].source, edges[k].column, u, uuid) && u != "" ::
                      u in w.visited
          invariant forall k | 0 <= k < j && matches[k] != "" :: matches[k] in w.visited
        {
          if matches[j] == "" || matches[j] in w.visited {
            continue;
          }
          if |w.visited| >= maxEntities {
            w.truncated := true;
            return;
          }
          LeavesSnoc(g, edges, uuid, kids, old(w.visited), w.visited, i, matches[j]);
          w.visited := w.visited + {matches[j]};
          kids := kids + [Leaf("nb", edges[i].source, matches[j], Reverse, edges[i].column)];
        }
      }
    }

    /**
     * resolveSBCorrelation: the datapaths that realize the row, each with the ports on it, in
     * order; cut off only where the limit on entities is reached.
     */
    method ResolveCorrelation(w: Walk, table: string, uuid: string) returns (kids: seq<Node>)
      requires |w.visited| <= maxEntities
      modifies w
      ensures ForestUuids(kids) <= Realizing(correlations, south, table, uuid)
      ensures w.visited == old(w.visited) + Elements(ForestUuids(kids)) && |w.visited| <= maxEntities
      ensures old(w.truncated) ==> w.truncated
      ensures w.truncated ==> old(w.truncated) || |w.visited| >= maxEntities
      ensures ForestUuids(kids) == Realizing(correlations, south, table, uuid)
                || (w.truncated && |w.visited| >= maxEntities)
      ensures forall n | n in kids :: CorrelationNode(n)
    {
      kids := [];
      if south.None? || table !in correlations {
        return;
      }
      var dps, ports := DatapathsOf(south.value.datapaths, correlations[table], uuid), south.value.ports;
      for i := 0 to |dps|
        invariant ForestUuids(kids) <= SouthUuids(dps[..i], ports)
        invariant ForestUuids(kids) == SouthUuids(dps[..i], ports) || (w.truncated && |w.visited| >= maxEntities)
        invariant w.visited == old(w.visited) + Elements(ForestUuids(kids)) && |w.visited| <= maxEntities
        invariant old(w.truncated) ==> w.truncated
        invariant w.truncated ==> old(w.truncated) || |w.visited| >= maxEntities
        invariant forall n | n in kids :: CorrelationNode(n)
      {
        if |w.visited| >= maxEntities {
          w.truncated := true;
          SouthPrefix(dps, ports, i);
          return;
        }
        var n := VisitDatapath(w, dps[i].uuid, PortUuids(PortsOn(ports, dps[i].uuid)));
        SouthStep(dps, ports, i, kids, n);
        kids := kids + [n];
      }
      assert dps[..|dps|] == dps;
    }

    /** One datapath node with the ports that still fit. */
    method VisitDatapath(w: Walk, dp: string, on: seq<string>) returns (n: Node)
      requires |w.visited| < maxEntities
      modifies w
      ensures CorrelationNode(n)
      ensures TreeUuids(n) <= [dp] + on
      ensures w.visited == old(w.visited) + Elements(TreeUuids(n)) && |w.visited| <= maxEntities
      ensures old(w.truncated) ==> w.truncated
      ensures w.truncated ==> old(w.truncated) || |w.visited| >= maxEntities
      ensures TreeUuids(n) == [dp] + on || (w.truncated && |w.visited| >= maxEntities)
    {
      w.visited := w.visited + {dp};
      var i := VisitPorts(w, on);
      PortForest(on[..i]);
      n := DatapathNode(dp, PortNodes(on[..i]));
      ElementsAppend([dp], on[..i]);
    }

    /** The loop over the ports of a datapath: how many of them fit. */
    method VisitPorts(w: Walk, on: seq<string>) returns (i: nat)
      requires |w.visited| <= maxEntities
      modifies w
      ensures i <= |on|
      ensures w.visited == old(w.visited) + Elements(on[..i]) && |w.visited| <= maxEntities
      ensures old(w.truncated) ==> w.truncated
      ensures w.truncated ==> old(w.truncated) || |w.visited| >= maxEntities
      ensures i == |on| || (w.truncated && |w.visited| >= maxEntities)
    {
      i := 0;
      while i < |on|
        invariant i <= |on| && w.truncated == old(w.truncated)
        invariant w.visited == old(w.visited) + Elements(on[..i]) && |w.visited| <= maxEntities
      {
        if |w.visited| >= maxEntities {
          w.truncated := true;
          break;
        }
        assert on[..i + 1] == on[..i] + [on[i]];
        ElementsAppend(on[..i], [on[i]]);
        w.visited := w.visited + {on[i]};
        i := i + 1;
      }
    }
  }

  /** The southbound UUIDs that realize the row, in the order the correlation visits them. */
  function Realizing(correlations: map<string, string>, south: Option<South>, table: string,
                     uuid: string): seq<string> {
    if south.None? || table !in correlations then []
    else SouthUuids(DatapathsOf(south.value.datapaths, correlations[table], uuid), south.value.ports)
  }

  /** Which rows those are, from the southbound tables themselves. */
  lemma RealizingIs(correlations: map<string, string>, south: Option<South>, table: string, uuid: string, u: string)
    ensures u in Realizing(correlations, south, table, uuid) <==>
              && south.Some? && table in correlations
              && Realizes(south.value.datapaths, south.value.ports, correlations[table], uuid, u)
  {
    if south.Some? && table in correlations {
      SouthIs(south.value.datapaths, south.value.ports, correlations[table], uuid, u);
    }
  }

  function ReverseEdges(reverse: map<string, seq<ReverseEdge>>, table: string): (r: seq<ReverseEdge>)
    ensures table in reverse ==> r == reverse[table]
    ensures table !in reverse ==> r == []
  {
    if table in reverse then reverse[table] else []
  }

  /** The reverse children are leaves for referring rows: one for each row visited on the way. */
  ghost predicate Leaves(g: Graph, edges: seq<ReverseEdge>, uuid: string, kids: seq<Node>, v0: set<string>,
                         v1: set<string>) {
    && (forall n | n in kids :: ReverseLeaf(g, edges, uuid, n))
    && Distinct(ForestUuids(kids))
    && (forall u :: u in ForestUuids(kids) <==> u in v1 && u !in v0)
  }

  lemma LeavesSnoc(g: Graph, edges: seq<ReverseEdge>, uuid: string, kids: seq<Node>, v0: set<string>, v: set<string>,
                   i: nat, u: string)
    requires Leaves(g, edges, uuid, kids, v0, v) && v0 <= v && u !in v
    requires i < |edges| && PointsAt(g, edges[i].source, edges[i].column, u, uuid) && u != ""
    ensures Leaves(g, edges, uuid, kids + [Leaf("nb", edges[i].source, u, Reverse, edges[i].column)], v0, v + {u})
  {
    var n := Leaf("nb", edges[i].source, u, Reverse, edges[i].column);
    ForestLeaf(kids, n);
    assert ReverseLeaf(g, edges, uuid, n);
    assert forall x | 0 <= x < |ForestUuids(kids)| :: ForestUuids(kids)[x] in ForestUuids(kids);
  }
}
