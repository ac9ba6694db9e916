/** The reference graph of the NB database and the impact trees computed over it. */
module ImpactGraph {

  datatype RefType = Strong | Weak | Reverse | Correlation | Root

  datatype RefEdge = RefEdge(column: string, target: string, kind: RefType)

  /** A column value, as far as references are concerned. */
  datatype Column = Set(uuids: seq<string>) | Optional(present: bool, uuid: string) | Scalar(uuid: string) | Other

  datatype Row = Row(table: string, fields: map<string, Column>)

  /** The NB rows by UUID, the tables with a model, and the forward references of each table. */
  datatype Graph = Graph(rows: map<string, Row>, tables: set<string>, refs: map<string, seq<RefEdge>>)

  datatype Node = Node(database: string, table: string, uuid: string, kind: RefType, column: string,
                       children: seq<Node>)

  function ExtractUuids(fields: map<string, Column>, column: string): seq<string> {
    if column !in fields then []
    else
      match fields[column]
      case Set(uuids) => uuids
      case Optional(present, uuid) => if present && uuid != "" then [uuid] else []
      case Scalar(uuid) => if uuid != "" then [uuid] else []
      case Other => []
  }

  predicate ContainsUuid(c: Column, uuid: string) {
    match c
    case Set(uuids) => uuid in uuids
    case Optional(present, u) => present && u == uuid
    case Scalar(u) => u == uuid
    case Other => false
  }

  /** The column refers to v: v is an element of a set, or the non-empty value of a present optional or of a scalar. */
  ghost predicate RefersBy(c: Column, v: string) {
    || (c.Set? && v in c.uuids)
    || (c.Optional? && c.present && c.uuid == v && v != "")
    || (c.Scalar? && c.uuid == v && v != "")
  }

  ghost predicate NamesAt(fields: map<string, Column>, column: string, v: string) {
    column in fields && RefersBy(fields[column], v)
  }

  /** The walk extracts from a column exactly what the column refers to. */
  lemma ExtractsReferences(fields: map<string, Column>, column: string)
    ensures forall v :: v in ExtractUuids(fields, column) <==> NamesAt(fields, column, v)
  {
  }

  /**
   * The walk forwards and the search backwards read a column alike, except that an empty
   * string in a scalar or optional column is no reference, and the search would take it for one.
   */
  lemma ForwardAgreesWithReverse(c: Column, v: string)
    ensures RefersBy(c, v) <==> ContainsUuid(c, v) && (v != "" || c.Set?)
  {
  }

  function Edges(g: Graph, table: string): (r: seq<RefEdge>)
    ensures table in g.refs ==> r == g.refs[table]
    ensures table !in g.refs ==> r == []
  {
    if table in g.refs then g.refs[table] else []
  }

  /** readEntity: the row is there, under that table, and the table has a model. */
  predicate Readable(g: Graph, table: string, uuid: string) {
    table in g.tables && uuid in g.rows && g.rows[uuid].table == table
  }

  /** A row of this table with these fields mentions v in a reference column. */
  ghost predicate Mentions(g: Graph, table: string, fields: map<string, Column>, v: string) {
    exists i :: 0 <= i < |Edges(g, table)| && NamesAt(fields, Edges(g, table)[i].column, v)
  }

  ghost predicate RefersTo(g: Graph, u: string, v: string) {
    u in g.rows && Mentions(g, g.rows[u].table, g.rows[u].fields, v)
  }

  /** Every UUID some row mentions in a reference column. */
  ghost function MentionedUuids(g: Graph): set<string> {
    set u, i, k | u in g.rows && 0 <= i < |Edges(g, g.rows[u].table)|
                  && 0 <= k < |ExtractUuids(g.rows[u].fields, Edges(g, g.rows[u].table)[i].column)| ::
      ExtractUuids(g.rows[u].fields, Edges(g, g.rows[u].table)[i].column)[k]
  }

  lemma MentionedIs(g: Graph, v: string)
    ensures v in MentionedUuids(g) <==> exists u :: RefersTo(g, u, v)
  {
    if exists u :: RefersTo(g, u, v) {
      var u :| RefersTo(g, u, v);
      var i :| 0 <= i < |Edges(g, g.rows[u].table)|
          && NamesAt(g.rows[u].fields, Edges(g, g.rows[u].table)[i].column, v);
      ExtractsReferences(g.rows[u].fields, Edges(g, g.rows[u].table)[i].column);
      var uuids := ExtractUuids(g.rows[u].fields, Edges(g, g.rows[u].table)[i].column);
      assert v in uuids;
      var k :| 0 <= k < |uuids| && uuids[k] == v;
      assert v in MentionedUuids(g);
    }
    if v in MentionedUuids(g) {
      var u, i, k :| u in g.rows && 0 <= i < |Edges(g, g.rows[u].table)|
        && 0 <= k < |ExtractUuids(g.rows[u].fields, Edges(g, g.rows[u].table)[i].column)|
        && v == ExtractUuids(g.rows[u].fields, Edges(g, g.rows[u].table)[i].column)[k];
      ExtractsReferences(g.rows[u].fields, Edges(g, g.rows[u].table)[i].column);
      assert NamesAt(g.rows[u].fields, Edges(g, g.rows[u].table)[i].column, v);
      assert RefersTo(g, u, v);
    }
  }

  /** Every reference to an existing row names it under the table the column points to. */
  ghost predicate WellTyped(g: Graph) {
    && (forall u | u in g.rows :: g.rows[u].table in g.tables)
    && (forall u, i, v | u in g.rows && 0 <= i < |Edges(g, g.rows[u].table)|
          && NamesAt(g.rows[u].fields, Edges(g, g.rows[u].table)[i].column, v) && v in g.rows ::
            g.rows[v].table == Edges(g, g.rows[u].table)[i].target)
  }

  /** p walks along references through existing rows. */
  ghost predicate Path(g: Graph, p: seq<string>) {
    && |p| > 0
    && (forall i | 0 <= i < |p| :: p[i] in g.rows)
    && (forall i | 0 <= i < |p| - 1 :: RefersTo(g, p[i], p[i + 1]))
  }

  ghost predicate Reachable(g: Graph, u: string, v: string) {
    exists p :: Path(g, p) && p[0] == u && p[|p| - 1] == v
  }

  /** v is mentioned by the root or by a row the root reaches. */
  ghost predicate MentionedBelow(g: Graph, root: string, v: string) {
    exists u :: Reachable(g, root, u) && RefersTo(g, u, v)
  }

  // ---------- trees ----------

  /** The UUIDs of a tree, root first, and of a forest. */
  function TreeUuids(n: Node): seq<string> {
    [n.uuid] + ForestUuids(n.children)
  }

  function ForestUuids(ns: seq<Node>): seq<string> {
    if ns == [] then [] else ForestUuids(ns[..|ns| - 1]) + TreeUuids(ns[|ns| - 1])
  }

  lemma ForestSnoc(ns: seq<Node>, n: Node)
    ensures ForestUuids(ns + [n]) == ForestUuids(ns) + TreeUuids(n)
  {
    assert (ns + [n])[..|ns|] == ns;
  }

  lemma {:induction false} ForestAppend(a: seq<Node>, b: seq<Node>)
    ensures ForestUuids(a + b) == ForestUuids(a) + ForestUuids(b)
    decreases |b|
  {
    if b == [] {
      assert a + b == a;
    } else {
      hide TreeUuids, ForestUuids;
      var front, last := b[..|b| - 1], b[|b| - 1];
      assert a + b == (a + front) + [last] && b == front + [last];
      ForestSnoc(a + front, last);
      ForestSnoc(front, last);
      ForestAppend(a, front);
    }
  }

  /** The node hangs below a row of table/fields by one of its reference columns, and so do its children below it. */
  ghost predicate Hangs(g: Graph, table: string, fields: map<string, Column>, n: Node)
    decreases n
  {
    && n.database == "nb" && n.uuid in g.rows && g.rows[n.uuid].table == n.table
    && (exists i :: 0 <= i < |Edges(g, table)| && Edges(g, table)[i] == RefEdge(n.column, n.table, n.kind)
          && NamesAt(fields, n.column, n.uuid))
    && (forall c | c in n.children :: Hangs(g, n.table, g.rows[n.uuid].fields, c))
  }

  ghost predicate AllHang(g: Graph, table: string, fields: map<string, Column>, ns: seq<Node>) {
    forall n | n in ns :: Hangs(g, table, fields, n)
  }

  ghost predicate Distinct(s: seq<string>) {
    forall i, j | 0 <= i < j < |s| :: s[i] != s[j]
  }

  ghost function Elements(s: seq<string>): set<string> {
    set x | x in s
  }

  lemma {:induction false} DistinctSize(s: seq<string>)
    requires Distinct(s)
    ensures |Elements(s)| == |s|
  {
    if s != [] {
      var front, last := s[..|s| - 1], s[|s| - 1];
      DistinctSize(front);
      assert s == front + [last];
      assert Elements(s) == Elements(front) + {last};
      assert last !in front;
    }
  }

  // ---------- what one pass of the walk establishes ----------

  /**
   * The walk went from visited v0 to v1 and built kids: every tree node was visited on the
   * way, exactly once, and with well-typed references every row visited on the way is in the tree.
   */
  ghost predicate Covers(g: Graph, kids: seq<Node>, v0: set<string>, v1: set<string>) {
    && v0 <= v1
    && Distinct(ForestUuids(kids))
    && (forall u | u in ForestUuids(kids) :: u in v1 && u !in v0 && u in g.rows)
    && (WellTyped(g) ==> forall u | u in v1 && u !in v0 && u in g.rows :: u in ForestUuids(kids))
  }

  /** Everything that rows visited on the way refer to has been visited too. */
  ghost predicate Closed(g: Graph, v0: set<string>, v1: set<string>) {
    forall u, v | u in v1 && u !in v0 && RefersTo(g, u, v) :: v in v1
  }

  lemma CoversMissing(g: Graph, kids: seq<Node>, v0: set<string>, v: set<string>, u: string)
    requires Covers(g, kids, v0, v) && u !in v && (WellTyped(g) ==> u !in g.rows)
    ensures Covers(g, kids, v0, v + {u})
  {
  }

  lemma CoversChild(g: Graph, kids: seq<Node>, v0: set<string>, v: set<string>, n: Node, v1: set<string>)
    requires Covers(g, kids, v0, v) && v0 <= v
    requires n.uuid !in v && n.uuid in g.rows
    requires Covers(g, n.children, v + {n.uuid}, v1)
    ensures Covers(g, kids + [n], v0, v1)
  {
    ForestSnoc(kids, n);
    var a, b := ForestUuids(kids), ForestUuids(n.children);
    assert TreeUuids(n) == [n.uuid] + b;
    assert forall i | 0 <= i < |a| :: a[i] in a;
    assert forall i | 0 <= i < |b| :: b[i] in b;
    assert forall u :: u in ForestUuids(kids + [n]) <==> u in a || u == n.uuid || u in b;
  }

  lemma ClosedChild(g: Graph, v0: set<string>, v: set<string>, u: string, v1: set<string>)
    requires Closed(g, v0, v) && Closed(g, v + {u}, v1) && v + {u} <= v1
    requires forall w | RefersTo(g, u, w) :: w in v1
    ensures Closed(g, v0, v1)
  {
  }

  // ---------- completeness and soundness of a whole walk ----------

  lemma {:induction false} PathStaysVisited(g: Graph, v0: set<string>, v1: set<string>, p: seq<string>)
    requires Closed(g, v0, v1) && Path(g, p)
    requires p[0] in v1 && p[0] !in v0
    requires forall i | 0 <= i < |p| :: p[i] !in v0
    ensures p[|p| - 1] in v1
    decreases |p|
  {
    if |p| > 1 {
      assert RefersTo(g, p[0], p[1]);
      var q := p[1..];
      assert Path(g, q) by {
        forall i | 0 <= i < |q| - 1
          ensures RefersTo(g, q[i], q[i + 1])
        {
          assert q[i] == p[i + 1];
        }
      }
      PathStaysVisited(g, v0, v1, q);
    }
  }

  lemma {:induction false} ForestReachable(g: Graph, root: string, u: string, ns: seq<Node>, p: seq<string>)
    requires Path(g, p) && p[0] == root && p[|p| - 1] == u
    requires AllHang(g, g.rows[u].table, g.rows[u].fields, ns)
    ensures forall v | v in ForestUuids(ns) :: Reachable(g, root, v)
    decreases ns, 0
  {
    if ns != [] {
      var front, n := ns[..|ns| - 1], ns[|ns| - 1];
      assert AllHang(g, g.rows[u].table, g.rows[u].fields, front);
      ForestReachable(g, root, u, front, p);
      assert n in ns;
      var q := p + [n.uuid];
      assert RefersTo(g, u, n.uuid);
      assert Path(g, q);
      ForestReachable(g, root, n.uuid, n.children, q);
    }
  }

  /** A walk that closed the rows it visited, starting from the root alone, found exactly what is reachable. */
  lemma WalkIsExact(g: Graph, root: string, kids: seq<Node>, v1: set<string>)
    requires WellTyped(g) && root in g.rows
    requires Covers(g, kids, {root}, v1) && AllHang(g, g.rows[root].table, g.rows[root].fields, kids)
    requires Closed(g, {}, v1)
    ensures forall u :: u in [root] + ForestUuids(kids) <==> Reachable(g, root, u)
    ensures Distinct([root] + ForestUuids(kids))
  {
    assert Path(g, [root]);
    ForestReachable(g, root, root, kids, [root]);
    forall u | Reachable(g, root, u)
      ensures u in [root] + ForestUuids(kids)
    {
      var p :| Path(g, p) && p[0] == root && p[|p| - 1] == u;
      PathStaysVisited(g, {}, v1, p);
    }
    assert Reachable(g, root, root);
    var f := ForestUuids(kids);
    assert forall i | 0 <= i < |f| :: f[i] in f;
  }

  // ---------- rows that refer to a row, and southbound rows that realize it ----------

  datatype ReverseEdge = ReverseEdge(source: string, column: string)

  datatype Datapath = Datapath(uuid: string, externalIds: map<string, string>)

  datatype PortBinding = PortBinding(uuid: string, datapath: string)

  /** The row mentions uuid in this column. */
  ghost predicate PointsAt(g: Graph, source: string, column: string, u: string, uuid: string) {
    && source in g.tables && u in g.rows && g.rows[u].table == source
    && column in g.rows[u].fields && ContainsUuid(g.rows[u].fields[column], uuid)
  }

  function Leaf(database: string, table: string, uuid: string, kind: RefType, column: string): Node {
    Node(database, table, uuid, kind, column, [])
  }

  /** A leaf for a row that refers to uuid by one of these edges. */
  ghost predicate ReverseLeaf(g: Graph, edges: seq<ReverseEdge>, uuid: string, n: Node) {
    exists i :: 0 <= i < |edges| && n == Node("nb", edges[i].source, n.uuid, Reverse, edges[i].column, [])
                && PointsAt(g, edges[i].source, edges[i].column, n.uuid, uuid) && n.uuid != ""
  }

  lemma ForestLeaf(ns: seq<Node>, n: Node)
    requires n.children == []
    ensures ForestUuids(ns + [n]) == ForestUuids(ns) + [n.uuid]
  {
    ForestSnoc(ns, n);
  }

  /** A Go map lookup: a missing key reads as the empty string. */
  function ExternalId(dp: Datapath, key: string): string {
    if key in dp.externalIds then dp.externalIds[key] else ""
  }

  /** u is this datapath, or a port on it, and the datapath's external id under key is uuid. */
  ghost predicate RealizedBy(dp: Datapath, ports: seq<PortBinding>, key: string, uuid: string, u: string) {
    && uuid == (if key in dp.externalIds then dp.externalIds[key] else "")
    && (u == dp.uuid || exists pb :: pb in ports && pb.datapath == dp.uuid && pb.uuid == u)
  }

  ghost predicate Realizes(dps: seq<Datapath>, ports: seq<PortBinding>, key: string, uuid: string, u: string) {
    exists dp :: dp in dps && RealizedBy(dp, ports, key, uuid, u)
  }

  function DatapathsOf(dps: seq<Datapath>, key: string, uuid: string): seq<Datapath> {
    if dps == [] then []
    else
      DatapathsOf(dps[..|dps| - 1], key, uuid)
      + (if ExternalId(dps[|dps| - 1], key) == uuid then [dps[|dps| - 1]] else [])
  }

  function PortsOn(ports: seq<PortBinding>, dp: string): seq<PortBinding> {
    if ports == [] then []
    else PortsOn(ports[..|ports| - 1], dp) + (if ports[|ports| - 1].datapath == dp then [ports[|ports| - 1]] else [])
  }

  function PortUuids(ports: seq<PortBinding>): seq<string> {
    seq(|ports|, i requires 0 <= i < |ports| => ports[i].uuid)
  }

  /** The southbound UUIDs the correlation visits, in order. */
  function SouthUuids(dps: seq<Datapath>, ports: seq<PortBinding>): seq<string> {
    if dps == [] then []
    else SouthUuids(dps[..|dps| - 1], ports) + [dps[|dps| - 1].uuid] + PortUuids(PortsOn(ports, dps[|dps| - 1].uuid))
  }

  lemma {:induction false} SouthPrefix(dps: seq<Datapath>, ports: seq<PortBinding>, i: nat)
    requires i <= |dps|
    ensures SouthUuids(dps[..i], ports) <= SouthUuids(dps, ports)
    decreases |dps|
  {
    if i == |dps| {
      assert dps[..i] == dps;
    } else {
      var front := dps[..|dps| - 1];
      assert front[..i] == dps[..i];
      SouthPrefix(front, ports, i);
    }
  }

  lemma ElementsAppend(a: seq<string>, b: seq<string>)
    ensures Elements(a + b) == Elements(a) + Elements(b)
  {
  }

  /** One more datapath node extends what was visited along the expected order. */
  lemma SouthStep(dps: seq<Datapath>, ports: seq<PortBinding>, i: nat, kids: seq<Node>, n: Node)
    requires i < |dps| && ForestUuids(kids) == SouthUuids(dps[..i], ports)
    requires TreeUuids(n) <= [dps[i].uuid] + PortUuids(PortsOn(ports, dps[i].uuid))
    ensures ForestUuids(kids + [n]) <= SouthUuids(dps[..i + 1], ports) <= SouthUuids(dps, ports)
    ensures TreeUuids(n) == [dps[i].uuid] + PortUuids(PortsOn(ports, dps[i].uuid)) ==>
              ForestUuids(kids + [n]) == SouthUuids(dps[..i + 1], ports)
    ensures Elements(ForestUuids(kids + [n])) == Elements(ForestUuids(kids)) + Elements(TreeUuids(n))
  {
    ForestSnoc(kids, n);
    ElementsAppend(ForestUuids(kids), TreeUuids(n));
    SouthPrefix(dps, ports, i + 1);
    assert dps[..i + 1][..i] == dps[..i];
  }

  lemma {:induction false} PortsOnAre(ports: seq<PortBinding>, dp: string, u: string)
    ensures u in PortUuids(PortsOn(ports, dp)) <==> exists pb :: pb in ports && pb.datapath == dp && pb.uuid == u
  {
    if ports != [] {
      var front, last := ports[..|ports| - 1], ports[|ports| - 1];
      PortsOnAre(front, dp, u);
      assert ports == front + [last];
      var before, all := PortUuids(PortsOn(front, dp)), PortUuids(PortsOn(ports, dp));
      assert all == before + (if last.datapath == dp then [last.uuid] else []);
    }
  }

  lemma RealizesSnoc(dps: seq<Datapath>, dp: Datapath, ports: seq<PortBinding>, key: string, uuid: string, u: string)
    ensures Realizes(dps + [dp], ports, key, uuid, u) <==>
              Realizes(dps, ports, key, uuid, u) || RealizedBy(dp, ports, key, uuid, u)
  {
    hide RealizedBy;
    assert forall x :: x in dps + [dp] <==> x in dps || x == dp;
  }

  lemma SouthSnoc(dps: seq<Datapath>, dp: Datapath, ports: seq<PortBinding>, u: string)
    ensures u in SouthUuids(dps + [dp], ports) <==>
              u in SouthUuids(dps, ports) || u == dp.uuid
                || exists pb :: pb in ports && pb.datapath == dp.uuid && pb.uuid == u
  {
    assert (dps + [dp])[..|dps|] == dps;
    PortsOnAre(ports, dp.uuid, u);
  }

  /** The correlation visits exactly the southbound rows that realize the root. */
  lemma {:induction false} SouthIs(dps: seq<Datapath>, ports: seq<PortBinding>, key: string, uuid: string, u: string)
    ensures u in SouthUuids(DatapathsOf(dps, key, uuid), ports) <==> Realizes(dps, ports, key, uuid, u)
  {
    if dps != [] {
      var front, last := dps[..|dps| - 1], dps[|dps| - 1];
      SouthIs(front, ports, key, uuid, u);
      SouthSnoc(DatapathsOf(front, key, uuid), last, ports, u);
      hide SouthUuids;
      RealizesSnoc(front, last, ports, key, uuid, u);
      assert front + [last] == dps;
      assert ExternalId(last, key) == uuid ==> DatapathsOf(dps, key, uuid) == DatapathsOf(front, key, uuid) + [last];
      assert ExternalId(last, key) != uuid ==> DatapathsOf(dps, key, uuid) == DatapathsOf(front, key, uuid);
    }
  }

  function DatapathNode(dp: string, children: seq<Node>): Node {
    Node("sb", "Datapath_Binding", dp, Correlation, "", children)
  }

  function PortNode(pb: string): Node {
    Leaf("sb", "Port_Binding", pb, Correlation, "")
  }

  function PortNodes(uuids: seq<string>): seq<Node> {
    seq(|uuids|, i requires 0 <= i < |uuids| => PortNode(uuids[i]))
  }

  ghost predicate CorrelationNode(n: Node) {
    && n == Node("sb", "Datapath_Binding", n.uuid, Correlation, "", n.children)
    && forall c | c in n.children :: c == Node("sb", "Port_Binding", c.uuid, Correlation, "", [])
  }

  lemma {:induction false} PortForest(uuids: seq<string>)
    ensures ForestUuids(PortNodes(uuids)) == uuids
  {
    if uuids != [] {
      var front, last := uuids[..|uuids| - 1], uuids[|uuids| - 1];
      PortForest(front);
      assert PortNodes(uuids) == PortNodes(front) + [PortNode(last)];
      ForestLeaf(PortNodes(front), PortNode(last));
    }
  }

  // ---------- summaries ----------

  function NodeCount(n: Node): nat {
    (if n.kind == Root then 0 else 1) + ForestCount(n.children)
  }

  function ForestCount(ns: seq<Node>): nat {
    if ns == [] then 0 else ForestCount(ns[..|ns| - 1]) + NodeCount(ns[|ns| - 1])
  }

  function TableCount(n: Node, table: string): nat {
    (if n.kind != Root && n.table == table then 1 else 0) + ForestTableCount(n.children, table)
  }

  function ForestTableCount(ns: seq<Node>, table: string): nat {
    if ns == [] then 0 else ForestTableCount(ns[..|ns| - 1], table) + TableCount(ns[|ns| - 1], table)
  }

  function KindCount(n: Node, kind: RefType): nat {
    (if n.kind != Root && n.kind == kind then 1 else 0) + ForestKindCount(n.children, kind)
  }

  function ForestKindCount(ns: seq<Node>, kind: RefType): nat {
    if ns == [] then 0 else ForestKindCount(ns[..|ns| - 1], kind) + KindCount(ns[|ns| - 1], kind)
  }

  function Height(n: Node): nat {
    ForestHeight(n.children)
  }

  /** How far the deepest node of a forest is below the parent. */
  function ForestHeight(ns: seq<Node>): nat {
    if ns == [] then 0
    else
      var front, last := ForestHeight(ns[..|ns| - 1]), 1 + Height(ns[|ns| - 1]);
      if front >= last then front else last
  }

  ghost predicate NoRoot(n: Node) {
    n.kind != Root && forall c | c in n.children :: NoRoot(c)
  }

  /** Without inner root nodes, the count of a forest is its number of UUIDs. */
  lemma {:induction false} CountIsSize(ns: seq<Node>)
    requires forall n | n in ns :: NoRoot(n)
    ensures ForestCount(ns) == |ForestUuids(ns)|
  {
    if ns != [] {
      var front, n := ns[..|ns| - 1], ns[|ns| - 1];
      assert n in ns;
      CountIsSize(front);
      CountIsSize(n.children);
    }
  }

  /** Reference edges never carry the marker of the tree root. */
  ghost predicate RootFree(g: Graph) {
    forall table, i | table in g.refs && 0 <= i < |g.refs[table]| :: g.refs[table][i].kind != Root
  }

  /** References are strong or weak. */
  ghost predicate PlainKinds(g: Graph) {
    forall table, i | table in g.refs && 0 <= i < |g.refs[table]| :: g.refs[table][i].kind in {Strong, Weak}
  }

  lemma {:induction false} HangingHasNoRoot(g: Graph, table: string, fields: map<string, Column>, n: Node)
    requires RootFree(g) && Hangs(g, table, fields, n)
    ensures NoRoot(n)
    decreases n
  {
    var i :| 0 <= i < |Edges(g, table)| && Edges(g, table)[i] == RefEdge(n.column, n.table, n.kind);
    forall c | c in n.children
      ensures NoRoot(c)
    {
      HangingHasNoRoot(g, n.table, g.rows[n.uuid].fields, c);
    }
  }
}
