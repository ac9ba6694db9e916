/** The reference tables of the NB schema, and why the default depth never cuts a walk over them. */
module ImpactTables {
  import opened ImpactGraph
  import opened ImpactResolver
  import opened ImpactAnalysis

  const SWITCH_REFS: seq<RefEdge> := [
    RefEdge("ports", "Logical_Switch_Port", Strong),
    RefEdge("acls", "ACL", Strong),
    RefEdge("qos_rules", "QoS", Strong),
    RefEdge("forwarding_groups", "Forwarding_Group", Strong),
    RefEdge("load_balancer_group", "Load_Balancer_Group", Strong),
    RefEdge("load_balancer", "Load_Balancer", Weak),
    RefEdge("dns_records", "DNS", Weak),
    RefEdge("copp", "Copp", Weak)
  ]

  const ROUTER_REFS: seq<RefEdge> := [
    RefEdge("ports", "Logical_Router_Port", Strong),
    RefEdge("nat", "NAT", Strong),
    RefEdge("policies", "Logical_Router_Policy", Strong),
    RefEdge("static_routes", "Logical_Router_Static_Route", Strong),
    RefEdge("load_balancer_group", "Load_Balancer_Group", Strong),
    RefEdge("load_balancer", "Load_Balancer", Weak),
    RefEdge("copp", "Copp", Weak)
  ]

  const SWITCH_PORT_REFS: seq<RefEdge> := [RefEdge("ha_chassis_group", "HA_Chassis_Group", Strong)]

  const ROUTER_PORT_REFS: seq<RefEdge> := [
    RefEdge("gateway_chassis", "Gateway_Chassis", Strong),
    RefEdge("ha_chassis_group", "HA_Chassis_Group", Strong)
  ]

  const HA_GROUP_REFS: seq<RefEdge> := [RefEdge("ha_chassis", "HA_Chassis", Strong)]

  const PORT_GROUP_REFS: seq<RefEdge> := [
    RefEdge("acls", "ACL", Strong),
    RefEdge("ports", "Logical_Switch_Port", Weak)
  ]

  const LOAD_BALANCER_REFS: seq<RefEdge> := [RefEdge("health_check", "Load_Balancer_Health_Check", Strong)]

  const LOAD_BALANCER_GROUP_REFS: seq<RefEdge> := [RefEdge("load_balancer", "Load_Balancer", Weak)]

  const NB_REFS: map<string, seq<RefEdge>> := map[
    "Logical_Switch" := SWITCH_REFS,
    "Logical_Router" := ROUTER_REFS,
    "Logical_Switch_Port" := SWITCH_PORT_REFS,
    "Logical_Router_Port" := ROUTER_PORT_REFS,
    "HA_Chassis_Group" := HA_GROUP_REFS,
    "Port_Group" := PORT_GROUP_REFS,
    "Load_Balancer" := LOAD_BALANCER_REFS,
    "Load_Balancer_Group" := LOAD_BALANCER_GROUP_REFS
  ]

  /** The longest chain of references that can start at a table. */
  function TableRank(table: string): nat {
    if table == "Logical_Switch" || table == "Logical_Router" || table == "Port_Group" then 3
    else if table == "Logical_Switch_Port" || table == "Logical_Router_Port" || table == "Load_Balancer_Group" then 2
    else if table == "HA_Chassis_Group" || table == "Load_Balancer" then 1
    else 0
  }

  /** Edges leave this table downwards in rank and are strong or weak. */
  ghost predicate Descend(edges: seq<RefEdge>, rank: nat) {
    forall e | e in edges :: TableRank(e.target) < rank && e.kind in {Strong, Weak}
  }

  lemma LeafRanks()
    ensures TableRank("ACL") == 0 && TableRank("QoS") == 0 && TableRank("DNS") == 0 && TableRank("Copp") == 0
              && TableRank("NAT") == 0
  {
  }

  lemma LongLeafRanks()
    ensures TableRank("Forwarding_Group") == 0 && TableRank("Logical_Router_Policy") == 0
    ensures TableRank("Logical_Router_Static_Route") == 0
  {
  }

  lemma InnerRanks()
    ensures TableRank("Gateway_Chassis") == 0 && TableRank("HA_Chassis") == 0
              && TableRank("Load_Balancer_Health_Check") == 0
    ensures TableRank("Load_Balancer") == 1 && TableRank("HA_Chassis_Group") == 1
  {
  }

  lemma PortRanks()
    ensures TableRank("Logical_Switch_Port") == 2 && TableRank("Logical_Router_Port") == 2
              && TableRank("Load_Balancer_Group") == 2
  {
  }

  lemma SwitchesDescend()
    ensures Descend(SWITCH_REFS, 3) && Descend(ROUTER_REFS, 3) && Descend(PORT_GROUP_REFS, 3)
  {
    hide TableRank;
    LeafRanks();
    LongLeafRanks();
    InnerRanks();
    PortRanks();
  }

  lemma PortsDescend()
    ensures Descend(SWITCH_PORT_REFS, 2) && Descend(ROUTER_PORT_REFS, 2) && Descend(LOAD_BALANCER_GROUP_REFS, 2)
    ensures Descend(HA_GROUP_REFS, 1) && Descend(LOAD_BALANCER_REFS, 1)
  {
    hide TableRank;
    InnerRanks();
  }

  /**
   * References between NB tables form no cycle and no chain longer than three, so a limit
   * of four or more levels, such as the default of five, cuts no walk from any table.
   */
  lemma DefaultDepthNeverCuts(g: Graph, table: string, maxDepth: int)
    requires g.refs == NB_REFS && maxDepth >= 4
    ensures DeepEnough(g, TableRank, table, 0, maxDepth)
    ensures RootFree(g) && PlainKinds(g)
  {
    hide TableRank;
    RankBound(table);
    forall t, i | t in g.refs && 0 <= i < |g.refs[t]|
      ensures TableRank(g.refs[t][i].target) < TableRank(t) && g.refs[t][i].kind in {Strong, Weak}
    {
      EdgeDescends(t, g.refs[t][i]);
    }
  }

  /**
   * So over the NB schema a report with the default limits is truncated only by its size:
   * fewer entities than the limit give a full report, more a truncated one.
   */
  lemma OnlySizeTruncates(g: Graph, edges: seq<ReverseEdge>, south: seq<string>, maxDepth: int, limit: int,
                          table: string, uuid: string, result: ImpactResult, p: Parts)
    requires g.refs == NB_REFS && WellTyped(g) && maxDepth >= 4
    requires Report(g, edges, south, maxDepth, limit, TableRank, table, uuid, result, p)
    ensures |Entities(g, edges, south, uuid)| < limit ==>
              !result.summary.truncated && Complete(g, edges, south, uuid, p)
    ensures |Entities(g, edges, south, uuid)| > limit ==> result.summary.truncated
    ensures result.summary.total == |TreeUuids(result.root)| - 1
  {
    DefaultDepthNeverCuts(g, table, maxDepth);
  }

  lemma RankBound(table: string)
    ensures TableRank(table) <= 3
  {
  }

  lemma EdgeDescends(t: string, e: RefEdge)
    requires t in NB_REFS && e in NB_REFS[t]
    ensures TableRank(e.target) < TableRank(t) && e.kind in {Strong, Weak}
  {
    SwitchesDescend();
    PortsDescend();
    assert Descend(NB_REFS[t], TableRank(t));
  }
}
