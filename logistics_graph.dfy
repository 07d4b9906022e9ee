/** The back end's in-memory network: hubs by id and the legs leaving each hub. */
module Graph {
  import opened Model
  import opened Paths

  class LogisticsGraph {
    /** Registered hubs by id. */
    var nodes: map<string, Node>
    /** For every registered hub, the legs leaving it, in insertion order. */
    var adjacencyList: map<string, seq<Edge>>

    /** Every registered hub has a list, and every listed leg joins two registered hubs. */
    ghost predicate Valid()
      reads this
    {
      nodes.Keys == adjacencyList.Keys && WellFormed(adjacencyList)
    }

    constructor ()
      ensures Valid()
      ensures nodes == map[] && adjacencyList == map[]
    {
      nodes := map[];
      adjacencyList := map[];
    }

    /** Records (or replaces) a hub; a hub seen before keeps its legs. */
    method AddNode(node: Node)
      requires Valid()
      modifies this
      ensures Valid()
      ensures nodes == old(nodes)[node.id := node]
      ensures node.id in old(adjacencyList) ==> adjacencyList == old(adjacencyList)
      ensures node.id !in old(adjacencyList) ==> adjacencyList == old(adjacencyList)[node.id := []]
    {
      nodes := nodes[node.id := node];
      if node.id !in adjacencyList {
        adjacencyList := adjacencyList[node.id := []];
      }
    }

    /**
     * Appends a leg to its source's list when both ends are registered hubs, and
     * otherwise changes nothing.
     */
    method AddEdge(sourceId: string, targetId: string, mode: string, cost: real, time: real, co2: real)
      requires Valid()
      modifies this
      ensures Valid()
      ensures nodes == old(nodes)
      ensures sourceId !in nodes || targetId !in nodes ==> adjacencyList == old(adjacencyList)
      ensures sourceId in nodes && targetId in nodes ==>
        adjacencyList == old(adjacencyList)[sourceId := old(adjacencyList)[sourceId] + [Edge(sourceId, targetId, mode, cost, time, co2)]]
    {
      if sourceId !in nodes || targetId !in nodes {
        return;
      }
      var edge := Edge(sourceId, targetId, mode, cost, time, co2);
      adjacencyList := adjacencyList[sourceId := adjacencyList[sourceId] + [edge]];
    }

    /** The legs leaving a hub (none for an unknown id); each starts there and ends at a registered hub. */
    function GetEdgesFrom(nodeId: string): (r: seq<Edge>)
      reads this
      ensures nodeId !in adjacencyList ==> r == []
      ensures nodeId in adjacencyList ==> r == adjacencyList[nodeId]
      ensures Valid() ==> forall e | e in r :: e.source == nodeId && e.target in nodes
    {
      EdgesFrom(adjacencyList, nodeId)
    }

    /** The hub registered under an id, or None. */
    function GetNode(nodeId: string): (r: Option<Node>)
      reads this
      ensures r.Some? <==> nodeId in nodes
      ensures r.Some? ==> r.value == nodes[nodeId] && r.value in nodes.Values
    {
      if nodeId in nodes then Some(nodes[nodeId]) else None
    }
  }
}
