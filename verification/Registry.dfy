/** The registry of known nodes: the attribute cache and each node's availability. */
module NodeRegistry {
  import opened Wrappers
  import opened Json
  import opened Reassembly

  type Attributes = map<string, Value>

  datatype Entry = Entry(available: bool, attributes: Attributes)

  function WithAvailable(nodes: map<NodeId, Entry>, n: NodeId, available: bool): map<NodeId, Entry> {
    if n in nodes then nodes[n := nodes[n].(available := available)] else nodes
  }

  function WithAttributes(nodes: map<NodeId, Entry>, n: NodeId, attributes: Attributes): map<NodeId, Entry> {
    if n in nodes then nodes[n := nodes[n].(attributes := attributes)] else nodes
  }

  class Registry {
    var nodes: map<NodeId, Entry>

    /** Every recorded node starts unavailable. */
    constructor (records: map<NodeId, Attributes>)
      ensures nodes.Keys == records.Keys
      ensures forall n :: n in nodes ==> nodes[n] == Entry(false, records[n])
    {
      nodes := map n | n in records :: Entry(false, records[n]);
    }

    predicate Contains(n: NodeId)
      reads this
    {
      n in nodes
    }

    method Insert(n: NodeId, attributes: Attributes)
      modifies this
      ensures nodes == old(nodes)[n := Entry(false, attributes)]
    {
      nodes := nodes[n := Entry(false, attributes)];
    }

    method Remove(n: NodeId) returns (was: bool)
      modifies this
      ensures nodes == old(nodes) - {n} && was == (n in old(nodes))
    {
      was := n in nodes;
      nodes := nodes - {n};
    }

    /** `set_available`: whether it changed anything, or none for an unknown node. */
    method SetAvailable(n: NodeId, available: bool) returns (changed: Option<bool>)
      modifies this
      ensures nodes == WithAvailable(old(nodes), n, available)
      ensures changed == if n in old(nodes) then Some(old(nodes)[n].available != available) else None
    {
      if n !in nodes {
        return None;
      }
      changed := Some(nodes[n].available != available);
      nodes := nodes[n := nodes[n].(available := available)];
    }

    /** `with_entry`, replacing all attributes. */
    method SetAttributes(n: NodeId, attributes: Attributes)
      modifies this
      ensures nodes == WithAttributes(old(nodes), n, attributes)
    {
      if n in nodes {
        nodes := nodes[n := nodes[n].(attributes := attributes)];
      }
    }

    /** `with_entry`, inserting one attribute. */
    method SetAttribute(n: NodeId, path: string, value: Value)
      modifies this
      ensures nodes == if n in old(nodes) then
                WithAttributes(old(nodes), n, old(nodes)[n].attributes[path := value]) else old(nodes)
    {
      if n in nodes {
        nodes := nodes[n := nodes[n].(attributes := nodes[n].attributes[path := value])];
      }
    }

    function NodeData(n: NodeId): Option<Entry>
      reads this
    {
      if n in nodes then Some(nodes[n]) else None
    }
  }
}
