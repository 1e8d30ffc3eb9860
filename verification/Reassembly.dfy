/** Reports that span several messages (`PendingReports`). */
module Reassembly {
  import opened Wrappers
  import opened Reports
  import opened Chunking

  type NodeId = nat

  function AttrsOf(report: Report): seq<AttrReport> { report.attrs.GetOr([]) }

  predicate MoreFollows(report: Report) { report.moreChunks == Some(true) }

  // ---------------------------------------------------------------- the state

  class PendingReports {
    var accs: map<NodeId, AttrAccumulator>
    const types: AttrTypes

    constructor (types: AttrTypes)
      ensures Valid() && Contents() == map[] && this.types == types
    {
      this.types := types;
      accs := map[];
    }

    /** One accumulator for each node with an unfinished report, none shared. */
    ghost predicate Valid()
      reads this, accs.Values
    {
      && (forall n :: n in accs ==> accs[n].Valid())
      && (forall m, n :: m in accs && n in accs && accs[m] == accs[n] ==> m == n)
    }

    ghost function Contents(): map<NodeId, seq<Pair>>
      reads this, accs.Values
    {
      map n | n in accs :: accs[n].out
    }

    /** The node's accumulator, taken out of the map, or a new one. */
    method Take(node: NodeId) returns (acc: AttrAccumulator)
      requires Valid()
      modifies this
      ensures Valid() && acc.Valid() && acc !in accs.Values && accs.Values <= old(accs.Values)
      ensures node !in accs
      ensures acc in old(accs.Values) || fresh(acc)
      ensures acc.out == if node in old(Contents()) then old(Contents())[node] else []
      ensures Contents() == old(Contents()) - {node}
    {
      if node in accs {
        acc := accs[node];
        accs := accs - {node};
      } else {
        acc := new AttrAccumulator();
      }
    }

    method PutBack(node: NodeId, acc: AttrAccumulator)
      requires Valid() && acc.Valid() && acc !in accs.Values && node !in accs
      modifies this
      ensures Valid() && accs.Values == old(accs.Values) + {acc}
      ensures Contents() == old(Contents())[node := acc.out]
    {
      accs := accs[node := acc];
      assert acc == accs[node];
      assert forall n :: n in old(accs) ==> old(accs)[n] == accs[n];
    }

    /** Absorbing into an accumulator that is out of the map leaves the others alone. */
    method AbsorbAside(acc: AttrAccumulator, report: Report)
      requires Valid() && acc.Valid() && acc !in accs.Values
      modifies acc
      ensures Valid() && acc.Valid() && Contents() == old(Contents())
      ensures acc.out == ApplyAll(old(acc.out), Changes(types, AttrsOf(report)))
    {
      hide ApplyAll, Changes;
      acc.Absorb(types, report);
      assert forall n :: n in accs ==> accs[n] != acc;
    }

    /** `absorb_message`: the changes when this message completes the report. */
    method AbsorbMessage(node: NodeId, report: Report) returns (released: Option<seq<Pair>>)
      requires Valid()
      modifies this, accs.Values
      ensures Valid() && fresh(accs.Values - old(accs.Values))
      ensures (Contents(), released) == Absorbing(types, old(Contents()), node, report)
      ensures released.Some? <==> report.moreChunks != Some(true)
    {
      hide ApplyAll, Changes, AttrsOf, Contents, Valid;
      var acc := Take(node);
      AbsorbAside(acc, report);
      if MoreFollows(report) {
        PutBack(node, acc);
        assert old(Contents())[node := acc.out] == (old(Contents()) - {node})[node := acc.out];
        return None;
      }
      return Some(acc.out);
    }

    /** `forget` */
    method Forget(node: NodeId)
      requires Valid()
      modifies this
      ensures Valid() && accs.Values <= old(accs.Values)
      ensures Contents() == old(Contents()) - {node}
    {
      accs := accs - {node};
    }
  }

  /** What one message does to the unfinished reports, and what it releases. */
  function Absorbing(types: AttrTypes, pending: map<NodeId, seq<Pair>>, node: NodeId, report: Report)
      : (map<NodeId, seq<Pair>>, Option<seq<Pair>>)
  {
    var before := if node in pending then pending[node] else [];
    var merged := ApplyAll(before, Changes(types, AttrsOf(report)));
    if MoreFollows(report) then (pending[node := merged], None) else (pending - {node}, Some(merged))
  }

  // --------------------------------------------------------------------- runs

  datatype Op = Message(node: NodeId, report: Report) | Drop(node: NodeId)

  /** The unfinished reports after a run, and everything it released, with the node. */
  function Run(types: AttrTypes, ops: seq<Op>): (map<NodeId, seq<Pair>>, seq<(NodeId, seq<Pair>)>) {
    if ops == [] then (map[], [])
    else
      var (pending, released) := Run(types, ops[..|ops| - 1]);
      match ops[|ops| - 1]
      case Drop(n) => (pending - {n}, released)
      case Message(n, report) =>
        var (next, r) := Absorbing(types, pending, n, report);
        (next, if r.Some? then released + [(n, r.value)] else released)
  }

  /** A node's attribute reports since its last release or forget. */
  function Since(ops: seq<Op>, n: NodeId): seq<AttrReport> {
    if ops == [] then []
    else
      var before, op := Since(ops[..|ops| - 1], n), ops[|ops| - 1];
      if op.node != n then before
      else if op.Message? && MoreFollows(op.report) then before + AttrsOf(op.report)
      else []
  }

  /** What a run releases for one node: at each final message, what its reports since
      the last release or forget add up to. */
  function Releases(types: AttrTypes, ops: seq<Op>, n: NodeId): seq<seq<Pair>> {
    if ops == [] then []
    else
      var front, op := ops[..|ops| - 1], ops[|ops| - 1];
      if op.node == n && op.Message? && !MoreFollows(op.report)
      then Releases(types, front, n) + [ApplyAll([], Changes(types, Since(front, n) + AttrsOf(op.report)))]
      else Releases(types, front, n)
  }

  function OfNode(released: seq<(NodeId, seq<Pair>)>, n: NodeId): seq<seq<Pair>> {
    if released == [] then []
    else
      var front, last := OfNode(released[..|released| - 1], n), released[|released| - 1];
      if last.0 == n then front + [last.1] else front
  }

  function OpsOf(ops: seq<Op>, n: NodeId): seq<Op> {
    if ops == [] then []
    else
      var front, op := OpsOf(ops[..|ops| - 1], n), ops[|ops| - 1];
      if op.node == n then front + [op] else front
  }

  /** In every run, what is pending for a node is the accumulation of its own reports
      since its last release or forget, and what is released is what those add up to. */
  lemma {:induction false} ReassemblyPerNode(types: AttrTypes, ops: seq<Op>, n: NodeId)
    ensures var (pending, released) := Run(types, ops);
            && (if n in pending then pending[n] else []) == ApplyAll([], Changes(types, Since(ops, n)))
            && OfNode(released, n) == Releases(types, ops, n)
  {
    hide ApplyAll, Changes;
    if ops == [] {
      NothingAddsUp(types);
    } else {
      var front, op := ops[..|ops| - 1], ops[|ops| - 1];
      ReassemblyPerNode(types, front, n);
      var (pending, released) := Run(types, front);
      if op.Message? {
        var before := if op.node in pending then pending[op.node] else [];
        var more := released + [(op.node, ApplyAll(before, Changes(types, AttrsOf(op.report))))];
        assert more[..|released|] == released;
        if op.node == n {
          ChangesOfBoth(types, Since(front, n), AttrsOf(op.report));
          ApplyBoth([], Changes(types, Since(front, n)), Changes(types, AttrsOf(op.report)));
          NothingAddsUp(types);
        }
      } else {
        NothingAddsUp(types);
      }
    }
  }

  lemma NothingAddsUp(types: AttrTypes)
    ensures ApplyAll([], Changes(types, [])) == []
  {
  }

  /** ... so the other nodes' messages make no difference, however they interleave. */
  lemma {:induction false} NodesAreIndependent(types: AttrTypes, ops: seq<Op>, n: NodeId)
    ensures Since(ops, n) == Since(OpsOf(ops, n), n)
    ensures Releases(types, ops, n) == Releases(types, OpsOf(ops, n), n)
  {
    hide ApplyAll, Changes;
    if ops != [] {
      NodesAreIndependent(types, ops[..|ops| - 1], n);
      var own := OpsOf(ops[..|ops| - 1], n);
      assert (own + [ops[|ops| - 1]])[..|own|] == own;
    }
  }
}
