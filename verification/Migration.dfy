/** Planning a migration: which fabric index each device gave us, the node records, the next
    node id, and the two self-checks over them. Values are taken as decoded; a value that
    does not decode is none. */
module Migration {
  import opened Wrappers
  import opened Json

  /** An entry of a device's cached fabric table. */
  datatype FabricEntry = FabricEntry(rootKey: Option<seq<Byte>>, nodeId: Option<U64>, index: Option<U64>)

  /** A context of the store, with the entries of its field "1" when that is an array. */
  datatype Context = Context(name: string, fabrics: Option<seq<FabricEntry>>)

  datatype Resolution = Index(i: nat) | Refused

  // ------------------------------------------------------------ the fabric index

  predicate HoldsFabrics(name: string) {
    "nodes.peer" <= name && |name| >= 15 && name[|name| - 15..] == ".endpoints.0.62"
  }

  /** What an entry claims: a node id and its index, if it is an entry of our fabric. */
  function ClaimOf(e: FabricEntry, root: seq<Byte>): Option<(nat, nat)> {
    if e.rootKey == Some(root) && e.nodeId.Some? && e.index.Some? then Some((e.nodeId.value, e.index.value)) else None
  }

  function Claims(entries: seq<FabricEntry>, root: seq<Byte>): seq<(nat, nat)> {
    if entries == [] then []
    else
      var front, claim := Claims(entries[..|entries| - 1], root), ClaimOf(entries[|entries| - 1], root);
      if claim.Some? then front + [claim.value] else front
  }

  function AllClaims(contexts: seq<Context>, root: seq<Byte>): seq<(nat, nat)> {
    if contexts == [] then []
    else
      var front, c := AllClaims(contexts[..|contexts| - 1], root), contexts[|contexts| - 1];
      if HoldsFabrics(c.name) && c.fabrics.Some? then front + Claims(c.fabrics.value, root) else front
  }

  /** The name is a peer's, then anything, then that of its endpoint 0's operational
      credentials. */
  lemma {:induction false} NamesOfFabrics(name: string)
    ensures HoldsFabrics(name) <==> exists middle :: name == "nodes.peer" + middle + ".endpoints.0.62"
  {
    var first, last := "nodes.peer", ".endpoints.0.62";
    if HoldsFabrics(name) {
      var at := |name| - 15;
      assert name[at] == last[0] && name[at + 1] == last[1] && name[6] == first[6];
      assert forall i :: 0 <= i < 10 ==> name[i] == first[i] && (first[i] == '.' ==> i == 5);
      assert name == first + name[10..at] + last;
    }
    if middle :| name == first + middle + last {
      assert name[|name| - 15..] == last;
    }
  }

  predicate InRange(index: nat) {
    1 <= index <= 254
  }

  /** What one more claim makes of what was found so far. */
  function WithClaim(found: map<nat, Resolution>, claim: (nat, nat)): map<nat, Resolution> {
    var (node, index) := claim;
    if !InRange(index) then found[node := Refused]
    else if node !in found then found[node := Index(index)]
    else if found[node] == Index(index) then found
    else found[node := Refused]
  }

  function Resolved(claims: seq<(nat, nat)>): map<nat, Resolution> {
    if claims == [] then map[]
    else WithClaim(Resolved(claims[..|claims| - 1]), claims[|claims| - 1])
  }

  /** `fabric_index_by_node_id` */
  method FabricIndexByNodeId(contexts: seq<Context>, root: seq<Byte>) returns (found: map<nat, Resolution>)
    ensures found == Resolved(AllClaims(contexts, root))
  {
    found := map[];
    for i := 0 to |contexts|
      invariant found == Resolved(AllClaims(contexts[..i], root))
    {
      assert contexts[..i + 1][..i] == contexts[..i];
      if !HoldsFabrics(contexts[i].name) || contexts[i].fabrics.None? {
        continue;
      }
      found := ScanTable(found, AllClaims(contexts[..i], root), contexts[i].fabrics.value, root);
    }
    assert contexts[..|contexts|] == contexts;
  }

  method ScanTable(before: map<nat, Resolution>, ghost claims: seq<(nat, nat)>, entries: seq<FabricEntry>,
      root: seq<Byte>)
      returns (found: map<nat, Resolution>)
    requires before == Resolved(claims)
    ensures found == Resolved(claims + Claims(entries, root))
  {
    found := before;
    assert claims + [] == claims;
    for k := 0 to |entries|
      invariant found == Resolved(claims + Claims(entries[..k], root))
    {
      assert entries[..k + 1][..k] == entries[..k];
      var e := entries[k];
      if e.rootKey != Some(root) || e.nodeId.None? || e.index.None? {
        continue;
      }
      var node, index := e.nodeId.value, e.index.value;
      ClaimsSnoc(claims + Claims(entries[..k], root), (node, index));
      assert claims + Claims(entries[..k], root) + [(node, index)] == claims + Claims(entries[..k + 1], root);
      if !(1 <= index <= 254) {
        found := found[node := Refused];
        continue;
      }
      if node !in found {
        found := found[node := Index(index)];
      } else if found[node].Index? && found[node].i != index {
        found := found[node := Refused];
      }
    }
    assert entries[..|entries|] == entries;
  }

  lemma {:induction false} ClaimsSnoc(claims: seq<(nat, nat)>, claim: (nat, nat))
    ensures Resolved(claims + [claim]) == WithClaim(Resolved(claims), claim)
  {
    assert (claims + [claim])[..|claims|] == claims;
  }

  /** The entry is of the fabric with our root key and gives the node the index. */
  predicate Gives(e: FabricEntry, root: seq<Byte>, node: nat, index: nat) {
    && e.rootKey == Some(root)
    && e.nodeId.Some? && e.nodeId.value == node && e.index.Some? && e.index.value == index
  }

  ghost predicate TableGives(entries: seq<FabricEntry>, root: seq<Byte>, node: nat, index: nat) {
    exists i :: 0 <= i < |entries| && Gives(entries[i], root, node, index)
  }

  /** A peer's table of fabrics, by the name of its context, gives the node the index. */
  ghost predicate PeerGives(c: Context, root: seq<Byte>, node: nat, index: nat) {
    && (exists middle :: c.name == "nodes.peer" + middle + ".endpoints.0.62")
    && c.fabrics.Some? && TableGives(c.fabrics.value, root, node, index)
  }

  lemma {:induction false} TableClaims(entries: seq<FabricEntry>, root: seq<Byte>, node: nat, index: nat)
    ensures (node, index) in Claims(entries, root) <==> TableGives(entries, root, node, index)
  {
    if entries != [] {
      var front, last := entries[..|entries| - 1], entries[|entries| - 1];
      TableClaims(front, root, node, index);
      assert forall i :: 0 <= i < |front| ==> front[i] == entries[i];
      assert entries[|entries| - 1] == last;
    }
  }

  /** The claims are what the tables of peers give, under our root key and no other. */
  lemma {:induction false} ClaimsAreGiven(contexts: seq<Context>, root: seq<Byte>, node: nat, index: nat)
    ensures (node, index) in AllClaims(contexts, root) <==>
            exists i :: 0 <= i < |contexts| && PeerGives(contexts[i], root, node, index)
  {
    hide HoldsFabrics, Claims, TableGives;
    if contexts != [] {
      var front, last := contexts[..|contexts| - 1], contexts[|contexts| - 1];
      ClaimsAreGiven(front, root, node, index);
      NamesOfFabrics(last.name);
      if last.fabrics.Some? {
        TableClaims(last.fabrics.value, root, node, index);
      }
      LastOrFront(contexts, root, node, index);
    }
  }

  lemma {:induction false} LastOrFront(contexts: seq<Context>, root: seq<Byte>, node: nat, index: nat)
    requires contexts != []
    ensures (exists i :: 0 <= i < |contexts| && PeerGives(contexts[i], root, node, index)) <==>
            var front := contexts[..|contexts| - 1];
            (exists i :: 0 <= i < |front| && PeerGives(front[i], root, node, index)) ||
            PeerGives(contexts[|contexts| - 1], root, node, index)
  {
    hide PeerGives;
    var front := contexts[..|contexts| - 1];
    assert forall i :: 0 <= i < |front| ==> front[i] == contexts[i];
  }

  ghost predicate Claimed(claims: seq<(nat, nat)>, node: nat) {
    exists i :: (node, i) in claims
  }

  /** All claims of the node say `i`. */
  ghost predicate Agreed(claims: seq<(nat, nat)>, node: nat, i: nat) {
    (node, i) in claims && 1 <= i <= 254 && forall j :: (node, j) in claims ==> j == i
  }

  /** A node resolves to an index exactly when it has a claim and all its claims give that
      index, in range; it is refused when it has claims that do not, and is not found at all
      only when it has none. So no index is ever guessed. */
  lemma {:induction false} NeverGuesses(claims: seq<(nat, nat)>, node: nat)
    ensures node in Resolved(claims) <==> Claimed(claims, node)
    ensures forall i :: node in Resolved(claims) && Resolved(claims)[node] == Index(i) <==> Agreed(claims, node, i)
  {
    if claims != [] {
      var front, last := claims[..|claims| - 1], claims[|claims| - 1];
      NeverGuesses(front, node);
      assert forall c :: c in claims <==> c in front || c == last;
      if last.0 == node {
        assert (node, last.1) in claims;
      }
    }
  }

  /** ... whatever the order in which the tables are read, and whatever is read twice. */
  lemma {:induction false} OrderIsNoMatter(claims: seq<(nat, nat)>, other: seq<(nat, nat)>)
    requires forall c :: c in claims <==> c in other
    ensures Resolved(claims) == Resolved(other)
  {
    hide Resolved, InRange;
    forall node ensures (node in Resolved(claims) <==> node in Resolved(other))
                     && (node in Resolved(claims) ==> Resolved(claims)[node] == Resolved(other)[node]) {
      NeverGuesses(claims, node);
      NeverGuesses(other, node);
      assert Claimed(claims, node) <==> Claimed(other, node);
      assert forall i :: Agreed(claims, node, i) <==> Agreed(other, node, i);
      if node in Resolved(claims) && node in Resolved(other) {
        SameResolution(Resolved(claims)[node], Resolved(other)[node]);
      }
    }
  }

  lemma {:induction false} SameResolution(a: Resolution, b: Resolution)
    requires forall i :: a == Index(i) <==> b == Index(i)
    ensures a == b
  {
    if a.Index? {
      assert a == Index(a.i);
    } else if b.Index? {
      assert b == Index(b.i);
    }
  }

  // ---------------------------------------------------------------- the plan

  /** A value of an entry: not there, not decodable, or decoded. */
  datatype Field<T> = Missing | Bad | Good(value: T)

  /** An entry of `nodes.commissionedNodes`. */
  datatype Peer = Peer(id: Option<U64>, isObject: bool, discoveredAt: Field<U64>, ip: Field<string>)

  datatype Commissioned = Absent | Undecodable | Entries(peers: seq<Peer>)

  datatype Plan = Plan(node: nat, fabricIndex: nat, matched: bool, discoveredAt: Option<nat>, addresses: seq<string>)

  function PlanOf(peer: Peer, found: map<nat, Resolution>): Option<Plan> {
    if peer.id.None? || !peer.isObject || peer.discoveredAt.Bad? || peer.ip.Bad? then None
    else
      var node := peer.id.value;
      var index := if node in found && found[node].Index? then found[node].i else 0;
      Some(Plan(node, index, node in found && found[node].Index?,
                if peer.discoveredAt.Good? then Some(peer.discoveredAt.value) else None,
                if peer.ip.Good? then [peer.ip.value] else []))
  }

  function PlansOf(peers: seq<Peer>, found: map<nat, Resolution>): Option<seq<Plan>> {
    if peers == [] then Some([])
    else
      var front :- PlansOf(peers[..|peers| - 1], found);
      var last :- PlanOf(peers[|peers| - 1], found);
      Some(front + [last])
  }

  /** An entry can be planned: it has an id, it is an object, and what it says decodes. */
  predicate Plannable(peer: Peer) {
    peer.id.Some? && peer.isObject && !peer.discoveredAt.Bad? && !peer.ip.Bad?
  }

  /** The plan is the entry's: its id, its time and address if it has them, and the index its
      claims agree on, or 0 when there is none. */
  ghost predicate PlannedFrom(plan: Plan, peer: Peer, claims: seq<(nat, nat)>) {
    && peer.id == Some(plan.node)
    && (forall t: U64 :: plan.discoveredAt == Some(t) <==> peer.discoveredAt == Good(t))
    && (plan.discoveredAt.Some? ==> peer.discoveredAt.Good?)
    && (forall ip :: ip in plan.addresses <==> peer.ip == Good(ip)) && |plan.addresses| <= 1
    && (plan.matched <==> exists i :: Agreed(claims, plan.node, i))
    && (forall i :: Agreed(claims, plan.node, i) ==> plan.fabricIndex == i)
    && (!plan.matched ==> plan.fabricIndex == 0)
  }

  lemma {:induction false} PlanIsPlannedFrom(peer: Peer, claims: seq<(nat, nat)>)
    ensures PlanOf(peer, Resolved(claims)).Some? <==> Plannable(peer)
    ensures Plannable(peer) ==> PlannedFrom(PlanOf(peer, Resolved(claims)).value, peer, claims)
  {
    hide Resolved, Agreed;
    if Plannable(peer) {
      var node, found := peer.id.value, Resolved(claims);
      NeverGuesses(claims, node);
      if node in found && found[node].Index? {
        assert found[node] == Index(found[node].i);
        assert Agreed(claims, node, found[node].i);
      }
    }
  }

  /** The entries are planned one by one, or not at all when one of them cannot be. */
  lemma {:induction false} EntriesArePlanned(peers: seq<Peer>, claims: seq<(nat, nat)>)
    ensures PlansOf(peers, Resolved(claims)).Some? <==> forall k :: 0 <= k < |peers| ==> Plannable(peers[k])
    ensures PlansOf(peers, Resolved(claims)).Some? ==>
              var plans := PlansOf(peers, Resolved(claims)).value;
              |plans| == |peers| && forall k :: 0 <= k < |peers| ==> PlannedFrom(plans[k], peers[k], claims)
  {
    hide PlanOf, Resolved, PlannedFrom, Plannable;
    if peers != [] {
      var front, last := peers[..|peers| - 1], peers[|peers| - 1];
      EntriesArePlanned(front, claims);
      PlanIsPlannedFrom(last, claims);
      assert forall k :: 0 <= k < |front| ==> front[k] == peers[k];
    }
  }

  lemma {:induction false} PlansPrefix(peers: seq<Peer>, found: map<nat, Resolution>, k: nat)
    requires k <= |peers| && PlansOf(peers[..k], found).None?
    ensures PlansOf(peers, found).None?
  {
    hide PlanOf;
    if k == |peers| {
      assert peers[..k] == peers;
    } else {
      assert peers[..|peers| - 1][..k] == peers[..k];
      PlansPrefix(peers[..|peers| - 1], found, k);
    }
  }

  /** Placing a plan after those whose node id is not above its own: a stable sort. */
  function Placed(sorted: seq<Plan>, p: Plan): (placed: seq<Plan>)
    ensures placed != []
  {
    if sorted == [] then [p]
    else if sorted[|sorted| - 1].node <= p.node then sorted + [p]
    else Placed(sorted[..|sorted| - 1], p) + [sorted[|sorted| - 1]]
  }

  function SortedById(plans: seq<Plan>): seq<Plan> {
    if plans == [] then [] else Placed(SortedById(plans[..|plans| - 1]), plans[|plans| - 1])
  }

  /** `plan_nodes` */
  method PlanNodes(commissioned: Commissioned, contexts: seq<Context>,
      root: seq<Byte>) returns (plans: Option<seq<Plan>>)
    ensures plans ==
            match commissioned {
              case Absent => Some([])
              case Undecodable => None
              case Entries(peers) =>
                var unsorted := PlansOf(peers, Resolved(AllClaims(contexts, root)));
                if unsorted.None? then None else Some(SortedById(unsorted.value))
            }
  {
    if commissioned.Absent? {
      return Some([]);
    }
    if commissioned.Undecodable? {
      return None;
    }
    var found := FabricIndexByNodeId(contexts, root);
    var peers := commissioned.peers;
    var unsorted := [];
    for k := 0 to |peers|
      invariant PlansOf(peers[..k], found) == Some(unsorted)
    {
      assert peers[..k + 1][..k] == peers[..k];
      var plan := PlanOf(peers[k], found);
      if plan.None? {
        PlansPrefix(peers, found, k + 1);
        return None;
      }
      unsorted := unsorted + [plan.value];
    }
    assert peers[..|peers|] == peers;
    return Some(SortedById(unsorted));
  }

  predicate AscendingIds(plans: seq<Plan>) {
    forall i, j :: 0 <= i < j < |plans| ==> plans[i].node <= plans[j].node
  }

  lemma {:induction false} PlacedAddsOne(sorted: seq<Plan>, p: Plan)
    ensures multiset(Placed(sorted, p)) == multiset(sorted) + multiset{p}
  {
    if sorted != [] {
      assert sorted == sorted[..|sorted| - 1] + [sorted[|sorted| - 1]];
      PlacedAddsOne(sorted[..|sorted| - 1], p);
    }
  }

  lemma {:induction false} PlacedKeepsOrder(sorted: seq<Plan>, p: Plan)
    requires AscendingIds(sorted)
    ensures AscendingIds(Placed(sorted, p))
    ensures var last := Placed(sorted, p)[|Placed(sorted, p)| - 1];
            last == p || (sorted != [] && last == sorted[|sorted| - 1])
  {
    if sorted != [] && sorted[|sorted| - 1].node > p.node {
      var front, last := sorted[..|sorted| - 1], sorted[|sorted| - 1];
      PlacedKeepsOrder(front, p);
      assert Placed(front, p)[|Placed(front, p)| - 1].node <= last.node;
    }
  }

  /** The plans come out in ascending order of node id, none lost and none added. */
  lemma {:induction false} SortSorts(plans: seq<Plan>)
    ensures AscendingIds(SortedById(plans)) && multiset(SortedById(plans)) == multiset(plans)
  {
    hide Placed, AscendingIds;
    if plans == [] {
      assert AscendingIds([]) by { NoPlans(); }
    } else {
      var front, last := plans[..|plans| - 1], plans[|plans| - 1];
      SortSorts(front);
      PlacedKeepsOrder(SortedById(front), last);
      PlacedAddsOne(SortedById(front), last);
      assert plans == front + [last];
    }
  }

  lemma NoPlans()
    ensures AscendingIds([])
  {
  }

  // ------------------------------------------------------ the configuration and checks

  function HighestId(plans: seq<Plan>): Option<nat> {
    if plans == [] then None
    else
      var before, id := HighestId(plans[..|plans| - 1]), plans[|plans| - 1].node;
      if before.Some? && before.value > id then before else Some(id)
  }

  /** The next node id of `config_from`. */
  function NextNodeId(plans: seq<Plan>): nat {
    if HighestId(plans).Some? then HighestId(plans).value + 1 else 1
  }

  /** Check 4: no planned node's id is at or above the next id. */
  predicate NodeAccounting(nextNodeId: nat, plans: seq<Plan>) {
    forall k :: 0 <= k < |plans| ==> plans[k].node < nextNodeId
  }

  /** Check 5: the fallbacks, and what is inconsistent; it passes when nothing is. */
  method FabricIndexSanity(plans: seq<Plan>) returns (passed: bool, fallbacks: seq<nat>, inconsistent: seq<nat>)
    ensures passed <==> forall k :: 0 <= k < |plans| ==> (plans[k].matched <==> plans[k].fabricIndex != 0)
    ensures inconsistent == InconsistentNodes(plans)
    ensures fallbacks == FallbackNodes(plans)
    ensures forall id :: id in inconsistent <==>
              exists k :: 0 <= k < |plans| && plans[k].node == id && (plans[k].matched <==> plans[k].fabricIndex == 0)
    ensures forall id :: id in fallbacks <==>
              exists k :: 0 <= k < |plans| && plans[k].node == id && !plans[k].matched && plans[k].fabricIndex == 0
  {
    NodesListed(plans);
    fallbacks, inconsistent := [], [];
    for k := 0 to |plans|
      invariant inconsistent == [] <==> forall i :: 0 <= i < k ==> (plans[i].matched <==> plans[i].fabricIndex != 0)
      invariant inconsistent == InconsistentNodes(plans[..k])
      invariant fallbacks == FallbackNodes(plans[..k])
    {
      assert plans[..k + 1][..k] == plans[..k];
      if plans[k].matched {
        if plans[k].fabricIndex == 0 {
          inconsistent := inconsistent + [plans[k].node];
        }
      } else if plans[k].fabricIndex != 0 {
        inconsistent := inconsistent + [plans[k].node];
      } else {
        fallbacks := fallbacks + [plans[k].node];
      }
    }
    assert plans[..|plans|] == plans;
    passed := inconsistent == [];
  }

  function InconsistentNodes(plans: seq<Plan>): seq<nat> {
    if plans == [] then []
    else
      var front, p := InconsistentNodes(plans[..|plans| - 1]), plans[|plans| - 1];
      if p.matched == (p.fabricIndex == 0) then front + [p.node] else front
  }

  /** The devices our fabric stays behind on. */
  function FallbackNodes(plans: seq<Plan>): seq<nat> {
    if plans == [] then []
    else
      var front, p := FallbackNodes(plans[..|plans| - 1]), plans[|plans| - 1];
      if !p.matched && p.fabricIndex == 0 then front + [p.node] else front
  }

  lemma {:induction false} NodesListed(plans: seq<Plan>)
    ensures forall id :: id in InconsistentNodes(plans) <==>
              exists k :: 0 <= k < |plans| && plans[k].node == id && (plans[k].matched <==> plans[k].fabricIndex == 0)
    ensures forall id :: id in FallbackNodes(plans) <==>
              exists k :: 0 <= k < |plans| && plans[k].node == id && !plans[k].matched && plans[k].fabricIndex == 0
  {
    if plans != [] {
      var front, last := plans[..|plans| - 1], plans[|plans| - 1];
      NodesListed(front);
      assert forall k :: 0 <= k < |front| ==> front[k] == plans[k];
      assert plans[|plans| - 1] == last;
    }
  }

  lemma {:induction false} HighestIsHighest(plans: seq<Plan>)
    ensures HighestId(plans).None? <==> plans == []
    ensures HighestId(plans).Some? ==>
              && (exists k :: 0 <= k < |plans| && plans[k].node == HighestId(plans).value)
              && forall k :: 0 <= k < |plans| ==> plans[k].node <= HighestId(plans).value
  {
    if plans != [] {
      var front := plans[..|plans| - 1];
      HighestIsHighest(front);
      if HighestId(front).Some? {
        var k :| 0 <= k < |front| && front[k].node == HighestId(front).value;
        assert plans[k].node == front[k].node;
      }
      assert plans[|plans| - 1].node <= HighestId(plans).value;
    }
  }

  /** The configuration's next node id is the least, from 1 on, that passes check 4. */
  lemma {:induction false} NextIdIsLeast(plans: seq<Plan>, next: nat)
    requires next >= 1
    ensures NodeAccounting(next, plans) <==> next >= NextNodeId(plans)
  {
    HighestIsHighest(plans);
  }

  lemma {:induction false} PlansAreConsistent(peers: seq<Peer>, claims: seq<(nat, nat)>)
    requires PlansOf(peers, Resolved(claims)).Some?
    ensures forall p :: p in PlansOf(peers, Resolved(claims)).value ==>
              (p.matched <==> p.fabricIndex != 0) &&
              forall i :: i != 0 ==> (p.fabricIndex == i <==> Agreed(claims, p.node, i))
  {
    hide Resolved, Agreed;
    if peers != [] {
      PlansAreConsistent(peers[..|peers| - 1], claims);
      var plan := PlanOf(peers[|peers| - 1], Resolved(claims)).value;
      NeverGuesses(claims, plan.node);
      AgreedInRange(claims, plan.node);
    }
  }

  lemma AgreedInRange(claims: seq<(nat, nat)>, node: nat)
    ensures forall i :: Agreed(claims, node, i) ==> i != 0
  {
  }

  /** Every plan that comes out has a fabric index other than 0 exactly when all claims of
      its node agree on it, and passes both checks together with the configuration made
      from the plans. */
  lemma {:induction false} PlansPassTheChecks(peers: seq<Peer>, claims: seq<(nat, nat)>)
    requires PlansOf(peers, Resolved(claims)).Some?
    ensures var plans := SortedById(PlansOf(peers, Resolved(claims)).value);
            && NodeAccounting(NextNodeId(plans), plans)
            && forall k :: 0 <= k < |plans| ==>
                 && (plans[k].matched <==> plans[k].fabricIndex != 0)
                 && forall i :: i != 0 ==> (plans[k].fabricIndex == i <==> Agreed(claims, plans[k].node, i))
  {
    hide Resolved, Agreed, NodeAccounting, PlansOf, SortedById;
    var unsorted := PlansOf(peers, Resolved(claims)).value;
    PlansAreConsistent(peers, claims);
    SortSorts(unsorted);
    var plans := SortedById(unsorted);
    NextIdIsLeast(plans, NextNodeId(plans));
    forall k | 0 <= k < |plans| ensures plans[k] in unsorted {
      assert plans[k] in multiset(plans);
    }
  }
}
