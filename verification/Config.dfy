/** The server's configuration: updates under a lock, and the allocation of node ids. */
module Config {
  import opened Wrappers
  import opened Reassembly
  import opened NodeRegistry
  import opened NodeManagement

  datatype ConfigData = ConfigData(
    fabricLabel: string,
    nextNodeId: nat,
    wifiCredentials: map<string, (string, string)>,
    threadDatasets: map<string, string>)

  type Mutation = ConfigData -> ConfigData

  // ------------------------------------------------------------------- node ids

  function InUseFrom(inUse: set<nat>, from: nat): set<nat> {
    set id | id in inUse && id >= from
  }

  lemma {:induction false} FewerInUse(inUse: set<nat>, from: nat)
    requires from in inUse
    ensures |InUseFrom(inUse, from + 1)| < |InUseFrom(inUse, from)|
  {
    assert InUseFrom(inUse, from) == InUseFrom(inUse, from + 1) + {from};
  }

  /** The least id not in use from `from` on. */
  function FirstFree(from: nat, inUse: set<nat>): (id: nat)
    ensures id >= from && id !in inUse && forall skipped :: from <= skipped < id ==> skipped in inUse
    decreases |InUseFrom(inUse, from)|
  {
    if from !in inUse then from
    else
      FewerInUse(inUse, from);
      FirstFree(from + 1, inUse)
  }

  function FirstCandidate(cfg: ConfigData): nat {
    if cfg.nextNodeId < 1 then 1 else cfg.nextNodeId
  }

  /** `allocate_node_id`: whatever loop finds it, the id is the least free one, from the
      next id or 1 on, and the next allocation starts above it. */
  method AllocateNodeId(cfg: ConfigData, inUse: set<nat>) returns (after: ConfigData, id: nat)
    ensures id == FirstFree(FirstCandidate(cfg), inUse)
    ensures id >= 1 && id >= cfg.nextNodeId && id !in inUse
    ensures forall skipped :: skipped >= 1 && cfg.nextNodeId <= skipped < id ==> skipped in inUse
    ensures after == cfg.(nextNodeId := id + 1)
  {
    var candidate := FirstCandidate(cfg);
    while candidate in inUse
      invariant candidate >= FirstCandidate(cfg)
      invariant forall skipped :: FirstCandidate(cfg) <= skipped < candidate ==> skipped in inUse
      decreases |InUseFrom(inUse, candidate)|
    {
      FewerInUse(inUse, candidate);
      candidate := candidate + 1;
    }
    after := cfg.(nextNodeId := candidate + 1);
    id := candidate;
    LeastIsUnique(FirstCandidate(cfg), inUse, id);
  }

  lemma {:induction false} LeastIsUnique(from: nat, inUse: set<nat>, id: nat)
    requires id >= from && id !in inUse && forall skipped :: from <= skipped < id ==> skipped in inUse
    ensures id == FirstFree(from, inUse)
  {
    var least := FirstFree(from, inUse);
    assert id < least ==> id in inUse;
    assert least < id ==> least in inUse;
  }

  // ------------------------------------------------------------------ the controller

  class Controller {
    const registry: Registry
    const ownId: NodeId
    var config: ConfigData
    var disk: Option<ConfigData>
    var sent: seq<Wire>
    var supervised: seq<NodeId>
    var removedFabrics: seq<NodeId>

    constructor (registry: Registry, ownId: NodeId, config: ConfigData)
      ensures this.registry == registry && this.ownId == ownId && this.config == config && disk == None
    {
      this.registry, this.ownId, this.config := registry, ownId, config;
      disk, sent, supervised, removedFabrics := None, [], [], [];
    }

    /** `update_config`: clone, mutate, save, write back; written back even when the save
        fails. */
    method UpdateConfig(f: Mutation, saves: bool) returns (persisted: bool)
      modifies this`config, this`disk
      ensures config == f(old(config))
      ensures persisted == saves
      ensures disk == if saves then Some(config) else old(disk)
    {
      var cfg := config;
      cfg := f(cfg);
      if saves {
        disk := Some(cfg);
      }
      config := cfg;
      return saves;
    }

    /** The first step of `do_commission`: `update_config` with the allocation as its
        mutation. */
    method ReserveId(saves: bool) returns (id: NodeId)
      modifies this`config, this`disk
      ensures id == FirstFree(FirstCandidate(old(config)), registry.nodes.Keys + {ownId})
      ensures config == old(config).(nextNodeId := id + 1)
      ensures disk == if saves then Some(config) else old(disk)
    {
      var inUse := registry.nodes.Keys + {ownId};
      var cfg;
      cfg, id := AllocateNodeId(config, inUse);
      if saves {
        disk := Some(cfg);
      }
      config := cfg;
    }

    /** `do_commission` with the outcomes of the device's part: an id is used up even when
        it fails; only success adds a node, under an id no node had. */
    method DoCommission(saves: bool, commissioned: bool,
        interviewed: Option<Attributes>) returns (added: Option<NodeId>)
      modifies this, registry
      ensures var id := FirstFree(FirstCandidate(old(config)), old(registry.nodes).Keys + {ownId});
              && id >= 1 && id >= old(config).nextNodeId
              && (forall skipped :: skipped >= 1 && old(config).nextNodeId <= skipped < id ==>
                    skipped in old(registry.nodes) || skipped == ownId)
              && config == old(config).(nextNodeId := id + 1)
              && disk == (if saves then Some(config) else old(disk))
              && added == (if commissioned && interviewed.Some? then Some(id) else None)
              && removedFabrics == old(removedFabrics) + if commissioned && interviewed.None? then [id] else []
      ensures added.None? ==>
              registry.nodes == old(registry.nodes) && sent == old(sent) && supervised == old(supervised)
      ensures added.Some? ==>
                && added.value !in old(registry.nodes) && added.value != ownId
                && registry.nodes == old(registry.nodes)[added.value := Entry(false, interviewed.value)]
                && sent == old(sent) + [NodeAdded(added.value, Entry(false, interviewed.value))]
                && supervised == old(supervised) + [added.value]
    {
      ghost var taken := registry.nodes.Keys + {ownId};
      var id := ReserveId(saves);
      assert forall skipped :: skipped in taken <==> skipped in registry.nodes || skipped == ownId;
      if !commissioned {
        return None;
      }
      if interviewed.None? {
        removedFabrics := removedFabrics + [id];
        return None;
      }
      registry.Insert(id, interviewed.value);
      var data := registry.NodeData(id);
      sent := sent + [NodeAdded(id, data.value)];
      supervised := supervised + [id];
      return Some(id);
    }
  }

  // ------------------------------------------------------------------------ runs

  /** What happens to ids over a run of the process: a commissioning reserves one, later it
      registers it or gives it up, nodes are removed, other updates leave the next id. */
  datatype IdOp = Reserve | Register(id: nat) | GiveUp(id: nat) | Remove(id: nat) | Other(f: Mutation)

  datatype Ids = Ids(config: ConfigData, registered: set<nat>, outstanding: set<nat>, reserved: seq<nat>)

  ghost predicate IdEnabled(s: Ids, op: IdOp) {
    match op
    case Register(id) => id in s.outstanding
    case GiveUp(id) => id in s.outstanding
    case Other(f) => forall cfg :: f(cfg).nextNodeId == cfg.nextNodeId
    case _ => true
  }

  function IdStep(s: Ids, own: nat, op: IdOp): Ids {
    match op
    case Reserve =>
      var id := FirstFree(FirstCandidate(s.config), s.registered + {own});
      s.(config := s.config.(nextNodeId := id + 1), outstanding := s.outstanding + {id}, reserved := s.reserved + [id])
    case Register(id) => s.(registered := s.registered + {id}, outstanding := s.outstanding - {id})
    case GiveUp(id) => s.(outstanding := s.outstanding - {id})
    case Remove(id) => s.(registered := s.registered - {id})
    case Other(f) => s.(config := f(s.config))
  }

  ghost function IdRun(start: Ids, own: nat, ops: seq<IdOp>): Option<Ids> {
    if ops == [] then Some(start)
    else
      var s :- IdRun(start, own, ops[..|ops| - 1]);
      if IdEnabled(s, ops[|ops| - 1]) then Some(IdStep(s, own, ops[|ops| - 1])) else None
  }

  ghost predicate IdsFine(s: Ids, own: nat) {
    && (forall i, j :: 0 <= i < j < |s.reserved| ==> s.reserved[i] < s.reserved[j])
    && (forall i :: 0 <= i < |s.reserved| ==> 1 <= s.reserved[i] < s.config.nextNodeId && s.reserved[i] != own)
    && (forall id :: id in s.outstanding ==> id in s.reserved && id !in s.registered)
  }

  lemma {:induction false} IdsKept(s: Ids, own: nat, op: IdOp)
    requires IdsFine(s, own) && IdEnabled(s, op)
    ensures IdsFine(IdStep(s, own, op), own)
  {
    if op.Reserve? {
      var after := IdStep(s, own, op);
      assert after.reserved[|s.reserved|] in after.reserved;
      assert forall id :: id in s.reserved ==> id in after.reserved;
    }
  }

  /** An id handed out is the least from the next id, or 1, on that is neither registered nor
      the controller's own: none is skipped, and the next search starts above it. */
  lemma {:induction false} ReserveSkipsNone(s: Ids, own: nat)
    ensures var after := IdStep(s, own, Reserve);
            && |after.reserved| == |s.reserved| + 1
            && var id := after.reserved[|s.reserved|];
               && id >= 1 && id >= s.config.nextNodeId && id !in s.registered && id != own
               && (forall skipped :: skipped >= 1 && s.config.nextNodeId <= skipped < id ==>
                     skipped in s.registered || skipped == own)
               && after.config.nextNodeId == id + 1
  {
    var taken := s.registered + {own};
    var id := FirstFree(FirstCandidate(s.config), taken);
    assert id !in taken;
    forall skipped | skipped >= 1 && s.config.nextNodeId <= skipped < id
      ensures skipped in s.registered || skipped == own
    {
      assert skipped in taken;
    }
  }

  /** Over a whole run, interleaved commissionings, failures and removals included, the
      ids handed out strictly increase, none is the controller's own, and an id stays out of
      the registry until the commissioning it was reserved for registers it. */
  lemma {:induction false} IdsOnlyGrow(start: Ids, own: nat, ops: seq<IdOp>)
    requires start.outstanding == {} && start.reserved == [] && IdRun(start, own, ops).Some?
    ensures IdsFine(IdRun(start, own, ops).value, own)
  {
    hide IdStep, IdEnabled, IdsFine;
    if ops == [] {
      NothingReserved(start, own);
    } else {
      IdsOnlyGrow(start, own, ops[..|ops| - 1]);
      IdsKept(IdRun(start, own, ops[..|ops| - 1]).value, own, ops[|ops| - 1]);
    }
  }

  lemma NothingReserved(start: Ids, own: nat)
    requires start.outstanding == {} && start.reserved == []
    ensures IdsFine(start, own)
  {
  }
}
