/** The state one deployment run mutates, held in the fields of a `Deployment`: every node's CPU and
    instance list, the per-type instance registry and counters, the request placements, the
    residual bandwidth matrix and the flow matrix routed for each request. Its methods are the
    loops both deployment engines share, each proved to do what the corresponding function on
    values of the state says. */
module DeploymentState {
  import opened Network
  import opened Sorting
  import opened Placer
  import opened Bottleneck
  import opened Candidates

  /** The routing helper: the flow matrix of a request's placement over the residual bandwidth. */
  type Router = (Matrix, Request, Placement) -> Matrix

  /** What deploying one request yields: the state it leaves and the flow matrix routed for it. */
  datatype Deployed = Deployed(after: State, flow: Matrix)

  /** Where a run stands between two requests: the state, the residual bandwidth and the flow
      matrices stored so far. */
  datatype Run = Run(st: State, bw: Matrix, flows: map<nat, Matrix>)

  /** Every request of the batch can be placed into `st`. */
  predicate Fits(st: State, cfg: Config, requests: seq<Request>)
  {
    && Shaped(st, cfg, |st.cpu|) && |st.placement| == |requests|
    && forall r :: 0 <= r < |requests| ==> Ready(st, cfg, requests[r], r)
  }

  /** Growing the placement of one request keeps every request placeable. */
  lemma GrowsKeepsFits(st0: State, st1: State, cfg: Config, requests: seq<Request>, rid: nat)
    requires Fits(st0, cfg, requests) && Shaped(st1, cfg, |st1.cpu|) && Grows(st0, st1, rid)
    ensures Fits(st1, cfg, requests)
  {
    forall r | 0 <= r < |requests|
      ensures Ready(st1, cfg, requests[r], r)
    {
      assert Ready(st0, cfg, requests[r], r);
    }
  }

  /** The first pass of both engines over request `rid`: the nodes ranked by distance sum over the
      residual bandwidth `bw` and by availability, then one placement per stage over that ranking. */
  function FirstPass(st: State, cfg: Config, bw: Matrix, avail: seq<real>, req: Request, rid: nat,
                     distance: Distance): (res: Result<State>)
    requires Ready(st, cfg, req, rid) && |avail| == |st.cpu|
    ensures res.Ok? ==> Ready(res.value, cfg, req, rid) && |res.value.cpu| == |st.cpu|
  {
    PlaceChain(st, cfg, rid, req.chain, 0, CandidateOrder(DistanceSums(bw, req.src, req.dst, |avail|, distance), avail))
  }

  /** The routing step of both engines: the router's flow for the placement in `st`, which has to
      have the shape of the residual bandwidth to be subtracted from it. */
  function Routed(st: State, bw: Matrix, req: Request, route: Router): (res: Result<Deployed>)
    ensures res.Ok? ==> res.value.after == st && SameShape(bw, res.value.flow)
    ensures res.Err? ==> res.error == FlowShapeMismatch
  {
    var f := route(bw, req, st.placement);
    if SameShape(bw, f) then Ok(Deployed(st, f)) else Err(FlowShapeMismatch)
  }

  /** Request ids are list positions (placements are indexed by id), and every stage names a
      configured NF type. */
  predicate WellFormed(cfg: Config, requests: seq<Request>)
  {
    cfg.Valid() && forall r :: 0 <= r < |requests| ==> requests[r].id == r && Typed(cfg, requests[r])
  }

  /** One empty node -> instance map per stage of every request. */
  function EmptyPlacement(requests: seq<Request>): (p: Placement)
    ensures |p| == |requests|
    ensures forall r :: 0 <= r < |requests| ==> |p[r]| == |requests[r].chain|
    ensures forall r, s :: 0 <= r < |requests| && 0 <= s < |p[r]| ==> p[r][s] == map[]
  {
    seq(|requests|, r requires 0 <= r < |requests| =>
      seq(|requests[r].chain|, s requires 0 <= s < |requests[r].chain| => map[]))
  }

  /** The flow matrices of the routed requests, in routing order. */
  function FlowList(routed: seq<nat>, flows: map<nat, Matrix>): (fs: seq<Matrix>)
    requires forall k :: 0 <= k < |routed| ==> routed[k] in flows
    ensures |fs| == |routed| && forall k :: 0 <= k < |routed| ==> fs[k] == flows[routed[k]]
  {
    seq(|routed|, k requires 0 <= k < |routed| => flows[routed[k]])
  }

  /** Routing one more request, not routed before, appends its flow to the list. */
  lemma FlowListAppend(routed: seq<nat>, flows: map<nat, Matrix>, rid: nat, f: Matrix)
    requires forall k :: 0 <= k < |routed| ==> routed[k] in flows
    requires rid !in routed
    ensures FlowList(routed + [rid], flows[rid := f]) == FlowList(routed, flows) + [f]
  {
  }

  /** Subtracting one more flow from the residual of a batch is the residual of the longer batch. */
  lemma SubtractAllAppend(m: Matrix, fs: seq<Matrix>, f: Matrix)
    requires AllShaped(m, fs) && SameShape(m, f)
    ensures AllShaped(m, fs + [f])
    ensures SubtractAll(m, fs + [f]) == Subtract(SubtractAll(m, fs), f)
  {
    assert (fs + [f])[..|fs|] == fs;
  }

  /** The routing ledger: `routed` lists distinct request ids below `n`, each with a flow matrix,
      `flows` holds no other request, and `bandwidth` is `origin` minus the routed flows, in
      routing order. */
  ghost predicate Ledger(origin: Matrix, routed: seq<nat>, flows: map<nat, Matrix>, bandwidth: Matrix, n: nat)
  {
    && Distinct(routed)
    && (forall k :: 0 <= k < |routed| ==> routed[k] < n && routed[k] in flows)
    && (forall rid :: rid in flows ==> rid in routed)
    && AllShaped(origin, FlowList(routed, flows))
    && bandwidth == SubtractAll(origin, FlowList(routed, flows))
  }

  /** Routing a request not routed before, with a flow of the residual's shape, keeps the ledger. */
  lemma LedgerAppend(origin: Matrix, routed: seq<nat>, flows: map<nat, Matrix>, bandwidth: Matrix, n: nat,
                     rid: nat, f: Matrix)
    requires Ledger(origin, routed, flows, bandwidth, n) && rid < n && rid !in routed && SameShape(bandwidth, f)
    ensures Ledger(origin, routed + [rid], flows[rid := f], Subtract(bandwidth, f), n)
  {
    FlowListAppend(routed, flows, rid, f);
    SubtractAllAppend(origin, FlowList(routed, flows), f);
    var routed' := routed + [rid];
    forall i, j | 0 <= i < j < |routed'|
      ensures routed'[i] != routed'[j]
    {
      if j == |routed| {
        assert routed'[i] == routed[i];
      }
    }
  }

  /** `p1` differs from `p0` at most in the placement of request `rid`. */
  predicate OnlyTouches(p0: Placement, p1: Placement, rid: nat)
  {
    |p1| == |p0| && forall r :: 0 <= r < |p0| && r != rid ==> p1[r] == p0[r]
  }

  /** Every stage of a request's placement has no node yet. */
  predicate Unplaced(stages: seq<map<nat, InstanceRef>>)
  {
    forall s :: 0 <= s < |stages| ==> stages[s] == map[]
  }

  /** Every stage of a request's placement has at least one node. */
  predicate Placed(stages: seq<map<nat, InstanceRef>>)
  {
    forall s :: 0 <= s < |stages| ==> stages[s] != map[]
  }

  /** A request whose stages the first pass filled is placed. */
  lemma FilledIsPlaced(p0: Placement, p: Placement, rid: nat, chain: seq<nat>, cand: seq<nat>)
    requires FilledFrom(p0, p, rid, chain, 0, cand)
    ensures Placed(p[rid])
  {
    forall s | 0 <= s < |p[rid]|
      ensures p[rid][s] != map[]
    {
      assert |p[rid][s]| == 1;
    }
  }

  /** A placed request stays placed while its stages only gain nodes. */
  lemma GrowsKeepsPlaced(st0: State, st1: State, rid: nat)
    requires rid < |st0.placement| && Grows(st0, st1, rid) && Placed(st0.placement[rid])
    ensures Placed(st1.placement[rid])
  {
    forall s | 0 <= s < |st1.placement[rid]|
      ensures st1.placement[rid][s] != map[]
    {
      var v :| v in st0.placement[rid][s];
      assert v in st1.placement[rid][s];
    }
  }

  /** The first `k` requests of `order` are placed and the rest are untouched. */
  ghost predicate DeployedUpTo(p: Placement, order: seq<nat>, k: nat)
    requires k <= |order| && forall j :: 0 <= j < |order| ==> order[j] < |p|
  {
    && (forall j :: 0 <= j < k ==> Placed(p[order[j]]))
    && (forall j :: k <= j < |order| ==> Unplaced(p[order[j]]))
  }

  /** Deploying the next request in order, touching no other request, moves the boundary by one. */
  lemma DeployedUpToStep(p0: Placement, p1: Placement, order: seq<nat>, k: nat)
    requires k < |order| && Distinct(order) && forall j :: 0 <= j < |order| ==> order[j] < |p0|
    requires DeployedUpTo(p0, order, k) && OnlyTouches(p0, p1, order[k]) && Placed(p1[order[k]])
    ensures DeployedUpTo(p1, order, k + 1)
  {
    forall j | 0 <= j < |order| && j != k
      ensures p1[order[j]] == p0[order[j]]
    {
      assert order[j] != order[k];
    }
  }

  /** The next request in a processing order without repetitions is not among those before it,
      and extends them. */
  lemma NextInOrder(order: seq<nat>, k: nat)
    requires Distinct(order) && k < |order|
    ensures order[k] !in order[..k] && order[..k + 1] == order[..k] + [order[k]]
  {
    assert forall j :: 0 <= j < k ==> order[..k][j] == order[j] != order[k];
  }

  /** Once a processing order that lists every request is deployed and routed, so is every
      request. */
  lemma EveryRequestDeployed(order: seq<nat>, n: nat, p: Placement, flows: map<nat, Matrix>)
    requires forall j :: 0 <= j < |order| ==> order[j] < |p| && order[j] in flows
    requires n <= |p| && forall rid :: 0 <= rid < n ==> rid in order
    requires DeployedUpTo(p, order, |order|)
    ensures forall rid :: 0 <= rid < n ==> rid in flows && Placed(p[rid])
  {
    forall rid | 0 <= rid < n
      ensures rid in flows && Placed(p[rid])
    {
      assert rid in order;
      var j :| 0 <= j < |order| && order[j] == rid;
    }
  }

  class Deployment {
    const cfg: Config
    const nodeAvail: seq<real>
    const requests: seq<Request>
    /** Every node's CPU before any instance was created, and the bandwidth matrix the run began
        with. */
    ghost const budget: seq<int>
    ghost const origin: Matrix

    var cpu: seq<int>
    var hosted: seq<seq<InstanceRef>>
    var registry: seq<seq<Instance>>
    var count: seq<nat>
    var placement: Placement
    var bandwidth: Matrix
    var flows: map<nat, Matrix>
    /** The requests routed so far, in routing order. */
    ghost var routed: seq<nat>

    function Snapshot(): State
      reads this
    {
      State(cpu, hosted, registry, count, placement)
    }

    function Current(): Run
      reads this
    {
      Run(Snapshot(), bandwidth, flows)
    }

    /** The state invariant, and the residual bandwidth being the original bandwidth minus every
        routed flow, one after the other. */
    ghost predicate Valid()
      reads this
      ensures Valid() ==> Fits(Snapshot(), cfg, requests) && |nodeAvail| == |cpu|
    {
      && WellFormed(cfg, requests)
      && |budget| == |nodeAvail|
      && Consistent(Snapshot(), cfg, budget, Chains(requests))
      && IsSquare(origin, |nodeAvail|)
      && Ledger(origin, routed, flows, bandwidth, |requests|)
    }

    /** Nothing placed and nothing routed yet. */
    ghost predicate Pristine()
      reads this
    {
      && routed == [] && flows == map[]
      && forall r, s :: 0 <= r < |placement| && 0 <= s < |placement[r]| ==> placement[r][s] == map[]
    }

    /** Once every request has been routed, and the routing order deployed, every request has a
        flow and a node at every stage. */
    lemma EveryRequestRouted()
      requires Valid() && forall rid :: 0 <= rid < |requests| ==> rid in routed
      requires DeployedUpTo(placement, routed, |routed|)
      ensures forall rid :: 0 <= rid < |requests| ==> rid in flows && Placed(placement[rid])
    {
      EveryRequestDeployed(routed, |requests|, placement, flows);
    }

    /** The start of a run: nodes host no instance, the registry and the counters are empty, every
        stage of every request has an empty placement, and the residual bandwidth is the input. */
    constructor (cfg: Config, nodeCpu: seq<int>, nodeAvail: seq<real>, requests: seq<Request>, bandwidth: Matrix)
      requires WellFormed(cfg, requests) && |nodeCpu| == |nodeAvail| && IsSquare(bandwidth, |nodeAvail|)
      ensures Valid() && Pristine()
      ensures this.cfg == cfg && this.nodeAvail == nodeAvail && this.requests == requests
      ensures cpu == nodeCpu && this.bandwidth == bandwidth && origin == bandwidth
      ensures hosted == seq(|nodeCpu|, v => []) && |placement| == |requests|
      ensures registry == seq(cfg.TypeCount(), t => []) && count == seq(cfg.TypeCount(), t => 0)
    {
      this.cfg := cfg;
      this.nodeAvail := nodeAvail;
      this.requests := requests;
      budget := nodeCpu;
      origin := bandwidth;
      cpu := nodeCpu;
      hosted := seq(|nodeCpu|, v => []);
      registry := seq(cfg.TypeCount(), t => []);
      count := seq(cfg.TypeCount(), t => 0);
      placement := EmptyPlacement(requests);
      this.bandwidth := bandwidth;
      flows := map[];
      routed := [];
      new;
      assert FlowList(routed, flows) == [];
    }

    /** The scan of the stage placer: the position of the first candidate that hosts a reusable
        instance of type `nf` or has more CPU than the type needs, and at that candidate, the
        position of the last reusable instance in its list, if any. */
    method ScanCandidates(nf: nat, cand: seq<nat>) returns (k: Option<nat>, same: Option<nat>)
      requires Shaped(Snapshot(), cfg, |cpu|) && nf < cfg.TypeCount() && NodesIn(cand, |cpu|)
      ensures k == FirstAdmitting(Snapshot(), cfg, nf, cand)
      ensures k.Some? ==> same == LastReusable(hosted[cand[k.value]], registry, nf)
    {
      for p := 0 to |cand|
        invariant forall j :: 0 <= j < p ==> !Admits(Snapshot(), cfg, cand[j], nf)
      {
        var v := cand[p];
        same := FindReusable(hosted[v], registry, nf);
        if same.Some? || cpu[v] > cfg.cpuReq[nf] {
          FirstAdmittingAt(Snapshot(), cfg, nf, cand, p);
          return Some(p), same;
        }
      }
      return None, None;
    }

    /** Registers instance `inst` at node `v` for stage `i` of request `rid`. */
    method Record(rid: nat, i: nat, v: nat, inst: InstanceRef)
      requires Slot(placement, rid, i)
      modifies this
      ensures placement == Assign(old(placement), rid, i, v, inst)
      ensures cpu == old(cpu) && hosted == old(hosted) && registry == old(registry) && count == old(count)
      ensures bandwidth == old(bandwidth) && flows == old(flows) && routed == old(routed)
    {
      placement := placement[rid := placement[rid][i := placement[rid][i][v := inst]]];
    }

    /** Creates an instance of type `nf` on node `v`, numbered by the type's counter, and registers
        it for stage `i` of request `rid`, in the registry and with the node, whose CPU it debits. */
    method Create(rid: nat, i: nat, v: nat, nf: nat) returns (inst: InstanceRef)
      requires Shaped(Snapshot(), cfg, |cpu|) && Slot(placement, rid, i) && v < |cpu| && nf < cfg.TypeCount()
      modifies this
      ensures inst == InstanceRef(nf, old(count[nf]))
      ensures Snapshot() == WithNewInstance(old(Snapshot()), cfg, v, nf).(placement := Assign(old(placement), rid, i, v, inst))
      ensures bandwidth == old(bandwidth) && flows == old(flows) && routed == old(routed)
    {
      inst := InstanceRef(nf, count[nf]);
      count := count[nf := count[nf] + 1];
      Record(rid, i, v, inst);
      registry := registry[nf := registry[nf] + [Instance(inst.id, nf, v, cfg.initialCapacity[nf])]];
      cpu := cpu[v := cpu[v] - cfg.cpuReq[nf]];
      hosted := hosted[v := hosted[v] + [inst]];
    }

    /** The stage placer for stage `i` of request `rid`: at the first candidate that hosts a
        reusable instance of the stage's type, use the last such instance; else, at the first
        candidate with more CPU than the type needs, create an instance there. */
    method PlaceStage(rid: nat, i: nat, cand: seq<nat>) returns (res: Result<Choice>)
      requires Valid() && rid < |requests| && i < |requests[rid].chain| && NodesIn(cand, |cpu|)
      modifies this
      ensures Valid() && OnlyTouches(old(placement), placement, rid)
      ensures bandwidth == old(bandwidth) && flows == old(flows) && routed == old(routed)
      ensures var spec := Place(old(Snapshot()), cfg, rid, i, requests[rid].chain[i], cand);
        && (res.Ok? <==> spec.Ok?)
        && (spec.Ok? ==> res.value == spec.value.choice && Snapshot() == spec.value.after)
        && (spec.Err? ==> res == Err(NoCpu) && Snapshot() == old(Snapshot()))
    {
      var nf := requests[rid].chain[i];
      ghost var st := Snapshot();
      PlacePreservesConsistency(st, cfg, budget, Chains(requests), rid, i, cand);
      var k, same := ScanCandidates(nf, cand);
      if k.None? {
        return Err(NoCpu);
      }
      var v := cand[k.value];
      if same.Some? {
        var inst := hosted[v][same.value];
        Record(rid, i, v, inst);
        return Ok(Reused(v, inst));
      }
      var inst := Create(rid, i, v, nf);
      return Ok(Created(v, inst));
    }

    /** The first pass over request `rid`: one placement per stage, in chain order. */
    method InitialPass(rid: nat, cand: seq<nat>) returns (res: Result<()>)
      requires Valid() && rid < |requests| && NodesIn(cand, |cpu|)
      modifies this
      ensures Valid() && OnlyTouches(old(placement), placement, rid)
      ensures bandwidth == old(bandwidth) && flows == old(flows) && routed == old(routed)
      ensures var spec := PlaceChain(old(Snapshot()), cfg, rid, requests[rid].chain, 0, cand);
        && (res.Ok? <==> spec.Ok?)
        && (spec.Ok? ==> Snapshot() == spec.value)
        && (spec.Err? ==> res.error == spec.error)
      ensures res.Ok? && Unplaced(old(placement[rid])) ==> Placed(placement[rid])
    {
      var chain := requests[rid].chain;
      ghost var st := Snapshot();
      for i := 0 to |chain|
        invariant Valid() && |cpu| == |st.cpu| && OnlyTouches(old(placement), placement, rid)
        invariant bandwidth == old(bandwidth) && flows == old(flows) && routed == old(routed)
        invariant PlaceChain(st, cfg, rid, chain, 0, cand) == PlaceChain(Snapshot(), cfg, rid, chain, i, cand)
      {
        var r := PlaceStage(rid, i, cand);
        if r.Err? {
          return Err(r.error);
        }
      }
      if Unplaced(st.placement[rid]) {
        PlaceChainFillsStages(st, cfg, rid, chain, 0, cand);
        FilledIsPlaced(st.placement, placement, rid, chain, cand);
      }
      return Ok(());
    }

    /** Adds a replica to stage `i` of request `rid`, scanning the nodes the replica helper
        offers. */
    method AddReplica(rid: nat, i: int, nodes: ReplicaNodes) returns (res: Result<Choice>)
      requires Valid() && rid < |requests|
      modifies this
      ensures Valid() && OnlyTouches(old(placement), placement, rid)
      ensures bandwidth == old(bandwidth) && flows == old(flows) && routed == old(routed)
      ensures var spec := Replica(old(Snapshot()), cfg, bandwidth, requests[rid], rid, i, nodes);
        && (res.Ok? <==> spec.Ok?)
        && (spec.Ok? ==> res.value == spec.value.choice && Snapshot() == spec.value.after)
        && (spec.Err? ==> res.error == spec.error && Snapshot() == old(Snapshot()))
    {
      if i < 0 || i >= |requests[rid].chain| {
        return Err(StageOutOfRange);
      }
      var cand := nodes(bandwidth, requests[rid], Snapshot(), i);
      if !NodesIn(cand, |cpu|) {
        return Err(NodeOutOfRange);
      }
      res := PlaceStage(rid, i, cand);
    }

    /** A bottleneck loop for request `rid`, starting from the helper's answer `first`. */
    method ResolveBottleneck(rid: nat, first: int, probe: Probe, nodes: ReplicaNodes, fuel: nat) returns (res: Result<()>)
      requires Valid() && rid < |requests|
      modifies this
      ensures Valid() && OnlyTouches(old(placement), placement, rid)
      ensures bandwidth == old(bandwidth) && flows == old(flows) && routed == old(routed)
      ensures var spec := Resolve(old(Snapshot()), cfg, bandwidth, requests[rid], rid, first, probe, nodes, fuel);
        && (res.Ok? <==> spec.Ok?)
        && (spec.Ok? ==> Snapshot() == spec.value)
        && (spec.Err? ==> res.error == spec.error)
      ensures res.Ok? ==> Grows(old(Snapshot()), Snapshot(), rid)
    {
      var req := requests[rid];
      ghost var bw := bandwidth;
      ghost var st0 := Snapshot();
      ghost var goal := Resolve(Snapshot(), cfg, bw, req, rid, first, probe, nodes, fuel);
      var idx := first;
      var left := fuel;
      ghost var cur := Snapshot();
      while idx > -1
        invariant Valid() && bandwidth == bw && flows == old(flows) && routed == old(routed)
        invariant OnlyTouches(old(placement), placement, rid)
        invariant cur == Snapshot() && Ready(cur, cfg, req, rid)
        invariant goal == Resolve(cur, cfg, bw, req, rid, idx, probe, nodes, left)
        decreases left
      {
        if left == 0 {
          return Err(BottleneckUnresolved);
        }
        var r := AddReplica(rid, idx, nodes);
        if r.Err? {
          ResolveRoundFails(cur, cfg, bw, req, rid, idx, probe, nodes, left);
          return Err(r.error);
        }
        ghost var next := Snapshot();
        var idx' := probe(req, Snapshot());
        var left' := left - 1;
        ResolveRoundAdvances(cur, cfg, bw, req, rid, idx, probe, nodes, left, next, idx', left', goal);
        idx, left, cur := idx', left', next;
      }
      ResolveGrows(st0, cfg, bw, req, rid, first, probe, nodes, fuel);
      return Ok(());
    }

    /** Routes request `rid` over the residual bandwidth, stores its flow matrix under its id and
        subtracts the flow from the residual bandwidth. */
    method Route(rid: nat, route: Router) returns (res: Result<()>)
      requires Valid() && rid < |requests| && rid !in routed
      modifies this
      ensures Valid() && Snapshot() == old(Snapshot())
      ensures var f := route(old(bandwidth), requests[rid], old(placement));
        if SameShape(old(bandwidth), f) then
          && res.Ok?
          && flows == old(flows)[rid := f]
          && bandwidth == Subtract(old(bandwidth), f)
          && routed == old(routed) + [rid]
        else
          res == Err(FlowShapeMismatch) && bandwidth == old(bandwidth) && flows == old(flows) && routed == old(routed)
    {
      var f := route(bandwidth, requests[rid], placement);
      if !SameShape(bandwidth, f) {
        return Err(FlowShapeMismatch);
      }
      LedgerAppend(origin, routed, flows, bandwidth, |requests|, rid, f);
      flows := flows[rid := f];
      bandwidth := Subtract(bandwidth, f);
      routed := routed + [rid];
      return Ok(());
    }
  }
}
