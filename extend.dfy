/** The "extend" deployment engine. Requests are deployed one at a time, highest rank first. For
    each request: rank the candidate nodes over the current residual bandwidth, place one instance
    per stage, then add replicas while the availability helper names a bottleneck stage, then
    while the capacity helper does, and finally route the request and subtract its flow from the
    residual bandwidth. The capacity helper's first answer is taken before any availability
    replica is added and is not refreshed until the capacity loop's first round. */
module ExtendAlgorithm {
  import opened Network
  import opened Sorting
  import opened Ranking
  import opened Candidates
  import opened Placer
  import opened Bottleneck
  import opened DeploymentState

  /** The helpers the engine consults, and the bound on each bottleneck loop's rounds. */
  datatype Oracles = Oracles(distance: Distance, getAvail: Probe, getRestCapacity: Probe,
                             nodes: ReplicaNodes, route: Router, fuel: nat)

  /** The replica phase from the state `st1` the first pass left: both helpers are asked on `st1`;
      the availability loop runs from the first answer, then the capacity loop from the second. */
  function Reinforce(st1: State, cfg: Config, bw: Matrix, req: Request, rid: nat, o: Oracles): (res: Result<State>)
    requires Ready(st1, cfg, req, rid)
    ensures res.Ok? ==> Ready(res.value, cfg, req, rid) && |res.value.cpu| == |st1.cpu|
  {
    var capIdx := o.getRestCapacity(req, st1);
    match Resolve(st1, cfg, bw, req, rid, o.getAvail(req, st1), o.getAvail, o.nodes, o.fuel)
    case Err(e) => Err(e)
    case Ok(st2) => Resolve(st2, cfg, bw, req, rid, capIdx, o.getRestCapacity, o.nodes, o.fuel)
  }

  /** Deploying request `rid` from state `st` over the residual bandwidth `bw`: first pass,
      replica phase, routing. */
  function ExtendStep(st: State, cfg: Config, bw: Matrix, avail: seq<real>, req: Request, rid: nat,
                      o: Oracles): (res: Result<Deployed>)
    requires Ready(st, cfg, req, rid) && |avail| == |st.cpu|
    ensures res.Ok? ==> Ready(res.value.after, cfg, req, rid) && |res.value.after.cpu| == |st.cpu|
    ensures res.Ok? ==> SameShape(bw, res.value.flow)
  {
    match FirstPass(st, cfg, bw, avail, req, rid, o.distance)
    case Err(e) => Err(e)
    case Ok(st1) =>
      match Reinforce(st1, cfg, bw, req, rid, o)
      case Err(e) => Err(e)
      case Ok(st3) => Routed(st3, bw, req, o.route)
  }

  /** A request's deployment only adds to its own placement. */
  lemma ExtendStepGrows(st: State, cfg: Config, bw: Matrix, avail: seq<real>, req: Request, rid: nat, o: Oracles)
    requires Ready(st, cfg, req, rid) && |avail| == |st.cpu|
    ensures var res := ExtendStep(st, cfg, bw, avail, req, rid, o);
      res.Ok? ==> Grows(st, res.value.after, rid)
  {
    var cand := CandidateOrder(DistanceSums(bw, req.src, req.dst, |avail|, o.distance), avail);
    var r1 := FirstPass(st, cfg, bw, avail, req, rid, o.distance);
    if r1.Ok? {
      var st1 := r1.value;
      PlaceChainGrows(st, cfg, rid, req.chain, 0, cand);
      var r2 := Resolve(st1, cfg, bw, req, rid, o.getAvail(req, st1), o.getAvail, o.nodes, o.fuel);
      ResolveGrows(st1, cfg, bw, req, rid, o.getAvail(req, st1), o.getAvail, o.nodes, o.fuel);
      if r2.Ok? {
        var capIdx := o.getRestCapacity(req, st1);
        var r3 := Resolve(r2.value, cfg, bw, req, rid, capIdx, o.getRestCapacity, o.nodes, o.fuel);
        ResolveGrows(r2.value, cfg, bw, req, rid, capIdx, o.getRestCapacity, o.nodes, o.fuel);
        if r3.Ok? {
          GrowsTransitive(st1, r2.value, r3.value, rid);
          GrowsTransitive(st, st1, r3.value, rid);
        }
      }
    }
  }

  /** A request whose stages were all empty ends with a node at every stage. */
  lemma ExtendStepPlaces(st: State, cfg: Config, bw: Matrix, avail: seq<real>, req: Request, rid: nat, o: Oracles)
    requires Ready(st, cfg, req, rid) && |avail| == |st.cpu| && Unplaced(st.placement[rid])
    ensures var res := ExtendStep(st, cfg, bw, avail, req, rid, o);
      res.Ok? ==> Placed(res.value.after.placement[rid])
  {
    var cand := CandidateOrder(DistanceSums(bw, req.src, req.dst, |avail|, o.distance), avail);
    var r1 := FirstPass(st, cfg, bw, avail, req, rid, o.distance);
    var res := ExtendStep(st, cfg, bw, avail, req, rid, o);
    if res.Ok? {
      PlaceChainFillsStages(st, cfg, rid, req.chain, 0, cand);
      FilledIsPlaced(st.placement, r1.value.placement, rid, req.chain, cand);
      ExtendStepGrows(st, cfg, bw, avail, req, rid, o);
      PlaceChainGrows(st, cfg, rid, req.chain, 0, cand);
      var st1 := r1.value;
      var r2 := Resolve(st1, cfg, bw, req, rid, o.getAvail(req, st1), o.getAvail, o.nodes, o.fuel);
      ResolveGrows(st1, cfg, bw, req, rid, o.getAvail(req, st1), o.getAvail, o.nodes, o.fuel);
      var capIdx := o.getRestCapacity(req, st1);
      ResolveGrows(r2.value, cfg, bw, req, rid, capIdx, o.getRestCapacity, o.nodes, o.fuel);
      GrowsTransitive(st1, r2.value, res.value.after, rid);
      GrowsKeepsPlaced(st1, res.value.after, rid);
    }
  }

  /** The capacity index is asked once before the availability loop: a successful deployment
      leaves a state on which the capacity helper reports no bottleneck, unless its answer on the
      first pass's state was already -1, in which case the capacity loop does not run at all.
      The availability helper reports no bottleneck on the state the availability loop leaves. */
  lemma ExtendStepSettles(st: State, cfg: Config, bw: Matrix, avail: seq<real>, req: Request, rid: nat, o: Oracles)
    requires Ready(st, cfg, req, rid) && |avail| == |st.cpu|
    ensures var res := ExtendStep(st, cfg, bw, avail, req, rid, o);
      res.Ok? ==>
        var st1 := FirstPass(st, cfg, bw, avail, req, rid, o.distance).value;
        var st2 := Resolve(st1, cfg, bw, req, rid, o.getAvail(req, st1), o.getAvail, o.nodes, o.fuel).value;
        && o.getAvail(req, st2) < 0
        && (o.getRestCapacity(req, res.value.after) < 0 ||
            (o.getRestCapacity(req, st1) < 0 && res.value.after == st2))
  {
    var res := ExtendStep(st, cfg, bw, avail, req, rid, o);
    if res.Ok? {
      var st1 := FirstPass(st, cfg, bw, avail, req, rid, o.distance).value;
      ResolveSettles(st1, cfg, bw, req, rid, o.getAvail(req, st1), o.getAvail, o.nodes, o.fuel);
      var st2 := Resolve(st1, cfg, bw, req, rid, o.getAvail(req, st1), o.getAvail, o.nodes, o.fuel).value;
      ResolveSettles(st2, cfg, bw, req, rid, o.getRestCapacity(req, st1), o.getRestCapacity, o.nodes, o.fuel);
    }
  }

  /** The engine's run over the requests of `order`, in order, from `run`, stopping at the first
      failure: each request is deployed from the state the previous one left, over the residual
      bandwidth it left, and its flow is stored under its id and subtracted. The run is split over
      three functions so that a proof unfolding it does not unfold a whole request's deployment. */
  function ExtendAll(run: Run, cfg: Config, avail: seq<real>, requests: seq<Request>, order: seq<nat>,
                     o: Oracles): (res: Result<Run>)
    requires Fits(run.st, cfg, requests) && |avail| == |run.st.cpu|
    requires forall j :: 0 <= j < |order| ==> order[j] < |requests|
    ensures res.Ok? ==> Fits(res.value.st, cfg, requests) && |res.value.st.cpu| == |run.st.cpu|
    decreases |order|, 2
  {
    if order == [] then Ok(run) else ExtendFirst(run, cfg, avail, requests, order, o)
  }

  /** The run over a non-empty order: its first request, looked up by id, then the rest. */
  function ExtendFirst(run: Run, cfg: Config, avail: seq<real>, requests: seq<Request>, order: seq<nat>,
                       o: Oracles): (res: Result<Run>)
    requires Fits(run.st, cfg, requests) && |avail| == |run.st.cpu|
    requires order != [] && forall j :: 0 <= j < |order| ==> order[j] < |requests|
    ensures res.Ok? ==> Fits(res.value.st, cfg, requests) && |res.value.st.cpu| == |run.st.cpu|
    decreases |order|, 1
  {
    ExtendRequest(run, cfg, avail, requests, requests[order[0]], order[0], order[1..], o)
  }

  /** Request `rid`, that is `req`, deployed from `run`, its flow stored and subtracted; then the
      run over `rest`. */
  function ExtendRequest(run: Run, cfg: Config, avail: seq<real>, requests: seq<Request>, req: Request, rid: nat,
                         rest: seq<nat>, o: Oracles): (res: Result<Run>)
    requires Fits(run.st, cfg, requests) && |avail| == |run.st.cpu|
    requires rid < |requests| && req == requests[rid]
    requires forall j :: 0 <= j < |rest| ==> rest[j] < |requests|
    ensures res.Ok? ==> Fits(res.value.st, cfg, requests) && |res.value.st.cpu| == |run.st.cpu|
    decreases |rest| + 1, 0
  {
    match ExtendStep(run.st, cfg, run.bw, avail, req, rid, o)
    case Err(e) => Err(e)
    case Ok(dep) =>
      ExtendStepGrows(run.st, cfg, run.bw, avail, req, rid, o);
      GrowsKeepsFits(run.st, dep.after, cfg, requests, rid);
      ExtendAll(Run(dep.after, Subtract(run.bw, dep.flow), run.flows[rid := dep.flow]), cfg, avail, requests, rest, o)
  }

  lemma ExtendAllFails(run: Run, cfg: Config, avail: seq<real>, requests: seq<Request>, order: seq<nat>,
                       o: Oracles, e: Error, goal: Result<Run>)
    requires Fits(run.st, cfg, requests) && |avail| == |run.st.cpu|
    requires forall j :: 0 <= j < |order| ==> order[j] < |requests|
    requires order != [] && goal == ExtendAll(run, cfg, avail, requests, order, o)
    requires var dep := ExtendStep(run.st, cfg, run.bw, avail, requests[order[0]], order[0], o);
      dep.Err? && dep.error == e
    ensures goal == Err(e)
  {
    assert goal == ExtendFirst(run, cfg, avail, requests, order, o)
      == ExtendRequest(run, cfg, avail, requests, requests[order[0]], order[0], order[1..], o);
  }

  lemma ExtendAllAdvances(run: Run, cfg: Config, avail: seq<real>, requests: seq<Request>, order: seq<nat>,
                          o: Oracles, next: Run, goal: Result<Run>)
    requires Fits(run.st, cfg, requests) && |avail| == |run.st.cpu|
    requires forall j :: 0 <= j < |order| ==> order[j] < |requests|
    requires order != [] && goal == ExtendAll(run, cfg, avail, requests, order, o)
    requires var dep := ExtendStep(run.st, cfg, run.bw, avail, requests[order[0]], order[0], o);
      dep.Ok? && next == Run(dep.value.after, Subtract(run.bw, dep.value.flow), run.flows[order[0] := dep.value.flow])
    ensures Fits(next.st, cfg, requests) && |avail| == |next.st.cpu|
    ensures goal == ExtendAll(next, cfg, avail, requests, order[1..], o)
  {
    assert goal == ExtendFirst(run, cfg, avail, requests, order, o)
      == ExtendRequest(run, cfg, avail, requests, requests[order[0]], order[0], order[1..], o);
    ExtendStepGrows(run.st, cfg, run.bw, avail, requests[order[0]], order[0], o);
    GrowsKeepsFits(run.st, next.st, cfg, requests, order[0]);
  }

  /** Deploys request `rid`: first pass, availability loop, capacity loop, routing. */
  method DeployRequest(d: Deployment, rid: nat, o: Oracles) returns (res: Result<()>)
    requires d.Valid() && rid < |d.requests| && rid !in d.routed && Unplaced(d.placement[rid])
    modifies d
    ensures d.Valid() && OnlyTouches(old(d.placement), d.placement, rid)
    ensures var spec := ExtendStep(old(d.Snapshot()), d.cfg, old(d.bandwidth), d.nodeAvail, d.requests[rid], rid, o);
      && (res.Ok? <==> spec.Ok?)
      && (spec.Ok? ==>
            && d.Snapshot() == spec.value.after
            && d.bandwidth == Subtract(old(d.bandwidth), spec.value.flow)
            && d.flows == old(d.flows)[rid := spec.value.flow]
            && d.routed == old(d.routed) + [rid])
      && (spec.Err? ==> res.error == spec.error)
    ensures res.Ok? ==> Placed(d.placement[rid])
  {
    var req := d.requests[rid];
    var cand := CandidateNodes(d.bandwidth, req.src, req.dst, d.nodeAvail, o.distance);
    var r := d.InitialPass(rid, cand);
    if r.Err? {
      return r;
    }
    ghost var st1 := d.Snapshot();
    r := ReplicaPhase(d, rid, o);
    if r.Err? {
      return r;
    }
    GrowsKeepsPlaced(st1, d.Snapshot(), rid);
    res := d.Route(rid, o.route);
  }

  /** The replica phase of request `rid`: both helpers are asked on the state the first pass left,
      then the availability loop runs from the first answer and the capacity loop from the second. */
  method ReplicaPhase(d: Deployment, rid: nat, o: Oracles) returns (res: Result<()>)
    requires d.Valid() && rid < |d.requests|
    modifies d
    ensures d.Valid() && OnlyTouches(old(d.placement), d.placement, rid)
    ensures d.bandwidth == old(d.bandwidth) && d.flows == old(d.flows) && d.routed == old(d.routed)
    ensures var spec := Reinforce(old(d.Snapshot()), d.cfg, d.bandwidth, d.requests[rid], rid, o);
      && (res.Ok? <==> spec.Ok?)
      && (spec.Ok? ==> d.Snapshot() == spec.value)
      && (spec.Err? ==> res.error == spec.error)
    ensures res.Ok? ==> Grows(old(d.Snapshot()), d.Snapshot(), rid)
  {
    var req := d.requests[rid];
    var availIdx := o.getAvail(req, d.Snapshot());
    var capIdx := o.getRestCapacity(req, d.Snapshot());
    ghost var st1 := d.Snapshot();
    res := d.ResolveBottleneck(rid, availIdx, o.getAvail, o.nodes, o.fuel);
    if res.Err? {
      return;
    }
    ghost var st2 := d.Snapshot();
    res := d.ResolveBottleneck(rid, capIdx, o.getRestCapacity, o.nodes, o.fuel);
    if res.Ok? {
      GrowsTransitive(st1, st2, d.Snapshot(), rid);
    }
  }

  /** Deploys the request at position `k` of `order`, the requests before it being deployed: the
      engine's run from the new state over the rest of the order ends where the run from the old
      state over the order from `k` does. */
  method DeployNext(d: Deployment, order: seq<nat>, k: nat, o: Oracles) returns (res: Result<()>)
    requires d.Valid() && Distinct(order) && k < |order| && d.routed == order[..k]
    requires forall j :: 0 <= j < |order| ==> order[j] < |d.requests|
    requires DeployedUpTo(d.placement, order, k)
    modifies d
    ensures d.Valid() && |d.placement| == |d.requests|
    ensures var spec := ExtendAll(old(d.Current()), d.cfg, d.nodeAvail, d.requests, order[k..], o);
      && (res.Err? ==> spec == Err(res.error))
      && (res.Ok? ==> spec == ExtendAll(d.Current(), d.cfg, d.nodeAvail, d.requests, order[k + 1..], o))
    ensures res.Ok? ==> d.routed == order[..k + 1] && DeployedUpTo(d.placement, order, k + 1)
  {
    var rid := order[k];
    NextInOrder(order, k);
    ghost var goal := ExtendAll(d.Current(), d.cfg, d.nodeAvail, d.requests, order[k..], o);
    ghost var p0 := d.placement;
    ghost var run := d.Current();
    res := DeployRequest(d, rid, o);
    if res.Err? {
      ExtendAllFails(run, d.cfg, d.nodeAvail, d.requests, order[k..], o, res.error, goal);
      return res;
    }
    ExtendAllAdvances(run, d.cfg, d.nodeAvail, d.requests, order[k..], o, d.Current(), goal);
    assert order[k..][1..] == order[k + 1..];
    DeployedUpToStep(p0, d.placement, order, k);
  }

  /** Deploys the requests in the given order, stopping at the first failure. */
  method DeployInOrder(d: Deployment, order: seq<nat>, o: Oracles) returns (res: Result<()>)
    requires d.Valid() && d.routed == [] && Distinct(order)
    requires forall j :: 0 <= j < |order| ==> order[j] < |d.requests|
    requires DeployedUpTo(d.placement, order, 0)
    modifies d
    ensures d.Valid()
    ensures var spec := ExtendAll(old(d.Current()), d.cfg, d.nodeAvail, d.requests, order, o);
      && (res.Ok? <==> spec.Ok?)
      && (spec.Ok? ==> d.Current() == spec.value)
      && (spec.Err? ==> res.error == spec.error)
    ensures res.Ok? ==> d.routed == order && DeployedUpTo(d.placement, order, |order|)
  {
    ghost var goal := ExtendAll(d.Current(), d.cfg, d.nodeAvail, d.requests, order, o);
    assert order[0..] == order;
    res := Ok(());
    for k := 0 to |order|
      invariant d.Valid() && |d.placement| == |d.requests| && d.routed == order[..k]
      invariant DeployedUpTo(d.placement, order, k)
      invariant goal == ExtendAll(d.Current(), d.cfg, d.nodeAvail, d.requests, order[k..], o) && res.Ok?
    {
      res := DeployNext(d, order, k, o);
      if res.Err? {
        return res;
      }
    }
    assert order[..|order|] == order;
    assert order[|order|..] == [];
  }

  /** The engine: ranks the requests, then deploys them in rank order. On success the state, the
      residual bandwidth and the stored flows are those of `ExtendAll` over the rank order, every
      request has a flow matrix and every stage of every request at least one node. */
  method ExtendDeploy(d: Deployment, o: Oracles) returns (res: Result<()>)
    requires d.Valid() && d.Pristine()
    modifies d
    ensures d.Valid()
    ensures Ranks(d.requests).Err? ==> res == Err(Ranks(d.requests).error)
    ensures Ranks(d.requests).Ok? ==>
      var spec := ExtendAll(old(d.Current()), d.cfg, d.nodeAvail, d.requests, RankOrder(Ranks(d.requests).value), o);
      && (res.Ok? <==> spec.Ok?)
      && (spec.Ok? ==> d.Current() == spec.value)
      && (spec.Err? ==> res == Err(spec.error))
    ensures res.Ok? ==> Ranks(d.requests).Ok? && d.routed == RankOrder(Ranks(d.requests).value)
    ensures res.Ok? ==> forall rid :: 0 <= rid < |d.requests| ==> rid in d.flows && Placed(d.placement[rid])
  {
    var order := ProcessingOrder(d.requests);
    if order.Err? {
      return Err(order.error);
    }
    res := DeployInOrder(d, order.value, o);
    if res.Ok? {
      d.EveryRequestRouted();
    }
  }
}
