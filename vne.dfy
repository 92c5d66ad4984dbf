/** The "VNE" deployment engine. Requests are deployed one at a time, highest rank first. For each
    request: derive a per-type instance target from the request's availability demand and the
    least node availability, rank the candidate nodes over the current residual bandwidth, place
    one instance per stage, then give every stage whose NF type has fewer instances than the target
    one replica, then add replicas while the capacity helper names a bottleneck stage, and finally
    route the request and subtract its flow from the residual bandwidth. */
module VneAlgorithm {
  import opened Numbers
  import opened Network
  import opened Sorting
  import opened Ranking
  import opened Candidates
  import opened Placer
  import opened Bottleneck
  import opened DeploymentState

  /** The availability every node can be relied on for: the least node availability. (The name
      speaks of an average; the value is the minimum.) */
  function AvgNodeAvail(avail: seq<real>): (r: Result<real>)
    ensures r.Ok? <==> |avail| > 0
    ensures r.Err? ==> r.error == NoNodes
    ensures r.Ok? ==> r.value in avail && forall x :: x in avail ==> r.value <= x
  {
    if |avail| == 0 then Err(NoNodes) else Ok(Min(avail))
  }

  /** The per-type instance target: from the request's availability demand, its chain length and
      the node availability, the ceiling of a logarithm in floating point. */
  type ReplicaTarget = (real, nat, real) -> int

  /** The helpers the engine consults, and the bound on the capacity loop's rounds. */
  datatype Oracles = Oracles(distance: Distance, targetOf: ReplicaTarget, getRestCapacity: Probe,
                             nodes: ReplicaNodes, route: Router, fuel: nat)

  /** The top-up pass over stages `i` to `j - 1`: a stage gets one replica when its NF type has
      fewer instances than `target` at the moment the pass reaches it. */
  function TopUpRange(st: State, cfg: Config, bw: Matrix, req: Request, rid: nat, target: int,
                      nodes: ReplicaNodes, i: nat, j: nat): (res: Result<State>)
    requires Ready(st, cfg, req, rid) && i <= j <= |req.chain|
    ensures res.Ok? ==> Ready(res.value, cfg, req, rid) && |res.value.cpu| == |st.cpu|
    decreases j - i
  {
    if i == j then Ok(st)
    else if st.count[req.chain[i]] < target then
      match Replica(st, cfg, bw, req, rid, i, nodes)
      case Err(e) => Err(e)
      case Ok(step) => TopUpRange(step.after, cfg, bw, req, rid, target, nodes, i + 1, j)
    else TopUpRange(st, cfg, bw, req, rid, target, nodes, i + 1, j)
  }

  /** The top-up pass from stage `i` to the end of the chain. */
  function TopUp(st: State, cfg: Config, bw: Matrix, req: Request, rid: nat, target: int,
                 nodes: ReplicaNodes, i: nat): (res: Result<State>)
    requires Ready(st, cfg, req, rid) && i <= |req.chain|
    ensures res.Ok? ==> Ready(res.value, cfg, req, rid) && |res.value.cpu| == |st.cpu|
  {
    TopUpRange(st, cfg, bw, req, rid, target, nodes, i, |req.chain|)
  }

  // TopUpFails, TopUpReplicates and TopUpSkips each unfold one round of the pass; they are the
  // loop-proof steps of `TopUpPass`, not properties of the top-up.

  lemma TopUpFails(st: State, cfg: Config, bw: Matrix, req: Request, rid: nat, target: int,
                   nodes: ReplicaNodes, i: nat)
    requires Ready(st, cfg, req, rid) && i < |req.chain| && st.count[req.chain[i]] < target
    requires Replica(st, cfg, bw, req, rid, i, nodes).Err?
    ensures TopUp(st, cfg, bw, req, rid, target, nodes, i) == Err(Replica(st, cfg, bw, req, rid, i, nodes).error)
  {
  }

  lemma TopUpReplicates(st: State, cfg: Config, bw: Matrix, req: Request, rid: nat, target: int,
                        nodes: ReplicaNodes, i: nat, i': nat, next: State, goal: Result<State>)
    requires Ready(st, cfg, req, rid) && i < |req.chain| && i' == i + 1 && st.count[req.chain[i]] < target
    requires Replica(st, cfg, bw, req, rid, i, nodes).Ok? && next == Replica(st, cfg, bw, req, rid, i, nodes).value.after
    requires goal == TopUp(st, cfg, bw, req, rid, target, nodes, i)
    ensures Ready(next, cfg, req, rid) && goal == TopUp(next, cfg, bw, req, rid, target, nodes, i')
  {
  }

  lemma TopUpSkips(st: State, cfg: Config, bw: Matrix, req: Request, rid: nat, target: int,
                   nodes: ReplicaNodes, i: nat, i': nat, goal: Result<State>)
    requires Ready(st, cfg, req, rid) && i < |req.chain| && i' == i + 1 && st.count[req.chain[i]] >= target
    requires goal == TopUp(st, cfg, bw, req, rid, target, nodes, i)
    ensures goal == TopUp(st, cfg, bw, req, rid, target, nodes, i')
  {
  }

  /** A replica either reuses an instance, leaving every counter as it is, or creates one of the
      stage's type, raising that type's counter by one. */
  lemma ReplicaCount(st: State, cfg: Config, bw: Matrix, req: Request, rid: nat, i: int, nodes: ReplicaNodes)
    requires Ready(st, cfg, req, rid)
    requires Replica(st, cfg, bw, req, rid, i, nodes).Ok?
    ensures 0 <= i < |req.chain|
    ensures var after := Replica(st, cfg, bw, req, rid, i, nodes).value.after;
      var nf := req.chain[i];
      after.count == st.count || after.count == st.count[nf := st.count[nf] + 1]
  {
    var cand := nodes(bw, req, st, i);
    if Place(st, cfg, rid, i, req.chain[i], cand).value.choice.Reused? {
      PlaceReuses(st, cfg, rid, i, req.chain[i], cand);
    } else {
      PlaceCreates(st, cfg, rid, i, req.chain[i], cand);
    }
  }

  /** The top-up pass never takes a type's instance count past the target: a counter either ends
      where it started or at most at the target. */
  lemma {:induction false} TopUpCountBound(st: State, cfg: Config, bw: Matrix, req: Request, rid: nat,
                                           target: int, nodes: ReplicaNodes, i: nat)
    requires Ready(st, cfg, req, rid) && i <= |req.chain|
    ensures var res := TopUp(st, cfg, bw, req, rid, target, nodes, i);
      res.Ok? ==> (|res.value.count| == |st.count| &&
        forall t :: 0 <= t < |st.count| ==> res.value.count[t] <= st.count[t] || res.value.count[t] <= target)
    decreases |req.chain| - i
  {
    if i < |req.chain| {
      var nf := req.chain[i];
      if st.count[nf] < target {
        var step := Replica(st, cfg, bw, req, rid, i, nodes);
        if step.Ok? {
          ReplicaCount(st, cfg, bw, req, rid, i, nodes);
          TopUpCountBound(step.value.after, cfg, bw, req, rid, target, nodes, i + 1);
        }
      } else {
        TopUpCountBound(st, cfg, bw, req, rid, target, nodes, i + 1);
      }
    }
  }

  /** When every remaining stage's type already has `target` instances, the pass changes nothing. */
  lemma {:induction false} TopUpNoop(st: State, cfg: Config, bw: Matrix, req: Request, rid: nat,
                                     target: int, nodes: ReplicaNodes, i: nat)
    requires Ready(st, cfg, req, rid) && i <= |req.chain|
    requires forall s :: i <= s < |req.chain| ==> st.count[req.chain[s]] >= target
    ensures TopUp(st, cfg, bw, req, rid, target, nodes, i) == Ok(st)
    decreases |req.chain| - i
  {
    if i < |req.chain| {
      TopUpNoop(st, cfg, bw, req, rid, target, nodes, i + 1);
    }
  }

  /** The pass only adds: no request but `rid` is touched, no stage of `rid` loses a node, and
      counters and registries only grow. */
  lemma {:induction false} TopUpGrows(st: State, cfg: Config, bw: Matrix, req: Request, rid: nat,
                                      target: int, nodes: ReplicaNodes, i: nat)
    requires Ready(st, cfg, req, rid) && i <= |req.chain|
    ensures var res := TopUp(st, cfg, bw, req, rid, target, nodes, i);
      res.Ok? ==> Grows(st, res.value, rid)
    decreases |req.chain| - i
  {
    if i < |req.chain| {
      if st.count[req.chain[i]] < target {
        var step := Replica(st, cfg, bw, req, rid, i, nodes);
        if step.Ok? {
          ReplicaGrows(st, cfg, bw, req, rid, i, nodes);
          TopUpGrows(step.value.after, cfg, bw, req, rid, target, nodes, i + 1);
          var res := TopUp(st, cfg, bw, req, rid, target, nodes, i);
          if res.Ok? {
            GrowsTransitive(st, step.value.after, res.value, rid);
          }
        }
      } else {
        TopUpGrows(st, cfg, bw, req, rid, target, nodes, i + 1);
      }
    }
  }

  /** A successful replica at stage `i` is the placer's step over the nodes the helper offers:
      one entry, at an offered node, naming an instance of the stage's type. */
  lemma ReplicaEntry(st: State, cfg: Config, bw: Matrix, req: Request, rid: nat, i: int, nodes: ReplicaNodes)
    requires Ready(st, cfg, req, rid)
    requires Replica(st, cfg, bw, req, rid, i, nodes).Ok?
    ensures 0 <= i < |req.chain| && NodesIn(nodes(bw, req, st, i), |st.cpu|)
    ensures var step := Replica(st, cfg, bw, req, rid, i, nodes).value;
      var cand := nodes(bw, req, st, i);
      && Place(st, cfg, rid, i, req.chain[i], cand) == Ok(step)
      && step.choice.node in cand && step.choice.inst.nf == req.chain[i]
      && step.after.placement == Assign(st.placement, rid, i, step.choice.node, step.choice.inst)
  {
    PlaceEntry(st, cfg, rid, i, req.chain[i], nodes(bw, req, st, i));
  }

  /** Running the pass to stage `j` and then on to stage `k` is running it to stage `k`. */
  lemma {:induction false} TopUpRangeSplits(st: State, cfg: Config, bw: Matrix, req: Request, rid: nat,
                                            target: int, nodes: ReplicaNodes, i: nat, j: nat, k: nat)
    requires Ready(st, cfg, req, rid) && i <= j <= k <= |req.chain|
    ensures var mid := TopUpRange(st, cfg, bw, req, rid, target, nodes, i, j);
      && (mid.Err? ==> TopUpRange(st, cfg, bw, req, rid, target, nodes, i, k) == Err(mid.error))
      && (mid.Ok? ==> TopUpRange(st, cfg, bw, req, rid, target, nodes, i, k)
                      == TopUpRange(mid.value, cfg, bw, req, rid, target, nodes, j, k))
    decreases j - i
  {
    if i < j {
      if st.count[req.chain[i]] < target {
        var step := Replica(st, cfg, bw, req, rid, i, nodes);
        if step.Ok? {
          TopUpRangeSplits(step.value.after, cfg, bw, req, rid, target, nodes, i + 1, j, k);
        }
      } else {
        TopUpRangeSplits(st, cfg, bw, req, rid, target, nodes, i + 1, j, k);
      }
    }
  }

  /** The pass over stages `i` to `j - 1` leaves every other stage of the request as it was. */
  lemma {:induction false} TopUpRangeFrame(st: State, cfg: Config, bw: Matrix, req: Request, rid: nat,
                                           target: int, nodes: ReplicaNodes, i: nat, j: nat)
    requires Ready(st, cfg, req, rid) && i <= j <= |req.chain|
    ensures var res := TopUpRange(st, cfg, bw, req, rid, target, nodes, i, j);
      res.Ok? ==> forall t :: 0 <= t < |req.chain| && (t < i || j <= t) ==>
        res.value.placement[rid][t] == st.placement[rid][t]
    decreases j - i
  {
    if i < j {
      if st.count[req.chain[i]] < target {
        var step := Replica(st, cfg, bw, req, rid, i, nodes);
        if step.Ok? {
          ReplicaEntry(st, cfg, bw, req, rid, i, nodes);
          TopUpRangeFrame(step.value.after, cfg, bw, req, rid, target, nodes, i + 1, j);
        }
      } else {
        TopUpRangeFrame(st, cfg, bw, req, rid, target, nodes, i + 1, j);
      }
    }
  }

  /** Over stages `i` to `j - 1` counters only rise, and only those of the types of those stages. */
  lemma {:induction false} TopUpRangeCounts(st: State, cfg: Config, bw: Matrix, req: Request, rid: nat,
                                            target: int, nodes: ReplicaNodes, i: nat, j: nat)
    requires Ready(st, cfg, req, rid) && i <= j <= |req.chain|
    ensures var res := TopUpRange(st, cfg, bw, req, rid, target, nodes, i, j);
      res.Ok? ==> |res.value.count| == |st.count| && forall t :: 0 <= t < |st.count| ==> st.count[t] <= res.value.count[t]
    ensures var res := TopUpRange(st, cfg, bw, req, rid, target, nodes, i, j);
      res.Ok? ==> forall t :: 0 <= t < |st.count| && (forall u :: i <= u < j ==> req.chain[u] != t) ==>
        res.value.count[t] == st.count[t]
    decreases j - i
  {
    if i < j {
      if st.count[req.chain[i]] < target {
        var step := Replica(st, cfg, bw, req, rid, i, nodes);
        if step.Ok? {
          ReplicaCount(st, cfg, bw, req, rid, i, nodes);
          TopUpRangeCounts(step.value.after, cfg, bw, req, rid, target, nodes, i + 1, j);
        }
      } else {
        TopUpRangeCounts(st, cfg, bw, req, rid, target, nodes, i + 1, j);
      }
    }
  }

  /** What a successful pass from stage `s` does to that stage: a stage whose type has at least
      `target` instances is left as it was; any other stage gains exactly the entry the placer
      picks over the nodes the helper offers. */
  lemma TopUpFirstStage(st: State, cfg: Config, bw: Matrix, req: Request, rid: nat, target: int,
                        nodes: ReplicaNodes, s: nat)
    requires Ready(st, cfg, req, rid) && s < |req.chain|
    requires TopUp(st, cfg, bw, req, rid, target, nodes, s).Ok?
    ensures var final := TopUp(st, cfg, bw, req, rid, target, nodes, s).value.placement[rid][s];
      && (st.count[req.chain[s]] >= target ==> final == st.placement[rid][s])
      && (st.count[req.chain[s]] < target ==>
            && NodesIn(nodes(bw, req, st, s), |st.cpu|)
            && var pick := Place(st, cfg, rid, s, req.chain[s], nodes(bw, req, st, s));
            && pick.Ok? && pick.value.choice.node in nodes(bw, req, st, s)
            && pick.value.choice.inst.nf == req.chain[s]
            && final == st.placement[rid][s][pick.value.choice.node := pick.value.choice.inst])
  {
    var n := |req.chain|;
    if st.count[req.chain[s]] < target {
      var step := Replica(st, cfg, bw, req, rid, s, nodes);
      assert step.Ok?;
      ReplicaEntry(st, cfg, bw, req, rid, s, nodes);
      TopUpRangeFrame(step.value.after, cfg, bw, req, rid, target, nodes, s + 1, n);
    } else {
      TopUpRangeFrame(st, cfg, bw, req, rid, target, nodes, s + 1, n);
    }
  }

  /** What a successful pass does to stage `s`, with `cur` the state the pass is in when it
      reaches that stage: a stage whose type has at least `target` instances then is left as it
      was; any other stage gains exactly the entry the placer picks over the nodes the helper
      offers in `cur`. */
  lemma TopUpAtStage(st: State, cfg: Config, bw: Matrix, req: Request, rid: nat, target: int,
                     nodes: ReplicaNodes, i: nat, s: nat)
    requires Ready(st, cfg, req, rid) && i <= s < |req.chain|
    requires TopUp(st, cfg, bw, req, rid, target, nodes, i).Ok?
    ensures TopUpRange(st, cfg, bw, req, rid, target, nodes, i, s).Ok?
    ensures var cur := TopUpRange(st, cfg, bw, req, rid, target, nodes, i, s).value;
      var final := TopUp(st, cfg, bw, req, rid, target, nodes, i).value.placement[rid][s];
      && (cur.count[req.chain[s]] >= target ==> final == st.placement[rid][s])
      && (cur.count[req.chain[s]] < target ==>
            && NodesIn(nodes(bw, req, cur, s), |cur.cpu|)
            && var pick := Place(cur, cfg, rid, s, req.chain[s], nodes(bw, req, cur, s));
            && pick.Ok? && pick.value.choice.node in nodes(bw, req, cur, s)
            && pick.value.choice.inst.nf == req.chain[s]
            && final == st.placement[rid][s][pick.value.choice.node := pick.value.choice.inst])
  {
    TopUpRangeSplits(st, cfg, bw, req, rid, target, nodes, i, s, |req.chain|);
    var cur := TopUpRange(st, cfg, bw, req, rid, target, nodes, i, s).value;
    TopUpRangeFrame(st, cfg, bw, req, rid, target, nodes, i, s);
    TopUpFirstStage(cur, cfg, bw, req, rid, target, nodes, s);
  }

  /** A stage whose type already has `target` instances when the pass starts is left as it was:
      counters only rise, so the type still has them when the pass reaches the stage. */
  lemma TopUpLeavesSaturated(st: State, cfg: Config, bw: Matrix, req: Request, rid: nat, target: int,
                             nodes: ReplicaNodes, i: nat, s: nat)
    requires Ready(st, cfg, req, rid) && i <= |req.chain| && s < |req.chain|
    requires st.count[req.chain[s]] >= target
    ensures var res := TopUp(st, cfg, bw, req, rid, target, nodes, i);
      res.Ok? ==> res.value.placement[rid][s] == st.placement[rid][s]
  {
    var res := TopUp(st, cfg, bw, req, rid, target, nodes, i);
    if res.Ok? {
      if s < i {
        TopUpRangeFrame(st, cfg, bw, req, rid, target, nodes, i, |req.chain|);
      } else {
        TopUpAtStage(st, cfg, bw, req, rid, target, nodes, i, s);
        TopUpRangeCounts(st, cfg, bw, req, rid, target, nodes, i, s);
      }
    }
  }

  /** Stage map `m1` is `m0`, or `m0` with one entry set to an instance of type `nf`. */
  predicate AtMostOneEntry(m0: map<nat, InstanceRef>, m1: map<nat, InstanceRef>, nf: nat)
  {
    m1 == m0 || exists v :: v in m1 && m1[v].nf == nf && m1 == m0[v := m1[v]]
  }

  /** The pass gives every stage at most one replica, of the stage's type. */
  lemma TopUpOneEntry(st: State, cfg: Config, bw: Matrix, req: Request, rid: nat, target: int,
                      nodes: ReplicaNodes, i: nat)
    requires Ready(st, cfg, req, rid) && i <= |req.chain|
    ensures var res := TopUp(st, cfg, bw, req, rid, target, nodes, i);
      res.Ok? ==> forall s :: 0 <= s < |req.chain| ==>
        AtMostOneEntry(st.placement[rid][s], res.value.placement[rid][s], req.chain[s])
  {
    var res := TopUp(st, cfg, bw, req, rid, target, nodes, i);
    if res.Ok? {
      forall s | 0 <= s < |req.chain|
        ensures AtMostOneEntry(st.placement[rid][s], res.value.placement[rid][s], req.chain[s])
      {
        if s < i {
          TopUpRangeFrame(st, cfg, bw, req, rid, target, nodes, i, |req.chain|);
        } else {
          TopUpAtStage(st, cfg, bw, req, rid, target, nodes, i, s);
          var cur := TopUpRange(st, cfg, bw, req, rid, target, nodes, i, s).value;
          if cur.count[req.chain[s]] < target {
            var v := Place(cur, cfg, rid, s, req.chain[s], nodes(bw, req, cur, s)).value.choice.node;
            assert v in res.value.placement[rid][s];
          }
        }
      }
    }
  }

  /** On a chain whose stages all have different types, every stage whose type has fewer than
      `target` instances when the pass starts gains the entry the placer picks over the nodes the
      helper offers when the pass reaches it. */
  lemma TopUpDistinctReplicates(st: State, cfg: Config, bw: Matrix, req: Request, rid: nat, target: int,
                                nodes: ReplicaNodes, i: nat, s: nat)
    requires Ready(st, cfg, req, rid) && i <= s < |req.chain|
    requires forall a, b :: 0 <= a < b < |req.chain| ==> req.chain[a] != req.chain[b]
    requires st.count[req.chain[s]] < target
    requires TopUp(st, cfg, bw, req, rid, target, nodes, i).Ok?
    ensures TopUpRange(st, cfg, bw, req, rid, target, nodes, i, s).Ok?
    ensures var cur := TopUpRange(st, cfg, bw, req, rid, target, nodes, i, s).value;
      var final := TopUp(st, cfg, bw, req, rid, target, nodes, i).value.placement[rid][s];
      && NodesIn(nodes(bw, req, cur, s), |cur.cpu|)
      && var pick := Place(cur, cfg, rid, s, req.chain[s], nodes(bw, req, cur, s));
      && pick.Ok?
      && final == st.placement[rid][s][pick.value.choice.node := pick.value.choice.inst]
  {
    TopUpAtStage(st, cfg, bw, req, rid, target, nodes, i, s);
    TopUpRangeCounts(st, cfg, bw, req, rid, target, nodes, i, s);
  }

  /** The top-up loop over the stages of request `rid`, proved to do what `TopUp` says. */
  method TopUpPass(d: Deployment, rid: nat, target: int, nodes: ReplicaNodes) returns (res: Result<()>)
    requires d.Valid() && rid < |d.requests|
    modifies d
    ensures d.Valid() && OnlyTouches(old(d.placement), d.placement, rid)
    ensures d.bandwidth == old(d.bandwidth) && d.flows == old(d.flows) && d.routed == old(d.routed)
    ensures var spec := TopUp(old(d.Snapshot()), d.cfg, d.bandwidth, d.requests[rid], rid, target, nodes, 0);
      && (res.Ok? <==> spec.Ok?)
      && (spec.Ok? ==> d.Snapshot() == spec.value)
      && (spec.Err? ==> res.error == spec.error)
    ensures res.Ok? ==> Grows(old(d.Snapshot()), d.Snapshot(), rid)
  {
    var req := d.requests[rid];
    ghost var bw := d.bandwidth;
    ghost var st0 := d.Snapshot();
    ghost var goal := TopUp(d.Snapshot(), d.cfg, bw, req, rid, target, nodes, 0);
    ghost var cur := d.Snapshot();
    var i := 0;
    while i < |req.chain|
      invariant i <= |req.chain|
      invariant d.Valid() && d.bandwidth == bw && d.flows == old(d.flows) && d.routed == old(d.routed)
      invariant OnlyTouches(old(d.placement), d.placement, rid)
      invariant cur == d.Snapshot() && Ready(cur, d.cfg, req, rid)
      invariant goal == TopUp(cur, d.cfg, bw, req, rid, target, nodes, i)
      decreases |req.chain| - i
    {
      var i' := i + 1;
      if d.count[req.chain[i]] < target {
        var r := d.AddReplica(rid, i, nodes);
        if r.Err? {
          TopUpFails(cur, d.cfg, bw, req, rid, target, nodes, i);
          return Err(r.error);
        }
        ghost var next := d.Snapshot();
        TopUpReplicates(cur, d.cfg, bw, req, rid, target, nodes, i, i', next, goal);
        cur := next;
      } else {
        TopUpSkips(cur, d.cfg, bw, req, rid, target, nodes, i, i', goal);
      }
      i := i';
    }
    TopUpGrows(st0, d.cfg, bw, req, rid, target, nodes, 0);
    return Ok(());
  }

  /** The replica phase from the state `st1` the first pass left: the top-up pass, then the
      capacity loop from the capacity helper's answer on the state the top-up left. */
  function Replicas(st1: State, cfg: Config, bw: Matrix, req: Request, rid: nat, target: int, o: Oracles)
    : (res: Result<State>)
    requires Ready(st1, cfg, req, rid)
    ensures res.Ok? ==> Ready(res.value, cfg, req, rid) && |res.value.cpu| == |st1.cpu|
  {
    match TopUp(st1, cfg, bw, req, rid, target, o.nodes, 0)
    case Err(e) => Err(e)
    case Ok(st2) => Resolve(st2, cfg, bw, req, rid, o.getRestCapacity(req, st2), o.getRestCapacity, o.nodes, o.fuel)
  }

  /** Deploying request `rid` from state `st` over the residual bandwidth `bw`: the instance
      target from the least node availability, first pass, replica phase, routing. */
  function VneStep(st: State, cfg: Config, bw: Matrix, avail: seq<real>, req: Request, rid: nat,
                   o: Oracles): (res: Result<Deployed>)
    requires Ready(st, cfg, req, rid) && |avail| == |st.cpu|
    ensures res.Ok? ==> Ready(res.value.after, cfg, req, rid) && |res.value.after.cpu| == |st.cpu|
    ensures res.Ok? ==> SameShape(bw, res.value.flow)
  {
    match AvgNodeAvail(avail)
    case Err(e) => Err(e)
    case Ok(least) =>
      var target := o.targetOf(req.avail, |req.chain|, least);
      match FirstPass(st, cfg, bw, avail, req, rid, o.distance)
      case Err(e) => Err(e)
      case Ok(st1) =>
        match Replicas(st1, cfg, bw, req, rid, target, o)
        case Err(e) => Err(e)
        case Ok(st3) => Routed(st3, bw, req, o.route)
  }

  /** The replica phase only adds to the request's own placement. */
  lemma ReplicasGrow(st1: State, cfg: Config, bw: Matrix, req: Request, rid: nat, target: int, o: Oracles)
    requires Ready(st1, cfg, req, rid)
    ensures var res := Replicas(st1, cfg, bw, req, rid, target, o);
      res.Ok? ==> Grows(st1, res.value, rid)
  {
    var r2 := TopUp(st1, cfg, bw, req, rid, target, o.nodes, 0);
    TopUpGrows(st1, cfg, bw, req, rid, target, o.nodes, 0);
    if r2.Ok? {
      var st2 := r2.value;
      var r3 := Resolve(st2, cfg, bw, req, rid, o.getRestCapacity(req, st2), o.getRestCapacity, o.nodes, o.fuel);
      ResolveGrows(st2, cfg, bw, req, rid, o.getRestCapacity(req, st2), o.getRestCapacity, o.nodes, o.fuel);
      if r3.Ok? {
        GrowsTransitive(st1, st2, r3.value, rid);
      }
    }
  }

  /** A request's deployment only adds to its own placement. */
  lemma VneStepGrows(st: State, cfg: Config, bw: Matrix, avail: seq<real>, req: Request, rid: nat, o: Oracles)
    requires Ready(st, cfg, req, rid) && |avail| == |st.cpu|
    ensures var res := VneStep(st, cfg, bw, avail, req, rid, o);
      res.Ok? ==> Grows(st, res.value.after, rid)
  {
    var res := VneStep(st, cfg, bw, avail, req, rid, o);
    if res.Ok? {
      var cand := CandidateOrder(DistanceSums(bw, req.src, req.dst, |avail|, o.distance), avail);
      var st1 := FirstPass(st, cfg, bw, avail, req, rid, o.distance).value;
      var target := o.targetOf(req.avail, |req.chain|, AvgNodeAvail(avail).value);
      PlaceChainGrows(st, cfg, rid, req.chain, 0, cand);
      ReplicasGrow(st1, cfg, bw, req, rid, target, o);
      GrowsTransitive(st, st1, res.value.after, rid);
    }
  }

  /** A request whose stages were all empty ends with a node at every stage. */
  lemma VneStepPlaces(st: State, cfg: Config, bw: Matrix, avail: seq<real>, req: Request, rid: nat, o: Oracles)
    requires Ready(st, cfg, req, rid) && |avail| == |st.cpu| && Unplaced(st.placement[rid])
    ensures var res := VneStep(st, cfg, bw, avail, req, rid, o);
      res.Ok? ==> Placed(res.value.after.placement[rid])
  {
    var res := VneStep(st, cfg, bw, avail, req, rid, o);
    if res.Ok? {
      var cand := CandidateOrder(DistanceSums(bw, req.src, req.dst, |avail|, o.distance), avail);
      var st1 := FirstPass(st, cfg, bw, avail, req, rid, o.distance).value;
      var target := o.targetOf(req.avail, |req.chain|, AvgNodeAvail(avail).value);
      PlaceChainFillsStages(st, cfg, rid, req.chain, 0, cand);
      FilledIsPlaced(st.placement, st1.placement, rid, req.chain, cand);
      ReplicasGrow(st1, cfg, bw, req, rid, target, o);
      GrowsKeepsPlaced(st1, res.value.after, rid);
    }
  }

  /** The capacity index is asked on the state the top-up left, so a successful deployment always
      leaves a state on which the capacity helper reports no bottleneck. */
  lemma VneStepSettles(st: State, cfg: Config, bw: Matrix, avail: seq<real>, req: Request, rid: nat, o: Oracles)
    requires Ready(st, cfg, req, rid) && |avail| == |st.cpu|
    ensures var res := VneStep(st, cfg, bw, avail, req, rid, o);
      res.Ok? ==> o.getRestCapacity(req, res.value.after) < 0
  {
    var res := VneStep(st, cfg, bw, avail, req, rid, o);
    if res.Ok? {
      var st1 := FirstPass(st, cfg, bw, avail, req, rid, o.distance).value;
      var target := o.targetOf(req.avail, |req.chain|, AvgNodeAvail(avail).value);
      var st2 := TopUp(st1, cfg, bw, req, rid, target, o.nodes, 0).value;
      ResolveSettles(st2, cfg, bw, req, rid, o.getRestCapacity(req, st2), o.getRestCapacity, o.nodes, o.fuel);
    }
  }

  /** The engine's run over the requests of `order`, in order, from `run`, stopping at the first
      failure: each request is deployed from the state the previous one left, over the residual
      bandwidth it left, and its flow is stored under its id and subtracted. The run is split over
      three functions so that a proof unfolding it does not unfold a whole request's deployment. */
  function VneAll(run: Run, cfg: Config, avail: seq<real>, requests: seq<Request>, order: seq<nat>,
                  o: Oracles): (res: Result<Run>)
    requires Fits(run.st, cfg, requests) && |avail| == |run.st.cpu|
    requires forall j :: 0 <= j < |order| ==> order[j] < |requests|
    ensures res.Ok? ==> Fits(res.value.st, cfg, requests) && |res.value.st.cpu| == |run.st.cpu|
    decreases |order|, 2
  {
    if order == [] then Ok(run) else VneFirst(run, cfg, avail, requests, order, o)
  }

  /** The run over a non-empty order: its first request, looked up by id, then the rest. */
  function VneFirst(run: Run, cfg: Config, avail: seq<real>, requests: seq<Request>, order: seq<nat>,
                    o: Oracles): (res: Result<Run>)
    requires Fits(run.st, cfg, requests) && |avail| == |run.st.cpu|
    requires order != [] && forall j :: 0 <= j < |order| ==> order[j] < |requests|
    ensures res.Ok? ==> Fits(res.value.st, cfg, requests) && |res.value.st.cpu| == |run.st.cpu|
    decreases |order|, 1
  {
    VneRequest(run, cfg, avail, requests, requests[order[0]], order[0], order[1..], o)
  }

  /** Request `rid`, that is `req`, deployed from `run`, its flow stored and subtracted; then the
      run over `rest`. */
  function VneRequest(run: Run, cfg: Config, avail: seq<real>, requests: seq<Request>, req: Request, rid: nat,
                      rest: seq<nat>, o: Oracles): (res: Result<Run>)
    requires Fits(run.st, cfg, requests) && |avail| == |run.st.cpu|
    requires rid < |requests| && req == requests[rid]
    requires forall j :: 0 <= j < |rest| ==> rest[j] < |requests|
    ensures res.Ok? ==> Fits(res.value.st, cfg, requests) && |res.value.st.cpu| == |run.st.cpu|
    decreases |rest| + 1, 0
  {
    match VneStep(run.st, cfg, run.bw, avail, req, rid, o)
    case Err(e) => Err(e)
    case Ok(dep) =>
      VneStepGrows(run.st, cfg, run.bw, avail, req, rid, o);
      GrowsKeepsFits(run.st, dep.after, cfg, requests, rid);
      VneAll(Run(dep.after, Subtract(run.bw, dep.flow), run.flows[rid := dep.flow]), cfg, avail, requests, rest, o)
  }

  /** Without nodes the run fails at its first request, since the least node availability has
      no value, and an empty order leaves the run as it was. */
  lemma VneAllNeedsNodes(run: Run, cfg: Config, avail: seq<real>, requests: seq<Request>, order: seq<nat>,
                         o: Oracles)
    requires Fits(run.st, cfg, requests) && |avail| == |run.st.cpu|
    requires forall j :: 0 <= j < |order| ==> order[j] < |requests|
    ensures order == [] ==> VneAll(run, cfg, avail, requests, order, o) == Ok(run)
    ensures order != [] && |avail| == 0 ==> VneAll(run, cfg, avail, requests, order, o) == Err(NoNodes)
  {
    if order != [] {
      assert VneAll(run, cfg, avail, requests, order, o) == VneFirst(run, cfg, avail, requests, order, o)
        == VneRequest(run, cfg, avail, requests, requests[order[0]], order[0], order[1..], o);
    }
  }

  lemma VneAllFails(run: Run, cfg: Config, avail: seq<real>, requests: seq<Request>, order: seq<nat>,
                    o: Oracles, e: Error, goal: Result<Run>)
    requires Fits(run.st, cfg, requests) && |avail| == |run.st.cpu|
    requires forall j :: 0 <= j < |order| ==> order[j] < |requests|
    requires order != [] && goal == VneAll(run, cfg, avail, requests, order, o)
    requires var dep := VneStep(run.st, cfg, run.bw, avail, requests[order[0]], order[0], o);
      dep.Err? && dep.error == e
    ensures goal == Err(e)
  {
    assert goal == VneFirst(run, cfg, avail, requests, order, o)
      == VneRequest(run, cfg, avail, requests, requests[order[0]], order[0], order[1..], o);
  }

  lemma VneAllAdvances(run: Run, cfg: Config, avail: seq<real>, requests: seq<Request>, order: seq<nat>,
                       o: Oracles, next: Run, goal: Result<Run>)
    requires Fits(run.st, cfg, requests) && |avail| == |run.st.cpu|
    requires forall j :: 0 <= j < |order| ==> order[j] < |requests|
    requires order != [] && goal == VneAll(run, cfg, avail, requests, order, o)
    requires var dep := VneStep(run.st, cfg, run.bw, avail, requests[order[0]], order[0], o);
      dep.Ok? && next == Run(dep.value.after, Subtract(run.bw, dep.value.flow), run.flows[order[0] := dep.value.flow])
    ensures Fits(next.st, cfg, requests) && |avail| == |next.st.cpu|
    ensures goal == VneAll(next, cfg, avail, requests, order[1..], o)
  {
    assert goal == VneFirst(run, cfg, avail, requests, order, o)
      == VneRequest(run, cfg, avail, requests, requests[order[0]], order[0], order[1..], o);
    VneStepGrows(run.st, cfg, run.bw, avail, requests[order[0]], order[0], o);
    GrowsKeepsFits(run.st, next.st, cfg, requests, order[0]);
  }

  /** The replica phase of one request: the top-up pass, then the capacity loop started from the
      capacity helper's answer after the top-up. */
  method AddReplicas(d: Deployment, rid: nat, target: int, o: Oracles) returns (res: Result<()>)
    requires d.Valid() && rid < |d.requests|
    modifies d
    ensures d.Valid() && OnlyTouches(old(d.placement), d.placement, rid)
    ensures d.bandwidth == old(d.bandwidth) && d.flows == old(d.flows) && d.routed == old(d.routed)
    ensures var spec := Replicas(old(d.Snapshot()), d.cfg, d.bandwidth, d.requests[rid], rid, target, o);
      && (res.Ok? <==> spec.Ok?)
      && (spec.Ok? ==> d.Snapshot() == spec.value)
      && (spec.Err? ==> res.error == spec.error)
    ensures res.Ok? ==> Grows(old(d.Snapshot()), d.Snapshot(), rid)
  {
    ghost var st0 := d.Snapshot();
    res := TopUpPass(d, rid, target, o.nodes);
    if res.Err? {
      return res;
    }
    ghost var st1 := d.Snapshot();
    var capIdx := o.getRestCapacity(d.requests[rid], d.Snapshot());
    res := d.ResolveBottleneck(rid, capIdx, o.getRestCapacity, o.nodes, o.fuel);
    if res.Ok? {
      GrowsTransitive(st0, st1, d.Snapshot(), rid);
    }
  }

  /** Deploys request `rid`: instance target, first pass, replicas, routing. */
  method DeployRequest(d: Deployment, rid: nat, o: Oracles) returns (res: Result<()>)
    requires d.Valid() && rid < |d.requests| && rid !in d.routed && Unplaced(d.placement[rid])
    modifies d
    ensures d.Valid() && OnlyTouches(old(d.placement), d.placement, rid)
    ensures var spec := VneStep(old(d.Snapshot()), d.cfg, old(d.bandwidth), d.nodeAvail, d.requests[rid], rid, o);
      && (res.Ok? <==> spec.Ok?)
      && (spec.Ok? ==>
            && d.Snapshot() == spec.value.after
            && d.bandwidth == Subtract(old(d.bandwidth), spec.value.flow)
            && d.flows == old(d.flows)[rid := spec.value.flow]
            && d.routed == old(d.routed) + [rid])
      && (spec.Err? ==> res.error == spec.error)
    ensures res.Ok? ==> Placed(d.placement[rid])
  {
    var req := d.requests[rid];
    var least := AvgNodeAvail(d.nodeAvail);
    if least.Err? {
      return Err(least.error);
    }
    var target := o.targetOf(req.avail, |req.chain|, least.value);
    var cand := CandidateNodes(d.bandwidth, req.src, req.dst, d.nodeAvail, o.distance);
    var r := d.InitialPass(rid, cand);
    if r.Err? {
      return r;
    }
    ghost var st1 := d.Snapshot();
    r := AddReplicas(d, rid, target, o);
    if r.Err? {
      return r;
    }
    GrowsKeepsPlaced(st1, d.Snapshot(), rid);
    res := d.Route(rid, o.route);
  }

  /** Deploys the request at position `k` of `order`, the requests before it being deployed: the
      engine's run from the new state over the rest of the order ends where the run from the old
      state over the order from `k` does. */
  method DeployNext(d: Deployment, order: seq<nat>, k: nat, o: Oracles) returns (res: Result<()>)
    requires d.Valid() && Distinct(order) && k < |order| && d.routed == order[..k]
    requires forall j :: 0 <= j < |order| ==> order[j] < |d.requests|
    requires DeployedUpTo(d.placement, order, k)
    modifies d
    ensures d.Valid() && |d.placement| == |d.requests|
    ensures var spec := VneAll(old(d.Current()), d.cfg, d.nodeAvail, d.requests, order[k..], o);
      && (res.Err? ==> spec == Err(res.error))
      && (res.Ok? ==> spec == VneAll(d.Current(), d.cfg, d.nodeAvail, d.requests, order[k + 1..], o))
    ensures res.Ok? ==> d.routed == order[..k + 1] && DeployedUpTo(d.placement, order, k + 1)
  {
    var rid := order[k];
    NextInOrder(order, k);
    ghost var goal := VneAll(d.Current(), d.cfg, d.nodeAvail, d.requests, order[k..], o);
    ghost var p0 := d.placement;
    ghost var run := d.Current();
    res := DeployRequest(d, rid, o);
    if res.Err? {
      VneAllFails(run, d.cfg, d.nodeAvail, d.requests, order[k..], o, res.error, goal);
      return res;
    }
    VneAllAdvances(run, d.cfg, d.nodeAvail, d.requests, order[k..], o, d.Current(), goal);
    assert order[k..][1..] == order[k + 1..];
    DeployedUpToStep(p0, d.placement, order, k);
  }

  /** Deploys the requests in the given order, stopping at the first failure. */
  method DeployInOrder(d: Deployment, order: seq<nat>, o: Oracles) returns (res: Result<()>)
    requires d.Valid() && d.routed == [] && Distinct(order)
    requires forall j :: 0 <= j < |order| ==> order[j] < |d.requests|
    requires DeployedUpTo(d.placement, order, 0)
    modifies d
    ensures d.Valid()
    ensures var spec := VneAll(old(d.Current()), d.cfg, d.nodeAvail, d.requests, order, o);
      && (res.Ok? <==> spec.Ok?)
      && (spec.Ok? ==> d.Current() == spec.value)
      && (spec.Err? ==> res.error == spec.error)
    ensures res.Ok? ==> d.routed == order && DeployedUpTo(d.placement, order, |order|)
  {
    ghost var goal := VneAll(d.Current(), d.cfg, d.nodeAvail, d.requests, order, o);
    assert order[0..] == order;
    res := Ok(());
    for k := 0 to |order|
      invariant d.Valid() && |d.placement| == |d.requests| && d.routed == order[..k]
      invariant DeployedUpTo(d.placement, order, k)
      invariant goal == VneAll(d.Current(), d.cfg, d.nodeAvail, d.requests, order[k..], o) && res.Ok?
    {
      res := DeployNext(d, order, k, o);
      if res.Err? {
        return res;
      }
    }
    assert order[..|order|] == order;
    assert order[|order|..] == [];
  }

  /** The engine: ranks the requests, then deploys them in rank order. On success the state, the
      residual bandwidth and the stored flows are those of `VneAll` over the rank order, every
      request has a flow matrix and every stage of every request at least one node. */
  method VneDeploy(d: Deployment, o: Oracles) returns (res: Result<()>)
    requires d.Valid() && d.Pristine()
    modifies d
    ensures d.Valid()
    ensures Ranks(d.requests).Err? ==> res == Err(Ranks(d.requests).error)
    ensures Ranks(d.requests).Ok? ==>
      var spec := VneAll(old(d.Current()), d.cfg, d.nodeAvail, d.requests, RankOrder(Ranks(d.requests).value), o);
      && (res.Ok? <==> spec.Ok?)
      && (spec.Ok? ==> d.Current() == spec.value)
      && (spec.Err? ==> res == Err(spec.error))
    ensures res.Ok? ==> Ranks(d.requests).Ok? && d.routed == RankOrder(Ranks(d.requests).value)
    ensures res.Ok? ==> forall rid :: 0 <= rid < |d.requests| ==> rid in d.flows && Placed(d.placement[rid])
  {
    var order := ProcessingOrder(d.requests);
    if order.Err? {
      return Err(order.error);
    }
    res := DeployInOrder(d, order.value, o);
    if res.Ok? {
      d.EveryRequestRouted();
    }
  }
}
