/** Replica adding and the bottleneck loops, stated on values of the state.

    A replica for stage `i` of a request is one more run of the stage placer for that stage, over
    the nodes the replica helper offers; it may add a second node -> instance entry to the stage.
    A bottleneck loop asks a helper for the index of the stage to reinforce, adds a replica there
    and asks again, until the helper answers -1. The helpers are parameters; the loop gets a fuel
    bound so that it ends. */
module Bottleneck {
  import opened Network
  import opened Placer

  /** The availability and capacity bottleneck helpers: the index of the stage that needs another
      replica, or -1 when the request is satisfied. */
  type Probe = (Request, State) -> int

  /** The nodes the replica helper scans, in order, for a replica of stage `i`. */
  type ReplicaNodes = (Matrix, Request, State, nat) -> seq<nat>

  /** The chains of the requests, by request id. */
  function Chains(requests: seq<Request>): (cs: seq<seq<nat>>)
    ensures |cs| == |requests| && forall r :: 0 <= r < |requests| ==> cs[r] == requests[r].chain
  {
    seq(|requests|, r requires 0 <= r < |requests| => requests[r].chain)
  }

  /** A request's stages all name a configured NF type. */
  predicate Typed(cfg: Config, req: Request)
  {
    forall s :: 0 <= s < |req.chain| ==> req.chain[s] < cfg.TypeCount()
  }

  /** What a state must satisfy to place stages of request `rid`. */
  predicate Ready(st: State, cfg: Config, req: Request, rid: nat)
  {
    Shaped(st, cfg, |st.cpu|) && rid < |st.placement| && |st.placement[rid]| == |req.chain| && Typed(cfg, req)
  }

  /** Adding one replica to stage `i` of request `rid`. */
  function Replica(st: State, cfg: Config, bw: Matrix, req: Request, rid: nat, i: int, nodes: ReplicaNodes): (res: Result<Step>)
    requires Ready(st, cfg, req, rid)
    ensures res.Ok? ==> Ready(res.value.after, cfg, req, rid) && |res.value.after.cpu| == |st.cpu|
  {
    if i < 0 || i >= |req.chain| then Err(StageOutOfRange)
    else
      var cand := nodes(bw, req, st, i);
      if !NodesIn(cand, |st.cpu|) then Err(NodeOutOfRange)
      else
        var res := Place(st, cfg, rid, i, req.chain[i], cand);
        if res.Ok? then PlaceEntry(st, cfg, rid, i, req.chain[i], cand); res else res
  }

  /** The bottleneck loop: while the index is a stage (not -1), add a replica there and ask the
      helper again; each replica takes one unit of fuel. */
  function Resolve(st: State, cfg: Config, bw: Matrix, req: Request, rid: nat, idx: int,
                   probe: Probe, nodes: ReplicaNodes, fuel: nat): (res: Result<State>)
    requires Ready(st, cfg, req, rid)
    ensures res.Ok? ==> Ready(res.value, cfg, req, rid) && |res.value.cpu| == |st.cpu|
    decreases fuel
  {
    if idx < 0 then Ok(st)
    else if fuel == 0 then Err(BottleneckUnresolved)
    else match Replica(st, cfg, bw, req, rid, idx, nodes)
      case Err(e) => Err(e)
      case Ok(step) => Resolve(step.after, cfg, bw, req, rid, probe(req, step.after), probe, nodes, fuel - 1)
  }

  /** One round of the loop with fuel left fails as the replica step does. */
  lemma ResolveRoundFails(st: State, cfg: Config, bw: Matrix, req: Request, rid: nat, idx: int,
                          probe: Probe, nodes: ReplicaNodes, fuel: nat)
    requires Ready(st, cfg, req, rid) && idx >= 0 && fuel > 0
    requires Replica(st, cfg, bw, req, rid, idx, nodes).Err?
    ensures Resolve(st, cfg, bw, req, rid, idx, probe, nodes, fuel) == Err(Replica(st, cfg, bw, req, rid, idx, nodes).error)
  {
  }

  /** After a successful round, the loop goes on from the state the replica step leaves, with the
      helper's answer on that state. */
  lemma ResolveRoundAdvances(st: State, cfg: Config, bw: Matrix, req: Request, rid: nat, idx: int,
                             probe: Probe, nodes: ReplicaNodes, fuel: nat, next: State, idx': int, fuel': nat,
                             goal: Result<State>)
    requires Ready(st, cfg, req, rid) && idx >= 0 && fuel == fuel' + 1
    requires goal == Resolve(st, cfg, bw, req, rid, idx, probe, nodes, fuel)
    requires Replica(st, cfg, bw, req, rid, idx, nodes).Ok?
    requires next == Replica(st, cfg, bw, req, rid, idx, nodes).value.after && idx' == probe(req, next)
    ensures Ready(next, cfg, req, rid)
    ensures goal == Resolve(next, cfg, bw, req, rid, idx', probe, nodes, fuel')
  {
  }

  /** The loop stops only when the helper reports no bottleneck: either the index it started with
      was already -1 and nothing changed, or the helper's last answer on the final state is -1. */
  lemma {:induction false} ResolveSettles(st: State, cfg: Config, bw: Matrix, req: Request, rid: nat, idx: int,
                                         probe: Probe, nodes: ReplicaNodes, fuel: nat)
    requires Ready(st, cfg, req, rid)
    ensures var res := Resolve(st, cfg, bw, req, rid, idx, probe, nodes, fuel);
      res.Ok? ==> (idx < 0 && res.value == st) || probe(req, res.value) < 0
    decreases fuel
  {
    if idx >= 0 && fuel > 0 {
      var r := Replica(st, cfg, bw, req, rid, idx, nodes);
      if r.Ok? {
        ResolveSettles(r.value.after, cfg, bw, req, rid, probe(req, r.value.after), probe, nodes, fuel - 1);
      }
    }
  }

  /** The loop fails exactly when it runs out of fuel or a replica cannot be added; with no fuel it
      succeeds only when there is nothing to resolve. */
  lemma ResolveWithoutFuel(st: State, cfg: Config, bw: Matrix, req: Request, rid: nat, idx: int,
                           probe: Probe, nodes: ReplicaNodes)
    requires Ready(st, cfg, req, rid)
    ensures Resolve(st, cfg, bw, req, rid, idx, probe, nodes, 0).Ok? <==> idx < 0
  {
  }

  /** What a replica step or a bottleneck loop may change: only the placement of request `rid`,
      whose stages keep every node they had; instances are only added, counters only go up. */
  predicate Grows(st0: State, st1: State, rid: nat)
  {
    && |st1.placement| == |st0.placement|
    && (forall r :: 0 <= r < |st0.placement| && r != rid ==> st1.placement[r] == st0.placement[r])
    && (rid < |st0.placement| ==>
          |st1.placement[rid]| == |st0.placement[rid]| &&
          forall s :: 0 <= s < |st0.placement[rid]| ==> st0.placement[rid][s].Keys <= st1.placement[rid][s].Keys)
    && |st1.count| == |st0.count| && |st1.registry| == |st0.registry|
    && (forall t :: 0 <= t < |st0.count| ==> st0.count[t] <= st1.count[t])
    && (forall t :: 0 <= t < |st0.registry| ==> st0.registry[t] <= st1.registry[t])
  }

  lemma GrowsTransitive(st0: State, st1: State, st2: State, rid: nat)
    requires Grows(st0, st1, rid) && Grows(st1, st2, rid)
    ensures Grows(st0, st2, rid)
  {
    forall t | 0 <= t < |st0.registry|
      ensures st0.registry[t] <= st2.registry[t]
    {
      assert st0.registry[t] == st1.registry[t][..|st0.registry[t]|];
      assert st1.registry[t] == st2.registry[t][..|st1.registry[t]|];
    }
  }

  /** A placement step grows the state. */
  lemma PlaceGrows(st: State, cfg: Config, rid: nat, i: nat, nf: nat, cand: seq<nat>)
    requires Shaped(st, cfg, |st.cpu|) && Slot(st.placement, rid, i)
    requires nf < cfg.TypeCount() && NodesIn(cand, |st.cpu|)
    requires Place(st, cfg, rid, i, nf, cand).Ok?
    ensures Grows(st, Place(st, cfg, rid, i, nf, cand).value.after, rid)
  {
    PlaceEntry(st, cfg, rid, i, nf, cand);
    if Place(st, cfg, rid, i, nf, cand).value.choice.Reused? {
      PlaceReuses(st, cfg, rid, i, nf, cand);
    } else {
      PlaceCreates(st, cfg, rid, i, nf, cand);
    }
  }

  /** The first pass grows the state. */
  lemma {:induction false} PlaceChainGrows(st: State, cfg: Config, rid: nat, chain: seq<nat>, i: nat, cand: seq<nat>)
    requires Shaped(st, cfg, |st.cpu|) && rid < |st.placement| && |st.placement[rid]| == |chain|
    requires (forall s :: 0 <= s < |chain| ==> chain[s] < cfg.TypeCount()) && NodesIn(cand, |st.cpu|)
    ensures var res := PlaceChain(st, cfg, rid, chain, i, cand);
      res.Ok? ==> Grows(st, res.value, rid)
    decreases |chain| - i
  {
    var res := PlaceChain(st, cfg, rid, chain, i, cand);
    if i < |chain| && res.Ok? {
      var st' := Place(st, cfg, rid, i, chain[i], cand).value.after;
      PlaceGrows(st, cfg, rid, i, chain[i], cand);
      PlaceChainGrows(st', cfg, rid, chain, i + 1, cand);
      GrowsTransitive(st, st', res.value, rid);
    }
  }

  lemma ReplicaGrows(st: State, cfg: Config, bw: Matrix, req: Request, rid: nat, i: int, nodes: ReplicaNodes)
    requires Ready(st, cfg, req, rid)
    requires Replica(st, cfg, bw, req, rid, i, nodes).Ok?
    ensures Grows(st, Replica(st, cfg, bw, req, rid, i, nodes).value.after, rid)
  {
    PlaceGrows(st, cfg, rid, i, req.chain[i], nodes(bw, req, st, i));
  }

  /** The bottleneck loop only adds: no request but `rid` is touched, and no stage of `rid` loses a
      node. */
  lemma {:induction false} ResolveGrows(st: State, cfg: Config, bw: Matrix, req: Request, rid: nat, idx: int,
                                       probe: Probe, nodes: ReplicaNodes, fuel: nat)
    requires Ready(st, cfg, req, rid)
    ensures var res := Resolve(st, cfg, bw, req, rid, idx, probe, nodes, fuel);
      res.Ok? ==> Grows(st, res.value, rid)
    decreases fuel
  {
    var res := Resolve(st, cfg, bw, req, rid, idx, probe, nodes, fuel);
    if idx >= 0 && fuel > 0 && res.Ok? {
      var st' := Replica(st, cfg, bw, req, rid, idx, nodes).value.after;
      ReplicaGrows(st, cfg, bw, req, rid, idx, nodes);
      ResolveGrows(st', cfg, bw, req, rid, probe(req, st'), probe, nodes, fuel - 1);
      GrowsTransitive(st, st', res.value, rid);
    }
  }

  lemma ReplicaPreservesConsistency(st: State, cfg: Config, budget: seq<int>, chains: seq<seq<nat>>,
                                    bw: Matrix, req: Request, rid: nat, i: int, nodes: ReplicaNodes)
    requires rid < |chains| && chains[rid] == req.chain
    requires Consistent(st, cfg, budget, chains) && Ready(st, cfg, req, rid)
    ensures var res := Replica(st, cfg, bw, req, rid, i, nodes);
      res.Ok? ==> Consistent(res.value.after, cfg, budget, chains)
  {
    if 0 <= i < |req.chain| && NodesIn(nodes(bw, req, st, i), |st.cpu|) {
      PlacePreservesConsistency(st, cfg, budget, chains, rid, i, nodes(bw, req, st, i));
    }
  }

  /** One round of a successful loop, from its outcome: the replica step succeeded, and the rest
      of the loop, from the state it left, ends in the same outcome. */
  lemma ResolveStep(st: State, cfg: Config, bw: Matrix, req: Request, rid: nat, idx: int,
                    probe: Probe, nodes: ReplicaNodes, fuel: nat, st1: State) returns (st': State, fuel': nat)
    requires Ready(st, cfg, req, rid) && idx >= 0
    requires Resolve(st, cfg, bw, req, rid, idx, probe, nodes, fuel) == Ok(st1)
    ensures fuel' < fuel && Replica(st, cfg, bw, req, rid, idx, nodes).Ok?
    ensures st' == Replica(st, cfg, bw, req, rid, idx, nodes).value.after
    ensures Ready(st', cfg, req, rid)
    ensures Resolve(st', cfg, bw, req, rid, probe(req, st'), probe, nodes, fuel') == Ok(st1)
  {
    st' := Replica(st, cfg, bw, req, rid, idx, nodes).value.after;
    fuel' := fuel - 1;
  }

  /** The bottleneck loop keeps the state invariant. */
  lemma {:induction false} ResolvePreservesConsistency(st: State, cfg: Config, budget: seq<int>, chains: seq<seq<nat>>,
                                                       bw: Matrix, req: Request, rid: nat, idx: int, probe: Probe,
                                                       nodes: ReplicaNodes, fuel: nat, st1: State)
    requires rid < |chains| && chains[rid] == req.chain
    requires Consistent(st, cfg, budget, chains) && Ready(st, cfg, req, rid)
    requires Resolve(st, cfg, bw, req, rid, idx, probe, nodes, fuel) == Ok(st1)
    ensures Consistent(st1, cfg, budget, chains)
    decreases fuel
  {
    if idx >= 0 {
      var st', fuel' := ResolveStep(st, cfg, bw, req, rid, idx, probe, nodes, fuel, st1);
      ReplicaPreservesConsistency(st, cfg, budget, chains, bw, req, rid, idx, nodes);
      ResolvePreservesConsistency(st', cfg, budget, chains, bw, req, rid, probe(req, st'), probe, nodes, fuel', st1);
    }
  }
}
