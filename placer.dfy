/** The stage placer shared by both deployment engines, and the state it mutates.

    For one chain stage of NF type `nf` the placer scans the ranked candidate nodes in order. At the
    first node that hosts a same-type instance with capacity left it reuses the last such instance;
    otherwise, at the first node whose CPU strictly exceeds the type's requirement, it creates an
    instance numbered by the per-type counter, debits the node's CPU and registers the instance with
    the node and with the per-type registry. If no candidate allows either, deployment fails with
    "No CPU!".

    `Place` states one placement step on a value of the state; the class `Deployment` holds the
    state in fields and its methods run the scans as loops, proved to do what `Place` says. */
module Placer {
  import opened Network

  /** Per request, per chain stage: the node -> instance entries chosen for that stage. */
  type Placement = seq<seq<map<nat, InstanceRef>>>

  /** The state one run mutates: every node's CPU and instance list, the per-type instance
      registry and counters, and the placements. */
  datatype State = State(
    cpu: seq<int>,
    hosted: seq<seq<InstanceRef>>,
    registry: seq<seq<Instance>>,
    count: seq<nat>,
    placement: Placement)

  /** What the placer did for a stage, and at which node. */
  datatype Choice = Reused(node: nat, inst: InstanceRef) | Created(node: nat, inst: InstanceRef)

  datatype Step = Step(after: State, choice: Choice)

  predicate Registered(registry: seq<seq<Instance>>, r: InstanceRef)
  {
    r.nf < |registry| && r.id < |registry[r.nf]|
  }

  /** The instance `r` is of type `nf` and has capacity left. */
  predicate Reusable(registry: seq<seq<Instance>>, r: InstanceRef, nf: nat)
  {
    r.nf == nf && Registered(registry, r) && registry[r.nf][r.id].capacity > 0
  }

  /** The position in a node's instance list of the last reusable instance of type `nf`. */
  function LastReusable(refs: seq<InstanceRef>, registry: seq<seq<Instance>>, nf: nat): (r: Option<nat>)
    ensures r.Some? ==>
      r.value < |refs| && Reusable(registry, refs[r.value], nf) &&
      forall j :: r.value < j < |refs| ==> !Reusable(registry, refs[j], nf)
    ensures r.None? ==> forall j :: 0 <= j < |refs| ==> !Reusable(registry, refs[j], nf)
  {
    if refs == [] then None
    else if Reusable(registry, refs[|refs| - 1], nf) then Some(|refs| - 1)
    else LastReusable(refs[..|refs| - 1], registry, nf)
  }

  /** The scan over one node's instance list, keeping the last match. */
  method FindReusable(refs: seq<InstanceRef>, registry: seq<seq<Instance>>, nf: nat) returns (r: Option<nat>)
    ensures r == LastReusable(refs, registry, nf)
  {
    r := None;
    for j := 0 to |refs|
      invariant r == LastReusable(refs[..j], registry, nf)
    {
      assert refs[..j + 1][..j] == refs[..j];
      if Reusable(registry, refs[j], nf) {
        r := Some(j);
      }
    }
    assert refs[..|refs|] == refs;
  }

  predicate NodesIn(cand: seq<nat>, n: nat)
  {
    forall k :: 0 <= k < |cand| ==> cand[k] < n
  }

  /** The sizes a state must have to be placed into. */
  predicate Shaped(st: State, cfg: Config, n: nat)
  {
    && cfg.Valid()
    && |st.cpu| == n && |st.hosted| == n
    && |st.registry| == cfg.TypeCount() && |st.count| == cfg.TypeCount()
  }

  predicate CanReuse(st: State, v: nat, nf: nat)
    requires v < |st.hosted|
  {
    LastReusable(st.hosted[v], st.registry, nf).Some?
  }

  predicate CanCreate(st: State, cfg: Config, v: nat, nf: nat)
    requires v < |st.cpu| && nf < |cfg.cpuReq|
  {
    st.cpu[v] > cfg.cpuReq[nf]
  }

  /** Node `v` allows a stage of type `nf`: by reuse or by creation. */
  predicate Admits(st: State, cfg: Config, v: nat, nf: nat)
    requires Shaped(st, cfg, |st.cpu|) && v < |st.cpu| && nf < cfg.TypeCount()
  {
    CanReuse(st, v, nf) || CanCreate(st, cfg, v, nf)
  }

  /** The position of the first candidate that admits type `nf`. */
  function FirstAdmitting(st: State, cfg: Config, nf: nat, cand: seq<nat>): (k: Option<nat>)
    requires Shaped(st, cfg, |st.cpu|) && nf < cfg.TypeCount() && NodesIn(cand, |st.cpu|)
    ensures k.Some? ==>
      k.value < |cand| && Admits(st, cfg, cand[k.value], nf) &&
      forall j :: 0 <= j < k.value ==> !Admits(st, cfg, cand[j], nf)
    ensures k.None? ==> forall j :: 0 <= j < |cand| ==> !Admits(st, cfg, cand[j], nf)
  {
    if cand == [] then None
    else if Admits(st, cfg, cand[0], nf) then Some(0)
    else match FirstAdmitting(st, cfg, nf, cand[1..])
      case None => None
      case Some(k) => Some(k + 1)
  }

  /** A candidate that admits the stage, behind candidates that all do not, is the first admitting
      one. */
  lemma {:induction false} FirstAdmittingAt(st: State, cfg: Config, nf: nat, cand: seq<nat>, k: nat)
    requires Shaped(st, cfg, |st.cpu|) && nf < cfg.TypeCount() && NodesIn(cand, |st.cpu|)
    requires k < |cand| && Admits(st, cfg, cand[k], nf)
    requires forall j :: 0 <= j < k ==> !Admits(st, cfg, cand[j], nf)
    ensures FirstAdmitting(st, cfg, nf, cand) == Some(k)
  {
    if k > 0 {
      assert cand[1..][k - 1] == cand[k];
      FirstAdmittingAt(st, cfg, nf, cand[1..], k - 1);
    }
  }

  /** `request_placement[rid][i][v] = inst` */
  function Assign(p: Placement, rid: nat, i: nat, v: nat, inst: InstanceRef): (q: Placement)
    requires rid < |p| && i < |p[rid]|
    ensures |q| == |p| && forall r :: 0 <= r < |p| && r != rid ==> q[r] == p[r]
    ensures |q[rid]| == |p[rid]| && forall s :: 0 <= s < |p[rid]| && s != i ==> q[rid][s] == p[rid][s]
    ensures q[rid][i] == p[rid][i][v := inst]
  {
    p[rid := p[rid][i := p[rid][i][v := inst]]]
  }

  predicate Slot(p: Placement, rid: nat, i: nat)
  {
    rid < |p| && i < |p[rid]|
  }

  /** One stage placement: stage `i` (of type `nf`) of request `rid`, over the candidates `cand`. */
  function Place(st: State, cfg: Config, rid: nat, i: nat, nf: nat, cand: seq<nat>): (res: Result<Step>)
    requires Shaped(st, cfg, |st.cpu|) && Slot(st.placement, rid, i)
    requires nf < cfg.TypeCount() && NodesIn(cand, |st.cpu|)
    ensures res.Ok? ==> Shaped(res.value.after, cfg, |st.cpu|)
    // fails exactly when no candidate admits the stage
    ensures res.Err? <==> forall j :: 0 <= j < |cand| ==> !Admits(st, cfg, cand[j], nf)
    ensures res.Err? ==> res.error == NoCpu
    // the chosen node is the first admitting candidate; reuse is chosen wherever it is possible
    ensures res.Ok? ==>
      var k := FirstAdmitting(st, cfg, nf, cand);
      k.Some? && res.value.choice.node == cand[k.value] &&
      (res.value.choice.Reused? <==> CanReuse(st, cand[k.value], nf))
  {
    match FirstAdmitting(st, cfg, nf, cand)
    case None => Err(NoCpu)
    case Some(k) =>
      var v := cand[k];
      match LastReusable(st.hosted[v], st.registry, nf)
      case Some(j) =>
        var r := st.hosted[v][j];
        Ok(Step(st.(placement := Assign(st.placement, rid, i, v, r)), Reused(v, r)))
      case None =>
        var r := InstanceRef(nf, st.count[nf]);
        var st1 := WithNewInstance(st, cfg, v, nf);
        Ok(Step(st1.(placement := Assign(st.placement, rid, i, v, r)), Created(v, r)))
  }

  /** The state after creating an instance of type `nf` on node `v`: the node's CPU is debited,
      and the instance, numbered by the type's counter, joins the node's list and the registry. */
  function WithNewInstance(st: State, cfg: Config, v: nat, nf: nat): (r: State)
    requires Shaped(st, cfg, |st.cpu|) && v < |st.cpu| && nf < cfg.TypeCount()
    ensures Shaped(r, cfg, |st.cpu|) && r.placement == st.placement
  {
    var r := InstanceRef(nf, st.count[nf]);
    State(
      st.cpu[v := st.cpu[v] - cfg.cpuReq[nf]],
      st.hosted[v := st.hosted[v] + [r]],
      st.registry[nf := st.registry[nf] + [Instance(st.count[nf], nf, v, cfg.initialCapacity[nf])]],
      st.count[nf := st.count[nf] + 1],
      st.placement)
  }

  /** Reuse takes precedence: the instance reused is the last reusable one in the node's list, and
      nothing but the stage's entry changes. */
  lemma PlaceReuses(st: State, cfg: Config, rid: nat, i: nat, nf: nat, cand: seq<nat>)
    requires Shaped(st, cfg, |st.cpu|) && Slot(st.placement, rid, i)
    requires nf < cfg.TypeCount() && NodesIn(cand, |st.cpu|)
    requires Place(st, cfg, rid, i, nf, cand).Ok?
    requires Place(st, cfg, rid, i, nf, cand).value.choice.Reused?
    ensures var step := Place(st, cfg, rid, i, nf, cand).value;
      var v := step.choice.node;
      var j := LastReusable(st.hosted[v], st.registry, nf);
      && j.Some? && step.choice.inst == st.hosted[v][j.value]
      && step.after.cpu == st.cpu && step.after.hosted == st.hosted
      && step.after.registry == st.registry && step.after.count == st.count
      && step.after.placement[rid][i] == st.placement[rid][i][v := step.choice.inst]
  {
  }

  /** An instance is created only at a node whose CPU strictly exceeds the requirement; that node's
      CPU drops by exactly the requirement and stays positive; the new id is the type's old
      counter, the counter goes up by one, and the instance is appended to the node's list and to
      the type's registry. Nothing else changes but the stage's entry. */
  lemma PlaceCreates(st: State, cfg: Config, rid: nat, i: nat, nf: nat, cand: seq<nat>)
    requires Shaped(st, cfg, |st.cpu|) && Slot(st.placement, rid, i)
    requires nf < cfg.TypeCount() && NodesIn(cand, |st.cpu|)
    requires Place(st, cfg, rid, i, nf, cand).Ok?
    requires Place(st, cfg, rid, i, nf, cand).value.choice.Created?
    ensures var step := Place(st, cfg, rid, i, nf, cand).value;
      var v, r := step.choice.node, step.choice.inst;
      && v < |st.cpu| && !CanReuse(st, v, nf)
      && st.cpu[v] > cfg.cpuReq[nf]
      && step.after.cpu[v] == st.cpu[v] - cfg.cpuReq[nf] > 0
      && (forall u :: 0 <= u < |st.cpu| && u != v ==> step.after.cpu[u] == st.cpu[u])
      && r == InstanceRef(nf, st.count[nf])
      && step.after.count == st.count[nf := st.count[nf] + 1]
      && step.after.registry ==
           st.registry[nf := st.registry[nf] + [Instance(st.count[nf], nf, v, cfg.initialCapacity[nf])]]
      && step.after.hosted == st.hosted[v := st.hosted[v] + [r]]
      && step.after.placement[rid][i] == st.placement[rid][i][v := r]
  {
  }

  /** CPU the instances in a node's list take. */
  function HostedCpu(refs: seq<InstanceRef>, cpuReq: seq<nat>): int
  {
    if refs == [] then 0
    else HostedCpu(refs[..|refs| - 1], cpuReq) + (if refs[|refs| - 1].nf < |cpuReq| then cpuReq[refs[|refs| - 1].nf] else 0)
  }

  /** Every type's registry holds exactly `count` instances, numbered 0, 1, ... in order, each of
      that type, each in the instance list of the node it is placed on. */
  ghost predicate RegistryInSync(st: State)
    requires |st.registry| == |st.count|
  {
    && (forall t :: 0 <= t < |st.count| ==> |st.registry[t]| == st.count[t])
    && (forall t, k :: 0 <= t < |st.registry| && 0 <= k < |st.registry[t]| ==>
          var inst := st.registry[t][k];
          inst.id == k && inst.nf == t && inst.node < |st.hosted| &&
          InstanceRef(t, k) in st.hosted[inst.node])
  }

  /** Every instance a node lists is registered, as placed on that node. */
  ghost predicate HostedRegistered(st: State)
  {
    forall v, j :: 0 <= v < |st.hosted| && 0 <= j < |st.hosted[v]| ==>
      Registered(st.registry, st.hosted[v][j]) &&
      st.registry[st.hosted[v][j].nf][st.hosted[v][j].id].node == v
  }

  /** Every node's CPU plus what its instances take is its original budget, and a node that hosts
      an instance has CPU left. */
  ghost predicate CpuAccounted(st: State, cfg: Config, budget: seq<int>)
    requires |st.cpu| == |st.hosted| == |budget|
  {
    forall v :: 0 <= v < |st.cpu| ==>
      st.cpu[v] + HostedCpu(st.hosted[v], cfg.cpuReq) == budget[v] &&
      (st.hosted[v] != [] ==> st.cpu[v] > 0)
  }

  /** Every placement entry `v -> inst` of a stage names an instance of the stage's type that is
      registered as placed on `v`. */
  ghost predicate PlacementTyped(st: State, chains: seq<seq<nat>>)
  {
    && |st.placement| == |chains|
    && (forall rid :: 0 <= rid < |chains| ==> |st.placement[rid]| == |chains[rid]|)
    && (forall rid, i, v :: 0 <= rid < |chains| && 0 <= i < |chains[rid]| && v in st.placement[rid][i] ==>
          var r := st.placement[rid][i][v];
          v < |st.hosted| && r.nf == chains[rid][i] && Registered(st.registry, r) &&
          st.registry[r.nf][r.id].node == v)
  }

  /** The invariant a run keeps between stage placements. */
  ghost predicate Consistent(st: State, cfg: Config, budget: seq<int>, chains: seq<seq<nat>>)
  {
    && Shaped(st, cfg, |budget|)
    && RegistryInSync(st)
    && HostedRegistered(st)
    && CpuAccounted(st, cfg, budget)
    && PlacementTyped(st, chains)
  }

  lemma {:induction false} HostedCpuAppend(refs: seq<InstanceRef>, r: InstanceRef, cpuReq: seq<nat>)
    requires r.nf < |cpuReq|
    ensures HostedCpu(refs + [r], cpuReq) == HostedCpu(refs, cpuReq) + cpuReq[r.nf]
  {
    assert (refs + [r])[..|refs + [r]| - 1] == refs;
  }

  /** Recording an entry `v -> r` for a stage keeps the placement typed when `r` is of the stage's
      type and placed on `v`. */
  lemma AssignKeepsTyped(st: State, chains: seq<seq<nat>>, rid: nat, i: nat, v: nat, r: InstanceRef)
    requires PlacementTyped(st, chains) && rid < |chains| && i < |chains[rid]|
    requires v < |st.hosted| && r.nf == chains[rid][i] && Registered(st.registry, r)
    requires st.registry[r.nf][r.id].node == v
    ensures PlacementTyped(st.(placement := Assign(st.placement, rid, i, v, r)), chains)
  {
  }

  /** Creating an instance at a node whose CPU exceeds the requirement keeps the registry, the node
      lists and the CPU accounting consistent. */
  lemma NewInstanceKeepsConsistency(st: State, cfg: Config, budget: seq<int>, chains: seq<seq<nat>>, v: nat, nf: nat)
    requires Consistent(st, cfg, budget, chains)
    requires v < |st.cpu| && nf < cfg.TypeCount() && st.cpu[v] > cfg.cpuReq[nf]
    ensures Consistent(WithNewInstance(st, cfg, v, nf), cfg, budget, chains)
  {
    var st' := WithNewInstance(st, cfg, v, nf);
    var r := InstanceRef(nf, st.count[nf]);
    NewInstanceKeepsRegistry(st, cfg, v, nf);
    NewInstanceKeepsHosted(st, cfg, v, nf);
    HostedCpuAppend(st.hosted[v], r, cfg.cpuReq);
    assert CpuAccounted(st', cfg, budget);
    NewInstanceKeepsTyped(st, cfg, chains, v, nf);
  }

  lemma NewInstanceKeepsRegistry(st: State, cfg: Config, v: nat, nf: nat)
    requires Shaped(st, cfg, |st.cpu|) && RegistryInSync(st)
    requires v < |st.cpu| && nf < cfg.TypeCount()
    ensures RegistryInSync(WithNewInstance(st, cfg, v, nf))
  {
    var st' := WithNewInstance(st, cfg, v, nf);
    var r := InstanceRef(nf, st.count[nf]);
    forall t, k | 0 <= t < |st'.registry| && 0 <= k < |st'.registry[t]|
      ensures InstanceRef(t, k) in st'.hosted[st'.registry[t][k].node]
    {
      if t != nf || k < st.count[nf] {
        var u := st.registry[t][k].node;
        assert st'.registry[t][k] == st.registry[t][k];
        assert InstanceRef(t, k) in st.hosted[u];
        assert u == v ==> st'.hosted[u] == st.hosted[u] + [r];
      } else {
        assert st'.registry[t][k].node == v;
      }
    }
  }

  lemma NewInstanceKeepsHosted(st: State, cfg: Config, v: nat, nf: nat)
    requires Shaped(st, cfg, |st.cpu|) && RegistryInSync(st) && HostedRegistered(st)
    requires v < |st.cpu| && nf < cfg.TypeCount()
    ensures HostedRegistered(WithNewInstance(st, cfg, v, nf))
  {
    var st' := WithNewInstance(st, cfg, v, nf);
    forall u, j | 0 <= u < |st'.hosted| && 0 <= j < |st'.hosted[u]|
      ensures Registered(st'.registry, st'.hosted[u][j])
      ensures st'.registry[st'.hosted[u][j].nf][st'.hosted[u][j].id].node == u
    {
      if u != v || j < |st.hosted[v]| {
        assert st'.hosted[u][j] == st.hosted[u][j];
      }
    }
  }

  lemma NewInstanceKeepsTyped(st: State, cfg: Config, chains: seq<seq<nat>>, v: nat, nf: nat)
    requires Shaped(st, cfg, |st.cpu|) && RegistryInSync(st) && PlacementTyped(st, chains)
    requires v < |st.cpu| && nf < cfg.TypeCount()
    ensures PlacementTyped(WithNewInstance(st, cfg, v, nf), chains)
  {
  }

  /** Placing a stage keeps the invariant. */
  lemma PlacePreservesConsistency(st: State, cfg: Config, budget: seq<int>, chains: seq<seq<nat>>,
                                  rid: nat, i: nat, cand: seq<nat>)
    requires Consistent(st, cfg, budget, chains)
    requires rid < |chains| && i < |chains[rid]| && chains[rid][i] < cfg.TypeCount()
    requires NodesIn(cand, |st.cpu|)
    ensures var res := Place(st, cfg, rid, i, chains[rid][i], cand);
      res.Ok? ==> Consistent(res.value.after, cfg, budget, chains)
  {
    var res := Place(st, cfg, rid, i, chains[rid][i], cand);
    if res.Ok? {
      if res.value.choice.Reused? {
        ReusePreservesConsistency(st, cfg, budget, chains, rid, i, cand);
      } else {
        CreatePreservesConsistency(st, cfg, budget, chains, rid, i, cand);
      }
    }
  }

  lemma ReusePreservesConsistency(st: State, cfg: Config, budget: seq<int>, chains: seq<seq<nat>>,
                                  rid: nat, i: nat, cand: seq<nat>)
    requires Consistent(st, cfg, budget, chains)
    requires rid < |chains| && i < |chains[rid]| && chains[rid][i] < cfg.TypeCount()
    requires NodesIn(cand, |st.cpu|)
    requires var res := Place(st, cfg, rid, i, chains[rid][i], cand); res.Ok? && res.value.choice.Reused?
    ensures Consistent(Place(st, cfg, rid, i, chains[rid][i], cand).value.after, cfg, budget, chains)
  {
    var nf := chains[rid][i];
    var choice := Place(st, cfg, rid, i, nf, cand).value.choice;
    PlaceReuses(st, cfg, rid, i, nf, cand);
    AssignKeepsTyped(st, chains, rid, i, choice.node, choice.inst);
  }

  lemma CreatePreservesConsistency(st: State, cfg: Config, budget: seq<int>, chains: seq<seq<nat>>,
                                   rid: nat, i: nat, cand: seq<nat>)
    requires Consistent(st, cfg, budget, chains)
    requires rid < |chains| && i < |chains[rid]| && chains[rid][i] < cfg.TypeCount()
    requires NodesIn(cand, |st.cpu|)
    requires var res := Place(st, cfg, rid, i, chains[rid][i], cand); res.Ok? && res.value.choice.Created?
    ensures Consistent(Place(st, cfg, rid, i, chains[rid][i], cand).value.after, cfg, budget, chains)
  {
    var nf := chains[rid][i];
    var choice := Place(st, cfg, rid, i, nf, cand).value.choice;
    PlaceCreates(st, cfg, rid, i, nf, cand);
    NewInstanceKeepsConsistency(st, cfg, budget, chains, choice.node, nf);
    AssignKeepsTyped(WithNewInstance(st, cfg, choice.node, nf), chains, rid, i, choice.node, choice.inst);
  }

  /** Placing every stage of a request from stage `i` on, stopping at the first failure. */
  function PlaceChain(st: State, cfg: Config, rid: nat, chain: seq<nat>, i: nat, cand: seq<nat>): (res: Result<State>)
    requires Shaped(st, cfg, |st.cpu|) && rid < |st.placement| && |st.placement[rid]| == |chain|
    requires (forall s :: 0 <= s < |chain| ==> chain[s] < cfg.TypeCount()) && NodesIn(cand, |st.cpu|)
    ensures res.Ok? ==> Shaped(res.value, cfg, |st.cpu|)
    ensures res.Ok? ==> |res.value.placement| == |st.placement| && |res.value.placement[rid]| == |chain|
    decreases |chain| - i
  {
    if i >= |chain| then Ok(st)
    else match Place(st, cfg, rid, i, chain[i], cand)
      case Err(e) => Err(e)
      case Ok(step) => PlaceChain(step.after, cfg, rid, chain, i + 1, cand)
  }

  /** A placement step records exactly one entry: the chosen node, mapped to an instance of the
      stage's type. */
  lemma PlaceEntry(st: State, cfg: Config, rid: nat, i: nat, nf: nat, cand: seq<nat>)
    requires Shaped(st, cfg, |st.cpu|) && Slot(st.placement, rid, i)
    requires nf < cfg.TypeCount() && NodesIn(cand, |st.cpu|)
    requires Place(st, cfg, rid, i, nf, cand).Ok?
    ensures var step := Place(st, cfg, rid, i, nf, cand).value;
      && step.choice.node in cand && step.choice.inst.nf == nf
      && step.after.placement == Assign(st.placement, rid, i, step.choice.node, step.choice.inst)
  {
    if Place(st, cfg, rid, i, nf, cand).value.choice.Reused? {
      PlaceReuses(st, cfg, rid, i, nf, cand);
    } else {
      PlaceCreates(st, cfg, rid, i, nf, cand);
    }
  }

  /** Stages `i` onwards of request `rid` hold one entry each, at a candidate node, of the stage's
      type; earlier stages and other requests are as in `p0`. */
  ghost predicate FilledFrom(p0: Placement, p: Placement, rid: nat, chain: seq<nat>, i: nat, cand: seq<nat>)
  {
    && rid < |p0| && |p| == |p0|
    && (forall r :: 0 <= r < |p0| && r != rid ==> p[r] == p0[r])
    && |p[rid]| == |chain| == |p0[rid]|
    && (forall s :: 0 <= s < i && s < |chain| ==> p[rid][s] == p0[rid][s])
    && (forall s :: i <= s < |chain| ==>
          |p[rid][s]| == 1 &&
          forall v :: v in p[rid][s] ==> v in cand && p[rid][s][v].nf == chain[s])
  }

  /** One more filled stage in front of a filled suffix. */
  lemma FilledFromStep(p0: Placement, p1: Placement, p: Placement, rid: nat, chain: seq<nat>, i: nat,
                       cand: seq<nat>, v: nat, r: InstanceRef)
    requires rid < |p0| && i < |p0[rid]| == |chain| && p0[rid][i] == map[]
    requires v in cand && r.nf == chain[i]
    requires p1 == Assign(p0, rid, i, v, r)
    requires FilledFrom(p1, p, rid, chain, i + 1, cand)
    ensures FilledFrom(p0, p, rid, chain, i, cand)
  {
    assert p[rid][i] == p1[rid][i] == map[v := r];
  }

  /** After the first pass over a request whose stages were all empty, every stage holds exactly
      one node -> instance entry, its node is a candidate and its instance is of the stage's type;
      no other request's placement changes. */
  lemma {:induction false} PlaceChainFillsStages(st: State, cfg: Config, rid: nat, chain: seq<nat>, i: nat, cand: seq<nat>)
    requires Shaped(st, cfg, |st.cpu|) && rid < |st.placement| && |st.placement[rid]| == |chain|
    requires (forall s :: 0 <= s < |chain| ==> chain[s] < cfg.TypeCount()) && NodesIn(cand, |st.cpu|)
    requires forall s :: i <= s < |chain| ==> st.placement[rid][s] == map[]
    ensures var res := PlaceChain(st, cfg, rid, chain, i, cand);
      res.Ok? ==> FilledFrom(st.placement, res.value.placement, rid, chain, i, cand)
    decreases |chain| - i
  {
    var res := PlaceChain(st, cfg, rid, chain, i, cand);
    if i < |chain| && res.Ok? {
      var step := Place(st, cfg, rid, i, chain[i], cand).value;
      var st' := step.after;
      PlaceEntry(st, cfg, rid, i, chain[i], cand);
      PlaceChainFillsStages(st', cfg, rid, chain, i + 1, cand);
      FilledFromStep(st.placement, st'.placement, res.value.placement, rid, chain, i, cand,
                     step.choice.node, step.choice.inst);
    }
  }
}
