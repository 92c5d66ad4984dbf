/** The entities the deployment engines work on: requests, NF instances, the NF configuration table,
    bandwidth matrices, and the outcomes an engine can end in. */
module Network {

  datatype Option<T> = None | Some(value: T)

  /** Why a deployment run stops early. */
  datatype Error =
    | EmptyRequestList      // `max`/`min` over an empty request list raise
    | ZeroRateSum           // `rate / float(rate_sum)` with a zero sum raises
    | NoNodes               // `min` over an empty node list raises (VNE engine)
    | NoCpu                 // the "No CPU!" assertion: no candidate can reuse or host an instance
    | StageOutOfRange       // a bottleneck helper named a stage the chain does not have
    | NodeOutOfRange        // the replica helper offered a node the topology does not have
    | BottleneckUnresolved  // the bottleneck loop did not settle within its fuel
    | FlowShapeMismatch     // the routed flow matrix cannot be subtracted from the bandwidth matrix

  datatype Result<T> = Ok(value: T) | Err(error: Error)

  /** A chain request: its position in the request list is its id. */
  datatype Request = Request(id: nat, src: nat, dst: nat, chain: seq<nat>, rate: real, avail: real)

  /** An NF instance as the registry holds it: `id` is unique within its NF type `nf`, `node` is
      where it is placed, `capacity` its residual throughput. */
  datatype Instance = Instance(id: nat, nf: nat, node: nat, capacity: int)

  /** A handle on a registered instance: node instance lists and placements refer to instances
      through handles, so that every holder of a handle sees the same instance. */
  datatype InstanceRef = InstanceRef(nf: nat, id: nat)

  /** The NF configuration: `cpuReq[t]` is the CPU an instance of type `t` takes
      (NF_CPU_REQUIREMENT); there are `|cpuReq|` NF types (NF_TYPE_NUM); `initialCapacity[t]`
      is the capacity a new instance of type `t` starts with. */
  datatype Config = Config(cpuReq: seq<nat>, initialCapacity: seq<int>)
  {
    predicate Valid() { |initialCapacity| == |cpuReq| }
    function TypeCount(): nat { |cpuReq| }
  }

  type Matrix = seq<seq<real>>

  predicate IsSquare(m: Matrix, n: nat)
  {
    |m| == n && forall i :: 0 <= i < n ==> |m[i]| == n
  }

  predicate SameShape(a: Matrix, b: Matrix)
  {
    |a| == |b| && forall i :: 0 <= i < |a| ==> |a[i]| == |b[i]|
  }

  /** Element-wise matrix difference (`np.mat(a) - np.mat(b)`). */
  function Subtract(a: Matrix, b: Matrix): (r: Matrix)
    requires SameShape(a, b)
    ensures SameShape(r, a) && SameShape(r, b)
    ensures forall i, j :: 0 <= i < |a| && 0 <= j < |a[i]| ==> r[i][j] == a[i][j] - b[i][j]
  {
    seq(|a|, i requires 0 <= i < |a| => seq(|a[i]|, j requires 0 <= j < |a[i]| => a[i][j] - b[i][j]))
  }

  /** Subtracting a flow that fits into the residual bandwidth leaves no entry negative, and a
      non-negative flow never raises an entry. */
  lemma SubtractFeasible(a: Matrix, b: Matrix)
    requires SameShape(a, b)
    requires forall i, j :: 0 <= i < |a| && 0 <= j < |a[i]| ==> 0.0 <= b[i][j] <= a[i][j]
    ensures forall i, j :: 0 <= i < |a| && 0 <= j < |a[i]| ==>
      0.0 <= Subtract(a, b)[i][j] <= a[i][j]
  {
  }

  /** Whether every flow in `flows` has the shape of `m`. */
  predicate AllShaped(m: Matrix, flows: seq<Matrix>)
  {
    forall k :: 0 <= k < |flows| ==> SameShape(m, flows[k])
  }

  /** The residual bandwidth after subtracting `flows` one after the other, in order. */
  function SubtractAll(m: Matrix, flows: seq<Matrix>): (r: Matrix)
    requires AllShaped(m, flows)
    ensures SameShape(r, m)
    decreases |flows|
  {
    if flows == [] then m
    else
      var last := flows[|flows| - 1];
      var prefix := flows[..|flows| - 1];
      assert AllShaped(m, prefix);
      Subtract(SubtractAll(m, prefix), last)
  }

  /** The flow all of `flows` put on link (i, j). */
  function LinkLoad(flows: seq<Matrix>, i: nat, j: nat): real
    requires forall k :: 0 <= k < |flows| ==> i < |flows[k]| && j < |flows[k][i]|
  {
    if flows == [] then 0.0 else flows[0][i][j] + LinkLoad(flows[1..], i, j)
  }

  lemma {:induction false} LinkLoadSnoc(flows: seq<Matrix>, f: Matrix, i: nat, j: nat)
    requires forall k :: 0 <= k < |flows| ==> i < |flows[k]| && j < |flows[k][i]|
    requires i < |f| && j < |f[i]|
    ensures LinkLoad(flows + [f], i, j) == LinkLoad(flows, i, j) + f[i][j]
  {
    if flows == [] {
      assert flows + [f] == [f];
      assert [f][1..] == [];
    } else {
      assert (flows + [f])[1..] == flows[1..] + [f];
      LinkLoadSnoc(flows[1..], f, i, j);
    }
  }

  /** Subtracting a batch of flows one request at a time leaves, on every link, the original
      bandwidth minus the total flow of the batch on that link. */
  lemma {:induction false} SubtractAllIsTotalLoad(m: Matrix, flows: seq<Matrix>, i: nat, j: nat)
    requires AllShaped(m, flows)
    requires i < |m| && j < |m[i]|
    ensures SubtractAll(m, flows)[i][j] == m[i][j] - LinkLoad(flows, i, j)
    decreases |flows|
  {
    if flows != [] {
      var prefix := flows[..|flows| - 1];
      var last := flows[|flows| - 1];
      assert AllShaped(m, prefix);
      assert SameShape(m, last);
      SubtractAllIsTotalLoad(m, prefix, i, j);
      assert prefix + [last] == flows;
      LinkLoadSnoc(prefix, last, i, j);
    }
  }
}
