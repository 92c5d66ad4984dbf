# SFC deployment engines, modelled in Dafny

This project models the two greedy service-function-chain (SFC) deployment engines of
SFCDeployment: `extend_deploy` (`algorithm/ExtendAlgorithm.py`) and `vne_deploy` with its helper
`get_avg_node_avail` (`algorithm/VNEAlgorithm.py`).

Both engines follow the same steps:

- They rank a batch of chain requests. A request's rank is `rate / Σrate`, plus a normalised
  availability term when the availability demands differ.
- They deploy the requests one at a time, highest rank first. For each request they:
  - order the nodes as candidates by distance sum over the residual bandwidth;
  - place one NF instance per chain stage, either reusing a same-type instance with capacity
    left or creating a new instance on a node with enough CPU;
  - add replicas where a bottleneck helper asks for them;
  - route the request and subtract its flow matrix from the residual bandwidth.
- The VNE engine adds one top-up pass before the capacity loop. That pass gives one replica to
  every stage whose NF type has fewer instances than a target derived from the least node
  availability.

Modules, in dependency order:

| file | module | what it holds |
|---|---|---|
| numbers.dfy | `Numbers` | `sum`, `min`, `max` over reals |
| network.dfy | `Network` | requests, instances, instance handles, the NF configuration, bandwidth matrices, errors; element-wise matrix subtraction |
| sorting.dfy | `Sorting` | Python's stable `sorted(..., key, reverse)` on index sequences, with permutation, order and stability lemmas |
| ranking.dfy | `Ranking` | request ranks and the processing order |
| candidates.dfy | `Candidates` | the candidate-node loop and its two composed stable sorts |
| placer.dfy | `Placer` | the state a run mutates (as a value) and the stage placer `Place` on it, with the state invariant |
| bottleneck.dfy | `Bottleneck` | one replica (`Replica`) and the bottleneck `while` loop (`Resolve`) as functions on the state |
| deployment.dfy | `DeploymentState` | class `Deployment`: the mutable state in fields, and the scans and loops as methods proved equal to the functions above |
| extend.dfy | `ExtendAlgorithm` | `extend_deploy` |
| vne.dfy | `VneAlgorithm` | `vne_deploy`, `get_avg_node_avail`, the top-up pass |

The state holds four parts:

- each node's CPU and instance list;
- the per-type instance registry and counters;
- the per-request, per-stage `node -> instance` placement maps;
- the residual bandwidth and the per-request flow matrices.

Instances are stored once, in the registry. Node lists and placements hold handles
`InstanceRef(nf, id)`, so every holder of a handle sees the same instance, as Python's shared
object references do.

The class invariant `Deployment.Valid` holds between every two statements of the engines:

- each type's registry has exactly `count[t]` instances, numbered `0, 1, ...`;
- every instance is in the list of the node it is placed on;
- each node's CPU plus the CPU of its instances equals its original CPU;
- every node that hosts an instance has CPU left;
- every placement entry names a registered instance of the stage's type on that node;
- the residual bandwidth is the input bandwidth minus the routed flows, in routing order.

The helpers in `util` are not part of this model. They are function-typed parameters (oracles):

- `distance` is `Distance`;
- `get_avail` and `get_rest_capacity` are `Probe`;
- `get_route` is `Router`;
- the node list `add_instance` scans is `ReplicaNodes`;
- the `math.ceil(math.log(...))` replica target is `ReplicaTarget`.

Each engine's helpers, and the bound on its bottleneck loops' rounds, travel together as an
`Oracles` value, one per engine.

Three points of the code that a quick reading may miss, and that the model keeps:

- `extend_deploy` runs two bottleneck loops in sequence: availability first, then capacity. It
  computes the capacity helper's first answer before the availability loop and does not refresh
  it until the capacity loop's first round. `ExtendAlgorithm.Reinforce` and
  `ExtendAlgorithm.DeployRequest` do the same.
- The top-up compares the global per-type counter `instance_num[nf]` with the target, not the
  number of instances the request itself uses. `VneAlgorithm.TopUp` compares `count[nf]`.
- `get_route`'s flow is never checked for feasibility before it is subtracted. The model
  subtracts any flow of the right shape. `Network.SubtractFeasible` states what holds when the
  flow fits.

How the engines are specified: each request's deployment is a pure step function on the state
value (`ExtendAlgorithm.ExtendStep`, `VneAlgorithm.VneStep`), and a whole run is the fold of that
step over the processing order (`ExtendAlgorithm.ExtendAll`, `VneAlgorithm.VneAll`). The class
methods are proved to leave exactly the state, residual bandwidth and flows the fold gives, and
the lemmas about the steps state what that state is like.

## Model

| member | source | states |
|---|---|---|
| Numbers.Sum | algorithm/ExtendAlgorithm.py:33 | Python's `sum` over the rates; a sum of non-negative reals is non-negative |
| Numbers.Min | algorithm/VNEAlgorithm.py:153 | the result is an element of the sequence and at most every element (Python's `min`) |
| Numbers.Max | algorithm/ExtendAlgorithm.py:34 | the result is an element of the sequence and at least every element (Python's `max`) |
| Numbers.ElementAtMostSum | algorithm/ExtendAlgorithm.py:33 | with non-negative rates, each rate is at most the rate sum |
| Network.Subtract | algorithm/ExtendAlgorithm.py:148 | the result has the operands' shape and each entry is the entry-wise difference |
| Network.SubtractFeasible | algorithm/ExtendAlgorithm.py:148 | subtracting a non-negative flow that fits leaves every entry between 0 and its old value |
| Network.SubtractAllIsTotalLoad | algorithm/ExtendAlgorithm.py:146-148 | after subtracting a batch of flows one per request, each link holds the original bandwidth minus the batch's total flow on it |
| Network.SubtractAll | algorithm/ExtendAlgorithm.py:148 | its ensures gives only the shape: the residual after a batch of flows has the bandwidth matrix's shape; `Network.SubtractAllIsTotalLoad` states its value |
| Sorting.InsertionPoint | algorithm/ExtendAlgorithm.py:44 | a stable insertion goes behind every element whose key strictly precedes and before the first it may precede |
| Sorting.SortBy | algorithm/ExtendAlgorithm.py:44 | the sort returns a permutation of its input |
| Sorting.SortBySorted | algorithm/ExtendAlgorithm.py:44 | the sort orders its result by the key, ascending or descending |
| Sorting.SortByStable | algorithm/ExtendAlgorithm.py:44 | elements with equal keys keep their input order (Python's sort is stable) |
| Sorting.SortByDistinct | algorithm/ExtendAlgorithm.py:44 | sorting a sequence without repetitions gives one without repetitions |
| Sorting.SortByOrdersPairs | algorithm/ExtendAlgorithm.py:58-65 | of two result positions, the first has the key that may precede, and with equal keys the element that came first in the input |
| Ranking.Rates | algorithm/ExtendAlgorithm.py:33 | the generator `request.rate for request in request_list`: one entry per request, in list order, each that request's rate |
| Ranking.Avails | algorithm/ExtendAlgorithm.py:34-35 | the generator `request.avail for request in request_list`: one entry per request, in list order, each that request's availability demand |
| Ranking.Ranks | algorithm/ExtendAlgorithm.py:33-43 | ranks exist exactly for a non-empty batch with a non-zero rate sum; otherwise the error is the empty list or the zero sum; one rank per request |
| Ranking.RankOf | algorithm/ExtendAlgorithm.py:38-43 | with a rate between 0 and the rate sum and an availability demand between the batch's least and greatest, the rank lies in [0, 2], and in [0, 1] when those two demands are equal; `Ranking.RankMonotone` and `Ranking.UniformRanksSumToOne` state the rest |
| Ranking.RankOrder | algorithm/ExtendAlgorithm.py:44 | its ensures gives only the length: one entry per request; `Ranking.RankOrderSpec` states the order itself |
| Ranking.ComputeRanks | algorithm/ExtendAlgorithm.py:33-43 | the ranking loop computes exactly `Ranks`, failing on an empty batch before the per-request loop and on a zero rate sum at the first division |
| Ranking.RankOrderSpec | algorithm/ExtendAlgorithm.py:44 | the processing order lists every request exactly once; a request precedes another exactly when its rank is higher, or equal and it came first in the input |
| Ranking.RankOrderCovers | algorithm/ExtendAlgorithm.py:44-47 | every request id is in the processing order and every entry is a request id |
| Ranking.ProcessingOrder | algorithm/ExtendAlgorithm.py:33-44 | a ranking error is returned as such; otherwise the order is `RankOrder` of the ranks, lists every request id exactly once and nothing else |
| Ranking.UniformRanksSumToOne | algorithm/ExtendAlgorithm.py:38-39 | when all availability demands are equal, the ranks are the rate shares and sum to one |
| Ranking.RankBounds | algorithm/ExtendAlgorithm.py:38-43 | with non-negative rates every rank is in [0, 2], and in [0, 1] when the demands are equal |
| Ranking.RankMonotone | algorithm/ExtendAlgorithm.py:38-43 | a request with at least another's rate and availability demand ranks at least as high |
| Candidates.DistanceSums | algorithm/ExtendAlgorithm.py:49-57 | node `v`'s key is `distance(bw, src, v) + distance(bw, v, dst)` |
| Candidates.CandidateOrder | algorithm/ExtendAlgorithm.py:58-67 | its ensures gives only the length: one entry per node; `Candidates.CandidateOrderSpec` states the order itself |
| Candidates.CandidateNodes | algorithm/ExtendAlgorithm.py:49-67 | the candidate loop and sorts compute exactly `CandidateOrder` of the distance sums |
| Candidates.CandidateOrderSpec | algorithm/ExtendAlgorithm.py:58-67 | the candidates are every node exactly once, ordered by distance sum ascending, then availability descending, then node index ascending |
| Candidates.EveryNodeIsCandidate | algorithm/VNEAlgorithm.py:53-72 | every node is a candidate |
| Placer.LastReusable | algorithm/ExtendAlgorithm.py:74-77 | the position found holds a same-type instance with capacity left and no later one does; none is found exactly when no instance qualifies |
| Placer.FindReusable | algorithm/ExtendAlgorithm.py:74-77 | the scan of a node's instance list keeps the last match, as `LastReusable` |
| Placer.FirstAdmitting | algorithm/ExtendAlgorithm.py:72-84 | the position found is a candidate that allows reuse or creation, behind candidates that all allow neither; none is found exactly when no candidate does |
| Placer.FirstAdmittingAt | algorithm/ExtendAlgorithm.py:72-95 | an admitting candidate behind only non-admitting ones is the one the scan stops at |
| Placer.Assign | algorithm/ExtendAlgorithm.py:80 | `request_placement[rid][i][v] = inst` changes that one entry and nothing else |
| Placer.Place | algorithm/ExtendAlgorithm.py:70-98 | a stage fails with "No CPU!" exactly when no candidate allows reuse or creation; otherwise the node used is the first admitting candidate, and it reuses exactly when that node can |
| Placer.WithNewInstance | algorithm/ExtendAlgorithm.py:86-94 | its ensures gives only that the state keeps its shape and its placements; `Placer.PlaceCreates` states the debit, the new id and the registrations |
| Placer.PlaceChain | algorithm/ExtendAlgorithm.py:70-98 | its ensures gives only the shape of the state after the first pass; `Placer.PlaceChainFillsStages` and `Bottleneck.PlaceChainGrows` state what the pass does |
| Placer.PlaceReuses | algorithm/ExtendAlgorithm.py:74-81 | reuse takes the last reusable instance in the node's list and changes only the stage's entry: CPU, lists, registry and counters stay as they were |
| Placer.PlaceCreates | algorithm/ExtendAlgorithm.py:84-95 | creation happens only where the node cannot reuse and its CPU strictly exceeds the requirement; that CPU drops by exactly the requirement and stays positive, other nodes keep theirs; the new id is the old counter, the counter rises by one, and the instance joins the node's list and the type's registry |
| Placer.PlaceEntry | algorithm/ExtendAlgorithm.py:80-90 | a placement step records one entry, at a candidate node, naming an instance of the stage's type |
| Placer.HostedCpuAppend | algorithm/ExtendAlgorithm.py:93-94 | a node's hosted CPU grows by the requirement of the instance appended to its list |
| Placer.PlacePreservesConsistency | algorithm/ExtendAlgorithm.py:23-29 | a stage placement keeps registry and counters in sync (ids consecutive), node lists and registry agreeing, CPU accounted and positive on hosting nodes, and placements typed |
| Placer.ReusePreservesConsistency | algorithm/ExtendAlgorithm.py:74-81 | reusing an instance keeps the state invariant |
| Placer.CreatePreservesConsistency | algorithm/ExtendAlgorithm.py:84-95 | creating an instance keeps the state invariant |
| Placer.PlaceChainFillsStages | algorithm/VNEAlgorithm.py:75-100 | after the first pass over an unplaced request, every stage holds exactly one entry, at a candidate node, of the stage's type; no other request changes |
| Bottleneck.Replica | algorithm/ExtendAlgorithm.py:109-117 | its ensures gives only that a successful replica keeps the request `Ready` and the node count; the failure cases (a stage index outside the chain, an unknown node) and the placement it performs are in its body, and `Bottleneck.ReplicaGrows`, `Bottleneck.ReplicaPreservesConsistency` and `VneAlgorithm.ReplicaCount` state its effect |
| Bottleneck.Resolve | algorithm/ExtendAlgorithm.py:106-143 | its ensures gives only that a successful loop keeps the request `Ready` and the node count; `Bottleneck.ResolveSettles`, `Bottleneck.ResolveWithoutFuel`, `Bottleneck.ResolveGrows` and `Bottleneck.ResolvePreservesConsistency` state the loop's outcome |
| Bottleneck.PlaceChainGrows | algorithm/ExtendAlgorithm.py:70-98 | the first pass touches only request `rid`, whose stages only gain nodes; counters and registries only grow |
| Bottleneck.ResolveSettles | algorithm/ExtendAlgorithm.py:106-123 | a bottleneck loop ends successfully only with no change from a first answer of -1, or with the helper answering -1 on the final state |
| Bottleneck.ResolveWithoutFuel | algorithm/ExtendAlgorithm.py:106-123 | with no rounds left, the loop succeeds exactly when the helper's answer is -1 |
| Bottleneck.ResolveGrows | algorithm/ExtendAlgorithm.py:126-143 | the loop touches only request `rid`, whose stages only gain nodes; counters and registries only grow |
| Bottleneck.GrowsTransitive | algorithm/ExtendAlgorithm.py:106-143 | growth composes across the two loops |
| Bottleneck.ReplicaPreservesConsistency | algorithm/ExtendAlgorithm.py:109-117 | a replica keeps the state invariant |
| Bottleneck.ResolvePreservesConsistency | algorithm/ExtendAlgorithm.py:126-143 | a bottleneck loop keeps the state invariant |
| DeploymentState.EmptyPlacement | algorithm/ExtendAlgorithm.py:37 | one empty map per stage of every request |
| DeploymentState.GrowsKeepsFits | algorithm/ExtendAlgorithm.py:47-148 | growing one request's placement keeps every request's placement shaped like its chain |
| DeploymentState.FirstPass | algorithm/ExtendAlgorithm.py:49-98 | the first pass runs over the candidate order of the distance sums; on success the request stays `Ready` on the same nodes |
| DeploymentState.Routed | algorithm/ExtendAlgorithm.py:146-148 | routing keeps the state and yields a flow of the bandwidth matrix's shape, or fails with `FlowShapeMismatch` |
| DeploymentState.FlowListAppend | algorithm/ExtendAlgorithm.py:147 | storing a new request's flow under its id appends it to the routed flows |
| DeploymentState.SubtractAllAppend | algorithm/ExtendAlgorithm.py:148 | subtracting one more flow from a batch's residual is the longer batch's residual |
| DeploymentState.LedgerAppend | algorithm/ExtendAlgorithm.py:146-148 | routing a request not routed before keeps the ledger: the new residual is the input bandwidth minus every routed flow, including this one |
| DeploymentState.GrowsKeepsPlaced | algorithm/ExtendAlgorithm.py:106-143 | a request with a node at every stage keeps one through the replica loops |
| DeploymentState.DeployedUpToStep | algorithm/ExtendAlgorithm.py:47 | deploying the next request in order, touching no other, moves the deployed boundary by one |
| DeploymentState.EveryRequestDeployed | algorithm/ExtendAlgorithm.py:47-152 | once an order listing every request is deployed, every request has a flow and a node at every stage |
| DeploymentState.Deployment.EveryRequestRouted | algorithm/ExtendAlgorithm.py:47-152 | once every request is in the routing order and that order is deployed, every request has a flow and a node at every stage |
| DeploymentState.Deployment.constructor | algorithm/ExtendAlgorithm.py:16-29 | nodes start with their CPU and no instances, registry and counters are empty, every stage's map is empty, the residual is the input bandwidth |
| DeploymentState.Deployment.ScanCandidates | algorithm/ExtendAlgorithm.py:72-84 | the candidate scan stops at `FirstAdmitting`, with the last reusable instance of that node |
| DeploymentState.Deployment.Record | algorithm/ExtendAlgorithm.py:80-90 | the store `request_placement[request.id][i][v] = inst` (lines 80 and 90) sets that one entry as `Assign` says and changes no other field |
| DeploymentState.Deployment.Create | algorithm/ExtendAlgorithm.py:86-94 | the new instance's handle is the old counter, and the new state is exactly `WithNewInstance` plus the stage's entry |
| DeploymentState.Deployment.PlaceStage | algorithm/ExtendAlgorithm.py:70-98 | the placer changes the state exactly as `Place` says and keeps the invariant; on "No CPU!" nothing changes |
| DeploymentState.Deployment.InitialPass | algorithm/ExtendAlgorithm.py:70-98 | the first pass ends in the state `PlaceChain` gives, or its error; an unplaced request ends with a node at every stage |
| DeploymentState.Deployment.AddReplica | algorithm/ExtendAlgorithm.py:109-117 | adding a replica changes the state exactly as `Replica` says, or nothing on error |
| DeploymentState.Deployment.ResolveBottleneck | algorithm/ExtendAlgorithm.py:106-143 | the `while` loop ends in the state `Resolve` gives, or its error, and only grows the request's placement |
| DeploymentState.Deployment.Route | algorithm/ExtendAlgorithm.py:146-148 | the flow is stored under the request's id and the new residual is the old one minus the flow entry-wise; a flow of the wrong shape is an error and changes nothing |
| ExtendAlgorithm.Reinforce | algorithm/ExtendAlgorithm.py:100-143 | the availability loop from `get_avail`'s answer, then the capacity loop from `get_rest_capacity`'s answer taken before the availability loop; on success the request stays `Ready` on the same nodes |
| ExtendAlgorithm.ExtendStep | algorithm/ExtendAlgorithm.py:47-148 | one request's deployment: first pass, both loops, routing; on success the request stays `Ready` and the flow has the bandwidth matrix's shape |
| ExtendAlgorithm.ExtendStepGrows | algorithm/ExtendAlgorithm.py:69-143 | a request's deployment touches only its own placement, whose stages only gain nodes, and only grows counters and registries |
| ExtendAlgorithm.ExtendStepPlaces | algorithm/ExtendAlgorithm.py:69-143 | a request whose stages were all empty ends with a node at every stage |
| ExtendAlgorithm.ExtendStepSettles | algorithm/ExtendAlgorithm.py:100-143 | on success `get_avail` reports no bottleneck after the availability loop, and `get_rest_capacity` reports none on the final state unless its stale first answer was already -1 and the capacity loop changed nothing |
| ExtendAlgorithm.ExtendAll | algorithm/ExtendAlgorithm.py:47-148 | the run over an order deploys each request from the state and residual bandwidth the previous one left, stopping at the first failure; on success every request's placement stays shaped like its chain |
| ExtendAlgorithm.ExtendFirst | algorithm/ExtendAlgorithm.py:47-148 | the run over a non-empty order starts with its first request, looked up by id; on success every request's placement stays shaped like its chain |
| ExtendAlgorithm.ExtendRequest | algorithm/ExtendAlgorithm.py:47-148 | one request deployed from the run, its flow stored under its id and subtracted, then the rest of the order; on success every request's placement stays shaped like its chain |
| ExtendAlgorithm.ExtendAllAdvances | algorithm/ExtendAlgorithm.py:47-148 | after one successful request, the run over the rest of the order from the new state, residual and flows is the run over the whole order |
| ExtendAlgorithm.DeployRequest | algorithm/ExtendAlgorithm.py:47-148 | deploying one request leaves exactly the state, residual bandwidth and flows `ExtendStep` gives from the old state (the residual minus the new flow, the flow stored under the id), or fails with its error; it touches only the request's placement and on success gives it a node at every stage |
| ExtendAlgorithm.ReplicaPhase | algorithm/ExtendAlgorithm.py:100-143 | both helpers are asked on the state the first pass left; the two loops end in exactly the state `Reinforce` gives, or fail with its error; they only grow the request's placement and touch no other request, the bandwidth or the flows |
| ExtendAlgorithm.DeployNext | algorithm/ExtendAlgorithm.py:47-148 | deploying the next request in order leaves a state from which `ExtendAll` over the rest of the order ends where it did from the old state over the order from this request, or fails with `ExtendAll`'s error |
| ExtendAlgorithm.DeployInOrder | algorithm/ExtendAlgorithm.py:47-148 | deploying the requests in the given order succeeds exactly when `ExtendAll` does, ends in its state, residual bandwidth and flows, and otherwise fails with its error; on success the requests were routed in that order, each with a node at every stage |
| ExtendAlgorithm.ExtendDeploy | algorithm/ExtendAlgorithm.py:13-152 | ranking errors are reported as such; otherwise the engine succeeds exactly when `ExtendAll` over the rank order does and ends in its state, residual bandwidth and flows, or fails with its error; on success the routing order is the rank order, every request has a flow and a node at every stage |
| VneAlgorithm.AvgNodeAvail | algorithm/VNEAlgorithm.py:150-153 | defined exactly for a non-empty node list (otherwise `NoNodes`); the value is some node's availability and at most every node's: the minimum |
| VneAlgorithm.TopUpRange | algorithm/VNEAlgorithm.py:105-115 | the pass over stages `i` to `j - 1`; its ensures gives only that a successful pass keeps the request `Ready` and the node count; it names the state the pass is in when it reaches a stage |
| VneAlgorithm.TopUp | algorithm/VNEAlgorithm.py:105-115 | the pass from stage `i` to the end of the chain, `TopUpRange` over all remaining stages; its ensures gives only that a successful pass keeps the request `Ready` and the node count; `VneAlgorithm.TopUpAtStage`, `VneAlgorithm.TopUpLeavesSaturated`, `VneAlgorithm.TopUpOneEntry`, `VneAlgorithm.TopUpDistinctReplicates`, `VneAlgorithm.TopUpCountBound`, `VneAlgorithm.TopUpNoop` and `VneAlgorithm.TopUpGrows` state what the pass does |
| VneAlgorithm.ReplicaCount | algorithm/VNEAlgorithm.py:106-115 | a replica leaves every counter as it is or raises only the stage type's counter by one |
| VneAlgorithm.TopUpCountBound | algorithm/VNEAlgorithm.py:105-115 | the top-up never takes a type's counter past the target unless it started there |
| VneAlgorithm.TopUpNoop | algorithm/VNEAlgorithm.py:105-115 | when every remaining stage's type already has the target number of instances, the pass changes nothing |
| VneAlgorithm.TopUpGrows | algorithm/VNEAlgorithm.py:105-115 | the pass touches only request `rid`, whose stages only gain nodes |
| VneAlgorithm.ReplicaEntry | algorithm/VNEAlgorithm.py:107-115 | a successful `add_instance` at stage `i` is the placer's step over the nodes the helper offers: one entry, at an offered node, naming an instance of the stage's type, and nothing else in the placement changes |
| VneAlgorithm.TopUpRangeSplits | algorithm/VNEAlgorithm.py:105-115 | running the pass to stage `j` and then on to stage `k` is running it to stage `k`; a failure before `j` is the whole pass's failure |
| VneAlgorithm.TopUpRangeFrame | algorithm/VNEAlgorithm.py:105-115 | the pass over stages `i` to `j - 1` leaves every other stage of the request as it was |
| VneAlgorithm.TopUpRangeCounts | algorithm/VNEAlgorithm.py:105-115 | over stages `i` to `j - 1` counters only rise, and a type that no stage in that range has keeps its counter |
| VneAlgorithm.TopUpFirstStage | algorithm/VNEAlgorithm.py:105-115 | a pass from stage `s` leaves that stage as it was when its type already has `target` instances, and otherwise gives it exactly the entry the placer picks over the nodes the helper offers |
| VneAlgorithm.TopUpAtStage | algorithm/VNEAlgorithm.py:105-115 | a stage whose type has at least `target` instances when the pass reaches it is left as it was; any other stage gains exactly the entry the placer picks over the nodes the helper offers at that moment, at an offered node and of the stage's type |
| VneAlgorithm.TopUpLeavesSaturated | algorithm/VNEAlgorithm.py:105-115 | a stage whose type has at least `target` instances when the pass starts is left as it was |
| VneAlgorithm.TopUpOneEntry | algorithm/VNEAlgorithm.py:105-115 | every stage ends as it was or with one entry set, naming an instance of the stage's type |
| VneAlgorithm.TopUpDistinctReplicates | algorithm/VNEAlgorithm.py:105-115 | on a chain whose stages all have different types, every stage whose type has fewer than `target` instances when the pass starts gains the entry the placer picks over the nodes offered when the pass reaches it |
| VneAlgorithm.TopUpPass | algorithm/VNEAlgorithm.py:105-115 | the loop ends in the state `TopUp` gives, or its error, and only grows the request's placement |
| VneAlgorithm.AddReplicas | algorithm/VNEAlgorithm.py:105-138 | the top-up then the capacity loop end in exactly the state `Replicas` gives, or fail with its error; they only grow the request's placement and touch no other request, the bandwidth or the flows |
| VneAlgorithm.Replicas | algorithm/VNEAlgorithm.py:105-138 | the top-up pass, then the capacity loop from `get_rest_capacity`'s answer on the state the top-up left; on success the request stays `Ready` on the same nodes |
| VneAlgorithm.ReplicasGrow | algorithm/VNEAlgorithm.py:105-138 | the replica phase touches only the request's own placement, whose stages only gain nodes |
| VneAlgorithm.VneStep | algorithm/VNEAlgorithm.py:45-143 | one request's deployment: the target from the least node availability (`NoNodes` without nodes), first pass, replica phase, routing; on success the request stays `Ready` and the flow has the bandwidth matrix's shape |
| VneAlgorithm.VneStepGrows | algorithm/VNEAlgorithm.py:74-138 | a request's deployment touches only its own placement, whose stages only gain nodes, and only grows counters and registries |
| VneAlgorithm.VneStepPlaces | algorithm/VNEAlgorithm.py:74-138 | a request whose stages were all empty ends with a node at every stage |
| VneAlgorithm.VneStepSettles | algorithm/VNEAlgorithm.py:117-138 | on success `get_rest_capacity` reports no bottleneck on the final state |
| VneAlgorithm.VneAll | algorithm/VNEAlgorithm.py:45-143 | the run over an order deploys each request from the state and residual bandwidth the previous one left, stopping at the first failure; on success every request's placement stays shaped like its chain |
| VneAlgorithm.VneFirst | algorithm/VNEAlgorithm.py:45-143 | the run over a non-empty order starts with its first request, looked up by id; on success every request's placement stays shaped like its chain |
| VneAlgorithm.VneRequest | algorithm/VNEAlgorithm.py:45-143 | one request deployed from the run, its flow stored under its id and subtracted, then the rest of the order; on success every request's placement stays shaped like its chain |
| VneAlgorithm.VneAllNeedsNodes | algorithm/VNEAlgorithm.py:45-48 | an empty order leaves the run as it was; without nodes a non-empty order fails with `NoNodes` |
| VneAlgorithm.VneAllAdvances | algorithm/VNEAlgorithm.py:45-143 | after one successful request, the run over the rest of the order from the new state, residual and flows is the run over the whole order |
| VneAlgorithm.DeployRequest | algorithm/VNEAlgorithm.py:45-143 | deploying one request leaves exactly the state, residual bandwidth and flows `VneStep` gives from the old state, or fails with its error (`NoNodes` with no nodes); it touches only the request's placement and on success gives it a node at every stage |
| VneAlgorithm.DeployNext | algorithm/VNEAlgorithm.py:45-143 | deploying the next request in order leaves a state from which `VneAll` over the rest of the order ends where it did from the old state over the order from this request, or fails with `VneAll`'s error |
| VneAlgorithm.DeployInOrder | algorithm/VNEAlgorithm.py:45-143 | deploying the requests in the given order succeeds exactly when `VneAll` does, ends in its state, residual bandwidth and flows, and otherwise fails with its error; on success the requests were routed in that order, each with a node at every stage |
| VneAlgorithm.VneDeploy | algorithm/VNEAlgorithm.py:12-147 | ranking errors are reported as such; otherwise the engine succeeds exactly when `VneAll` over the rank order does and ends in its state, residual bandwidth and flows, or fails with its error; on success the routing order is the rank order and every request has a flow and a node at every stage |

## Left out

- The `util` helpers (`distance`, `get_avail`, `get_rest_capacity`, `add_instance`, `get_route`)
  are not part of this model. They are parameters. `add_instance` is modelled as one more run of
  the stage placer for the named stage, over the nodes a `ReplicaNodes` helper offers.
- Nothing consumes instance capacity: the two engine files never lower an instance's capacity;
  only the `util` helpers could.
- Bottleneck.Resolve: the `while 1` loops have no bound in the code. The model gives each loop a
  fuel bound and fails with `BottleneckUnresolved` when it runs out, so a loop that would spin
  forever is not modelled.
- Floating point is modelled as exact `real` arithmetic: ranks, availabilities, distances and
  bandwidths. Rounding and NaN are not modelled.
- VneAlgorithm.DeployRequest: the replica target `ceil(log(1 - avail^len, 1 - minAvail))` is the
  integer result of a `ReplicaTarget` parameter. Its float domain errors (log of 0, a base of 1)
  are not modelled.
- Ranking.Ranks: a zero rate sum is reported as `ZeroRateSum` where Python raises
  `ZeroDivisionError`. An empty request list is `EmptyRequestList` where `max` raises.
- Request ids must equal list positions (`WellFormed`). The code indexes placements by
  `request.id` and would misbehave otherwise.
- Every stage's NF type must be a configured type.
- Nodes start with no instances; the constructor says so.
- The engines' return tuple is the object's final fields: placement, counters, residual bandwidth
  and flows.
- The state after a failed run is the state at the failure. No rollback is modelled, and no
  contract beyond the invariant is given for it.
- Bandwidth feasibility of a routed flow is not checked, as in the code. Only its shape is.
- `simulated_annealing`, `find_next_solution` and `get_total_cost` are not modelled: they are
  stubs returning constants.
- The `__main__` demo, printing, the numpy matrix conversion and `copy.copy` are not modelled.
- The global configuration (`NF_CPU_REQUIREMENT`, `NF_TYPE_NUM`) is an immutable `Config`. So is
  the starting capacity of a new instance (set by `NetworkInfo.Instance`, which is not modelled).
- DeploymentState.Deployment.Route: numpy's `np.mat(bandwidth) - np.mat(flow_matrix)` at
  `algorithm/ExtendAlgorithm.py:148` broadcasts a 1×N, N×1 or scalar flow instead of failing, and
  line 147 stores the flow under the request id before the subtraction could raise. The model
  fails with `FlowShapeMismatch` on any flow whose shape differs from the bandwidth matrix's and
  then stores nothing.
