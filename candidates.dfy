/** Candidate-node ranking for one request: every node gets the distance sum
    `distance(bw, src, v) + distance(bw, v, dst)` over the current residual bandwidth, and the nodes
    are ordered by a stable sort on availability (descending) followed by a stable sort on the
    distance sum (ascending). */
module Candidates {
  import opened Network
  import opened Sorting

  /** The shortest-path primitive: distance between two nodes over a bandwidth matrix. */
  type Distance = (Matrix, nat, nat) -> real

  function DistanceSums(bw: Matrix, src: nat, dst: nat, n: nat, distance: Distance): (ds: seq<real>)
    ensures |ds| == n
    ensures forall v :: 0 <= v < n ==> ds[v] == distance(bw, src, v) + distance(bw, v, dst)
  {
    seq(n, v requires 0 <= v < n => distance(bw, src, v) + distance(bw, v, dst))
  }

  /** The two composed stable sorts, on the node indices 0 .. n-1. */
  function CandidateOrder(ds: seq<real>, avail: seq<real>): (cand: seq<nat>)
    requires |ds| == |avail|
    ensures |cand| == |avail|
  {
    SortBy(SortBy(Iota(|avail|), avail, true), ds, false)
  }

  /** Builds the `(v, distance sum)` list node by node, then sorts. */
  method CandidateNodes(bw: Matrix, src: nat, dst: nat, avail: seq<real>, distance: Distance)
    returns (cand: seq<nat>)
    ensures cand == CandidateOrder(DistanceSums(bw, src, dst, |avail|, distance), avail)
  {
    var ds: seq<real> := [];
    for v := 0 to |avail|
      invariant |ds| == v
      invariant forall u :: 0 <= u < v ==> ds[u] == distance(bw, src, u) + distance(bw, u, dst)
    {
      ds := ds + [distance(bw, src, v) + distance(bw, v, dst)];
    }
    assert ds == DistanceSums(bw, src, dst, |avail|, distance);
    var byAvail := SortBy(Iota(|avail|), avail, true);
    cand := SortBy(byAvail, ds, false);
  }

  /** The candidate list holds every node exactly once, and orders it by distance sum ascending,
      then availability descending, then node index ascending. */
  lemma CandidateOrderSpec(ds: seq<real>, avail: seq<real>, p: nat, q: nat)
    requires |ds| == |avail|
    ensures |CandidateOrder(ds, avail)| == |avail|
    ensures multiset(CandidateOrder(ds, avail)) == multiset(Iota(|avail|))
    ensures Distinct(CandidateOrder(ds, avail))
    ensures p < q < |avail| ==>
      var c := CandidateOrder(ds, avail);
      var a, b := c[p], c[q];
      ds[a] < ds[b] ||
      (ds[a] == ds[b] && avail[a] > avail[b]) ||
      (ds[a] == ds[b] && avail[a] == avail[b] && a < b)
  {
    CandidateOrderPermutes(ds, avail);
    if p < q < |avail| {
      CandidateOrderRanks(ds, avail, p, q);
    }
  }

  lemma CandidateOrderPermutes(ds: seq<real>, avail: seq<real>)
    requires |ds| == |avail|
    ensures |CandidateOrder(ds, avail)| == |avail|
    ensures multiset(CandidateOrder(ds, avail)) == multiset(Iota(|avail|))
    ensures Distinct(CandidateOrder(ds, avail))
  {
    var nodes := Iota(|avail|);
    assert Distinct(nodes);
    var inner := SortBy(nodes, avail, true);
    var c := SortBy(inner, ds, false);
    assert |c| == |multiset(c)| == |multiset(nodes)| == |avail|;
    SortByDistinct(nodes, avail, true);
    SortByDistinct(inner, ds, false);
  }

  lemma CandidateOrderRanks(ds: seq<real>, avail: seq<real>, p: nat, q: nat)
    requires |ds| == |avail| && p < q < |CandidateOrder(ds, avail)|
    ensures var c := CandidateOrder(ds, avail);
      var a, b := c[p], c[q];
      ds[a] < ds[b] ||
      (ds[a] == ds[b] && avail[a] > avail[b]) ||
      (ds[a] == ds[b] && avail[a] == avail[b] && a < b)
  {
    var nodes := Iota(|avail|);
    assert Distinct(nodes);
    var inner := SortBy(nodes, avail, true);
    SortByDistinct(nodes, avail, true);
    var c := SortBy(inner, ds, false);
    var a, b := c[p], c[q];
    SortByOrdersPairs(inner, ds, false, p, q);
    assert ds[a] <= ds[b];
    if ds[a] == ds[b] {
      var i, j :| 0 <= i < j < |inner| && inner[i] == a && inner[j] == b;
      SortByOrdersPairs(nodes, avail, true, i, j);
      assert avail[a] >= avail[b];
      if avail[a] == avail[b] {
        var i', j' :| 0 <= i' < j' < |nodes| && nodes[i'] == a && nodes[j'] == b;
        assert a == i' < j' == b;
      }
    }
  }

  /** Every node is a candidate. */
  lemma EveryNodeIsCandidate(ds: seq<real>, avail: seq<real>, v: nat)
    requires |ds| == |avail| && v < |avail|
    ensures v in CandidateOrder(ds, avail)
  {
    CandidateOrderSpec(ds, avail, 0, 0);
    assert Iota(|avail|)[v] == v;
    assert v in multiset(Iota(|avail|));
  }
}
