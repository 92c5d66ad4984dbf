/** Request ranking: every request gets the scalar rank `rate / Σrate`, plus a normalised availability
    term when the requests' availability demands differ, and the batch is processed in stable
    descending rank order. */
module Ranking {
  import opened Network
  import opened Numbers
  import opened Sorting

  function Rates(rs: seq<Request>): (s: seq<real>)
    ensures |s| == |rs| && forall k :: 0 <= k < |rs| ==> s[k] == rs[k].rate
  {
    seq(|rs|, k requires 0 <= k < |rs| => rs[k].rate)
  }

  function Avails(rs: seq<Request>): (s: seq<real>)
    ensures |s| == |rs| && forall k :: 0 <= k < |rs| ==> s[k] == rs[k].avail
  {
    seq(|rs|, k requires 0 <= k < |rs| => rs[k].avail)
  }

  /** The rank of one request, given the batch's rate sum and lowest and highest availability. */
  function RankOf(r: Request, rateSum: real, lo: real, hi: real): (rank: real)
    requires rateSum != 0.0
    ensures 0.0 <= r.rate <= rateSum && lo <= r.avail <= hi ==> 0.0 <= rank <= 2.0
    ensures 0.0 <= r.rate <= rateSum && hi == lo ==> rank <= 1.0
  {
    RankTermsInUnit(r, rateSum, lo, hi);
    if hi == lo then r.rate / rateSum
    else r.rate / rateSum + (r.avail - lo) / (hi - lo)
  }

  /** The ranks of a request batch, or why they cannot be computed. */
  function Ranks(rs: seq<Request>): (res: Result<seq<real>>)
    ensures res.Ok? <==> |rs| > 0 && Sum(Rates(rs)) != 0.0
    ensures res.Err? ==> res.error == if |rs| == 0 then EmptyRequestList else ZeroRateSum
    ensures res.Ok? ==> |res.value| == |rs|
  {
    if |rs| == 0 then Err(EmptyRequestList)
    else if Sum(Rates(rs)) == 0.0 then Err(ZeroRateSum)
    else
      var rateSum, lo, hi := Sum(Rates(rs)), Min(Avails(rs)), Max(Avails(rs));
      Ok(seq(|rs|, k requires 0 <= k < |rs| => RankOf(rs[k], rateSum, lo, hi)))
  }

  /** The ranking loop: aggregates first (`max`/`min` fail on an empty batch), then one rank per
      request (the division fails on a zero rate sum). */
  method ComputeRanks(rs: seq<Request>) returns (res: Result<seq<real>>)
    ensures res == Ranks(rs)
  {
    if |rs| == 0 {
      return Err(EmptyRequestList);
    }
    var rateSum := Sum(Rates(rs));
    var hi := Max(Avails(rs));
    var lo := Min(Avails(rs));
    var ranks: seq<real> := [];
    for k := 0 to |rs|
      invariant k > 0 ==> rateSum != 0.0
      invariant |ranks| == k
      invariant forall j :: 0 <= j < k ==> rateSum != 0.0 && ranks[j] == RankOf(rs[j], rateSum, lo, hi)
    {
      if rateSum == 0.0 {
        return Err(ZeroRateSum);
      }
      ranks := ranks + [RankOf(rs[k], rateSum, lo, hi)];
    }
    assert ranks == Ranks(rs).value;
    return Ok(ranks);
  }

  /** The order requests are processed in: request indices sorted by descending rank, stably. */
  function RankOrder(ranks: seq<real>): (order: seq<nat>)
    ensures |order| == |ranks|
  {
    var order := SortBy(Iota(|ranks|), ranks, true);
    assert |multiset(order)| == |ranks|;
    order
  }

  /** The processing order lists every request exactly once; a request comes before another one
      exactly when its rank is higher, or the ranks are equal and it comes first in the input. */
  lemma RankOrderSpec(ranks: seq<real>, p: nat, q: nat)
    ensures |RankOrder(ranks)| == |ranks| && Distinct(RankOrder(ranks))
    ensures multiset(RankOrder(ranks)) == multiset(Iota(|ranks|))
    ensures p < q < |ranks| ==>
      var o := RankOrder(ranks);
      ranks[o[p]] > ranks[o[q]] || (ranks[o[p]] == ranks[o[q]] && o[p] < o[q])
  {
    var s := Iota(|ranks|);
    assert Distinct(s);
    var o := RankOrder(ranks);
    assert |o| == |multiset(o)| == |multiset(s)| == |ranks|;
    SortByDistinct(s, ranks, true);
    if p < q < |ranks| {
      SortByOrdersPairs(s, ranks, true, p, q);
      if ranks[o[p]] == ranks[o[q]] {
        var i, j :| 0 <= i < j < |s| && s[i] == o[p] && s[j] == o[q];
      }
    }
  }

  /** The processing order is a list of request ids, and every request id is in it. */
  lemma RankOrderCovers(ranks: seq<real>)
    ensures Keyed(RankOrder(ranks), ranks)
    ensures forall rid :: 0 <= rid < |ranks| ==> rid in RankOrder(ranks)
  {
    var s := Iota(|ranks|);
    forall rid | 0 <= rid < |ranks|
      ensures rid in RankOrder(ranks)
    {
      assert s[rid] == rid;
      assert rid in multiset(s);
    }
  }

  /** Ranking then sorting: the processing order of a batch, or the ranking error. */
  method ProcessingOrder(rs: seq<Request>) returns (res: Result<seq<nat>>)
    ensures Ranks(rs).Err? ==> res == Err(Ranks(rs).error)
    ensures Ranks(rs).Ok? ==> res == Ok(RankOrder(Ranks(rs).value))
    ensures res.Ok? ==> Distinct(res.value) && |res.value| == |rs|
    ensures res.Ok? ==> forall j :: 0 <= j < |res.value| ==> res.value[j] < |rs|
    ensures res.Ok? ==> forall rid :: 0 <= rid < |rs| ==> rid in res.value
  {
    var ranks := ComputeRanks(rs);
    if ranks.Err? {
      return Err(ranks.error);
    }
    var order := SortBy(Iota(|ranks.value|), ranks.value, true);
    assert order == RankOrder(ranks.value);
    RankOrderSpec(ranks.value, 0, 0);
    RankOrderCovers(ranks.value);
    return Ok(order);
  }

  lemma {:induction false} SumDivided(xs: seq<real>, ys: seq<real>, d: real)
    requires d != 0.0 && |ys| == |xs|
    requires forall k :: 0 <= k < |xs| ==> ys[k] == xs[k] / d
    ensures Sum(ys) == Sum(xs) / d
  {
    if xs != [] {
      SumDivided(xs[1..], ys[1..], d);
      DivideDistributes(xs[0], Sum(xs[1..]), d);
    }
  }

  lemma DivideDistributes(a: real, b: real, d: real)
    requires d != 0.0
    ensures a / d + b / d == (a + b) / d
  {
  }

  /** When every request demands the same availability, the ranks are the rate shares and add up
      to one. */
  lemma UniformRanksSumToOne(rs: seq<Request>)
    requires Ranks(rs).Ok?
    requires forall k :: 0 <= k < |rs| ==> rs[k].avail == rs[0].avail
    ensures Sum(Ranks(rs).value) == 1.0
  {
    var avails := Avails(rs);
    assert forall x :: x in avails ==> x == rs[0].avail;
    var rateSum, lo, hi := Sum(Rates(rs)), Min(avails), Max(avails);
    assert lo == rs[0].avail == hi;
    forall k | 0 <= k < |rs|
      ensures Ranks(rs).value[k] == Rates(rs)[k] / rateSum
    {
      RankAt(rs, k);
      assert RankOf(rs[k], rateSum, lo, hi) == rs[k].rate / rateSum;
    }
    SumDivided(Rates(rs), Ranks(rs).value, rateSum);
    assert Sum(Ranks(rs).value) == rateSum / rateSum;
    DivideSelf(rateSum);
  }

  lemma DivideSelf(d: real)
    requires d != 0.0
    ensures d / d == 1.0
  {
  }

  lemma RankAt(rs: seq<Request>, k: nat)
    requires Ranks(rs).Ok? && k < |rs|
    ensures Ranks(rs).value[k] == RankOf(rs[k], Sum(Rates(rs)), Min(Avails(rs)), Max(Avails(rs)))
  {
  }

  /** With non-negative rates every rank lies in [0, 2], and in [0, 1] when the availability
      demands are all equal. */
  lemma RankBounds(rs: seq<Request>, k: nat)
    requires Ranks(rs).Ok? && k < |rs|
    requires forall j :: 0 <= j < |rs| ==> rs[j].rate >= 0.0
    ensures 0.0 <= Ranks(rs).value[k] <= 2.0
    ensures Min(Avails(rs)) == Max(Avails(rs)) ==> Ranks(rs).value[k] <= 1.0
  {
    var rateSum, lo, hi := Sum(Rates(rs)), Min(Avails(rs)), Max(Avails(rs));
    ElementAtMostSum(Rates(rs), k);
    assert 0.0 <= rs[k].rate <= rateSum;
    FractionInUnit(rs[k].rate, rateSum);
    assert lo <= rs[k].avail <= hi by { assert rs[k].avail in Avails(rs); }
    if hi != lo {
      FractionInUnit(rs[k].avail - lo, hi - lo);
    }
  }

  /** The rate share and the normalised availability each lie in [0, 1] when their operands
      lie in the batch's ranges. */
  lemma RankTermsInUnit(r: Request, rateSum: real, lo: real, hi: real)
    requires rateSum != 0.0
    ensures 0.0 <= r.rate <= rateSum ==> 0.0 <= r.rate / rateSum <= 1.0
    ensures lo <= r.avail <= hi && hi != lo ==> 0.0 <= (r.avail - lo) / (hi - lo) <= 1.0
  {
    if 0.0 <= r.rate <= rateSum {
      FractionInUnit(r.rate, rateSum);
    }
    if lo <= r.avail <= hi && hi != lo {
      FractionInUnit(r.avail - lo, hi - lo);
    }
  }

  lemma FractionInUnit(x: real, d: real)
    requires 0.0 <= x <= d && d != 0.0
    ensures 0.0 <= x / d <= 1.0
  {
  }

  lemma DivideMonotone(x: real, y: real, d: real)
    requires x <= y && d > 0.0
    ensures x / d <= y / d
  {
    assert y / d - x / d == (y - x) / d;
  }

  /** A request with at least the rate and at least the availability demand of another one ranks
      at least as high, so it is deployed no later. */
  lemma RankMonotone(rs: seq<Request>, a: nat, b: nat)
    requires Ranks(rs).Ok? && a < |rs| && b < |rs|
    requires Sum(Rates(rs)) > 0.0
    requires rs[a].rate >= rs[b].rate && rs[a].avail >= rs[b].avail
    ensures Ranks(rs).value[a] >= Ranks(rs).value[b]
  {
    var rateSum, lo, hi := Sum(Rates(rs)), Min(Avails(rs)), Max(Avails(rs));
    DivideMonotone(rs[b].rate, rs[a].rate, rateSum);
    if hi != lo {
      assert lo <= hi by { assert rs[0].avail in Avails(rs); }
      DivideMonotone(rs[b].avail - lo, rs[a].avail - lo, hi - lo);
    }
  }
}
