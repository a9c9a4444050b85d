/**
 * The monthly cost estimate of the cost-structure diagram and the compute
 * estimate of the executive summary: every instance at its list price, plus
 * every worker pool of every LKE cluster at its type's price times its size
 * (the LKE control plane is free).
 */
module Estimate {
  import opened Pricing
  import opened Resources
  import opened Sums

  /** What the instances cost per month; a missing `type` is priced as the empty string. */
  function InstancePart(linodes: seq<Linode>): nat
  {
    if |linodes| == 0 then 0
    else InstancePart(linodes[..|linodes| - 1]) + MonthlyCost(PricedType(linodes[|linodes| - 1]))
  }

  /** What the workers of one cluster's pools cost per month. */
  function PoolPart(pools: seq<Pool>): int
  {
    if |pools| == 0 then 0
    else
      var p := pools[|pools| - 1];
      PoolPart(pools[..|pools| - 1]) + MonthlyCost(WorkerType(p)) * WorkerCount(p)
  }

  /** What the workers of all clusters cost per month. */
  function WorkerPart(clusters: seq<Cluster>): int
  {
    if |clusters| == 0 then 0
    else WorkerPart(clusters[..|clusters| - 1]) + PoolPart(clusters[|clusters| - 1].pools)
  }

  /** The `total_monthly` accumulator of the cost-structure diagram. */
  method MonthlyTotal(linodes: seq<Linode>, clusters: seq<Cluster>) returns (total: int)
    ensures total == InstancePart(linodes) + WorkerPart(clusters)
  {
    total := 0;
    var i := 0;
    while i < |linodes|
      invariant 0 <= i <= |linodes|
      invariant total == InstancePart(linodes[..i])
    {
      total := total + MonthlyCost(PricedType(linodes[i]));
      assert linodes[..i + 1][..i] == linodes[..i];
      i := i + 1;
    }
    assert linodes[..i] == linodes;
    var c := 0;
    while c < |clusters|
      invariant 0 <= c <= |clusters|
      invariant total == InstancePart(linodes) + WorkerPart(clusters[..c])
    {
      var pools := clusters[c].pools;
      var j := 0;
      while j < |pools|
        invariant 0 <= j <= |pools|
        invariant total == InstancePart(linodes) + WorkerPart(clusters[..c]) + PoolPart(pools[..j])
      {
        total := total + MonthlyCost(WorkerType(pools[j])) * WorkerCount(pools[j]);
        assert pools[..j + 1][..j] == pools[..j];
        j := j + 1;
      }
      assert pools[..j] == pools;
      assert clusters[..c + 1][..c] == clusters[..c];
      c := c + 1;
    }
    assert clusters[..c] == clusters;
  }

  /** The price of each instance, in list order; a missing `type` is priced as the empty string. */
  function UnitPrices(linodes: seq<Linode>): seq<int>
  {
    seq(|linodes|, i requires 0 <= i < |linodes| => MonthlyCost(PricedType(linodes[i])))
  }

  /** Summing the per-instance prices at once gives what the accumulator loop adds up. */
  lemma {:induction false} UnitPricesSum(linodes: seq<Linode>)
    ensures Sum(UnitPrices(linodes)) == InstancePart(linodes)
  {
    if |linodes| > 0 {
      var init, last := linodes[..|linodes| - 1], linodes[|linodes| - 1];
      assert UnitPrices(linodes) == UnitPrices(init) + [MonthlyCost(PricedType(last))];
      SumConcat(UnitPrices(init), [MonthlyCost(PricedType(last))]);
      UnitPricesSum(init);
    }
  }

  /** Each instance costs between the cheapest and the dearest listed price. */
  lemma {:induction false} InstancePartBounds(linodes: seq<Linode>)
    ensures 5 * |linodes| <= InstancePart(linodes) <= 768 * |linodes|
  {
    if |linodes| > 0 {
      InstancePartBounds(linodes[..|linodes| - 1]);
    }
  }

  /** With no negative pool sizes, a cluster's workers cost something exactly when some pool has a worker. */
  lemma {:induction false} PoolPartSign(pools: seq<Pool>)
    requires forall j :: 0 <= j < |pools| ==> WorkerCount(pools[j]) >= 0
    ensures PoolPart(pools) >= 0
    ensures PoolPart(pools) > 0 <==> exists j :: 0 <= j < |pools| && WorkerCount(pools[j]) > 0
  {
    if |pools| > 0 {
      var init, p := pools[..|pools| - 1], pools[|pools| - 1];
      PoolPartSign(init);
      if WorkerCount(p) > 0 {
        assert MonthlyCost(WorkerType(p)) * WorkerCount(p) > 0;
      } else if exists j :: 0 <= j < |pools| && WorkerCount(pools[j]) > 0 {
        var j :| 0 <= j < |pools| && WorkerCount(pools[j]) > 0;
        assert init[j] == pools[j];
      }
    }
  }

  lemma {:induction false} WorkerPartSign(clusters: seq<Cluster>)
    requires NonNegativeCounts(clusters)
    ensures WorkerPart(clusters) >= 0
    ensures WorkerPart(clusters) > 0 <==> HasActivePool(clusters)
  {
    if |clusters| > 0 {
      var init, last := clusters[..|clusters| - 1], clusters[|clusters| - 1];
      assert forall j :: 0 <= j < |last.pools| ==> WorkerCount(last.pools[j]) >= 0 by {
        forall j | 0 <= j < |last.pools| ensures WorkerCount(last.pools[j]) >= 0 {
          assert last.pools[j] == clusters[|clusters| - 1].pools[j];
        }
      }
      assert NonNegativeCounts(init) by {
        forall i, j | 0 <= i < |init| && 0 <= j < |init[i].pools| ensures WorkerCount(init[i].pools[j]) >= 0 {
          assert init[i] == clusters[i];
        }
      }
      WorkerPartSign(init);
      PoolPartSign(last.pools);
      if HasActivePool(clusters) {
        var i, j :| 0 <= i < |clusters| && 0 <= j < |clusters[i].pools| && WorkerCount(clusters[i].pools[j]) > 0;
        if i < |init| {
          assert init[i] == clusters[i];
        }
      }
      if HasActivePool(init) {
        var i, j :| 0 <= i < |init| && 0 <= j < |init[i].pools| && WorkerCount(init[i].pools[j]) > 0;
        assert clusters[i] == init[i];
      }
      if exists j :: 0 <= j < |last.pools| && WorkerCount(last.pools[j]) > 0 {
        var j :| 0 <= j < |last.pools| && WorkerCount(last.pools[j]) > 0;
        assert clusters[|clusters| - 1].pools[j] == last.pools[j];
      }
    }
  }

  /**
   * With no negative pool sizes the monthly total is positive, so the estimate
   * box is drawn, exactly when there is an instance or a pool with a worker.
   */
  lemma MonthlyTotalPositive(linodes: seq<Linode>, clusters: seq<Cluster>)
    requires NonNegativeCounts(clusters)
    ensures InstancePart(linodes) + WorkerPart(clusters) > 0 <==> |linodes| > 0 || HasActivePool(clusters)
  {
    InstancePartBounds(linodes);
    WorkerPartSign(clusters);
  }
}
