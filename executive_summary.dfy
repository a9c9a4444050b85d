/**
 * The executive summary table of the PDF: its compute-cost row is a
 * one-shot `sum` over the instances' prices, independent of the diagram's
 * accumulator loop and of the grouping dictionary.
 */
module ExecutiveSummary {
  import opened Wrappers
  import opened Resources
  import opened Sums
  import opened Estimate
  import opened TypeCounts

  /**
   * The "Est. Monthly Compute Cost" row: present only when there are
   * instances; its value is both the instance part of the diagram's monthly
   * total and the sum over type groups of unit cost times count.
   */
  function ComputeEstimate(linodes: seq<Linode>): (estimate: Option<int>)
    ensures estimate.Some? <==> |linodes| > 0
    ensures estimate.Some? ==> estimate.value == InstancePart(linodes)
    ensures estimate.Some? ==> estimate.value == GroupCost(Tally(linodes))
  {
    if |linodes| > 0 then
      UnitPricesSum(linodes);
      TallyCost(linodes);
      Some(Sum(UnitPrices(linodes)))
    else None
  }
}
