/**
 * The price list of `get_instance_cost`: the monthly price of a Linode
 * instance type, in whole US dollars (every listed price is a whole number
 * of dollars, so no fractional amounts arise).
 */
module Pricing {

  /** Monthly list price of each known instance type. */
  const PriceTable: map<string, nat> := map[
    "g6-nanode-1" := 5,
    "g6-standard-1" := 12,
    "g6-standard-2" := 24,
    "g6-standard-4" := 48,
    "g6-standard-6" := 96,
    "g6-standard-8" := 192,
    "g6-standard-16" := 384,
    "g6-standard-20" := 480,
    "g6-standard-24" := 576,
    "g6-standard-32" := 768
  ]

  /** An unlisted type is charged like this one. */
  const FallbackType := "g6-standard-2"

  /** The monthly cost of one instance of `instanceType`. */
  function MonthlyCost(instanceType: string): (price: nat)
    ensures instanceType !in PriceTable ==> price == PriceTable[FallbackType]
    ensures price == 24 <==> instanceType == FallbackType || instanceType !in PriceTable
    ensures 5 <= price <= 768
  {
    if instanceType in PriceTable then PriceTable[instanceType] else 24
  }

  /** The ten listed prices, and the fallback for strings the report meets for missing types. */
  lemma ListedPrices()
    ensures MonthlyCost("g6-nanode-1") == 5
    ensures MonthlyCost("g6-standard-1") == 12
    ensures MonthlyCost("g6-standard-2") == 24
    ensures MonthlyCost("g6-standard-4") == 48
    ensures MonthlyCost("g6-standard-6") == 96
    ensures MonthlyCost("g6-standard-8") == 192
    ensures MonthlyCost("g6-standard-16") == 384
    ensures MonthlyCost("g6-standard-20") == 480
    ensures MonthlyCost("g6-standard-24") == 576
    ensures MonthlyCost("g6-standard-32") == 768
    ensures MonthlyCost("") == 24 && MonthlyCost("Unknown") == 24
  {
  }
}
