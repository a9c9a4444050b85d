/**
 * The provider records the report reads: Linode instances and LKE clusters
 * with their node pools. Only the fields the cost arithmetic uses are kept;
 * a field may be absent from the JSON record, hence `Option`.
 */
module Resources {
  import opened Wrappers

  datatype Linode = Linode(instanceType: Option<string>)

  datatype Pool = Pool(instanceType: Option<string>, count: Option<int>)

  /** A cluster whose `pools` key is missing has no pools. */
  datatype Cluster = Cluster(pools: seq<Pool>)

  /** The key an instance is grouped and charted under: `type`, or "Unknown". */
  function GroupKey(l: Linode): string { l.instanceType.GetOr("Unknown") }

  /** The type an instance is priced by in the totals: `type`, or the empty string. */
  function PricedType(l: Linode): string { l.instanceType.GetOr("") }

  /** The type a worker pool is priced by: `type`, or "g6-standard-2". */
  function WorkerType(p: Pool): string { p.instanceType.GetOr("g6-standard-2") }

  /** The number of workers in a pool: `count`, or 0. */
  function WorkerCount(p: Pool): int { p.count.GetOr(0) }

  ghost predicate NonNegativeCounts(clusters: seq<Cluster>)
  {
    forall i, j :: 0 <= i < |clusters| && 0 <= j < |clusters[i].pools| ==> WorkerCount(clusters[i].pools[j]) >= 0
  }

  /** Some pool of some cluster has at least one worker. */
  ghost predicate HasActivePool(clusters: seq<Cluster>)
  {
    exists i, j :: 0 <= i < |clusters| && 0 <= j < |clusters[i].pools| && WorkerCount(clusters[i].pools[j]) > 0
  }
}
