/** The pie chart of instances by type (`create_resource_chart`), as data. */
module ResourceChart {
  import opened Wrappers
  import opened Resources
  import opened Sums
  import opened TypeCounts

  /** One wedge per label; a wedge's size is its share of the instances. */
  datatype PieChart = PieChart(labels: seq<string>, sizes: seq<nat>)

  /** No chart without instances; otherwise the grouping dictionary's keys and values. */
  method ChartData(linodes: seq<Linode>) returns (chart: Option<PieChart>)
    ensures chart.None? <==> |linodes| == 0
    ensures chart.Some? ==> chart.value.labels == Types(Tally(linodes)) && chart.value.sizes == Counts(Tally(linodes))
    ensures chart.Some? ==> |chart.value.labels| == |chart.value.sizes|
    ensures chart.Some? ==> forall i :: 0 <= i < |chart.value.sizes| ==>
      chart.value.sizes[i] == Occurrences(linodes, chart.value.labels[i])
    ensures chart.Some? ==> forall i :: 0 <= i < |chart.value.sizes| ==> chart.value.sizes[i] >= 1
    ensures chart.Some? ==> Sum(chart.value.sizes) == |linodes|
  {
    if |linodes| == 0 {
      return None;
    }
    var counts := CountTypes(linodes);
    chart := Some(PieChart(Types(counts), Counts(counts)));
  }
}
