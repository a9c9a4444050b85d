/**
 * The content of the cost-structure diagram, without its drawing: which
 * categories get a box, which detail columns are filled, the detail lines
 * under them and the monthly estimate at the bottom. Coordinates, fonts and
 * colours of the drawing are not modelled (a category keeps its colour code).
 */
module CostDiagram {
  import opened Wrappers
  import opened Pricing
  import opened Resources
  import opened Sums
  import opened Text
  import opened Estimate
  import opened TypeCounts

  datatype Category = Category(name: string, colour: string)

  const Compute := Category("Compute Resources", "#FFE0E0")
  const Kubernetes := Category("Kubernetes (LKE)", "#E0F0FF")

  /**
   * `used_categories`, built by appending, and the two guards that decide
   * whether the compute details (under box 0) and the worker details (under
   * box 1) are drawn.
   */
  method PlanSections(linodes: seq<Linode>, clusters: seq<Cluster>)
    returns (used: seq<Category>, computeDetails: bool, workerDetails: bool)
    ensures Compute in used <==> |linodes| > 0
    ensures Kubernetes in used <==> |clusters| > 0
    ensures |used| == (if |linodes| > 0 then 1 else 0) + (if |clusters| > 0 then 1 else 0)
    ensures |used| == 2 ==> used[0] == Compute && used[1] == Kubernetes
    ensures computeDetails <==> |linodes| > 0
    ensures computeDetails ==> used[0] == Compute
    ensures workerDetails <==> |linodes| > 0 && |clusters| > 0
    ensures workerDetails ==> used[1] == Kubernetes
  {
    used := [];
    if |linodes| > 0 {
      used := used + [Compute];
    }
    if |clusters| > 0 {
      used := used + [Kubernetes];
    }
    computeDetails := |linodes| > 0 && |used| > 0;
    workerDetails := |clusters| > 0 && |used| > 1;
  }

  /** One text line of a details column and the monthly cost drawn under it. */
  datatype DetailLine = DetailLine(text: string, monthly: int)

  function Monthlies(lines: seq<DetailLine>): seq<int>
  {
    seq(|lines|, i requires 0 <= i < |lines| => lines[i].monthly)
  }

  /**
   * `line` is the one drawn for `count` instances of `instanceType`: "{count}x {type}"
   * when there is more than one, the bare type otherwise, at unit cost times count.
   */
  predicate DescribesGroup(line: DetailLine, instanceType: string, count: nat)
  {
    && (count > 1 ==> ParseCountedLabel(line.text) == Some((count as int, instanceType)))
    && (count <= 1 ==> line.text == instanceType)
    && line.monthly == MonthlyCost(instanceType) * count
  }

  /** A group line's text is determined by its count and type. */
  lemma DescribesGroupExact(line: DetailLine, instanceType: string, count: nat)
    requires DescribesGroup(line, instanceType, count)
    ensures line.text == if count > 1 then CountedLabel(count, instanceType) else instanceType
  {
    if count > 1 {
      CountedLabelExact(line.text, count, instanceType);
    }
  }

  /**
   * The line of one type group: "{count}x {type}" at unit cost times count
   * when the type occurs more than once, the bare type at unit cost otherwise.
   */
  function ComputeLine(entry: TypeCount): (line: DetailLine)
    ensures entry.count >= 1 ==> DescribesGroup(line, entry.instanceType, entry.count)
    ensures entry.count >= 1 ==> line.monthly == MonthlyCost(entry.instanceType) * entry.count
    ensures entry.count > 1 ==> ParseCountedLabel(line.text) == Some((entry.count as int, entry.instanceType))
    ensures entry.count <= 1 ==> line.text == entry.instanceType
  {
    var unit := MonthlyCost(entry.instanceType);
    if entry.count > 1 then
      CountedLabelRoundTrip(entry.count, entry.instanceType);
      DetailLine(CountedLabel(entry.count, entry.instanceType), unit * entry.count)
    else
      DetailLine(entry.instanceType, unit)
  }

  /** One line per entry of a grouping table, in table order. */
  function LinesOf(counts: seq<TypeCount>): seq<DetailLine>
  {
    seq(|counts|, i requires 0 <= i < |counts| => ComputeLine(counts[i]))
  }

  lemma ComputeLinesFacts(linodes: seq<Linode>)
    ensures |LinesOf(Tally(linodes))| == |Tally(linodes)| <= |linodes|
    ensures forall i :: 0 <= i < |Tally(linodes)| ==>
      DescribesGroup(LinesOf(Tally(linodes))[i], Tally(linodes)[i].instanceType, Occurrences(linodes, Tally(linodes)[i].instanceType))
  {
    var counts := Tally(linodes);
    TallyIsGrouping(linodes);
    TallySize(counts);
    forall i | 0 <= i < |counts|
      ensures DescribesGroup(LinesOf(counts)[i], counts[i].instanceType, Occurrences(linodes, counts[i].instanceType))
    {
      CountOfEntry(counts, i);
    }
  }

  /**
   * The compute details column: one line per type group, in dictionary order, each
   * naming its type and how often it occurs, at unit cost times that count.
   */
  function ComputeLines(linodes: seq<Linode>): (lines: seq<DetailLine>)
    ensures |lines| == |Tally(linodes)| <= |linodes|
    ensures forall i :: 0 <= i < |lines| ==>
      DescribesGroup(lines[i], Tally(linodes)[i].instanceType, Occurrences(linodes, Tally(linodes)[i].instanceType))
  {
    ComputeLinesFacts(linodes);
    LinesOf(Tally(linodes))
  }

  /** A table whose counts are all at least 1 has no more entries than its total. */
  lemma {:induction false} TallySize(counts: seq<TypeCount>)
    requires forall i :: 0 <= i < |counts| ==> counts[i].count >= 1
    ensures |counts| <= Total(counts)
  {
    if |counts| > 0 {
      assert Counts(counts)[1..] == Counts(counts[1..]);
      TallySize(counts[1..]);
    }
  }

  /** The compute details add up to the instance part of the monthly total. */
  lemma ComputeLinesTotal(linodes: seq<Linode>)
    ensures Sum(Monthlies(ComputeLines(linodes))) == InstancePart(linodes)
  {
    var counts := Tally(linodes);
    TallyIsGrouping(linodes);
    assert Monthlies(ComputeLines(linodes)) == GroupCosts(counts);
    TallyCost(linodes);
  }

  lemma MonthliesConcat(a: seq<DetailLine>, b: seq<DetailLine>)
    ensures Monthlies(a + b) == Monthlies(a) + Monthlies(b)
  {
  }

  const WorkersSuffix := " workers"

  /** `line` is the one drawn for pool `p`: "{count}x {type} workers" at price times count. */
  predicate DescribesPool(line: DetailLine, p: Pool)
  {
    && |line.text| >= |WorkersSuffix|
    && line.text[|line.text| - |WorkersSuffix|..] == WorkersSuffix
    && ParseCountedLabel(line.text[..|line.text| - |WorkersSuffix|]) == Some((WorkerCount(p), WorkerType(p)))
    && line.monthly == MonthlyCost(WorkerType(p)) * WorkerCount(p)
  }

  /** A worker line's text is determined by its pool's count and type. */
  lemma DescribesPoolExact(line: DetailLine, p: Pool)
    requires DescribesPool(line, p)
    ensures line.text == CountedLabel(WorkerCount(p), WorkerType(p)) + WorkersSuffix
  {
    var k := |line.text| - |WorkersSuffix|;
    CountedLabelExact(line.text[..k], WorkerCount(p), WorkerType(p));
    assert line.text == line.text[..k] + line.text[k..];
  }

  function WorkerLine(p: Pool): (line: DetailLine)
    ensures DescribesPool(line, p)
  {
    var counted := CountedLabel(WorkerCount(p), WorkerType(p));
    CountedLabelRoundTrip(WorkerCount(p), WorkerType(p));
    assert (counted + WorkersSuffix)[..|counted|] == counted;
    assert (counted + WorkersSuffix)[|counted|..] == WorkersSuffix;
    DetailLine(counted + WorkersSuffix, MonthlyCost(WorkerType(p)) * WorkerCount(p))
  }

  /** The pools with at least one worker, in pool order. */
  function ActivePools(pools: seq<Pool>): (active: seq<Pool>)
    ensures |active| <= |pools|
    ensures forall i :: 0 <= i < |active| ==> WorkerCount(active[i]) > 0
  {
    if |pools| == 0 then []
    else (if WorkerCount(pools[0]) > 0 then [pools[0]] else []) + ActivePools(pools[1..])
  }

  lemma {:induction false} ActivePoolsSnoc(pools: seq<Pool>, p: Pool)
    ensures ActivePools(pools + [p]) == ActivePools(pools) + (if WorkerCount(p) > 0 then [p] else [])
  {
    if |pools| == 0 {
      assert pools + [p] == [p];
      assert [p][1..] == [];
    } else {
      assert (pools + [p])[1..] == pools[1..] + [p];
      ActivePoolsSnoc(pools[1..], p);
    }
  }

  /** The pools with at least one worker over all clusters, cluster after cluster. */
  function ActiveWorkers(clusters: seq<Cluster>): seq<Pool>
  {
    if |clusters| == 0 then [] else ActivePools(clusters[0].pools) + ActiveWorkers(clusters[1..])
  }

  lemma {:induction false} ActiveWorkersSnoc(clusters: seq<Cluster>, c: Cluster)
    ensures ActiveWorkers(clusters + [c]) == ActiveWorkers(clusters) + ActivePools(c.pools)
  {
    if |clusters| == 0 {
      assert clusters + [c] == [c];
      assert [c][1..] == [];
    } else {
      assert (clusters + [c])[1..] == clusters[1..] + [c];
      ActiveWorkersSnoc(clusters[1..], c);
    }
  }

  /** One cluster's worker lines: exactly one per pool with a worker, in pool order. */
  function PoolLines(pools: seq<Pool>): (lines: seq<DetailLine>)
    ensures |lines| == |ActivePools(pools)|
    ensures forall i :: 0 <= i < |lines| ==> DescribesPool(lines[i], ActivePools(pools)[i])
  {
    if |pools| == 0 then []
    else
      var init, p := pools[..|pools| - 1], pools[|pools| - 1];
      assert pools == init + [p];
      ActivePoolsSnoc(init, p);
      PoolLines(init) + if WorkerCount(p) > 0 then [WorkerLine(p)] else []
  }

  /** The worker details column: one line per pool with a worker, cluster after cluster. */
  function WorkerLines(clusters: seq<Cluster>): (lines: seq<DetailLine>)
    ensures |lines| == |ActiveWorkers(clusters)|
    ensures forall i :: 0 <= i < |lines| ==> DescribesPool(lines[i], ActiveWorkers(clusters)[i])
  {
    if |clusters| == 0 then []
    else
      var init, last := clusters[..|clusters| - 1], clusters[|clusters| - 1];
      assert clusters == init + [last];
      ActiveWorkersSnoc(init, last);
      WorkerLines(init) + PoolLines(last.pools)
  }

  lemma {:induction false} PoolLinesTotal(pools: seq<Pool>)
    requires forall j :: 0 <= j < |pools| ==> WorkerCount(pools[j]) >= 0
    ensures Sum(Monthlies(PoolLines(pools))) == PoolPart(pools)
  {
    if |pools| > 0 {
      var init, p := pools[..|pools| - 1], pools[|pools| - 1];
      var tail := if WorkerCount(p) > 0 then [WorkerLine(p)] else [];
      PoolLinesTotal(init);
      MonthliesConcat(PoolLines(init), tail);
      SumConcat(Monthlies(PoolLines(init)), Monthlies(tail));
      assert WorkerCount(p) == 0 ==> MonthlyCost(WorkerType(p)) * WorkerCount(p) == 0;
    }
  }

  /**
   * With no negative pool sizes, the worker details add up to the worker part
   * of the monthly total: a pool without workers gets no line but costs nothing.
   */
  lemma {:induction false} WorkerLinesTotal(clusters: seq<Cluster>)
    requires NonNegativeCounts(clusters)
    ensures Sum(Monthlies(WorkerLines(clusters))) == WorkerPart(clusters)
  {
    if |clusters| > 0 {
      var init, last := clusters[..|clusters| - 1], clusters[|clusters| - 1];
      assert NonNegativeCounts(init) by {
        forall i, j | 0 <= i < |init| && 0 <= j < |init[i].pools| ensures WorkerCount(init[i].pools[j]) >= 0 {
          assert init[i] == clusters[i];
        }
      }
      WorkerLinesTotal(init);
      PoolLinesTotal(last.pools);
      MonthliesConcat(WorkerLines(init), PoolLines(last.pools));
      SumConcat(Monthlies(WorkerLines(init)), Monthlies(PoolLines(last.pools)));
    }
  }

  /** The bottom of the diagram. */
  datatype Footer = NoBillableResources | MonthlyEstimate(total: int) | NoFooter

  function DiagramFooter(linodes: seq<Linode>, clusters: seq<Cluster>): (f: Footer)
    ensures f == NoBillableResources <==> |linodes| == 0 && |clusters| == 0
    ensures f.MonthlyEstimate? ==> f.total > 0 && f.total == InstancePart(linodes) + WorkerPart(clusters)
  {
    if |linodes| > 0 || |clusters| > 0 then
      var total := InstancePart(linodes) + WorkerPart(clusters);
      if total > 0 then MonthlyEstimate(total) else NoFooter
    else NoBillableResources
  }

  /**
   * With no negative pool sizes: the estimate box appears exactly when there is
   * an instance or a pool with a worker; "no billable resources" appears
   * exactly when there are neither instances nor clusters; nothing appears
   * when every cluster is without workers and there are no instances.
   */
  lemma FooterChoice(linodes: seq<Linode>, clusters: seq<Cluster>)
    requires NonNegativeCounts(clusters)
    ensures DiagramFooter(linodes, clusters).MonthlyEstimate? <==> |linodes| > 0 || HasActivePool(clusters)
    ensures DiagramFooter(linodes, clusters) == NoBillableResources <==> |linodes| == 0 && |clusters| == 0
    ensures DiagramFooter(linodes, clusters) == NoFooter <==> |linodes| == 0 && |clusters| > 0 && !HasActivePool(clusters)
  {
    MonthlyTotalPositive(linodes, clusters);
  }
}
