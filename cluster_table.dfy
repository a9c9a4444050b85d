/**
 * The "Node Pools" column of the Kubernetes table in the PDF: one line per
 * cluster listing "{count}x {type}" for each pool, joined by ", ", or
 * "No pools". Here a missing count reads 0 and a missing type "unknown".
 */
module ClusterTable {
  import opened Wrappers
  import opened Resources
  import opened Text

  /** What the summary shows of one pool. */
  function Shown(p: Pool): (int, string)
  {
    (p.count.GetOr(0), p.instanceType.GetOr("unknown"))
  }

  function Entry(p: Pool): string
  {
    CountedLabel(Shown(p).0, Shown(p).1)
  }

  function Entries(pools: seq<Pool>): seq<string>
  {
    seq(|pools|, i requires 0 <= i < |pools| => Entry(pools[i]))
  }

  function ShownAll(pools: seq<Pool>): seq<(int, string)>
  {
    seq(|pools|, i requires 0 <= i < |pools| => Shown(pools[i]))
  }

  function Summary(pools: seq<Pool>): string
  {
    if |pools| == 0 then "No pools" else Join(Entries(pools), ", ")
  }

  /** Builds `pools_info` by appending one entry per pool, then joins it. */
  method PoolSummary(pools: seq<Pool>) returns (summary: string)
    ensures summary == Summary(pools)
  {
    var info: seq<string> := [];
    for i := 0 to |pools|
      invariant |info| == i
      invariant forall j :: 0 <= j < i ==> info[j] == Entry(pools[j])
    {
      info := info + [Entry(pools[i])];
    }
    assert info == Entries(pools);
    summary := if |info| > 0 then Join(info, ", ") else "No pools";
  }

  /** Reads ", "-separated "{count}x {type}" entries back. */
  function ParseEntries(s: string): Option<seq<(int, string)>>
    decreases |s|
  {
    match IndexOf(s, ',')
    case None =>
      (match ParseCountedLabel(s)
       case Some(f) => Some([f])
       case None => None)
    case Some(k) =>
      if k + 1 < |s| && s[k + 1] == ' ' then
        match (ParseCountedLabel(s[..k]), ParseEntries(s[k + 2..]))
        case (Some(f), Some(fs)) => Some([f] + fs)
        case _ => None
      else None
  }

  /** Reads a summary back into the (count, type) of each pool. */
  function ParseSummary(s: string): Option<seq<(int, string)>>
  {
    if s == "No pools" then Some([]) else ParseEntries(s)
  }

  ghost predicate CommaFreeTypes(pools: seq<Pool>)
  {
    forall j :: 0 <= j < |pools| ==> ',' !in Shown(pools[j]).1
  }

  lemma ParseOneEntry(e: string, f: (int, string))
    requires ',' !in e && ParseCountedLabel(e) == Some(f)
    ensures ParseEntries(e) == Some([f])
  {
  }

  lemma ParseEntryThenRest(e: string, f: (int, string), rest: string, fs: seq<(int, string)>)
    requires ',' !in e && ParseCountedLabel(e) == Some(f)
    requires ParseEntries(rest) == Some(fs)
    ensures ParseEntries(e + ", " + rest) == Some([f] + fs)
  {
    var s := e + ", " + rest;
    assert s == e + [','] + ([' '] + rest);
    IndexOfAfter(e, ',', [' '] + rest);
    assert s[..|e|] == e;
    assert s[|e| + 2..] == rest;
  }

  lemma JoinedEntriesCons(pools: seq<Pool>)
    requires |pools| > 1
    ensures Join(Entries(pools), ", ") == Entry(pools[0]) + ", " + Join(Entries(pools[1..]), ", ")
    ensures ShownAll(pools) == [Shown(pools[0])] + ShownAll(pools[1..])
    ensures CommaFreeTypes(pools) ==> CommaFreeTypes(pools[1..])
  {
    assert Entries(pools)[1..] == Entries(pools[1..]);
    if CommaFreeTypes(pools) {
      forall j | 0 <= j < |pools[1..]| ensures ',' !in Shown(pools[1..][j]).1 {
        assert pools[1..][j] == pools[j + 1];
      }
    }
  }

  lemma {:induction false} ParseJoinedEntries(pools: seq<Pool>)
    requires |pools| > 0 && CommaFreeTypes(pools)
    ensures ParseEntries(Join(Entries(pools), ", ")) == Some(ShownAll(pools))
  {
    var e, f := Entry(pools[0]), Shown(pools[0]);
    CountedLabelRoundTrip(f.0, f.1);
    assert ',' !in e;
    if |pools| == 1 {
      assert Join(Entries(pools), ", ") == e;
      assert ShownAll(pools) == [f];
      ParseOneEntry(e, f);
    } else {
      JoinedEntriesCons(pools);
      ParseJoinedEntries(pools[1..]);
      ParseEntryThenRest(e, f, Join(Entries(pools[1..]), ", "), ShownAll(pools[1..]));
    }
  }

  /** The summary is exactly "No pools" when, and only when, the cluster has no pools. */
  lemma NoPoolsExactly(pools: seq<Pool>)
    ensures Summary(pools) == "No pools" <==> |pools| == 0
  {
  }

  /**
   * The summary loses nothing: when no pool type contains a comma, it is read
   * back into each pool's count and type, in pool order.
   */
  lemma SummaryRoundTrip(pools: seq<Pool>)
    requires CommaFreeTypes(pools)
    ensures ParseSummary(Summary(pools)) == Some(ShownAll(pools))
  {
    NoPoolsExactly(pools);
    if |pools| > 0 {
      ParseJoinedEntries(pools);
      assert ParseSummary(Summary(pools)) == ParseEntries(Join(Entries(pools), ", "));
    } else {
      assert ShownAll(pools) == [];
    }
  }
}
