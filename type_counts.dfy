/**
 * Grouping instances by type: the `type_counts` dictionary that the
 * cost-structure diagram and the resource chart both build, one instance at
 * a time. A Python dictionary keeps its keys in insertion order, so it is
 * modelled as a sequence of (type, count) entries in that order.
 */
module TypeCounts {
  import opened Pricing
  import opened Resources
  import opened Sums
  import opened Estimate

  datatype TypeCount = TypeCount(instanceType: string, count: nat)

  function Types(counts: seq<TypeCount>): seq<string>
  {
    seq(|counts|, i requires 0 <= i < |counts| => counts[i].instanceType)
  }

  function Counts(counts: seq<TypeCount>): seq<nat>
  {
    seq(|counts|, i requires 0 <= i < |counts| => counts[i].count)
  }

  /** The sum of the dictionary's values. */
  function Total(counts: seq<TypeCount>): int { Sum(Counts(counts)) }

  /** Unit cost times count, per type. */
  function GroupCosts(counts: seq<TypeCount>): seq<int>
  {
    seq(|counts|, i requires 0 <= i < |counts| => MonthlyCost(counts[i].instanceType) * counts[i].count)
  }

  function GroupCost(counts: seq<TypeCount>): int { Sum(GroupCosts(counts)) }

  /** The position of key `t`, or `|counts|` when `t` is not a key. */
  function Find(counts: seq<TypeCount>, t: string): (k: nat)
    ensures k <= |counts|
    ensures k < |counts| ==> counts[k].instanceType == t
    ensures forall i :: 0 <= i < k ==> counts[i].instanceType != t
  {
    if |counts| == 0 then 0
    else if counts[0].instanceType == t then 0
    else Find(counts[1..], t) + 1
  }

  /** `counts.get(t, 0)`. */
  function CountOf(counts: seq<TypeCount>, t: string): nat
  {
    var k := Find(counts, t);
    if k < |counts| then counts[k].count else 0
  }

  /** `counts[t] = counts.get(t, 0) + 1`: a new key goes last, an old key keeps its place. */
  function Bump(counts: seq<TypeCount>, t: string): seq<TypeCount>
  {
    var k := Find(counts, t);
    if k < |counts| then counts[k := TypeCount(t, counts[k].count + 1)]
    else counts + [TypeCount(t, 1)]
  }

  /** The dictionary after the grouping loop has seen every instance of `linodes`. */
  function Tally(linodes: seq<Linode>): seq<TypeCount>
  {
    if |linodes| == 0 then []
    else Bump(Tally(linodes[..|linodes| - 1]), GroupKey(linodes[|linodes| - 1]))
  }

  /** How many instances of `linodes` are grouped under `t`. */
  function Occurrences(linodes: seq<Linode>, t: string): nat
  {
    if |linodes| == 0 then 0
    else Occurrences(linodes[..|linodes| - 1], t) + (if GroupKey(linodes[|linodes| - 1]) == t then 1 else 0)
  }

  ghost predicate DistinctTypes(counts: seq<TypeCount>)
  {
    forall i, j :: 0 <= i < j < |counts| ==> counts[i].instanceType != counts[j].instanceType
  }

  ghost predicate IsType(counts: seq<TypeCount>, t: string)
  {
    exists i :: 0 <= i < |counts| && counts[i].instanceType == t
  }

  /** With distinct keys, each entry's count is what looking up its key gives. */
  lemma CountOfEntry(counts: seq<TypeCount>, i: nat)
    requires DistinctTypes(counts) && i < |counts|
    ensures CountOf(counts, counts[i].instanceType) == counts[i].count
  {
  }

  /** An increment keeps the keys distinct and adds `t` as a key if it was not one. */
  lemma BumpKeys(counts: seq<TypeCount>, t: string, u: string)
    requires DistinctTypes(counts)
    ensures DistinctTypes(Bump(counts, t))
    ensures IsType(Bump(counts, t), u) <==> IsType(counts, u) || u == t
  {
    var k := Find(counts, t);
    var after := Bump(counts, t);
    if IsType(counts, u) {
      var i :| 0 <= i < |counts| && counts[i].instanceType == u;
      assert after[i].instanceType == u;
    }
    if IsType(after, u) {
      var i :| 0 <= i < |after| && after[i].instanceType == u;
      if i < |counts| {
        assert counts[i].instanceType == u;
      }
    }
    if k < |counts| {
      assert counts[k].instanceType == t;
    } else {
      assert after[|counts|].instanceType == t;
    }
  }

  /** An increment adds one to the count of `t` and leaves every other key's count alone. */
  lemma BumpCountOf(counts: seq<TypeCount>, t: string, u: string)
    ensures CountOf(Bump(counts, t), u) == CountOf(counts, u) + (if u == t then 1 else 0)
  {
    var k := Find(counts, t);
    var after := Bump(counts, t);
    var m := Find(counts, u);
    var m' := Find(after, u);
    if m < |counts| {
      assert after[m].instanceType == u;
    }
    if m' < |counts| {
      assert counts[m'].instanceType == u;
    }
    if k == |counts| {
      assert after[|counts|].instanceType == t;
    }
  }

  /** An increment adds one to the total count and the unit cost of `t` to the total cost. */
  lemma BumpSums(counts: seq<TypeCount>, t: string)
    ensures Total(Bump(counts, t)) == Total(counts) + 1
    ensures GroupCost(Bump(counts, t)) == GroupCost(counts) + MonthlyCost(t)
  {
    var k := Find(counts, t);
    var after := Bump(counts, t);
    if k < |counts| {
      var e := TypeCount(t, counts[k].count + 1);
      assert Counts(after) == Counts(counts)[k := e.count];
      SumUpdate(Counts(counts), k, e.count);
      assert GroupCosts(after) == GroupCosts(counts)[k := MonthlyCost(t) * e.count];
      SumUpdate(GroupCosts(counts), k, MonthlyCost(t) * e.count);
    } else {
      assert Counts(after) == Counts(counts) + [1];
      SumConcat(Counts(counts), [1]);
      assert GroupCosts(after) == GroupCosts(counts) + [MonthlyCost(t)];
      SumConcat(GroupCosts(counts), [MonthlyCost(t)]);
    }
  }

  /**
   * After the grouping loop: the keys are distinct and are exactly the types
   * met (a missing type met as "Unknown"); each key's count is how many
   * instances have that type, so at least 1; the counts add up to the number
   * of instances.
   */
  lemma {:induction false} TallyIsGrouping(linodes: seq<Linode>)
    ensures DistinctTypes(Tally(linodes))
    ensures forall t :: IsType(Tally(linodes), t) <==> Occurrences(linodes, t) > 0
    ensures forall t :: CountOf(Tally(linodes), t) == Occurrences(linodes, t)
    ensures forall i :: 0 <= i < |Tally(linodes)| ==> Tally(linodes)[i].count >= 1
    ensures Total(Tally(linodes)) == |linodes|
  {
    var counts := Tally(linodes);
    if |linodes| > 0 {
      var init := linodes[..|linodes| - 1];
      var before, t := Tally(init), GroupKey(linodes[|linodes| - 1]);
      TallyIsGrouping(init);
      BumpSums(before, t);
      forall u ensures IsType(counts, u) <==> Occurrences(linodes, u) > 0 {
        BumpKeys(before, t, u);
      }
      forall u ensures CountOf(counts, u) == Occurrences(linodes, u) {
        BumpCountOf(before, t, u);
      }
    }
    forall i | 0 <= i < |counts| ensures counts[i].count >= 1 {
      CountOfEntry(counts, i);
      assert IsType(counts, counts[i].instanceType);
    }
  }

  /**
   * Pricing each type group at unit cost times count gives the instance part
   * of the monthly total, because a missing type is priced the same whether it
   * reads "Unknown" or "".
   */
  lemma {:induction false} TallyCost(linodes: seq<Linode>)
    ensures GroupCost(Tally(linodes)) == InstancePart(linodes)
  {
    if |linodes| > 0 {
      var init, last := linodes[..|linodes| - 1], linodes[|linodes| - 1];
      TallyIsGrouping(init);
      TallyCost(init);
      BumpSums(Tally(init), GroupKey(last));
      assert MonthlyCost(GroupKey(last)) == MonthlyCost(PricedType(last));
    }
  }

  /** The grouping loop of `create_cost_structure_diagram` and `create_resource_chart`. */
  method CountTypes(linodes: seq<Linode>) returns (counts: seq<TypeCount>)
    ensures counts == Tally(linodes)
    ensures DistinctTypes(counts)
    ensures forall i :: 0 <= i < |counts| ==> counts[i].count == Occurrences(linodes, counts[i].instanceType)
    ensures forall i :: 0 <= i < |counts| ==> counts[i].count >= 1
    ensures Total(counts) == |linodes|
  {
    counts := [];
    var i := 0;
    while i < |linodes|
      invariant 0 <= i <= |linodes|
      invariant counts == Tally(linodes[..i])
    {
      var t := GroupKey(linodes[i]);
      var k := Find(counts, t);
      if k < |counts| {
        counts := counts[k := TypeCount(t, counts[k].count + 1)];
      } else {
        counts := counts + [TypeCount(t, 1)];
      }
      assert linodes[..i + 1][..i] == linodes[..i];
      i := i + 1;
    }
    assert linodes[..i] == linodes;
    TallyIsGrouping(linodes);
    forall j | 0 <= j < |counts| ensures counts[j].count == Occurrences(linodes, counts[j].instanceType) {
      CountOfEntry(counts, j);
    }
  }
}
