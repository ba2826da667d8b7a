/** The middle of a group of measurements, as the two screens compute it. */
module Stats {
  import opened Bags
  import opened Order
  import opened Wrappers

  predicate Leq(a: real, b: real) { a <= b }

  function Value(v: Option<real>): real { if v.Some? then v.value else 0.0 }

  /** The values that were measured. */
  function Present(values: seq<Option<real>>): seq<real> {
    Map(Filter(values, (v: Option<real>) => v.Some?), Value)
  }

  /** `compare.median`. */
  function Median(values: seq<Option<real>>): Option<real> {
    var ordered := Sorted(Present(values), Leq);
    SortedSize(Present(values));
    if ordered == [] then None
    else
      var middle := |ordered| / 2;
      if |ordered| % 2 != 0 then Some(ordered[middle])
      else Some((ordered[middle - 1] + ordered[middle]) / 2.0)
  }

  datatype Summary = Summary(
    count: nat, avg: Option<real>, median: Option<real>, min: Option<real>, max: Option<real>)

  /** `trend.summarise`. */
  function Summarise(values: seq<Option<real>>): Summary {
    var numbers := Sorted(Present(values), Leq);
    if numbers == [] then Summary(0, None, None, None, None)
    else
      var middle := |numbers| / 2;
      var median := if |numbers| % 2 != 0 then numbers[middle] else (numbers[middle - 1] + numbers[middle]) / 2.0;
      Summary(|numbers|, Some(Sum(numbers) / |numbers| as real), Some(median), Some(numbers[0]),
              Some(numbers[|numbers|-1]))
  }

  lemma LeqIsPreorder()
    ensures TotalPreorder(Leq)
  {
  }

  lemma SortedSize(s: seq<real>)
    ensures |Sorted(s, Leq)| == |s|
  {
    LeqIsPreorder();
    SortedSameElements(s, Leq);
  }

  /** The chart and the comparison agree on the middle of any group, and the chart counts what was measured. */
  lemma MediansAgree(values: seq<Option<real>>)
    ensures Summarise(values).median == Median(values)
    ensures Summarise(values).count == |Present(values)|
  {
    SortedSize(Present(values));
  }

  lemma PresentSame(a: seq<Option<real>>, b: seq<Option<real>>)
    requires SameBag(a, b)
    ensures SameBag(Present(a), Present(b))
  {
    FilterSame(a, b, (v: Option<real>) => v.Some?);
    MapSame(Filter(a, (v: Option<real>) => v.Some?), Filter(b, (v: Option<real>) => v.Some?), Value);
  }

  /** Neither depends on the order in which measurements arrived. */
  lemma StatsForgetOrder(a: seq<Option<real>>, b: seq<Option<real>>)
    requires SameBag(a, b)
    ensures Median(a) == Median(b) && Summarise(a) == Summarise(b)
  {
    PresentSame(a, b);
    LeqIsPreorder();
    SortedForgetsOrder(Present(a), Present(b), Leq);
  }

  // -------------------------------------------------- what a median is

  function Count(s: seq<real>, p: real -> bool): nat { |Filter(s, p)| }

  lemma {:induction false} CountRun(s: seq<real>, p: real -> bool, from: nat, to: nat)
    requires from <= to <= |s| && forall k | from <= k < to :: p(s[k])
    ensures Count(s, p) >= to - from
    decreases |s|
  {
    if s != [] && from < to {
      var n := |s| - 1;
      if to == |s| {
        CountRun(s[..n], p, from, n);
      } else {
        CountRun(s[..n], p, from, to);
      }
    }
  }

  lemma CountSame(a: seq<real>, b: seq<real>, p: real -> bool)
    requires SameBag(a, b)
    ensures Count(a, p) == Count(b, p)
  {
    FilterSame(a, b, p);
    SameSize(Filter(a, p), Filter(b, p));
  }

  function AtMost(m: real): real -> bool { (v: real) => v <= m }
  function AtLeast(m: real): real -> bool { (v: real) => v >= m }

  predicate IsMiddle(ordered: seq<real>, m: real) {
    var middle := |ordered| / 2;
    ordered != [] && m == if |ordered| % 2 != 0 then ordered[middle] else (ordered[middle - 1] + ordered[middle]) / 2.0
  }

  lemma HalfBelow(ordered: seq<real>, m: real)
    requires SortedBy(ordered, Leq) && IsMiddle(ordered, m)
    ensures 2 * Count(ordered, AtMost(m)) >= |ordered|
  {
    var middle := |ordered| / 2;
    var top := if |ordered| % 2 != 0 then middle else middle - 1;
    assert top < middle ==> Leq(ordered[top], ordered[middle]);
    assert ordered[top] <= m;
    forall k | 0 <= k < top + 1 ensures AtMost(m)(ordered[k]) { assert k < top ==> Leq(ordered[k], ordered[top]); }
    CountRun(ordered, AtMost(m), 0, top + 1);
  }

  lemma HalfAbove(ordered: seq<real>, m: real)
    requires SortedBy(ordered, Leq) && IsMiddle(ordered, m)
    ensures 2 * Count(ordered, AtLeast(m)) >= |ordered|
  {
    var middle := |ordered| / 2;
    assert |ordered| % 2 == 0 ==> Leq(ordered[middle - 1], ordered[middle]);
    assert m <= ordered[middle];
    forall k | middle <= k < |ordered| ensures AtLeast(m)(ordered[k]) {
      assert middle < k ==> Leq(ordered[middle], ordered[k]);
    }
    CountRun(ordered, AtLeast(m), middle, |ordered|);
  }

  /** At least half of what was measured lies on each side of the median, which exists exactly when
      something was measured. */
  lemma MedianIsTheMiddle(values: seq<Option<real>>)
    ensures Median(values).None? <==> Present(values) == []
    ensures Median(values).Some? ==>
      && 2 * Count(Present(values), AtMost(Median(values).value)) >= |Present(values)|
      && 2 * Count(Present(values), AtLeast(Median(values).value)) >= |Present(values)|
  {
    var s := Present(values);
    var ordered := Sorted(s, Leq);
    SortedSize(s);
    if ordered != [] {
      var m := Median(values).value;
      LeqIsPreorder();
      SortedSorts(s, Leq);
      HalfBelow(ordered, m);
      HalfAbove(ordered, m);
      CountSame(ordered, s, AtMost(m));
      CountSame(ordered, s, AtLeast(m));
    }
  }
}
