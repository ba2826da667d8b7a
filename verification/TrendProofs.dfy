/** What the chart promises, for every history. */
module TrendProofs {
  import opened Bags
  import opened Order
  import opened Stats
  import opened Trend
  import opened Wrappers

  // ----------------------------------------------------------- the axis

  function SlotKey(s: Slot): string { s.key }

  /** What the axis orders slots by. */
  function Rank(v: View, s: Slot): (bool, int) {
    var m := v.moment(s.at);
    (m.None?, if m.Some? then m.value.instant else 0)
  }

  predicate RankLeq(v: View, a: Slot, b: Slot) {
    var (x, i), (y, j) := Rank(v, a), Rank(v, b);
    if x != y then y else i < j || (i == j && StringLeq(a.key, b.key))
  }

  lemma SlotLeqIsRank(v: View, a: Slot, b: Slot)
    ensures SlotLeq(v)(a, b) <==> RankLeq(v, a, b)
  {
  }

  lemma SlotOrder(v: View)
    ensures TotalPreorder(SlotLeq(v))
    ensures forall a: Slot, b: Slot | SlotLeq(v)(a, b) && SlotLeq(v)(b, a) :: a.key == b.key
  {
    StringLeqOrder();
    var leq := SlotLeq(v);
    forall a: Slot, b: Slot ensures leq(a, b) || leq(b, a) {
      SlotLeqIsRank(v, a, b);
      SlotLeqIsRank(v, b, a);
      assert StringLeq(a.key, b.key) || StringLeq(b.key, a.key);
    }
    forall a: Slot, b: Slot, c: Slot | leq(a, b) && leq(b, c) ensures leq(a, c) {
      SlotLeqIsRank(v, a, b);
      SlotLeqIsRank(v, b, c);
      SlotLeqIsRank(v, a, c);
    }
    forall a: Slot, b: Slot | leq(a, b) && leq(b, a) ensures a.key == b.key {
      SlotLeqIsRank(v, a, b);
      SlotLeqIsRank(v, b, a);
    }
  }

  lemma SortedSlots(keys: seq<string>, slotIn: string -> Slot, leq: (Slot, Slot) -> bool)
    requires NoRepeats(keys) && TotalPreorder(leq) && forall key :: slotIn(key).key == key
    ensures var ordered := Sorted(Map(keys, slotIn), leq);
      && SortedBy(ordered, leq) && NoRepeats(Map(ordered, SlotKey)) && SameBag(Map(ordered, SlotKey), keys)
      && forall k | 0 <= k < |ordered| :: ordered[k] == slotIn(ordered[k].key)
  {
    var slots := Map(keys, slotIn);
    var ordered := Sorted(slots, leq);
    SortedSorts(slots, leq);
    MapSame(slots, ordered, SlotKey);
    assert Map(slots, SlotKey) == keys;
    NoRepeatsSame(keys, Map(ordered, SlotKey));
    SameSize(slots, ordered);
    forall k | 0 <= k < |ordered| ensures ordered[k] == slotIn(ordered[k].key) { assert ordered[k] in slots; }
  }

  /** The axis: every bucket that a usable execution fell in, once, oldest first. */
  lemma AxisIsSound(v: View, h: seq<Execution>)
    ensures SortedBy(Ordered(v, h), SlotLeq(v))
    ensures NoRepeats(Map(Ordered(v, h), SlotKey)) && SameBag(Map(Ordered(v, h), SlotKey), AxisKeys(v, h))
    ensures forall k | 0 <= k < |Ordered(v, h)| :: Ordered(v, h)[k] == SlotIn(v, h)(Ordered(v, h)[k].key)
  {
    SlotOrder(v);
    DistinctIs(Map(Filter(h, Usable), KeyOf(v)));
    SortedSlots(AxisKeys(v, h), SlotIn(v, h), SlotLeq(v));
  }

  /** The first slot with the key, if there is one. */
  lemma {:induction false} PositionIs(ordered: seq<Slot>, key: string)
    ensures var i := Position(ordered, key);
      i <= |ordered| && (i < |ordered| ==> ordered[i].key == key) && forall k | 0 <= k < i :: ordered[k].key != key
  {
    if ordered != [] && ordered[0].key != key { PositionIs(ordered[1..], key); }
  }

  lemma PositionFinds(ordered: seq<Slot>, key: string)
    requires key in Map(ordered, SlotKey)
    ensures Position(ordered, key) < |ordered|
  {
    PositionIs(ordered, key);
    var keys := Map(ordered, SlotKey);
    var k :| 0 <= k < |keys| && keys[k] == key;
    assert keys[k] == ordered[k].key;
  }

  lemma PositionsDiffer(ordered: seq<Slot>, a: string, b: string)
    requires a in Map(ordered, SlotKey) && Position(ordered, a) == Position(ordered, b)
    ensures a == b
  {
    PositionFinds(ordered, a);
    PositionIs(ordered, a);
    PositionIs(ordered, b);
  }

  // ---------------------------------------------------- one cluster's cells

  function UsableIn(cluster: string): Execution -> bool { (e: Execution) => Usable(e) && e.cluster == cluster }

  function Own(v: View, h: seq<Execution>, cluster: string): seq<CellKey> { Filter(CellKeys(v, h), Is(First, cluster)) }

  lemma InDistinctMap<T(!new), K(!new)>(s: seq<T>, f: T -> K, k: K)
    ensures k in Distinct(Map(s, f)) <==> exists x | x in s :: f(x) == k
  {
    DistinctIs(Map(s, f));
    if k in Map(s, f) {
      var i :| 0 <= i < |s| && Map(s, f)[i] == k;
      assert s[i] in s;
    }
    if exists x | x in s :: f(x) == k {
      var x :| x in s && f(x) == k;
      var i :| 0 <= i < |s| && s[i] == x;
      assert Map(s, f)[i] == k;
    }
  }

  lemma KeysOfRows(v: View, h: seq<Execution>, ck: CellKey)
    ensures ck in CellKeys(v, h) <==> exists e | e in h :: InCell(v, ck)(e)
    ensures ck in CellKeys(v, h) ==> ck.1 in AxisKeys(v, h)
  {
    var rows := Filter(h, Usable);
    InDistinctMap(rows, CellKeyOf(v), ck);
    if exists e | e in h :: InCell(v, ck)(e) {
      var e :| e in h && InCell(v, ck)(e);
      InFilter(h, Usable, e);
    }
    if ck in CellKeys(v, h) {
      var e :| e in rows && CellKeyOf(v)(e) == ck;
      InFilter(h, Usable, e);
      assert InCell(v, ck)(e) && KeyOf(v)(e) == ck.1;
      InDistinctMap(rows, KeyOf(v), ck.1);
    }
  }

  lemma FilterNoRepeats<T>(s: seq<T>, p: T -> bool)
    requires NoRepeats(s)
    ensures NoRepeats(Filter(s, p))
  {
    var r := Filter(s, p);
    forall i, j | 0 <= i < j < |r| ensures r[i] != r[j] {
      if r[i] == r[j] {
        RepeatInBag(r, i, j);
        FilterBag(s, p, r[i]);
        OnceEach(s, r[i]);
      }
    }
  }

  lemma OwnIsSound(v: View, h: seq<Execution>, cluster: string)
    ensures NoRepeats(Own(v, h, cluster))
    ensures forall ck :: ck in Own(v, h, cluster) <==> ck in CellKeys(v, h) && ck.0 == cluster
  {
    DistinctIs(Map(Filter(h, Usable), CellKeyOf(v)));
    FilterNoRepeats(CellKeys(v, h), Is(First, cluster));
    forall ck ensures ck in Own(v, h, cluster) <==> ck in CellKeys(v, h) && ck.0 == cluster {
      InFilter(CellKeys(v, h), Is(First, cluster), ck);
      assert Is(First, cluster)(ck) <==> ck.0 == cluster;
    }
  }

  /** Cell keys by the position of their bucket. */
  function CkLeq(ordered: seq<Slot>): (CellKey, CellKey) -> bool {
    (a: CellKey, b: CellKey) => Position(ordered, a.1) <= Position(ordered, b.1)
  }

  /** One cluster's cell keys in the order its line is drawn. */
  function Drawing(v: View, h: seq<Execution>, cluster: string): seq<CellKey> {
    Sorted(Own(v, h, cluster), CkLeq(Ordered(v, h)))
  }

  function PointIn(v: View, h: seq<Execution>): CellKey -> Point {
    (ck: CellKey) => PointOf(Ordered(v, h))(CellIn(v, h)(ck))
  }

  lemma CkOrder(ordered: seq<Slot>)
    ensures TotalPreorder(CkLeq(ordered))
  {
  }

  lemma SortedCells(own: seq<CellKey>, cellIn: CellKey -> Cell, pointIn: CellKey -> Point, ordered: seq<Slot>)
    requires forall ck :: cellIn(ck).bucket == ck.1 && pointIn(ck) == PointOf(ordered)(cellIn(ck))
    ensures Map(Sorted(Map(own, cellIn), CellLeq(ordered)), PointOf(ordered))
        == Map(Sorted(own, CkLeq(ordered)), pointIn)
  {
    SortedImage(own, Map(own, cellIn), cellIn, CkLeq(ordered), CellLeq(ordered));
  }

  lemma PointInOf(v: View, h: seq<Execution>, ck: CellKey)
    ensures CellIn(v, h)(ck).bucket == ck.1
    ensures PointIn(v, h)(ck) == PointOf(Ordered(v, h))(CellIn(v, h)(ck))
  {
    var c, f := CellIn(v, h)(ck), PointOf(Ordered(v, h));
    assert c == CellFrom(v, ck, Filter(h, InCell(v, ck)));
    assert PointIn(v, h)(ck) == f(c);
  }

  /** The line in terms of its cell keys. */
  lemma LinePoints(v: View, h: seq<Execution>, cluster: string)
    ensures Line(Ordered(v, h), cluster, CellsOf(CellKeys(v, h), CellIn(v, h))(cluster)).points
         == Map(Drawing(v, h, cluster), PointIn(v, h))
  {
    forall ck ensures CellIn(v, h)(ck).bucket == ck.1 && PointIn(v, h)(ck) == PointOf(Ordered(v, h))(CellIn(v, h)(ck)) {
      PointInOf(v, h, ck);
    }
    SortedCells(Own(v, h, cluster), CellIn(v, h), PointIn(v, h), Ordered(v, h));
  }

  lemma SortedKeys(own: seq<CellKey>, leq: (CellKey, CellKey) -> bool)
    requires NoRepeats(own) && TotalPreorder(leq)
    ensures NoRepeats(Sorted(own, leq)) && SameBag(Sorted(own, leq), own) && SortedBy(Sorted(own, leq), leq)
  {
    SortedSorts(own, leq);
    NoRepeatsSame(own, Sorted(own, leq));
  }

  lemma DrawingIsSound(v: View, h: seq<Execution>, cluster: string)
    ensures NoRepeats(Drawing(v, h, cluster)) && SameBag(Drawing(v, h, cluster), Own(v, h, cluster))
    ensures SortedBy(Drawing(v, h, cluster), CkLeq(Ordered(v, h)))
  {
    OwnIsSound(v, h, cluster);
    CkOrder(Ordered(v, h));
    SortedKeys(Own(v, h, cluster), CkLeq(Ordered(v, h)));
  }

  lemma InDrawing(v: View, h: seq<Execution>, cluster: string, ck: CellKey)
    ensures ck in Drawing(v, h, cluster) <==> ck in CellKeys(v, h) && ck.0 == cluster
  {
    DrawingIsSound(v, h, cluster);
    SameSize(Drawing(v, h, cluster), Own(v, h, cluster));
    OwnIsSound(v, h, cluster);
  }

  // ------------------------------------------------------ one shared axis

  lemma OnTheAxis(v: View, h: seq<Execution>, cluster: string, ck: CellKey)
    requires ck in Drawing(v, h, cluster)
    ensures ck.0 == cluster && ck.1 in Map(Ordered(v, h), SlotKey)
  {
    InDrawing(v, h, cluster, ck);
    KeysOfRows(v, h, ck);
    AxisIsSound(v, h);
    SameSize(Map(Ordered(v, h), SlotKey), AxisKeys(v, h));
  }

  lemma PositionsRise(ordered: seq<Slot>, cluster: string, drawing: seq<CellKey>)
    requires NoRepeats(drawing) && SortedBy(drawing, CkLeq(ordered))
    requires forall k | 0 <= k < |drawing| :: drawing[k].0 == cluster && drawing[k].1 in Map(ordered, SlotKey)
    ensures forall k | 0 <= k < |drawing| :: Position(ordered, drawing[k].1) < |ordered|
    ensures forall k, m | 0 <= k < m < |drawing| :: Position(ordered, drawing[k].1) < Position(ordered, drawing[m].1)
  {
    forall k | 0 <= k < |drawing| ensures Position(ordered, drawing[k].1) < |ordered| {
      PositionFinds(ordered, drawing[k].1);
    }
    forall k, m | 0 <= k < m < |drawing| ensures Position(ordered, drawing[k].1) < Position(ordered, drawing[m].1) {
      var a, b := drawing[k], drawing[m];
      assert CkLeq(ordered)(a, b) && a != b && a.0 == b.0;
      if Position(ordered, a.1) == Position(ordered, b.1) { PositionsDiffer(ordered, a.1, b.1); }
    }
  }

  /** On a line, x strictly increases, and at each x the point's bucket is the axis's bucket there. */
  lemma PointsRise(v: View, h: seq<Execution>, cluster: string)
    ensures var points, buckets := Map(Drawing(v, h, cluster), PointIn(v, h)), Map(Ordered(v, h), BucketOf);
      && (forall k | 0 <= k < |points| :: points[k].x < |buckets| && buckets[points[k].x].key == points[k].bucket)
      && (forall k, m | 0 <= k < m < |points| :: points[k].x < points[m].x)
  {
    var ordered, drawing := Ordered(v, h), Drawing(v, h, cluster);
    DrawingIsSound(v, h, cluster);
    forall k | 0 <= k < |drawing| ensures drawing[k].0 == cluster && drawing[k].1 in Map(ordered, SlotKey) {
      OnTheAxis(v, h, cluster, drawing[k]);
    }
    PositionsRise(ordered, cluster, drawing);
    forall ck ensures CellIn(v, h)(ck).bucket == ck.1 && PointIn(v, h)(ck) == PointOf(ordered)(CellIn(v, h)(ck)) {
      PointInOf(v, h, ck);
    }
    PointsAtPositions(ordered, drawing, CellIn(v, h), PointIn(v, h));
  }

  lemma PointsAtPositions(ordered: seq<Slot>, drawing: seq<CellKey>, cellIn: CellKey -> Cell, pointIn: CellKey -> Point)
    requires forall ck :: cellIn(ck).bucket == ck.1 && pointIn(ck) == PointOf(ordered)(cellIn(ck))
    requires forall k | 0 <= k < |drawing| :: Position(ordered, drawing[k].1) < |ordered|
    requires forall k, m | 0 <= k < m < |drawing| :: Position(ordered, drawing[k].1) < Position(ordered, drawing[m].1)
    ensures var points, buckets := Map(drawing, pointIn), Map(ordered, BucketOf);
      && (forall k | 0 <= k < |points| :: points[k].x < |buckets| && buckets[points[k].x].key == points[k].bucket)
      && (forall k, m | 0 <= k < m < |points| :: points[k].x < points[m].x)
  {
    var points, buckets := Map(drawing, pointIn), Map(ordered, BucketOf);
    forall k | 0 <= k < |points|
      ensures points[k].x == Position(ordered, drawing[k].1) && points[k].bucket == drawing[k].1
      ensures points[k].x < |buckets| && buckets[points[k].x].key == points[k].bucket
    {
      assert points[k] == pointIn(drawing[k]);
      PositionIs(ordered, drawing[k].1);
      assert buckets[points[k].x] == BucketOf(ordered[points[k].x]);
    }
  }

  /** The lines of a chart in terms of the history's cell keys. */
  lemma LinesOf(v: View, h: seq<Execution>, i: nat)
    requires i < |Drawn(v, h).series|
    ensures var s := Drawn(v, h).series[i];
      s.cluster == ClustersOf(CellKeys(v, h))[i] && s.points == Map(Drawing(v, h, s.cluster), PointIn(v, h))
  {
    LinePoints(v, h, ClustersOf(CellKeys(v, h))[i]);
  }

  lemma PointAt(v: View, h: seq<Execution>, ck: CellKey)
    ensures var p := PointIn(v, h)(ck);
      p.x == Position(Ordered(v, h), ck.1) && p.bucket == ck.1
      && p.executions == Summarise(Map(Filter(h, InCell(v, ck)), Elapsed)).count
      && p.median == Summarise(Map(Filter(h, InCell(v, ck)), Elapsed)).median
  {
    PointInOf(v, h, ck);
    assert CellIn(v, h)(ck) == CellFrom(v, ck, Filter(h, InCell(v, ck)));
    PointFields(Ordered(v, h), CellIn(v, h)(ck));
  }

  lemma PointFields(ordered: seq<Slot>, c: Cell)
    ensures var p := PointOf(ordered)(c);
      p.x == Position(ordered, c.bucket) && p.bucket == c.bucket
      && p.executions == Summarise(c.elapsed).count && p.median == Summarise(c.elapsed).median
  {
  }

  /** Where a point of the chart stands. */
  lemma PointOnAxis(v: View, h: seq<Execution>, i: nat, k: nat)
    requires i < |Drawn(v, h).series| && k < |Drawn(v, h).series[i].points|
    ensures var p, buckets := Drawn(v, h).series[i].points[k], Drawn(v, h).buckets;
      p.x == Position(Ordered(v, h), p.bucket) && p.x < |buckets| && buckets[p.x].key == p.bucket
  {
    var cluster := Drawn(v, h).series[i].cluster;
    var drawing := Drawing(v, h, cluster);
    LinesOf(v, h, i);
    PointsRise(v, h, cluster);
    assert Map(drawing, PointIn(v, h))[k] == PointIn(v, h)(drawing[k]);
    PointAt(v, h, drawing[k]);
  }

  /** Within a line x strictly increases; across lines, two points share an x exactly when they share a bucket. */
  lemma OneSharedAxis(v: View, h: seq<Execution>, i: nat, k: nat, j: nat, m: nat)
    requires i < |Drawn(v, h).series| && k < |Drawn(v, h).series[i].points|
    requires j < |Drawn(v, h).series| && m < |Drawn(v, h).series[j].points|
    ensures var chart := Drawn(v, h);
      var p, q := chart.series[i].points[k], chart.series[j].points[m];
      && p.x < |chart.buckets| && chart.buckets[p.x].key == p.bucket
      && (p.x == q.x <==> p.bucket == q.bucket)
      && (i == j && k < m ==> p.x < q.x)
  {
    PointOnAxis(v, h, i, k);
    PointOnAxis(v, h, j, m);
    if i == j && k < m {
      LinesOf(v, h, i);
      PointsRise(v, h, Drawn(v, h).series[i].cluster);
    }
  }

  // ---------------------------------------------------------- conservation

  function Executions(p: Point): nat { p.executions }

  function Drawings(s: Series): nat { Total(Map(s.points, Executions)) }

  lemma {:induction false} AllPresent(rows: seq<Execution>)
    requires forall k | 0 <= k < |rows| :: Usable(rows[k])
    ensures |Present(Map(rows, Elapsed))| == |rows|
  {
    if rows != [] {
      var front, last := rows[..|rows|-1], rows[|rows|-1];
      AllPresent(front);
      assert rows == front + [last];
      MapSnoc(front, last, Elapsed);
      FilterJoin(Map(front, Elapsed), [last.elapsed], Measured);
      assert [last.elapsed][..0] == [];
    }
  }

  function Measured(t: Option<real>): bool { t.Some? }

  function Rows(h: seq<Execution>, cluster: string): seq<Execution> { Filter(h, UsableIn(cluster)) }

  lemma CellRows(v: View, h: seq<Execution>, cluster: string, ck: CellKey)
    requires ck.0 == cluster
    ensures Filter(Rows(h, cluster), Is(CellKeyOf(v), ck)) == Filter(h, InCell(v, ck))
  {
    FilterFilter(h, UsableIn(cluster), Is(CellKeyOf(v), ck), InCell(v, ck));
  }

  lemma RowsHaveKeys(v: View, h: seq<Execution>, cluster: string, e: Execution)
    requires e in Rows(h, cluster)
    ensures Usable(e) && CellKeyOf(v)(e) in CellKeys(v, h) && CellKeyOf(v)(e).0 == cluster
  {
    InFilter(h, UsableIn(cluster), e);
    assert InCell(v, CellKeyOf(v)(e))(e);
    KeysOfRows(v, h, CellKeyOf(v)(e));
  }

  /** The rows of a cluster, cell by cell, in whatever order its cells are taken. */
  lemma CellsHoldTheRows(v: View, h: seq<Execution>, cluster: string, cks: seq<CellKey>)
    requires SameBag(cks, Own(v, h, cluster))
    ensures SameBag(Concat(Map(cks, Group(Rows(h, cluster), CellKeyOf(v)))), Rows(h, cluster))
  {
    OwnIsSound(v, h, cluster);
    NoRepeatsSame(Own(v, h, cluster), cks);
    SameSize(cks, Own(v, h, cluster));
    forall e | e in Rows(h, cluster) ensures CellKeyOf(v)(e) in cks { RowsHaveKeys(v, h, cluster, e); }
    GroupsConserve(Rows(h, cluster), CellKeyOf(v), cks);
  }

  lemma UsableCell(v: View, h: seq<Execution>, ck: CellKey)
    ensures Summarise(Map(Filter(h, InCell(v, ck)), Elapsed)).count == |Filter(h, InCell(v, ck))|
  {
    MediansAgree(Map(Filter(h, InCell(v, ck)), Elapsed));
    AllPresent(Filter(h, InCell(v, ck)));
  }

  lemma CellCounts(v: View, h: seq<Execution>, cluster: string, ck: CellKey)
    requires ck.0 == cluster
    ensures PointIn(v, h)(ck).executions == |Group(Rows(h, cluster), CellKeyOf(v))(ck)|
  {
    PointAt(v, h, ck);
    UsableCell(v, h, ck);
    CellRows(v, h, cluster, ck);
  }

  /** One line counts every usable execution of its cluster. */
  lemma LineConserves(v: View, h: seq<Execution>, cluster: string)
    ensures Total(Map(Map(Drawing(v, h, cluster), PointIn(v, h)), Executions)) == |Rows(h, cluster)|
  {
    var cks := Drawing(v, h, cluster);
    DrawingIsSound(v, h, cluster);
    CellsHoldTheRows(v, h, cluster, cks);
    forall k | 0 <= k < |cks|
      ensures PointIn(v, h)(cks[k]).executions == |Group(Rows(h, cluster), CellKeyOf(v))(cks[k])|
    {
      OnTheAxis(v, h, cluster, cks[k]);
      CellCounts(v, h, cluster, cks[k]);
    }
    CountsAgree(Map(cks, PointIn(v, h)), Executions, Rows(h, cluster), cks, Group(Rows(h, cluster), CellKeyOf(v)));
  }

  /** Counts that are the sizes of groups holding a whole list add up to its size. */
  lemma CountsAgree<S, K>(parts: seq<S>, count: S -> nat, whole: seq<Execution>, keys: seq<K>,
                          groups: K -> seq<Execution>)
    requires |parts| == |keys| && SameBag(Concat(Map(keys, groups)), whole)
    requires forall i | 0 <= i < |parts| :: count(parts[i]) == |groups(keys[i])|
    ensures Total(Map(parts, count)) == |whole|
  {
    SameSize(Concat(Map(keys, groups)), whole);
    ConcatSize(Map(keys, groups));
    assert Map(parts, count) == Map(Map(keys, groups), Size);
  }

  function Cluster(e: Execution): string { e.cluster }

  /** The clusters of some keys, each once. */
  lemma ClustersOfKeys(cks: seq<CellKey>)
    ensures NoRepeats(ClustersOf(cks))
    ensures forall ck | ck in cks :: ck.0 in ClustersOf(cks)
  {
    var names := Distinct(Map(cks, First));
    DistinctIs(Map(cks, First));
    StringLeqOrder();
    SortedSorts(names, StringLeq);
    NoRepeatsSame(names, ClustersOf(cks));
    forall ck | ck in cks ensures ck.0 in ClustersOf(cks) {
      var i :| 0 <= i < |cks| && cks[i] == ck;
      assert Map(cks, First)[i] == First(ck) == ck.0;
      assert ck.0 in names && ck.0 in multiset(ClustersOf(cks));
    }
  }

  lemma UsableHasKey(v: View, h: seq<Execution>, e: Execution)
    requires e in Filter(h, Usable)
    ensures CellKeyOf(v)(e) in CellKeys(v, h)
  {
    InFilter(h, Usable, e);
    assert InCell(v, CellKeyOf(v)(e))(e);
    KeysOfRows(v, h, CellKeyOf(v)(e));
  }

  lemma ClustersAreSound(v: View, h: seq<Execution>)
    ensures NoRepeats(ClustersOf(CellKeys(v, h)))
    ensures forall e | e in Filter(h, Usable) :: e.cluster in ClustersOf(CellKeys(v, h))
  {
    ClustersOfKeys(CellKeys(v, h));
    forall e | e in Filter(h, Usable) ensures e.cluster in ClustersOf(CellKeys(v, h)) {
      UsableHasKey(v, h, e);
      assert CellKeyOf(v)(e).0 == e.cluster;
    }
  }

  lemma RowsAreGroups(h: seq<Execution>, cluster: string)
    ensures Rows(h, cluster) == Group(Filter(h, Usable), Cluster)(cluster)
  {
    FilterFilter(h, Usable, Is(Cluster, cluster), UsableIn(cluster));
  }

  lemma LineCounts(v: View, h: seq<Execution>, i: nat, s: Series)
    requires i < |Drawn(v, h).series| && s == Drawn(v, h).series[i]
    ensures Drawings(s) == |Rows(h, ClustersOf(CellKeys(v, h))[i])|
  {
    LinesOf(v, h, i);
    LineConserves(v, h, s.cluster);
  }

  /** The points of a chart count every usable execution of the history exactly once. */
  lemma ExecutionsAreConserved(v: View, h: seq<Execution>)
    ensures Total(Map(Drawn(v, h).series, Drawings)) == |Filter(h, Usable)|
  {
    var clusters, series, usable := ClustersOf(CellKeys(v, h)), Drawn(v, h).series, Filter(h, Usable);
    ClustersAreSound(v, h);
    GroupsConserve(usable, Cluster, clusters);
    forall i | 0 <= i < |series| ensures Drawings(series[i]) == |Group(usable, Cluster)(clusters[i])| {
      LineCounts(v, h, i, series[i]);
      RowsAreGroups(h, clusters[i]);
    }
    CountsAgree(series, Drawings, usable, clusters, Group(usable, Cluster));
  }
}
