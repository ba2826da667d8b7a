/** When a chart depends on the order its history arrived in, and when it does not. */
module TrendOrder {
  import opened Bags
  import opened Order
  import opened Stats
  import opened Trend
  import opened TrendProofs
  import opened Wrappers

  // ------------------------------------------------------ the date of a bucket

  /** No row of the bucket is sooner than `e`. */
  ghost predicate Earliest(v: View, rows: seq<Execution>, e: Execution) {
    e in rows && forall x | x in rows :: !Sooner(v, x.at, e.at)
  }

  /** Whichever earliest row comes first, the bucket is dated the same. */
  ghost predicate Agreed(v: View, rows: seq<Execution>) {
    forall a, b | Earliest(v, rows, a) && Earliest(v, rows, b) :: a.at == b.at
  }

  lemma {:induction false} DateIsEarliest(v: View, rows: seq<Execution>) returns (e: Execution)
    requires rows != []
    ensures Earliest(v, rows, e) && e.at == DateOf(v, rows)
  {
    var front, last := rows[..|rows|-1], rows[|rows|-1];
    assert rows == front + [last];
    if front == [] {
      e := last;
    } else {
      var was := DateIsEarliest(v, front);
      e := if Sooner(v, last.at, was.at) then last else was;
    }
  }

  /** An earliest row that comes first dates the bucket. */
  lemma {:induction false} FirstDates(v: View, rows: seq<Execution>)
    requires rows != [] && Earliest(v, rows, rows[0])
    ensures DateOf(v, rows) == rows[0].at
  {
    var front, last := rows[..|rows|-1], rows[|rows|-1];
    if front != [] {
      forall x | x in front ensures !Sooner(v, x.at, front[0].at) { assert x in rows; }
      FirstDates(v, front);
      assert last in rows;
    }
  }

  lemma EarliestSame(v: View, a: seq<Execution>, b: seq<Execution>, e: Execution)
    requires SameBag(a, b)
    ensures Earliest(v, a, e) <==> Earliest(v, b, e)
  {
    SameSize(a, b);
  }

  lemma DateForgetsOrder(v: View, a: seq<Execution>, b: seq<Execution>)
    requires SameBag(a, b) && Agreed(v, a)
    ensures DateOf(v, a) == DateOf(v, b) && RunsOf(a) == RunsOf(b)
  {
    SameSize(a, b);
    if a != [] {
      var x := DateIsEarliest(v, a);
      var y := DateIsEarliest(v, b);
      EarliestSame(v, a, b, y);
    }
  }

  /** In every bucket, and in every cluster's part of one, the earliest rows carry one and the same time. */
  ghost predicate AllAgreed(v: View, h: seq<Execution>) {
    && (forall key :: Agreed(v, Filter(h, In(v, key))))
    && (forall ck :: Agreed(v, Filter(h, InCell(v, ck))))
  }

  // -------------------------------------------------- agreement is enough

  lemma SameSlot(v: View, a: seq<Execution>, b: seq<Execution>, key: string)
    requires SameBag(a, b) && AllAgreed(v, a)
    ensures SlotIn(v, a)(key) == SlotIn(v, b)(key)
  {
    FilterSame(a, b, In(v, key));
    DateForgetsOrder(v, Filter(a, In(v, key)), Filter(b, In(v, key)));
  }

  lemma SameKeysOf<K(!new)>(a: seq<Execution>, b: seq<Execution>, f: Execution -> K)
    requires SameBag(a, b)
    ensures SameBag(Distinct(Map(Filter(a, Usable), f)), Distinct(Map(Filter(b, Usable), f)))
  {
    FilterSame(a, b, Usable);
    MapSame(Filter(a, Usable), Filter(b, Usable), f);
    DistinctSame(Map(Filter(a, Usable), f), Map(Filter(b, Usable), f));
  }

  lemma SortedSlotsSame(keys: seq<string>, keys': seq<string>, f: string -> Slot, g: string -> Slot,
                        leq: (Slot, Slot) -> bool)
    requires SameBag(keys, keys') && TotalPreorder(leq)
    requires forall key :: f(key) == g(key) && f(key).key == key
    requires forall a, b | leq(a, b) && leq(b, a) :: a.key == b.key
    ensures Sorted(Map(keys, f), leq) == Sorted(Map(keys', g), leq)
  {
    assert Map(keys', f) == Map(keys', g);
    MapSame(keys, keys', f);
    forall a, b | a in Map(keys, f) && b in Map(keys, f) && leq(a, b) && leq(b, a) ensures a == b {
      assert a == f(a.key) && b == f(b.key);
    }
    SortedForgetsOrder(Map(keys, f), Map(keys', f), leq);
  }

  lemma SameAxis(v: View, a: seq<Execution>, b: seq<Execution>)
    requires SameBag(a, b) && AllAgreed(v, a)
    ensures Ordered(v, a) == Ordered(v, b)
  {
    SameKeysOf(a, b, KeyOf(v));
    SlotOrder(v);
    forall key ensures SlotIn(v, a)(key) == SlotIn(v, b)(key) { SameSlot(v, a, b, key); }
    SortedSlotsSame(AxisKeys(v, a), AxisKeys(v, b), SlotIn(v, a), SlotIn(v, b), SlotLeq(v));
  }

  lemma SameClusters(v: View, a: seq<Execution>, b: seq<Execution>)
    requires SameBag(a, b)
    ensures SameBag(CellKeys(v, a), CellKeys(v, b)) && ClustersOf(CellKeys(v, a)) == ClustersOf(CellKeys(v, b))
  {
    SameKeysOf(a, b, CellKeyOf(v));
    MapSame(CellKeys(v, a), CellKeys(v, b), First);
    DistinctSame(Map(CellKeys(v, a), First), Map(CellKeys(v, b), First));
    StringLeqOrder();
    SortedForgetsOrder(Distinct(Map(CellKeys(v, a), First)), Distinct(Map(CellKeys(v, b), First)), StringLeq);
  }

  lemma SortedKeysSame(own: seq<CellKey>, own': seq<CellKey>, ordered: seq<Slot>, cluster: string)
    requires SameBag(own, own')
    requires forall ck | ck in own :: ck.0 == cluster && ck.1 in Map(ordered, SlotKey)
    ensures Sorted(own, CkLeq(ordered)) == Sorted(own', CkLeq(ordered))
  {
    var leq := CkLeq(ordered);
    CkOrder(ordered);
    forall x, y | x in own && y in own && leq(x, y) && leq(y, x) ensures x == y {
      PositionsDiffer(ordered, x.1, y.1);
    }
    SortedForgetsOrder(own, own', leq);
  }

  lemma OwnOnAxis(v: View, h: seq<Execution>, cluster: string, ck: CellKey)
    requires ck in Own(v, h, cluster)
    ensures ck.0 == cluster && ck.1 in Map(Ordered(v, h), SlotKey)
  {
    OwnIsSound(v, h, cluster);
    InDrawing(v, h, cluster, ck);
    OnTheAxis(v, h, cluster, ck);
  }

  lemma SameOwn(v: View, a: seq<Execution>, b: seq<Execution>, cluster: string)
    requires SameBag(a, b)
    ensures SameBag(Own(v, a, cluster), Own(v, b, cluster))
  {
    SameKeysOf(a, b, CellKeyOf(v));
    FilterSame(CellKeys(v, a), CellKeys(v, b), Is(First, cluster));
  }

  lemma SameDrawing(v: View, a: seq<Execution>, b: seq<Execution>, cluster: string)
    requires SameBag(a, b) && Ordered(v, a) == Ordered(v, b)
    ensures Drawing(v, a, cluster) == Drawing(v, b, cluster)
  {
    var own := Own(v, a, cluster);
    SameOwn(v, a, b, cluster);
    forall ck | ck in own ensures ck.0 == cluster && ck.1 in Map(Ordered(v, a), SlotKey) {
      OwnOnAxis(v, a, cluster, ck);
    }
    SortedKeysSame(own, Own(v, b, cluster), Ordered(v, a), cluster);
  }

  lemma CellInIs(v: View, h: seq<Execution>, ck: CellKey)
    ensures CellIn(v, h)(ck) == CellFrom(v, ck, Filter(h, InCell(v, ck)))
  {
  }

  lemma PointInIs(v: View, h: seq<Execution>, ck: CellKey)
    ensures PointIn(v, h)(ck) == PointOf(Ordered(v, h))(CellFrom(v, ck, Filter(h, InCell(v, ck))))
  {
    var c, f := CellIn(v, h)(ck), PointOf(Ordered(v, h));
    CellInIs(v, h, ck);
    assert PointIn(v, h)(ck) == f(c);
  }

  lemma SameRows(v: View, a: seq<Execution>, b: seq<Execution>, ck: CellKey)
    requires SameBag(a, b) && AllAgreed(v, a)
    ensures var x, y := Filter(a, InCell(v, ck)), Filter(b, InCell(v, ck));
      DateOf(v, x) == DateOf(v, y) && RunsOf(x) == RunsOf(y) && SameBag(x, y)
  {
    FilterSame(a, b, InCell(v, ck));
    DateForgetsOrder(v, Filter(a, InCell(v, ck)), Filter(b, InCell(v, ck)));
  }

  lemma SamePoint(v: View, a: seq<Execution>, b: seq<Execution>, ck: CellKey)
    requires SameBag(a, b) && AllAgreed(v, a) && Ordered(v, a) == Ordered(v, b)
    ensures PointIn(v, a)(ck) == PointIn(v, b)(ck)
  {
    var x, y := Filter(a, InCell(v, ck)), Filter(b, InCell(v, ck));
    SameRows(v, a, b, ck);
    MapSame(x, y, Elapsed);
    StatsForgetOrder(Map(x, Elapsed), Map(y, Elapsed));
    PointInIs(v, a, ck);
    PointInIs(v, b, ck);
    PointFrom(v, Ordered(v, a), ck, x, y);
  }

  lemma PointFrom(v: View, ordered: seq<Slot>, ck: CellKey, x: seq<Execution>, y: seq<Execution>)
    requires DateOf(v, x) == DateOf(v, y) && RunsOf(x) == RunsOf(y)
    requires Summarise(Map(x, Elapsed)) == Summarise(Map(y, Elapsed))
    ensures PointOf(ordered)(CellFrom(v, ck, x)) == PointOf(ordered)(CellFrom(v, ck, y))
  {
  }

  lemma SameLine(v: View, a: seq<Execution>, b: seq<Execution>, cluster: string)
    requires SameBag(a, b) && AllAgreed(v, a) && Ordered(v, a) == Ordered(v, b)
    ensures Line(Ordered(v, a), cluster, CellsOf(CellKeys(v, a), CellIn(v, a))(cluster))
         == Line(Ordered(v, b), cluster, CellsOf(CellKeys(v, b), CellIn(v, b))(cluster))
  {
    SameDrawing(v, a, b, cluster);
    LinePoints(v, a, cluster);
    LinePoints(v, b, cluster);
    forall k | 0 <= k < |Drawing(v, a, cluster)|
      ensures PointIn(v, a)(Drawing(v, a, cluster)[k]) == PointIn(v, b)(Drawing(v, a, cluster)[k])
    {
      SamePoint(v, a, b, Drawing(v, a, cluster)[k]);
    }
    assert Map(Drawing(v, a, cluster), PointIn(v, a)) == Map(Drawing(v, a, cluster), PointIn(v, b));
  }

  // --------------------------------------------------------- the totals

  /** The cell of a key holds that key's group of the cluster's rows. */
  lemma CellOfGroup(v: View, h: seq<Execution>, cluster: string, ck: CellKey)
    requires ck in Own(v, h, cluster)
    ensures CellIn(v, h)(ck) == CellFrom(v, ck, Group(Rows(h, cluster), CellKeyOf(v))(ck))
  {
    OwnIsSound(v, h, cluster);
    CellRows(v, h, cluster, ck);
    CellInIs(v, h, ck);
  }

  lemma SumsParts(v: View, h: seq<Execution>, cluster: string)
    ensures var own := CellsOf(CellKeys(v, h), CellIn(v, h))(cluster);
      && SameBag(Concat(Map(own, Times)), Map(Rows(h, cluster), Elapsed))
      && (set c, r | c in own && r in c.runs :: r) == RunsOf(Rows(h, cluster))
      && |own| == |Own(v, h, cluster)|
  {
    var cks := Own(v, h, cluster);
    var own := Map(cks, CellIn(v, h));
    var groups := Map(cks, Group(Rows(h, cluster), CellKeyOf(v)));
    CellsHoldTheRows(v, h, cluster, cks);
    forall k | 0 <= k < |cks| ensures own[k] == CellFrom(v, cks[k], groups[k]) {
      assert cks[k] in cks;
      CellOfGroup(v, h, cluster, cks[k]);
    }
    SumsOfGroups(v, cks, own, groups, Rows(h, cluster));
  }

  lemma SumsOfGroups(v: View, cks: seq<CellKey>, own: seq<Cell>, groups: seq<seq<Execution>>, rows: seq<Execution>)
    requires |own| == |groups| == |cks| && SameBag(Concat(groups), rows)
    requires forall k | 0 <= k < |cks| :: own[k] == CellFrom(v, cks[k], groups[k])
    ensures SameBag(Concat(Map(own, Times)), Map(rows, Elapsed))
    ensures (set c, r | c in own && r in c.runs :: r) == RunsOf(rows)
  {
    TimesOfGroups(v, cks, own, groups);
    RunsOfGroups(v, cks, own, groups);
    MapSame(Concat(groups), rows, Elapsed);
    SameSize(Concat(groups), rows);
  }

  function ElapsedOf(rows: seq<Execution>): seq<Option<real>> { Map(rows, Elapsed) }

  lemma {:induction false} InConcat<T>(ss: seq<seq<T>>, x: T) returns (k: nat)
    requires x in Concat(ss)
    ensures k < |ss| && x in ss[k]
  {
    if x in ss[|ss|-1] {
      k := |ss| - 1;
    } else {
      k := InConcat(ss[..|ss|-1], x);
    }
  }

  lemma {:induction false} ConcatHas<T>(ss: seq<seq<T>>, k: nat, x: T)
    requires k < |ss| && x in ss[k]
    ensures x in Concat(ss)
  {
    if k < |ss| - 1 { ConcatHas(ss[..|ss|-1], k, x); }
  }

  lemma TimesOfGroups(v: View, cks: seq<CellKey>, own: seq<Cell>, groups: seq<seq<Execution>>)
    requires |own| == |groups| == |cks|
    requires forall k | 0 <= k < |cks| :: own[k] == CellFrom(v, cks[k], groups[k])
    ensures Concat(Map(own, Times)) == Map(Concat(groups), Elapsed)
  {
    ElapsedInGroups(v, cks, own, groups);
    ConcatMap(groups, Elapsed, ElapsedOf);
  }

  lemma ElapsedInGroups(v: View, cks: seq<CellKey>, own: seq<Cell>, groups: seq<seq<Execution>>)
    requires |own| == |groups| == |cks|
    requires forall k | 0 <= k < |cks| :: own[k] == CellFrom(v, cks[k], groups[k])
    ensures Map(own, Times) == Map(groups, ElapsedOf)
  {
    var times, elapsed := Map(own, Times), Map(groups, ElapsedOf);
    forall k | 0 <= k < |own| ensures times[k] == elapsed[k] {
      assert times[k] == own[k].elapsed && elapsed[k] == Map(groups[k], Elapsed);
    }
  }

  lemma RunsOfGroups(v: View, cks: seq<CellKey>, own: seq<Cell>, groups: seq<seq<Execution>>)
    requires |own| == |groups| == |cks|
    requires forall k | 0 <= k < |cks| :: own[k] == CellFrom(v, cks[k], groups[k])
    ensures (set c, r | c in own && r in c.runs :: r) == RunsOf(Concat(groups))
  {
    var runs, all := set c, r | c in own && r in c.runs :: r, Concat(groups);
    forall r | r in runs ensures r in RunsOf(all) {
      var c :| c in own && r in c.runs;
      var k :| 0 <= k < |own| && own[k] == c;
      var e :| e in groups[k] && e.run == r;
      ConcatHas(groups, k, e);
    }
    forall r | r in RunsOf(all) ensures r in runs {
      var e :| e in all && e.run == r;
      var k := InConcat(groups, e);
      assert own[k] in own && r in own[k].runs;
    }
  }

  lemma SumsFrom(cluster: string, own: seq<Cell>, own': seq<Cell>)
    requires SameBag(Concat(Map(own, Times)), Concat(Map(own', Times))) && |own| == |own'|
    requires (set c, r | c in own && r in c.runs :: r) == set c, r | c in own' && r in c.runs :: r
    ensures Sums(cluster, own) == Sums(cluster, own')
  {
    StatsForgetOrder(Concat(Map(own, Times)), Concat(Map(own', Times)));
  }

  lemma SameSums(v: View, a: seq<Execution>, b: seq<Execution>, cluster: string)
    requires SameBag(a, b)
    ensures Sums(cluster, CellsOf(CellKeys(v, a), CellIn(v, a))(cluster))
        == Sums(cluster, CellsOf(CellKeys(v, b), CellIn(v, b))(cluster))
  {
    SumsParts(v, a, cluster);
    SumsParts(v, b, cluster);
    FilterSame(a, b, UsableIn(cluster));
    MapSame(Rows(a, cluster), Rows(b, cluster), Elapsed);
    SameSize(Rows(a, cluster), Rows(b, cluster));
    SameOwn(v, a, b, cluster);
    SameSize(Own(v, a, cluster), Own(v, b, cluster));
    SumsFrom(cluster, CellsOf(CellKeys(v, a), CellIn(v, a))(cluster), CellsOf(CellKeys(v, b), CellIn(v, b))(cluster));
  }

  lemma SameChart(ordered: seq<Slot>, clusters: seq<string>, f: string -> seq<Cell>, g: string -> seq<Cell>)
    requires forall i | 0 <= i < |clusters| ::
      && Line(ordered, clusters[i], f(clusters[i])) == Line(ordered, clusters[i], g(clusters[i]))
      && Sums(clusters[i], f(clusters[i])) == Sums(clusters[i], g(clusters[i]))
    ensures ChartOf(ordered, clusters, f) == ChartOf(ordered, clusters, g)
  {
    assert Map(clusters, SeriesOf(ordered, f)) == Map(clusters, SeriesOf(ordered, g));
    assert Map(clusters, TotalsOf(f)) == Map(clusters, TotalsOf(g));
  }

  /** Where the earliest rows agree, every arrival order gives the same chart. */
  lemma AgreedForgetsOrder(v: View, a: seq<Execution>, b: seq<Execution>)
    requires SameBag(a, b) && AllAgreed(v, a)
    ensures Drawn(v, a) == Drawn(v, b)
  {
    SameAxis(v, a, b);
    SameClusters(v, a, b);
    var clusters := ClustersOf(CellKeys(v, a));
    var f, g := CellsOf(CellKeys(v, a), CellIn(v, a)), CellsOf(CellKeys(v, b), CellIn(v, b));
    forall i | 0 <= i < |clusters|
      ensures Line(Ordered(v, a), clusters[i], f(clusters[i])) == Line(Ordered(v, a), clusters[i], g(clusters[i]))
      ensures Sums(clusters[i], f(clusters[i])) == Sums(clusters[i], g(clusters[i]))
    {
      SameLine(v, a, b, clusters[i]);
      SameSums(v, a, b, clusters[i]);
    }
    SameChart(Ordered(v, a), clusters, f, g);
  }

  // ----------------------------------------------- and it is necessary

  /** The history with one of its rows moved to the front. */
  function Fronted(h: seq<Execution>, i: nat): seq<Execution>
    requires i < |h|
  {
    [h[i]] + Without(h, i)
  }

  lemma FrontedSame(h: seq<Execution>, i: nat)
    requires i < |h|
    ensures SameBag(h, Fronted(h, i))
  {
    WithoutBag(h, i);
  }

  /** A row moved to the front dates every bucket in which it is an earliest row. */
  lemma FrontedDates(v: View, h: seq<Execution>, i: nat, p: Execution -> bool)
    requires i < |h| && p(h[i]) && Earliest(v, Filter(h, p), h[i])
    ensures DateOf(v, Filter(Fronted(h, i), p)) == h[i].at
  {
    var rows := Filter(Fronted(h, i), p);
    FrontedSame(h, i);
    FilterSame(h, Fronted(h, i), p);
    FilterJoin([h[i]], Without(h, i), p);
    assert [h[i]][..0] == [] && Filter([h[i]], p) == [h[i]];
    assert rows[0] == h[i];
    EarliestSame(v, Filter(h, p), rows, h[i]);
    FirstDates(v, rows);
  }

  /** Two earliest rows of a bucket that carry different times. */
  lemma Quarrel(v: View, h: seq<Execution>, p: Execution -> bool) returns (i: nat, j: nat)
    requires !Agreed(v, Filter(h, p))
    ensures i < |h| && j < |h| && p(h[i]) && p(h[j]) && h[i].at != h[j].at
    ensures Earliest(v, Filter(h, p), h[i]) && Earliest(v, Filter(h, p), h[j])
  {
    var rows := Filter(h, p);
    var a, b :| Earliest(v, rows, a) && Earliest(v, rows, b) && a.at != b.at;
    InFilter(h, p, a);
    InFilter(h, p, b);
    i :| 0 <= i < |h| && h[i] == a;
    j :| 0 <= j < |h| && h[j] == b;
  }

  lemma KeyShown(v: View, h: seq<Execution>, key: string)
    requires Filter(h, In(v, key)) != []
    ensures key in Map(Ordered(v, h), SlotKey)
  {
    var e := Filter(h, In(v, key))[0];
    InFilter(h, In(v, key), e);
    InFilter(h, Usable, e);
    assert KeyOf(v)(e) == key;
    InDistinctMap(Filter(h, Usable), KeyOf(v), key);
    AxisIsSound(v, h);
    SameSize(Map(Ordered(v, h), SlotKey), AxisKeys(v, h));
  }

  lemma WithKey(ordered: seq<Slot>, key: string) returns (k: nat)
    requires key in Map(ordered, SlotKey)
    ensures k < |ordered| && Map(ordered, BucketOf)[k].key == key
  {
    var keys := Map(ordered, SlotKey);
    k :| 0 <= k < |keys| && keys[k] == key;
    assert keys[k] == ordered[k].key && Map(ordered, BucketOf)[k] == BucketOf(ordered[k]);
  }

  lemma BucketShown(v: View, h: seq<Execution>, key: string) returns (k: nat)
    requires Filter(h, In(v, key)) != []
    ensures k < |Drawn(v, h).buckets| && Drawn(v, h).buckets[k].key == key
  {
    KeyShown(v, h, key);
    k := WithKey(Ordered(v, h), key);
  }

  lemma BucketTold(v: View, h: seq<Execution>, k: nat)
    requires k < |Drawn(v, h).buckets|
    ensures var b := Drawn(v, h).buckets[k]; b.at == DateOf(v, Filter(h, In(v, b.key)))
  {
    AxisIsSound(v, h);
    var s := Ordered(v, h)[k];
    assert s == SlotIn(v, h)(s.key);
    assert Drawn(v, h).buckets[k] == BucketOf(s);
  }

  lemma CellShown(v: View, h: seq<Execution>, ck: CellKey)
    requires Filter(h, InCell(v, ck)) != []
    ensures ck in CellKeys(v, h) && ck.0 in ClustersOf(CellKeys(v, h))
  {
    var e := Filter(h, InCell(v, ck))[0];
    InFilter(h, InCell(v, ck), e);
    InFilter(h, Usable, e);
    KeysOfRows(v, h, ck);
    ClustersAreSound(v, h);
  }

  lemma PointOnLine(v: View, h: seq<Execution>, ck: CellKey) returns (k: nat)
    requires ck in CellKeys(v, h)
    ensures k < |Drawing(v, h, ck.0)| && Map(Drawing(v, h, ck.0), PointIn(v, h))[k] == PointIn(v, h)(ck)
  {
    InDrawing(v, h, ck.0, ck);
    k :| 0 <= k < |Drawing(v, h, ck.0)| && Drawing(v, h, ck.0)[k] == ck;
  }

  /** Every cell with a row has its point on its cluster's line. */
  lemma PointShown(v: View, h: seq<Execution>, ck: CellKey) returns (i: nat, k: nat)
    requires Filter(h, InCell(v, ck)) != []
    ensures i < |Drawn(v, h).series| && k < |Drawn(v, h).series[i].points|
    ensures Drawn(v, h).series[i].cluster == ck.0 && Drawn(v, h).series[i].points[k].bucket == ck.1
    ensures Drawn(v, h).series[i].points[k] == PointIn(v, h)(ck)
  {
    CellShown(v, h, ck);
    var clusters := ClustersOf(CellKeys(v, h));
    i :| 0 <= i < |clusters| && clusters[i] == ck.0;
    LinesOf(v, h, i);
    k := PointOnLine(v, h, ck);
    PointAt(v, h, ck);
  }

  lemma PointTold(v: View, h: seq<Execution>, i: nat, k: nat)
    requires i < |Drawn(v, h).series| && k < |Drawn(v, h).series[i].points|
    ensures var cluster, p := Drawn(v, h).series[i].cluster, Drawn(v, h).series[i].points[k];
      p.at == DateOf(v, Filter(h, InCell(v, (cluster, p.bucket))))
  {
    var cluster := Drawn(v, h).series[i].cluster;
    LinesOf(v, h, i);
    var ck := Drawing(v, h, cluster)[k];
    assert Map(Drawing(v, h, cluster), PointIn(v, h))[k] == PointIn(v, h)(ck);
    OnTheAxis(v, h, cluster, ck);
    PointAt(v, h, ck);
    PointInIs(v, h, ck);
    PointDate(v, Ordered(v, h), ck, Filter(h, InCell(v, ck)));
  }

  lemma PointDate(v: View, ordered: seq<Slot>, ck: CellKey, rows: seq<Execution>)
    ensures PointOf(ordered)(CellFrom(v, ck, rows)).at == DateOf(v, rows)
  {
  }

  lemma AxisQuarrelShows(v: View, h: seq<Execution>, key: string) returns (b: seq<Execution>)
    requires !Agreed(v, Filter(h, In(v, key)))
    ensures SameBag(h, b) && Drawn(v, b) != Drawn(v, h)
  {
    var i, j := Quarrel(v, h, In(v, key));
    var x, y := Fronted(h, i), Fronted(h, j);
    FrontedSame(h, i);
    FrontedSame(h, j);
    FrontedDates(v, h, i, In(v, key));
    FrontedDates(v, h, j, In(v, key));
    FilterSame(h, x, In(v, key));
    SameSize(Filter(h, In(v, key)), Filter(x, In(v, key)));
    var k := BucketShown(v, x, key);
    BucketTold(v, x, k);
    if Drawn(v, x) == Drawn(v, y) { BucketTold(v, y, k); }
    b := if Drawn(v, x) == Drawn(v, h) then y else x;
  }

  lemma CellQuarrelShows(v: View, h: seq<Execution>, ck: CellKey) returns (b: seq<Execution>)
    requires !Agreed(v, Filter(h, InCell(v, ck)))
    ensures SameBag(h, b) && Drawn(v, b) != Drawn(v, h)
  {
    var i, j := Quarrel(v, h, InCell(v, ck));
    var x, y := Fronted(h, i), Fronted(h, j);
    FrontedSame(h, i);
    FrontedSame(h, j);
    FrontedDates(v, h, i, InCell(v, ck));
    FrontedDates(v, h, j, InCell(v, ck));
    FilterSame(h, x, InCell(v, ck));
    SameSize(Filter(h, InCell(v, ck)), Filter(x, InCell(v, ck)));
    var s, k := PointShown(v, x, ck);
    PointTold(v, x, s, k);
    if Drawn(v, x) == Drawn(v, y) { PointTold(v, y, s, k); }
    b := if Drawn(v, x) == Drawn(v, h) then y else x;
  }

  /** `build` gives one chart for every arrival order exactly when the earliest rows of each bucket, and of
      each cluster's part of it, carry one and the same time. */
  lemma OrderMattersExactlyWhenTimesQuarrel(v: View, h: seq<Execution>)
    ensures (forall b | SameBag(h, b) :: Drawn(v, b) == Drawn(v, h)) <==> AllAgreed(v, h)
  {
    if AllAgreed(v, h) {
      forall b | SameBag(h, b) ensures Drawn(v, b) == Drawn(v, h) { AgreedForgetsOrder(v, h, b); }
    } else if exists key :: !Agreed(v, Filter(h, In(v, key))) {
      var key :| !Agreed(v, Filter(h, In(v, key)));
      var b := AxisQuarrelShows(v, h, key);
    } else {
      var ck :| !Agreed(v, Filter(h, InCell(v, ck)));
      var b := CellQuarrelShows(v, h, ck);
    }
  }

  /** A run starts once, so grouped by run the order never matters. */
  lemma ByRunForgetsOrder(v: View, h: seq<Execution>)
    requires v.bucketing == ByRun && forall a, b | a in h && b in h && a.run == b.run :: a.at == b.at
    ensures AllAgreed(v, h)
  {
    forall key ensures Agreed(v, Filter(h, In(v, key))) {
      forall a, b | a in Filter(h, In(v, key)) && b in Filter(h, In(v, key)) ensures a.at == b.at {
        SameRunKey(v, h, In(v, key), key, a, b);
      }
    }
    forall ck ensures Agreed(v, Filter(h, InCell(v, ck))) {
      forall a, b | a in Filter(h, InCell(v, ck)) && b in Filter(h, InCell(v, ck)) ensures a.at == b.at {
        SameRunKey(v, h, InCell(v, ck), ck.1, a, b);
      }
    }
  }

  lemma SameRunKey(v: View, h: seq<Execution>, p: Execution -> bool, key: string, a: Execution, b: Execution)
    requires v.bucketing == ByRun && forall e | p(e) :: Key(v, e) == key
    requires a in Filter(h, p) && b in Filter(h, p)
    ensures a in h && b in h && a.run == b.run
  {
    InFilter(h, p, a);
    InFilter(h, p, b);
    assert ("run:" + a.run)[4..] == a.run && ("run:" + b.run)[4..] == b.run;
  }

  /** What the stores hand over: a run has one start time, and one moment is written one way. */
  ghost predicate StoredTimes(v: View, h: seq<Execution>) {
    && (forall a, b | a in h && b in h && a.run == b.run :: a.at == b.at)
    && (forall a, b | a in h && b in h :: SameInstant(v, a.at, b.at) ==> a.at == b.at)
  }

  predicate SameInstant(v: View, a: string, b: string) {
    v.moment(a).Some? && v.moment(b).Some? && v.moment(a).value.instant == v.moment(b).value.instant
  }

  lemma BucketAgrees(v: View, h: seq<Execution>, p: Execution -> bool, key: string)
    requires StoredTimes(v, h) && forall e | p(e) :: Key(v, e) == key
    ensures Agreed(v, Filter(h, p))
  {
    var rows := Filter(h, p);
    forall a, b | Earliest(v, rows, a) && Earliest(v, rows, b) ensures a.at == b.at {
      InFilter(h, p, a);
      InFilter(h, p, b);
      if !SameInstant(v, a.at, b.at) {
        assert !Sooner(v, a.at, b.at) && !Sooner(v, b.at, a.at);
        assert ("run:" + a.run)[4..] == a.run && ("run:" + b.run)[4..] == b.run;
      }
    }
  }

  lemma StoredTimesAgree(v: View, h: seq<Execution>)
    requires StoredTimes(v, h)
    ensures AllAgreed(v, h)
  {
    forall key ensures Agreed(v, Filter(h, In(v, key))) { BucketAgrees(v, h, In(v, key), key); }
    forall ck ensures Agreed(v, Filter(h, InCell(v, ck))) { BucketAgrees(v, h, InCell(v, ck), ck.1); }
  }

  /** Whatever the grouping, a history from the stores gives one chart in every order. */
  lemma StoredHistoriesForgetOrder(v: View, h: seq<Execution>, b: seq<Execution>)
    requires StoredTimes(v, h) && SameBag(h, b)
    ensures Drawn(v, b) == Drawn(v, h)
  {
    StoredTimesAgree(v, h);
    AgreedForgetsOrder(v, h, b);
  }

  /** Two texts of one moment on one day: whichever comes first dates the day. */
  lemma TwoTextsOfOneMoment(elapsed: real)
    ensures var day := Moment(0, "2024-01-01", "2024-01");
      var v := View(ByDay, (at: string) => Some(day));
      var h := [Execution("1", "prod", false, Some(elapsed), "2024-01-01T00:00:00Z"),
                Execution("2", "prod", false, Some(elapsed), "2024-01-01T00:00:00+00:00")];
      exists b :: SameBag(h, b) && Drawn(v, b) != Drawn(v, h)
  {
    var day := Moment(0, "2024-01-01", "2024-01");
    var v := View(ByDay, (at: string) => Some(day));
    var h := [Execution("1", "prod", false, Some(elapsed), "2024-01-01T00:00:00Z"),
              Execution("2", "prod", false, Some(elapsed), "2024-01-01T00:00:00+00:00")];
    var rows := Filter(h, In(v, "2024-01-01"));
    InFilter(h, In(v, "2024-01-01"), h[0]);
    InFilter(h, In(v, "2024-01-01"), h[1]);
    assert Earliest(v, rows, h[0]) && Earliest(v, rows, h[1]);
    assert |h[0].at| != |h[1].at|;
    OrderMattersExactlyWhenTimesQuarrel(v, h);
  }
}
