/** One query's history drawn as one line per cluster on a shared axis. */
module Trend {
  import opened Bags
  import opened Order
  import opened Stats
  import opened Wrappers

  datatype Bucketing = ByRun | ByDay | ByMonth

  datatype Moment = Moment(instant: int, day: string, month: string)

  /** How the axis is grouped, and what a recorded start time says when read as a moment. */
  datatype View = View(bucketing: Bucketing, moment: string -> Option<Moment>)

  datatype Execution = Execution(run: string, cluster: string, failed: bool, elapsed: Option<real>, at: string)

  /** A bucket that asks for anything unknown is drawn by run. */
  function Chosen(bucket: string): Bucketing {
    if bucket == "day" then ByDay else if bucket == "month" then ByMonth else ByRun
  }

  /** `_bucket_key`. A run with no readable time keeps its own bucket. */
  function Key(v: View, e: Execution): string {
    var m := v.moment(e.at);
    if v.bucketing == ByDay && m.Some? then m.value.day
    else if v.bucketing == ByMonth && m.Some? then m.value.month
    else "run:" + e.run
  }

  predicate Usable(e: Execution) { !e.failed && e.elapsed.Some? }

  type CellKey = (string, string)

  function KeyOf(v: View): Execution -> string { (e: Execution) => Key(v, e) }
  function CellKeyOf(v: View): Execution -> CellKey { (e: Execution) => (e.cluster, Key(v, e)) }
  function In(v: View, key: string): Execution -> bool { (e: Execution) => Usable(e) && Key(v, e) == key }
  function InCell(v: View, ck: CellKey): Execution -> bool {
    (e: Execution) => Usable(e) && (e.cluster, Key(v, e)) == ck
  }
  function Elapsed(e: Execution): Option<real> { e.elapsed }

  // ------------------------------------------------- what a bucket holds

  /** `a` can be read and is earlier than `b`, or `b` cannot be read. */
  predicate Sooner(v: View, a: string, b: string) {
    var x, y := v.moment(a), v.moment(b);
    x.Some? && (y.None? || x.value.instant < y.value.instant)
  }

  /** The date of a bucket: its first row's, replaced by each later row's that is sooner. */
  function DateOf(v: View, rows: seq<Execution>): string {
    if rows == [] then ""
    else if |rows| == 1 then rows[0].at
    else
      var date, last := DateOf(v, rows[..|rows|-1]), rows[|rows|-1];
      if Sooner(v, last.at, date) then last.at else date
  }

  function RunsOf(rows: seq<Execution>): set<string> { set e | e in rows :: e.run }

  datatype Slot = Slot(key: string, at: string, runs: set<string>)

  datatype Cell = Cell(cluster: string, bucket: string, at: string, elapsed: seq<Option<real>>, runs: set<string>)

  function SlotFrom(v: View, key: string, rows: seq<Execution>): Slot { Slot(key, DateOf(v, rows), RunsOf(rows)) }

  function CellFrom(v: View, ck: CellKey, rows: seq<Execution>): Cell {
    Cell(ck.0, ck.1, DateOf(v, rows), Map(rows, Elapsed), RunsOf(rows))
  }

  function SlotIn(v: View, h: seq<Execution>): string -> Slot {
    (key: string) => SlotFrom(v, key, Filter(h, In(v, key)))
  }

  function CellIn(v: View, h: seq<Execution>): CellKey -> Cell {
    (ck: CellKey) => CellFrom(v, ck, Filter(h, InCell(v, ck)))
  }

  function AxisKeys(v: View, h: seq<Execution>): seq<string> { Distinct(Map(Filter(h, Usable), KeyOf(v))) }
  function CellKeys(v: View, h: seq<Execution>): seq<CellKey> { Distinct(Map(Filter(h, Usable), CellKeyOf(v))) }

  // ---------------------------------------------------------- the drawing

  /** Oldest first; buckets without a readable time last; then by key. */
  function SlotLeq(v: View): (Slot, Slot) -> bool {
    (a: Slot, b: Slot) =>
      var x, y := v.moment(a.at), v.moment(b.at);
      if x.Some? && y.Some? then
        x.value.instant < y.value.instant || (x.value.instant == y.value.instant && StringLeq(a.key, b.key))
      else if x.None? && y.None? then StringLeq(a.key, b.key)
      else x.Some?
  }

  /** `positions[key]`. */
  function Position(ordered: seq<Slot>, key: string): nat {
    if ordered == [] || ordered[0].key == key then 0 else 1 + Position(ordered[1..], key)
  }

  datatype Point = Point(
    x: nat, bucket: string, at: string, median: Option<real>, avg: Option<real>, runs: nat, executions: nat)

  datatype Series = Series(cluster: string, points: seq<Point>, meanOfPoints: Option<real>)

  datatype Totals = Totals(cluster: string, stats: Summary, runs: nat, buckets: nat)

  datatype Bucket = Bucket(key: string, at: string, runs: nat)

  datatype Chart = Chart(buckets: seq<Bucket>, series: seq<Series>, totals: seq<Totals>, drawable: bool)

  function BucketOf(s: Slot): Bucket { Bucket(s.key, s.at, |s.runs|) }

  function PointOf(ordered: seq<Slot>): Cell -> Point {
    (c: Cell) =>
      var stats := Summarise(c.elapsed);
      Point(Position(ordered, c.bucket), c.bucket, c.at, stats.median, stats.avg, |c.runs|, stats.count)
  }

  function CellLeq(ordered: seq<Slot>): (Cell, Cell) -> bool {
    (a: Cell, b: Cell) => Position(ordered, a.bucket) <= Position(ordered, b.bucket)
  }

  function Plotted(p: Point): real { Value(p.median) }

  function MeanOf(points: seq<Point>): Option<real> {
    if points == [] then None else Some(Sum(Map(points, Plotted)) / |points| as real)
  }

  /** One line, its cells in the order of the shared axis. */
  function Line(ordered: seq<Slot>, cluster: string, cells: seq<Cell>): Series {
    var points := Map(Sorted(cells, CellLeq(ordered)), PointOf(ordered));
    Series(cluster, points, MeanOf(points))
  }

  function Times(c: Cell): seq<Option<real>> { c.elapsed }

  function Sums(cluster: string, cells: seq<Cell>): Totals {
    Totals(cluster, Summarise(Concat(Map(cells, Times))), |set c, r | c in cells && r in c.runs :: r|, |cells|)
  }

  function SeriesOf(ordered: seq<Slot>, cells: string -> seq<Cell>): string -> Series {
    (cluster: string) => Line(ordered, cluster, cells(cluster))
  }

  function TotalsOf(cells: string -> seq<Cell>): string -> Totals {
    (cluster: string) => Sums(cluster, cells(cluster))
  }

  function First(ck: CellKey): string { ck.0 }

  function ClustersOf(cks: seq<CellKey>): seq<string> { Sorted(Distinct(Map(cks, First)), StringLeq) }

  function CellsOf(cks: seq<CellKey>, cells: CellKey -> Cell): string -> seq<Cell> {
    (cluster: string) => Map(Filter(cks, Is(First, cluster)), cells)
  }

  predicate LongEnough(s: Series) { |s.points| >= 2 }

  function ChartOf(ordered: seq<Slot>, clusters: seq<string>, cells: string -> seq<Cell>): Chart {
    var series := Map(clusters, SeriesOf(ordered, cells));
    Chart(Map(ordered, BucketOf), series, Map(clusters, TotalsOf(cells)), Filter(series, LongEnough) != [])
  }

  function Ordered(v: View, h: seq<Execution>): seq<Slot> { Sorted(Map(AxisKeys(v, h), SlotIn(v, h)), SlotLeq(v)) }

  /** `build` as one expression over the rows of each bucket. */
  function Drawn(v: View, h: seq<Execution>): Chart {
    var cks := CellKeys(v, h);
    ChartOf(Ordered(v, h), ClustersOf(cks), CellsOf(cks, CellIn(v, h)))
  }

  // ------------------------------------------------------- the loops

  function Get<K(==), T>(m: map<K, T>, k: K): Option<T> { if k in m then Some(m[k]) else None }

  function SomeSlot(v: View, key: string, rows: seq<Execution>): Option<Slot> {
    if rows == [] then None else Some(SlotFrom(v, key, rows))
  }

  function SomeCell(v: View, ck: CellKey, rows: seq<Execution>): Option<Cell> {
    if rows == [] then None else Some(CellFrom(v, ck, rows))
  }

  /** What the axis holds under each key: nothing, unless some row fell in it. */
  function SlotAt(v: View, h: seq<Execution>): string -> Option<Slot> {
    (key: string) => SomeSlot(v, key, Filter(h, In(v, key)))
  }

  function CellAt(v: View, h: seq<Execution>): CellKey -> Option<Cell> {
    (ck: CellKey) => SomeCell(v, ck, Filter(h, InCell(v, ck)))
  }

  ghost predicate Holds<K(!new), T(!new)>(m: map<K, T>, said: K -> Option<T>) { forall k :: Get(m, k) == said(k) }

  ghost predicate SameKeys<K(!new), T>(m: map<K, T>, keys: seq<K>) { forall k :: k in m <==> k in keys }

  /** One row's write turns what held before into what is said after. */
  lemma StepHolds<K(!new), T(!new)>(m: map<K, T>, keys: seq<K>, was: K -> Option<T>, now: K -> Option<T>,
                                    usable: bool, key: K, value: T)
    requires SameKeys(m, keys) && Holds(m, was)
    requires usable ==> now(key) == Some(value)
    requires forall k | !usable || k != key :: now(k) == was(k)
    ensures SameKeys(if usable then m[key := value] else m, if usable && key !in keys then keys + [key] else keys)
    ensures Holds(if usable then m[key := value] else m, now)
  {
    var after := if usable then m[key := value] else m;
    forall k ensures Get(after, k) == now(k) { assert Get(m, k) == was(k); }
  }

  /** The axis dictionary after `h`, and its keys in insertion order. */
  ghost predicate AxisAfter(v: View, h: seq<Execution>, keys: seq<string>, axis: map<string, Slot>) {
    keys == AxisKeys(v, h) && SameKeys(axis, keys) && Holds(axis, SlotAt(v, h))
  }

  ghost predicate CellsAfter(v: View, h: seq<Execution>, keys: seq<CellKey>, cells: map<CellKey, Cell>) {
    keys == CellKeys(v, h) && SameKeys(cells, keys) && Holds(cells, CellAt(v, h))
  }

  lemma DateSnoc(v: View, rows: seq<Execution>, e: Execution)
    ensures DateOf(v, rows + [e]) ==
      if rows == [] || Sooner(v, e.at, DateOf(v, rows)) then e.at else DateOf(v, rows)
    ensures RunsOf(rows + [e]) == RunsOf(rows) + {e.run}
  {
    assert (rows + [e])[..|rows|] == rows;
  }

  lemma KeysSnoc<K(!new)>(h: seq<Execution>, i: nat, f: Execution -> K)
    requires i < |h|
    ensures var keys := Distinct(Map(Filter(h[..i], Usable), f));
      Distinct(Map(Filter(h[..i + 1], Usable), f))
      == if Usable(h[i]) && f(h[i]) !in keys then keys + [f(h[i])] else keys
  {
    var rows := Filter(h[..i], Usable);
    FilterSnoc(h, i, Usable);
    if Usable(h[i]) {
      MapSnoc(rows, h[i], f);
      DistinctSnoc(Map(rows, f), f(h[i]));
    } else {
      assert Filter(h[..i + 1], Usable) == rows;
    }
  }

  /** `setdefault`, then the row's date and run. */
  function SlotWith(v: View, before: Option<Slot>, key: string, e: Execution): Slot {
    if before.None? then Slot(key, e.at, {e.run})
    else Slot(key, if Sooner(v, e.at, before.value.at) then e.at else before.value.at, before.value.runs + {e.run})
  }

  function CellWith(v: View, before: Option<Cell>, ck: CellKey, e: Execution): Cell {
    if before.None? then Cell(ck.0, ck.1, e.at, [e.elapsed], {e.run})
    else
      var b := before.value;
      Cell(ck.0, ck.1, if Sooner(v, e.at, b.at) then e.at else b.at, b.elapsed + [e.elapsed], b.runs + {e.run})
  }

  lemma FilteredSnoc(h: seq<Execution>, i: nat, p: Execution -> bool)
    requires i < |h|
    ensures Filter(h[..i + 1], p) == if p(h[i]) then Filter(h[..i], p) + [h[i]] else Filter(h[..i], p)
  {
    FilterSnoc(h, i, p);
  }

  lemma SomeSlotSnoc(v: View, key: string, rows: seq<Execution>, e: Execution)
    ensures SomeSlot(v, key, rows + [e]) == Some(SlotWith(v, SomeSlot(v, key, rows), key, e))
  {
    DateSnoc(v, rows, e);
    assert rows == [] ==> RunsOf(rows) + {e.run} == {e.run};
  }

  lemma SomeCellSnoc(v: View, ck: CellKey, rows: seq<Execution>, e: Execution)
    ensures SomeCell(v, ck, rows + [e]) == Some(CellWith(v, SomeCell(v, ck, rows), ck, e))
  {
    DateSnoc(v, rows, e);
    MapSnoc(rows, e, Elapsed);
    assert rows == [] ==> RunsOf(rows) + {e.run} == {e.run} && Map(rows, Elapsed) + [e.elapsed] == [e.elapsed];
  }

  lemma SlotSnoc(v: View, h: seq<Execution>, i: nat, key: string)
    requires i < |h|
    ensures !In(v, key)(h[i]) ==> SlotAt(v, h[..i + 1])(key) == SlotAt(v, h[..i])(key)
    ensures In(v, key)(h[i]) ==> SlotAt(v, h[..i + 1])(key) == Some(SlotWith(v, SlotAt(v, h[..i])(key), key, h[i]))
  {
    FilteredSnoc(h, i, In(v, key));
    SomeSlotSnoc(v, key, Filter(h[..i], In(v, key)), h[i]);
  }

  lemma CellSnoc(v: View, h: seq<Execution>, i: nat, ck: CellKey)
    requires i < |h|
    ensures !InCell(v, ck)(h[i]) ==> CellAt(v, h[..i + 1])(ck) == CellAt(v, h[..i])(ck)
    ensures InCell(v, ck)(h[i]) ==> CellAt(v, h[..i + 1])(ck) == Some(CellWith(v, CellAt(v, h[..i])(ck), ck, h[i]))
  {
    FilteredSnoc(h, i, InCell(v, ck));
    SomeCellSnoc(v, ck, Filter(h[..i], InCell(v, ck)), h[i]);
  }

  lemma NothingGathered(v: View)
    ensures AxisAfter(v, [], [], map[]) && CellsAfter(v, [], [], map[])
  {
    forall k ensures SlotAt(v, [])(k) == None { assert Filter([], In(v, k)) == []; }
    forall k ensures CellAt(v, [])(k) == None { assert Filter([], InCell(v, k)) == []; }
  }

  lemma AxisStep(v: View, h: seq<Execution>, i: nat, keys: seq<string>, axis: map<string, Slot>)
    requires i < |h| && AxisAfter(v, h[..i], keys, axis)
    ensures var e, key := h[i], Key(v, h[i]);
      AxisAfter(v, h[..i + 1], if Usable(e) && key !in keys then keys + [key] else keys,
                if Usable(e) then axis[key := SlotWith(v, Get(axis, key), key, e)] else axis)
  {
    var e, key := h[i], Key(v, h[i]);
    KeysSnoc(h, i, KeyOf(v));
    forall k ensures !In(v, k)(e) ==> SlotAt(v, h[..i + 1])(k) == SlotAt(v, h[..i])(k) { SlotSnoc(v, h, i, k); }
    SlotSnoc(v, h, i, key);
    assert Get(axis, key) == SlotAt(v, h[..i])(key);
    StepHolds(axis, keys, SlotAt(v, h[..i]), SlotAt(v, h[..i + 1]), Usable(e), key,
              SlotWith(v, Get(axis, key), key, e));
  }

  lemma CellsStep(v: View, h: seq<Execution>, i: nat, keys: seq<CellKey>, cells: map<CellKey, Cell>)
    requires i < |h| && CellsAfter(v, h[..i], keys, cells)
    ensures var e, ck := h[i], (h[i].cluster, Key(v, h[i]));
      CellsAfter(v, h[..i + 1], if Usable(e) && ck !in keys then keys + [ck] else keys,
                 if Usable(e) then cells[ck := CellWith(v, Get(cells, ck), ck, e)] else cells)
  {
    var e, ck := h[i], (h[i].cluster, Key(v, h[i]));
    KeysSnoc(h, i, CellKeyOf(v));
    forall k ensures !InCell(v, k)(e) ==> CellAt(v, h[..i + 1])(k) == CellAt(v, h[..i])(k) { CellSnoc(v, h, i, k); }
    CellSnoc(v, h, i, ck);
    assert Get(cells, ck) == CellAt(v, h[..i])(ck);
    StepHolds(cells, keys, CellAt(v, h[..i]), CellAt(v, h[..i + 1]), Usable(e), ck, CellWith(v, Get(cells, ck), ck, e));
  }

  method GatherRows(v: View, h: seq<Execution>)
    returns (axisKeys: seq<string>, axis: map<string, Slot>, cellKeys: seq<CellKey>, cells: map<CellKey, Cell>)
    ensures AxisAfter(v, h, axisKeys, axis) && CellsAfter(v, h, cellKeys, cells)
  {
    axisKeys, axis, cellKeys, cells := [], map[], [], map[];
    NothingGathered(v);
    var i := 0;
    while i < |h|
      invariant 0 <= i <= |h|
      invariant AxisAfter(v, h[..i], axisKeys, axis) && CellsAfter(v, h[..i], cellKeys, cells)
    {
      var e := h[i];
      AxisStep(v, h, i, axisKeys, axis);
      CellsStep(v, h, i, cellKeys, cells);
      if !e.failed && e.elapsed.Some? {
        var key := Key(v, e);
        if key !in axis { axisKeys := axisKeys + [key]; }
        axis := axis[key := SlotWith(v, Get(axis, key), key, e)];
        var ck := (e.cluster, key);
        if ck !in cells { cellKeys := cellKeys + [ck]; }
        cells := cells[ck := CellWith(v, Get(cells, ck), ck, e)];
      }
      i := i + 1;
    }
    assert h[..|h|] == h;
  }

  /** The axis in order: `sorted(axis.values())`. */
  method OrderAxis(v: View, ghost h: seq<Execution>, keys: seq<string>, axis: map<string, Slot>)
    returns (ordered: seq<Slot>)
    requires AxisAfter(v, h, keys, axis)
    ensures ordered == Ordered(v, h)
  {
    forall i | 0 <= i < |keys| ensures keys[i] in axis && axis[keys[i]] == SlotIn(v, h)(keys[i]) {
      assert keys[i] in keys;
      assert Get(axis, keys[i]) == SlotAt(v, h)(keys[i]);
    }
    var slots := seq(|keys|, i requires 0 <= i < |keys| => axis[keys[i]]);
    assert slots == Map(keys, SlotIn(v, h));
    ordered := Sorted(slots, SlotLeq(v));
  }

  lemma CellHeld(v: View, h: seq<Execution>, keys: seq<CellKey>, cells: map<CellKey, Cell>, ck: CellKey)
    requires CellsAfter(v, h, keys, cells) && ck in keys
    ensures ck in cells && cells[ck] == CellIn(v, h)(ck)
  {
    assert Get(cells, ck) == CellAt(v, h)(ck);
  }

  /** `by_cluster[cluster]`. */
  method OwnCells(keys: seq<CellKey>, cells: map<CellKey, Cell>, cluster: string, ghost cellIn: CellKey -> Cell)
    returns (own: seq<Cell>)
    requires forall ck | ck in keys :: ck in cells && cells[ck] == cellIn(ck)
    ensures own == CellsOf(keys, cellIn)(cluster)
  {
    var mine := Filter(keys, Is(First, cluster));
    forall k | 0 <= k < |mine| ensures mine[k] in keys { InFilter(keys, Is(First, cluster), mine[k]); }
    own := seq(|mine|, k requires 0 <= k < |mine| => cells[mine[k]]);
  }

  /** `by_cluster`, in the order of the clusters. */
  method GroupCells(keys: seq<CellKey>, cells: map<CellKey, Cell>, clusters: seq<string>, ghost cellIn: CellKey -> Cell)
    returns (byCluster: seq<seq<Cell>>)
    requires forall ck | ck in keys :: ck in cells && cells[ck] == cellIn(ck)
    ensures |byCluster| == |clusters|
    ensures forall k | 0 <= k < |clusters| :: byCluster[k] == CellsOf(keys, cellIn)(clusters[k])
  {
    byCluster := [];
    var i := 0;
    while i < |clusters|
      invariant 0 <= i <= |clusters| && |byCluster| == i
      invariant forall k | 0 <= k < i :: byCluster[k] == CellsOf(keys, cellIn)(clusters[k])
    {
      var mine := OwnCells(keys, cells, clusters[i], cellIn);
      byCluster := byCluster + [mine];
      i := i + 1;
    }
  }

  /** The loop over clusters: one line and one row of totals each. */
  method DrawClusters(ordered: seq<Slot>, clusters: seq<string>, byCluster: seq<seq<Cell>>)
    returns (series: seq<Series>, totals: seq<Totals>)
    requires |byCluster| == |clusters|
    ensures |series| == |totals| == |clusters|
    ensures forall k | 0 <= k < |clusters| ::
      series[k] == Line(ordered, clusters[k], byCluster[k]) && totals[k] == Sums(clusters[k], byCluster[k])
  {
    series, totals := [], [];
    var i := 0;
    while i < |clusters|
      invariant 0 <= i <= |clusters| && |series| == |totals| == i
      invariant forall k | 0 <= k < i ::
        series[k] == Line(ordered, clusters[k], byCluster[k]) && totals[k] == Sums(clusters[k], byCluster[k])
    {
      series := series + [Line(ordered, clusters[i], byCluster[i])];
      totals := totals + [Sums(clusters[i], byCluster[i])];
      i := i + 1;
    }
  }

  lemma ChartFrom(ordered: seq<Slot>, clusters: seq<string>, own: string -> seq<Cell>, series: seq<Series>,
                  totals: seq<Totals>)
    requires |series| == |totals| == |clusters|
    requires forall k | 0 <= k < |clusters| ::
      series[k] == Line(ordered, clusters[k], own(clusters[k])) && totals[k] == Sums(clusters[k], own(clusters[k]))
    ensures Chart(Map(ordered, BucketOf), series, totals, Filter(series, LongEnough) != [])
        == ChartOf(ordered, clusters, own)
  {
    assert series == Map(clusters, SeriesOf(ordered, own));
    assert totals == Map(clusters, TotalsOf(own));
  }

  /** `build`. */
  method Build(h: seq<Execution>, v: View) returns (chart: Chart)
    ensures chart == Drawn(v, h)
  {
    var axisKeys, axis, cellKeys, cells := GatherRows(v, h);
    var ordered := OrderAxis(v, h, axisKeys, axis);
    var clusters := ClustersOf(cellKeys);
    forall ck | ck in cellKeys
      ensures ck in cells && cells[ck] == CellIn(v, h)(ck)
    {
      CellHeld(v, h, cellKeys, cells, ck);
    }
    var byCluster := GroupCells(cellKeys, cells, clusters, CellIn(v, h));
    var series, totals := DrawClusters(ordered, clusters, byCluster);
    ChartFrom(ordered, clusters, CellsOf(cellKeys, CellIn(v, h)), series, totals);
    return Chart(Map(ordered, BucketOf), series, totals, Filter(series, LongEnough) != []);
  }
}
