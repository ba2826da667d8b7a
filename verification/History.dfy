/** From the stored results of a query's runs to its chart. */
module History {
  import opened Bags
  import opened Order
  import opened RunStore
  import opened Stats
  import opened Wrappers
  import Compare
  import Trend
  import TrendProofs
  import TrendOrder

  type Execution = Trend.Execution

  /** `str(n)`. */
  function Decimal(n: nat): (s: string)
    ensures s != ""
  {
    var digit := [('0' as int + n % 10) as char];
    if n < 10 then digit else Decimal(n / 10) + digit
  }

  function Read(s: string): int {
    if s == "" then 0 else 10 * Read(s[..|s|-1]) + (s[|s|-1] as int - '0' as int)
  }

  lemma {:induction false} ReadDecimal(n: nat)
    ensures Read(Decimal(n)) == n
  {
    var digit := [('0' as int + n % 10) as char];
    if n < 10 {
      assert Decimal(n)[..0] == "";
    } else {
      ReadDecimal(n / 10);
      var front := Decimal(n / 10);
      assert (front + digit)[..|front|] == front && (front + digit)[|front|] == digit[0];
    }
  }

  lemma RunLabelsDiffer(a: nat, b: nat)
    requires "run:" + Decimal(a) == "run:" + Decimal(b)
    ensures a == b
  {
    assert ("run:" + Decimal(a))[4..] == Decimal(a) && ("run:" + Decimal(b))[4..] == Decimal(b);
    ReadDecimal(a);
    ReadDecimal(b);
  }

  // ------------------------------------------------- `history_for_query`

  datatype Past = Past(runId: nat, iteration: nat, execution: Execution)

  function PastOf(run: Run, startedAt: nat -> string): Row -> Past {
    (r: Row) => Past(run.id, r.iteration,
                     Trend.Execution(Decimal(run.id), run.cluster, r.failed, r.elapsedMs, startedAt(run.id)))
  }

  /** The executions of the query in the set's runs, run by run. */
  function Gathered(s: Store, querySet: string, name: string, startedAt: nat -> string, n: nat): seq<Past>
    requires n <= |s.runs|
  {
    if n == 0 then []
    else
      var run := s.runs[n - 1];
      Gathered(s, querySet, name, startedAt, n - 1)
      + if run.querySet == querySet
        then Map(Filter(ResultsOf(s, run.id), Compare.Of(name)), PastOf(run, startedAt)) else []
  }

  predicate NewestFirst(a: Past, b: Past) { a.runId > b.runId || (a.runId == b.runId && a.iteration >= b.iteration) }

  function Take<T>(s: seq<T>, limit: nat): seq<T> { if |s| <= limit then s else s[..limit] }

  function ExecutionOf(p: Past): Execution { p.execution }

  function HistoryOf(s: Store, querySet: string, name: string, limit: nat, startedAt: nat -> string): seq<Execution> {
    Map(Take(Sorted(Gathered(s, querySet, name, startedAt, |s.runs|), NewestFirst), limit), ExecutionOf)
  }

  /** `history_for_query`: newest first, at most `limit`. */
  method HistoryForQuery(s: Store, querySet: string, name: string, limit: nat, startedAt: nat -> string)
    returns (rows: seq<Execution>)
    ensures rows == HistoryOf(s, querySet, name, limit, startedAt)
    ensures |rows| <= limit
  {
    var pasts: seq<Past> := [];
    var i := 0;
    while i < |s.runs|
      invariant 0 <= i <= |s.runs|
      invariant pasts == Gathered(s, querySet, name, startedAt, i)
    {
      var run := s.runs[i];
      if run.querySet == querySet {
        var results := ResultsOf(s, run.id);
        ghost var before := pasts;
        var k := 0;
        while k < |results|
          invariant 0 <= k <= |results|
          invariant pasts == before + Map(Filter(results[..k], Compare.Of(name)), PastOf(run, startedAt))
        {
          FilterSnoc(results, k, Compare.Of(name));
          if results[k].query == name {
            MapSnoc(Filter(results[..k], Compare.Of(name)), results[k], PastOf(run, startedAt));
            pasts := pasts + [PastOf(run, startedAt)(results[k])];
          }
          k := k + 1;
        }
        assert results[..|results|] == results;
      }
      i := i + 1;
    }
    rows := Map(Take(Sorted(pasts, NewestFirst), limit), ExecutionOf);
  }

  // ------------------------------------------------ one run in the history

  lemma {:induction false} FilterMap<T, U>(s: seq<T>, f: T -> U, p: U -> bool, q: T -> bool)
    requires forall x | x in s :: q(x) <==> p(f(x))
    ensures Filter(Map(s, f), p) == Map(Filter(s, q), f)
  {
    if s != [] {
      var front, last := s[..|s|-1], s[|s|-1];
      MapFront(s, f);
      FilterMap(front, f, p, q);
    }
  }

  /** The executions that are timed: finished, not failed, measured. */
  function TimedOf(name: string): Row -> bool { (r: Row) => r.query == name && !r.failed && r.elapsedMs.Some? }

  function Nothing(r: Row): bool { false }

  function ExecutionIn(run: Run, startedAt: nat -> string): Row -> Execution {
    (r: Row) => PastOf(run, startedAt)(r).execution
  }

  function View(moment: string -> Option<Trend.Moment>): Trend.View { Trend.View(Trend.ByRun, moment) }

  function CellOf(run: Run): Trend.CellKey { (run.cluster, "run:" + Decimal(run.id)) }

  lemma {:induction false} FilterNone<T>(s: seq<T>, p: T -> bool)
    requires forall x | x in s :: !p(x)
    ensures Filter(s, p) == []
  {
    if s != [] { FilterNone(s[..|s|-1], p); }
  }

  /** What one run adds to a run's cell: its own timed executions, or nothing. */
  lemma OneRunsRows(s: Store, name: string, startedAt: nat -> string, v: Trend.View, j: nat, k: nat)
    requires StoreValid(s) && j < |s.runs| && k < |s.runs| && v.bucketing == Trend.ByRun
    ensures var rows := Map(Map(Filter(ResultsOf(s, s.runs[j].id), Compare.Of(name)), PastOf(s.runs[j], startedAt)),
                            ExecutionOf);
      Filter(rows, Trend.InCell(v, CellOf(s.runs[k]))) ==
        if j == k then Map(Filter(ResultsOf(s, s.runs[k].id), TimedOf(name)), ExecutionIn(s.runs[k], startedAt)) else []
  {
    var run, cell := s.runs[j], Trend.InCell(v, CellOf(s.runs[k]));
    var results := Filter(ResultsOf(s, run.id), Compare.Of(name));
    var f := ExecutionIn(run, startedAt);
    assert Map(Map(results, PastOf(run, startedAt)), ExecutionOf) == Map(results, f);
    if j == k {
      FilterMap(results, f, cell, TimedOf(name));
      FilterFilter(ResultsOf(s, run.id), Compare.Of(name), TimedOf(name), TimedOf(name));
    } else {
      forall r | r in results ensures !cell(f(r)) {
        if cell(f(r)) { RunLabelsDiffer(run.id, s.runs[k].id); }
      }
      FilterMap(results, f, cell, Nothing);
      FilterNone(results, Nothing);
    }
  }

  /** The executions one run adds to the history. */
  function Added(s: Store, querySet: string, name: string, startedAt: nat -> string, j: nat): seq<Past>
    requires j < |s.runs|
  {
    var run := s.runs[j];
    if run.querySet == querySet then Map(Filter(ResultsOf(s, run.id), Compare.Of(name)), PastOf(run, startedAt)) else []
  }

  lemma AddedRows(s: Store, querySet: string, name: string, startedAt: nat -> string, v: Trend.View, j: nat, k: nat)
    requires StoreValid(s) && j < |s.runs| && k < |s.runs| && v.bucketing == Trend.ByRun
    requires s.runs[k].querySet == querySet
    ensures Filter(Map(Added(s, querySet, name, startedAt, j), ExecutionOf), Trend.InCell(v, CellOf(s.runs[k]))) ==
      if j == k then Map(Filter(ResultsOf(s, s.runs[k].id), TimedOf(name)), ExecutionIn(s.runs[k], startedAt)) else []
  {
    OneRunsRows(s, name, startedAt, v, j, k);
  }

  lemma FilterMapJoin<T, U>(a: seq<T>, b: seq<T>, f: T -> U, p: U -> bool)
    ensures Filter(Map(a + b, f), p) == Filter(Map(a, f), p) + Filter(Map(b, f), p)
  {
    MapJoin(a, b, f);
    FilterJoin(Map(a, f), Map(b, f), p);
  }

  /** Run `k`'s cell of what the first `n` runs add to the history. */
  function CellUpTo(s: Store, querySet: string, name: string, startedAt: nat -> string, v: Trend.View, k: nat, n: nat)
    : seq<Execution>
    requires k < |s.runs| && n <= |s.runs|
  {
    Filter(Map(Gathered(s, querySet, name, startedAt, n), ExecutionOf), Trend.InCell(v, CellOf(s.runs[k])))
  }

  /** The same of what run `j` adds. */
  function CellFrom(s: Store, querySet: string, name: string, startedAt: nat -> string, v: Trend.View, k: nat, j: nat)
    : seq<Execution>
    requires k < |s.runs| && j < |s.runs|
  {
    Filter(Map(Added(s, querySet, name, startedAt, j), ExecutionOf), Trend.InCell(v, CellOf(s.runs[k])))
  }

  lemma GatheredGrows(s: Store, querySet: string, name: string, startedAt: nat -> string, m: nat)
    requires m < |s.runs|
    ensures Gathered(s, querySet, name, startedAt, m + 1)
         == Gathered(s, querySet, name, startedAt, m) + Added(s, querySet, name, startedAt, m)
  {
  }

  lemma CellGrows(s: Store, querySet: string, name: string, startedAt: nat -> string, v: Trend.View, k: nat, m: nat)
    requires k < |s.runs| && m < |s.runs|
    ensures CellUpTo(s, querySet, name, startedAt, v, k, m + 1)
         == CellUpTo(s, querySet, name, startedAt, v, k, m) + CellFrom(s, querySet, name, startedAt, v, k, m)
  {
    var before, more := Gathered(s, querySet, name, startedAt, m), Added(s, querySet, name, startedAt, m);
    GatheredGrows(s, querySet, name, startedAt, m);
    FilterMapJoin(before, more, ExecutionOf, Trend.InCell(v, CellOf(s.runs[k])));
  }

  function TimedRows(s: Store, name: string, startedAt: nat -> string, k: nat): seq<Execution>
    requires k < |s.runs|
  {
    Map(Filter(ResultsOf(s, s.runs[k].id), TimedOf(name)), ExecutionIn(s.runs[k], startedAt))
  }

  lemma CellFromIs(s: Store, querySet: string, name: string, startedAt: nat -> string, v: Trend.View, k: nat, m: nat)
    requires StoreValid(s) && k < |s.runs| && m < |s.runs| && v.bucketing == Trend.ByRun
    requires s.runs[k].querySet == querySet
    ensures CellFrom(s, querySet, name, startedAt, v, k, m) == if m == k then TimedRows(s, name, startedAt, k) else []
  {
    AddedRows(s, querySet, name, startedAt, v, m, k);
  }

  lemma NothingGathered(s: Store, querySet: string, name: string, startedAt: nat -> string, v: Trend.View, k: nat)
    requires k < |s.runs|
    ensures CellUpTo(s, querySet, name, startedAt, v, k, 0) == []
  {
    assert Map(Gathered(s, querySet, name, startedAt, 0), ExecutionOf) == [];
  }

  lemma OneMoreRun(s: Store, querySet: string, name: string, startedAt: nat -> string, v: Trend.View, k: nat, m: nat)
    requires StoreValid(s) && k < |s.runs| && m < |s.runs| && v.bucketing == Trend.ByRun
    requires s.runs[k].querySet == querySet
    requires CellUpTo(s, querySet, name, startedAt, v, k, m) == if k < m then TimedRows(s, name, startedAt, k) else []
    ensures CellUpTo(s, querySet, name, startedAt, v, k, m + 1)
         == if k < m + 1 then TimedRows(s, name, startedAt, k) else []
  {
    CellGrows(s, querySet, name, startedAt, v, k, m);
    CellFromIs(s, querySet, name, startedAt, v, k, m);
    Appended(CellUpTo(s, querySet, name, startedAt, v, k, m), CellFrom(s, querySet, name, startedAt, v, k, m));
  }

  lemma Appended<T>(a: seq<T>, b: seq<T>)
    ensures a == [] ==> a + b == b
    ensures b == [] ==> a + b == a
  {
  }

  lemma {:induction false} RunsRows(s: Store, querySet: string, name: string, startedAt: nat -> string, v: Trend.View,
                                    k: nat, n: nat)
    requires StoreValid(s) && k < |s.runs| && n <= |s.runs| && v.bucketing == Trend.ByRun
    requires s.runs[k].querySet == querySet
    ensures CellUpTo(s, querySet, name, startedAt, v, k, n) == if k < n then TimedRows(s, name, startedAt, k) else []
  {
    if n == 0 {
      NothingGathered(s, querySet, name, startedAt, v, k);
    } else {
      RunsRows(s, querySet, name, startedAt, v, k, n - 1);
      OneMoreRun(s, querySet, name, startedAt, v, k, n - 1);
    }
  }

  lemma NewestFirstIsPreorder()
    ensures TotalPreorder(NewestFirst)
  {
  }

  /** As long as the limit cuts nothing off, a run's cell of the history holds that run's timed executions. */
  lemma RunsCell(s: Store, querySet: string, name: string, limit: nat, startedAt: nat -> string, v: Trend.View, k: nat)
    requires StoreValid(s) && k < |s.runs| && v.bucketing == Trend.ByRun && s.runs[k].querySet == querySet
    requires |Gathered(s, querySet, name, startedAt, |s.runs|)| <= limit
    ensures SameBag(Filter(HistoryOf(s, querySet, name, limit, startedAt), Trend.InCell(v, CellOf(s.runs[k]))),
                    Map(Filter(ResultsOf(s, s.runs[k].id), TimedOf(name)), ExecutionIn(s.runs[k], startedAt)))
  {
    var all := Gathered(s, querySet, name, startedAt, |s.runs|);
    NewestFirstIsPreorder();
    SortedSorts(all, NewestFirst);
    SameSize(all, Sorted(all, NewestFirst));
    MapSame(Sorted(all, NewestFirst), all, ExecutionOf);
    FilterSame(HistoryOf(s, querySet, name, limit, startedAt), Map(all, ExecutionOf),
               Trend.InCell(v, CellOf(s.runs[k])));
    RunsRows(s, querySet, name, startedAt, v, k, |s.runs|);
  }

  // ---------------------------------------------- chart point and run page

  function IsMeasured(r: Row): bool { r.elapsedMs.Some? }

  lemma PresentOfMap(rows: seq<Row>)
    ensures Present(Map(rows, Compare.Elapsed)) == Map(Map(Filter(rows, IsMeasured), Compare.Elapsed), Value)
  {
    FilterMap(rows, Compare.Elapsed, (t: Option<real>) => t.Some?, IsMeasured);
  }

  /** The run page's median is that of the timed executions. */
  lemma PageMedian(results: seq<Row>, name: string)
    ensures Median(Compare.EntryOf(results, name).elapsed)
        == Median(Map(Filter(results, TimedOf(name)), Compare.Elapsed))
    ensures Median(Compare.EntryOf(results, name).elapsed).Some? <==> Filter(results, TimedOf(name)) != []
  {
    var done, timed := Filter(results, Compare.DoneOf(name)), Filter(results, TimedOf(name));
    PresentOfMap(done);
    PresentOfMap(timed);
    FilterFilter(results, Compare.DoneOf(name), IsMeasured, TimedOf(name));
    FilterFilter(results, TimedOf(name), IsMeasured, TimedOf(name));
    SamePresentSameMedian(Map(done, Compare.Elapsed), Map(timed, Compare.Elapsed));
    MedianIsTheMiddle(Map(timed, Compare.Elapsed));
  }

  lemma SamePresentSameMedian(a: seq<Option<real>>, b: seq<Option<real>>)
    requires Present(a) == Present(b)
    ensures Median(a) == Median(b)
  {
  }

  lemma CellMedian(rows: seq<Execution>, timed: seq<Row>, f: Row -> Execution)
    requires SameBag(rows, Map(timed, f)) && forall r :: f(r).elapsed == r.elapsedMs
    ensures Summarise(Map(rows, Trend.Elapsed)).median == Median(Map(timed, Compare.Elapsed))
    ensures rows != [] <==> timed != []
  {
    var own := Map(timed, f);
    SameSize(rows, own);
    MapSame(rows, own, Trend.Elapsed);
    assert Map(own, Trend.Elapsed) == Map(timed, Compare.Elapsed);
    StatsForgetOrder(Map(rows, Trend.Elapsed), Map(timed, Compare.Elapsed));
    MediansAgree(Map(rows, Trend.Elapsed));
  }

  /** The cell has a point exactly when there is a median, and every point of the cell is that median. */
  ghost predicate Shows(chart: Trend.Chart, ck: Trend.CellKey, median: Option<real>) {
    && (median.Some? <==> HasPoint(chart, ck))
    && forall i: nat, m: nat | IsPoint(chart, ck, i, m) :: chart.series[i].points[m].median == median
  }

  /** On an untruncated history drawn by run, a run has a point on its cluster's line exactly when the
      run page has a median for it, and the point is that median, which is also the one comparisons use. */
  lemma ChartPointIsTheRunPagesMedian(s: Store, querySet: string, name: string, limit: nat, startedAt: nat -> string,
                                      moment: string -> Option<Trend.Moment>, k: nat)
    requires StoreValid(s) && k < |s.runs| && s.runs[k].querySet == querySet
    requires |Gathered(s, querySet, name, startedAt, |s.runs|)| <= limit
    ensures Shows(Trend.Drawn(View(moment), HistoryOf(s, querySet, name, limit, startedAt)), CellOf(s.runs[k]),
                  Median(Compare.EntryOf(ResultsOf(s, s.runs[k].id), name).elapsed))
  {
    var v, h, ck := View(moment), HistoryOf(s, querySet, name, limit, startedAt), CellOf(s.runs[k]);
    var results := ResultsOf(s, s.runs[k].id);
    RunsCell(s, querySet, name, limit, startedAt, v, k);
    var f := ExecutionIn(s.runs[k], startedAt);
    forall r ensures f(r).elapsed == r.elapsedMs { assert f(r) == PastOf(s.runs[k], startedAt)(r).execution; }
    CellMedian(Filter(h, Trend.InCell(v, ck)), Filter(results, TimedOf(name)), f);
    PageMedian(results, name);
    PointsOfCell(v, h, ck);
  }

  ghost predicate IsPoint(chart: Trend.Chart, ck: Trend.CellKey, i: nat, m: nat) {
    i < |chart.series| && m < |chart.series[i].points|
    && chart.series[i].cluster == ck.0 && chart.series[i].points[m].bucket == ck.1
  }

  ghost predicate HasPoint(chart: Trend.Chart, ck: Trend.CellKey) { exists i: nat, m: nat :: IsPoint(chart, ck, i, m) }

  /** A cell has a point exactly when it has rows, and the point is their median. */
  lemma PointsOfCell(v: Trend.View, h: seq<Execution>, ck: Trend.CellKey)
    ensures var chart, rows := Trend.Drawn(v, h), Filter(h, Trend.InCell(v, ck));
      && (HasPoint(chart, ck) <==> rows != [])
      && forall i: nat, m: nat | IsPoint(chart, ck, i, m) ::
        chart.series[i].points[m].median == Summarise(Map(rows, Trend.Elapsed)).median
  {
    var chart, rows := Trend.Drawn(v, h), Filter(h, Trend.InCell(v, ck));
    if rows != [] {
      var i, m := TrendOrder.PointShown(v, h, ck);
      assert IsPoint(chart, ck, i, m);
    }
    forall i: nat, m: nat | IsPoint(chart, ck, i, m)
      ensures rows != [] && chart.series[i].points[m].median == Summarise(Map(rows, Trend.Elapsed)).median
    {
      PointIsOfCell(v, h, ck, i, m);
    }
  }

  lemma PointIsOfCell(v: Trend.View, h: seq<Execution>, ck: Trend.CellKey, i: nat, m: nat)
    requires IsPoint(Trend.Drawn(v, h), ck, i, m)
    ensures var rows := Filter(h, Trend.InCell(v, ck));
      rows != [] && Trend.Drawn(v, h).series[i].points[m].median == Summarise(Map(rows, Trend.Elapsed)).median
  {
    TrendProofs.LinesOf(v, h, i);
    var drawing := TrendProofs.Drawing(v, h, ck.0);
    var own := drawing[m];
    assert Map(drawing, TrendProofs.PointIn(v, h))[m] == TrendProofs.PointIn(v, h)(own);
    TrendProofs.OnTheAxis(v, h, ck.0, own);
    TrendProofs.PointAt(v, h, own);
    TrendProofs.InDrawing(v, h, ck.0, own);
    TrendProofs.KeysOfRows(v, h, own);
    var e :| e in h && Trend.InCell(v, own)(e);
    InFilter(h, Trend.InCell(v, own), e);
  }

  // ------------------------------------------ the order of a stored history

  /** A row of a history carries its run's label and start time. */
  ghost predicate Dated(p: Past, startedAt: nat -> string) {
    p.execution.run == Decimal(p.runId) && p.execution.at == startedAt(p.runId)
  }

  lemma {:induction false} GatheredAreDated(s: Store, querySet: string, name: string, startedAt: nat -> string, n: nat)
    requires n <= |s.runs|
    ensures forall p | p in Gathered(s, querySet, name, startedAt, n) :: Dated(p, startedAt)
  {
    if n > 0 { GatheredAreDated(s, querySet, name, startedAt, n - 1); }
  }

  lemma RowIsDated(s: Store, querySet: string, name: string, limit: nat, startedAt: nat -> string, e: Execution)
    returns (id: nat)
    requires e in HistoryOf(s, querySet, name, limit, startedAt)
    ensures e.run == Decimal(id) && e.at == startedAt(id)
  {
    var all := Gathered(s, querySet, name, startedAt, |s.runs|);
    var taken := Take(Sorted(all, NewestFirst), limit);
    GatheredAreDated(s, querySet, name, startedAt, |s.runs|);
    NewestFirstIsPreorder();
    SortedSameElements(all, NewestFirst);
    var k :| 0 <= k < |taken| && ExecutionOf(taken[k]) == e;
    assert taken[k] == Sorted(all, NewestFirst)[k] && taken[k] in Sorted(all, NewestFirst);
    assert taken[k] in all;
    assert Dated(taken[k], startedAt);
    assert ExecutionOf(taken[k]) == e;
    assert ExecutionOf(taken[k]) == taken[k].execution;
    id := taken[k].runId;
  }

  /** As long as one moment is stored one way, the chart of what `history_for_query` returns is the same in
      whatever order the rows arrive, and however the axis is grouped. */
  lemma StoredChartForgetsOrder(s: Store, querySet: string, name: string, limit: nat, startedAt: nat -> string,
                                v: Trend.View, b: seq<Execution>)
    requires forall i: nat, j: nat | TrendOrder.SameInstant(v, startedAt(i), startedAt(j)) ::
      startedAt(i) == startedAt(j)
    requires SameBag(HistoryOf(s, querySet, name, limit, startedAt), b)
    ensures Trend.Drawn(v, b) == Trend.Drawn(v, HistoryOf(s, querySet, name, limit, startedAt))
  {
    var h := HistoryOf(s, querySet, name, limit, startedAt);
    forall x, y | x in h && y in h
      ensures x.run == y.run ==> x.at == y.at
      ensures TrendOrder.SameInstant(v, x.at, y.at) ==> x.at == y.at
    {
      var i := RowIsDated(s, querySet, name, limit, startedAt, x);
      var j := RowIsDated(s, querySet, name, limit, startedAt, y);
      ReadDecimal(i);
      ReadDecimal(j);
    }
    TrendOrder.StoredHistoriesForgetOrder(v, h, b);
  }
}
