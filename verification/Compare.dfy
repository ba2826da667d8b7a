/** Folding one run per query, and two runs side by side. */
module Compare {
  import opened Bags
  import opened Order
  import opened QuerySets
  import opened RunStore
  import opened Stats
  import opened Wrappers

  /** What has been gathered about one query of a run. */
  datatype Entry = Entry(
    runs: nat, failures: nat, elapsed: seq<Option<real>>, cpu: seq<Option<real>>, rows: seq<Option<real>>)

  /** One query of a run with its repetitions folded in. */
  datatype Folded = Folded(
    runs: nat, failures: nat, medianMs: Option<real>, fastestMs: Option<real>, medianCpuMs: Option<real>,
    rows: Option<real>, rowsVaried: bool, rowsRange: Option<(real, real)>)

  // ------------------------------------------------------ folding one run

  function Of(name: string): Row -> bool { (r: Row) => r.query == name }
  function FailedOf(name: string): Row -> bool { (r: Row) => r.query == name && r.failed }
  function DoneOf(name: string): Row -> bool { (r: Row) => r.query == name && !r.failed }

  function Elapsed(r: Row): Option<real> { r.elapsedMs }
  function Cpu(r: Row): Option<real> { r.cpuMs }
  function RowsRead(r: Row): Option<real> { r.rowsRead }
  function Measured(v: Option<real>): bool { v.Some? }

  /** The whole list said at once: failures are counted and left out of every measurement. */
  function EntryOf(results: seq<Row>, name: string): Entry {
    var done := Filter(results, DoneOf(name));
    Entry(|Filter(results, Of(name))|, |Filter(results, FailedOf(name))|,
          Map(done, Elapsed), Filter(Map(done, Cpu), Measured), Map(done, RowsRead))
  }

  function Fold(e: Entry): Folded {
    var counted := Summarise(e.rows);
    var varied := counted.count > 0 && counted.min != counted.max;
    Folded(e.runs, e.failures, Median(e.elapsed), Summarise(e.elapsed).min, Median(e.cpu), Median(e.rows), varied,
           if varied && counted.min.Some? && counted.max.Some?
           then Some((counted.min.value, counted.max.value)) else None)
  }

  predicate Ran(results: seq<Row>, name: string) { exists k | 0 <= k < |results| :: results[k].query == name }

  function FoldedOf(results: seq<Row>, name: string): Option<Folded> {
    if Ran(results, name) then Some(Fold(EntryOf(results, name))) else None
  }

  /** What `FoldedOf` says of every name. */
  function FoldedIn(results: seq<Row>): string -> Option<Folded> { (name: string) => FoldedOf(results, name) }

  /** The map holds what is said, and no more. */
  ghost predicate Holds<T>(m: map<string, T>, said: string -> Option<T>) { forall name :: Get(m, name) == said(name) }

  function Get<T>(m: map<string, T>, name: string): Option<T> { if name in m then Some(m[name]) else None }

  const NOTHING := Entry(0, 0, [], [], [])

  function Gathered(e: Entry, r: Row): Entry {
    if r.failed then e.(runs := e.runs + 1, failures := e.failures + 1)
    else Entry(e.runs + 1, e.failures, e.elapsed + [r.elapsedMs],
               if r.cpuMs.Some? then e.cpu + [r.cpuMs] else e.cpu, e.rows + [r.rowsRead])
  }

  /** What a query's finished executions give, when one more finishes. */
  lemma DoneGrows(done: seq<Row>, r: Row)
    ensures Map(done + [r], Elapsed) == Map(done, Elapsed) + [r.elapsedMs]
    ensures Filter(Map(done + [r], Cpu), Measured)
         == Filter(Map(done, Cpu), Measured) + if r.cpuMs.Some? then [r.cpuMs] else []
    ensures Map(done + [r], RowsRead) == Map(done, RowsRead) + [r.rowsRead]
  {
    MapSnoc(done, r, Elapsed);
    FilterMapSnoc(done, r, Cpu, Measured);
    MapSnoc(done, r, RowsRead);
  }

  lemma OtherQuerySnoc(results: seq<Row>, i: nat, name: string)
    requires i < |results| && results[i].query != name
    ensures EntryOf(results[..i + 1], name) == EntryOf(results[..i], name)
  {
    FilterOneMore(results, i, Of(name));
    FilterOneMore(results, i, FailedOf(name));
    FilterOneMore(results, i, DoneOf(name));
  }

  lemma ThisQuerySnoc(results: seq<Row>, i: nat, name: string)
    requires i < |results| && results[i].query == name
    ensures EntryOf(results[..i + 1], name) == Gathered(EntryOf(results[..i], name), results[i])
  {
    FilterOneMore(results, i, Of(name));
    FilterOneMore(results, i, FailedOf(name));
    FilterOneMore(results, i, DoneOf(name));
    DoneGrows(Filter(results[..i], DoneOf(name)), results[i]);
  }

  lemma EntrySnoc(results: seq<Row>, i: nat, name: string)
    requires i < |results|
    ensures EntryOf(results[..i + 1], name) ==
      if results[i].query == name then Gathered(EntryOf(results[..i], name), results[i])
      else EntryOf(results[..i], name)
  {
    if results[i].query == name {
      ThisQuerySnoc(results, i, name);
    } else {
      OtherQuerySnoc(results, i, name);
    }
  }

  ghost function EntryIn(results: seq<Row>): string -> Option<Entry> {
    (name: string) => if Ran(results, name) then Some(EntryOf(results, name)) else None
  }

  ghost predicate GroupedAs(grouped: map<string, Entry>, results: seq<Row>) { Holds(grouped, EntryIn(results)) }

  lemma GroupSnoc(grouped: map<string, Entry>, results: seq<Row>, i: nat)
    requires i < |results| && GroupedAs(grouped, results[..i])
    ensures var r := results[i];
      var entry := if r.query in grouped then grouped[r.query] else NOTHING;
      GroupedAs(grouped[r.query := Gathered(entry, r)], results[..i + 1])
  {
    var r := results[i];
    var entry := if r.query in grouped then grouped[r.query] else NOTHING;
    assert Get(grouped, r.query) == EntryIn(results[..i])(r.query);
    if r.query !in grouped { NotRanIsNothing(results[..i], r.query); }
    assert entry == EntryOf(results[..i], r.query);
    var after := grouped[r.query := Gathered(entry, r)];
    forall name ensures Get(after, name) == EntryIn(results[..i + 1])(name) {
      assert Get(grouped, name) == EntryIn(results[..i])(name);
      RanSnoc(results, i, name);
      EntrySnoc(results, i, name);
    }
  }

  /** One execution added to its query's entry. */
  method Gather(e: Entry, r: Row) returns (entry: Entry)
    ensures entry == Gathered(e, r)
  {
    entry := e.(runs := e.runs + 1);
    if r.failed {
      return entry.(failures := entry.failures + 1);
    }
    entry := entry.(elapsed := entry.elapsed + [r.elapsedMs]);
    if r.cpuMs.Some? {
      entry := entry.(cpu := entry.cpu + [r.cpuMs]);
    }
    entry := entry.(rows := entry.rows + [r.rowsRead]);
  }

  lemma FoldAll(grouped: map<string, Entry>, results: seq<Row>)
    requires GroupedAs(grouped, results)
    ensures Holds(map name | name in grouped :: Fold(grouped[name]), FoldedIn(results))
  {
    var folded := map name | name in grouped :: Fold(grouped[name]);
    forall name ensures Get(folded, name) == FoldedIn(results)(name) {
      assert Get(grouped, name) == EntryIn(results)(name);
    }
  }

  /** `summarise_run`: one entry per query that ran, folded from its executions alone. */
  method SummariseRun(results: seq<Row>) returns (folded: map<string, Folded>)
    ensures Holds(folded, FoldedIn(results))
  {
    var grouped: map<string, Entry> := map[];
    var i := 0;
    while i < |results|
      invariant 0 <= i <= |results|
      invariant GroupedAs(grouped, results[..i])
    {
      var r := results[i];
      GroupSnoc(grouped, results, i);
      var entry := Gather(if r.query in grouped then grouped[r.query] else NOTHING, r);
      grouped := grouped[r.query := entry];
      i := i + 1;
    }
    assert results[..|results|] == results;
    FoldAll(grouped, results);
    folded := map name | name in grouped :: Fold(grouped[name]);
  }

  lemma RanSnoc(results: seq<Row>, i: nat, name: string)
    requires i < |results|
    ensures Ran(results[..i + 1], name) <==> Ran(results[..i], name) || results[i].query == name
  {
    if Ran(results[..i], name) {
      var k :| 0 <= k < i && results[..i][k].query == name;
      assert results[..i + 1][k].query == name;
    }
    if results[i].query == name { assert results[..i + 1][i].query == name; }
  }

  lemma NoneKept(results: seq<Row>, p: Row -> bool)
    requires forall k | 0 <= k < |results| :: !p(results[k])
    ensures Filter(results, p) == []
  {
  }

  lemma NotRanIsNothing(results: seq<Row>, name: string)
    requires !Ran(results, name)
    ensures EntryOf(results, name) == NOTHING
  {
    NoneKept(results, Of(name));
    NoneKept(results, FailedOf(name));
    NoneKept(results, DoneOf(name));
  }

  /** What is said of a query does not depend on the order its executions came in. */
  lemma FoldingForgetsOrder(a: seq<Row>, b: seq<Row>, name: string)
    requires SameBag(a, b)
    ensures FoldedOf(a, name) == FoldedOf(b, name)
  {
    FilterSame(a, b, Of(name));
    FilterSame(a, b, FailedOf(name));
    FilterSame(a, b, DoneOf(name));
    SameSize(a, b);
    SameSize(Filter(a, Of(name)), Filter(b, Of(name)));
    SameSize(Filter(a, FailedOf(name)), Filter(b, FailedOf(name)));
    var da, db := Filter(a, DoneOf(name)), Filter(b, DoneOf(name));
    MapSame(da, db, Elapsed);
    MapSame(da, db, Cpu);
    MapSame(da, db, RowsRead);
    FilterSame(Map(da, Cpu), Map(db, Cpu), Measured);
    StatsForgetOrder(Map(da, Elapsed), Map(db, Elapsed));
    StatsForgetOrder(Filter(Map(da, Cpu), Measured), Filter(Map(db, Cpu), Measured));
    StatsForgetOrder(Map(da, RowsRead), Map(db, RowsRead));
    assert Ran(a, name) <==> Ran(b, name) by {
      if Ran(a, name) { var k :| 0 <= k < |a| && a[k].query == name; assert a[k] in b; }
      if Ran(b, name) { var k :| 0 <= k < |b| && b[k].query == name; assert b[k] in a; }
    }
  }

  // -------------------------------------------------------- one line

  datatype Verdict = Faster | Slower | Same | OnlyBaseline | OnlyCandidate

  datatype Line = Line(
    name: string, baseline: Option<Folded>, candidate: Option<Folded>,
    deltaMs: Option<real>, deltaPercent: Option<real>, verdict: Verdict, statementChanged: bool)

  const NOISE_PERCENT := 5.0

  function Abs(x: real): real { if x < 0.0 then -x else x }

  function PercentOf(a: real, b: real): Option<real> { if a != 0.0 then Some((b - a) / a * 100.0) else None }

  function Timed(a: real, b: real): Verdict {
    var percent := PercentOf(a, b);
    if percent.None? || Abs(percent.value) < NOISE_PERCENT then Same
    else if b - a > 0.0 then Slower else Faster
  }

  function Judged(a: Option<Folded>, b: Option<Folded>): Verdict {
    if a.None? then OnlyCandidate
    else if b.None? then OnlyBaseline
    else if a.value.medianMs.None? || b.value.medianMs.None?
    then if b.value.medianMs.None? then OnlyBaseline else OnlyCandidate
    else Timed(a.value.medianMs.value, b.value.medianMs.value)
  }

  predicate BothTimed(a: Option<Folded>, b: Option<Folded>) {
    a.Some? && b.Some? && a.value.medianMs.Some? && b.value.medianMs.Some?
  }

  function LineOf(name: string, a: Option<Folded>, b: Option<Folded>, changed: bool): Line {
    if BothTimed(a, b) then
      var x, y := a.value.medianMs.value, b.value.medianMs.value;
      Line(name, a, b, Some(y - x), PercentOf(x, y), Timed(x, y), changed)
    else Line(name, a, b, None, None, Judged(a, b), changed)
  }

  lemma Ratio(a: real, b: real) returns (q: real)
    requires a > 0.0
    ensures PercentOf(a, b) == Some(q * 100.0)
    ensures 0.05 <= q <==> 0.05 * a <= b - a
    ensures q <= -0.05 <==> b - a <= -0.05 * a
  {
    q := (b - a) / a;
    assert q * a == b - a;
    Scaled(0.05, q, a);
    Scaled(q, -0.05, a);
  }

  /** Within noise, slower and faster, without the division. */
  lemma TimedByRatio(a: real, b: real)
    requires a > 0.0
    ensures Timed(a, b) == Slower <==> 20.0 * b >= 21.0 * a
    ensures Timed(a, b) == Faster <==> 20.0 * b <= 19.0 * a
    ensures Timed(a, b) in {Slower, Faster, Same}
  {
    var q := Ratio(a, b);
    assert Abs(q * 100.0) < NOISE_PERCENT <==> -0.05 < q < 0.05;
  }

  lemma Scaled(x: real, y: real, a: real)
    requires a > 0.0
    ensures x <= y <==> x * a <= y * a
  {
    if x <= y { assert (y - x) * a >= 0.0; } else { assert (x - y) * a > 0.0; }
  }

  /** The same comparison seen from the other side. */
  function Mirrored(v: Verdict): Verdict {
    match v
    case Faster => Slower
    case Slower => Faster
    case Same => Same
    case OnlyBaseline => OnlyCandidate
    case OnlyCandidate => OnlyBaseline
  }

  /** The larger of two times is 5 % or more above the smaller, yet the smaller is less than 5 % below
      the larger; or one of them is zero and the other is not. */
  predicate Lopsided(x: real, y: real) {
    var lo, hi := if x <= y then x else y, if x <= y then y else x;
    if lo == 0.0 then hi > 0.0 else 20.0 * hi >= 21.0 * lo && 19.0 * hi < 20.0 * lo
  }

  lemma MirroredTimes(x: real, y: real)
    requires x >= 0.0 && y >= 0.0
    ensures Timed(y, x) == Mirrored(Timed(x, y)) <==> !Lopsided(x, y)
    ensures Timed(x, y) == Faster ==> Timed(y, x) == if y == 0.0 then Same else Slower
    ensures Timed(x, y) == Slower ==> Timed(y, x) == if 19.0 * y >= 20.0 * x then Faster else Same
  {
    if x > 0.0 { TimedByRatio(x, y); }
    if y > 0.0 { TimedByRatio(y, x); }
  }

  /** Swapping the sides turns the verdict round exactly when the two times are not lopsided, or, for a
      query that one side did not time, when the other side timed it or did not run it. */
  lemma SwappingSides(a: Option<Folded>, b: Option<Folded>)
    requires a.Some? || b.Some?
    requires BothTimed(a, b) ==> a.value.medianMs.value >= 0.0 && b.value.medianMs.value >= 0.0
    ensures Judged(b, a) == Mirrored(Judged(a, b)) <==>
      if BothTimed(a, b) then !Lopsided(a.value.medianMs.value, b.value.medianMs.value)
      else !(a.Some? && b.Some? && a.value.medianMs.None? && b.value.medianMs.None?)
    ensures Judged(a, b) == Faster ==> Judged(b, a) == if b.value.medianMs.value == 0.0 then Same else Slower
    ensures Judged(a, b) == Slower ==>
      Judged(b, a) == if 19.0 * b.value.medianMs.value >= 20.0 * a.value.medianMs.value then Faster else Same
  {
    if BothTimed(a, b) {
      MirroredTimes(a.value.medianMs.value, b.value.medianMs.value);
    }
  }

  // ------------------------------------------------------ statements

  /** The SQL a run recorded for a name; the later of two wins. */
  function StatementIn(queries: seq<Query>, name: string): Option<string> {
    if queries == [] then None
    else
      var last := queries[|queries|-1];
      if last.name == name && name != "" then Some(last.sql) else StatementIn(queries[..|queries|-1], name)
  }

  function StatementsIn(queries: seq<Query>): string -> Option<string> { (name: string) => StatementIn(queries, name) }

  /** `_statements`. */
  method Statements(queries: seq<Query>) returns (sql: map<string, string>)
    ensures Holds(sql, StatementsIn(queries))
  {
    sql := map[];
    var i := 0;
    while i < |queries|
      invariant 0 <= i <= |queries|
      invariant forall name :: Get(sql, name) == StatementIn(queries[..i], name)
    {
      assert queries[..i + 1][..i] == queries[..i];
      if queries[i].name != "" {
        sql := sql[queries[i].name := queries[i].sql];
      }
      i := i + 1;
    }
    assert queries[..|queries|] == queries;
  }

  /** The two runs recorded different SQL under the same name. */
  predicate Edited(was: Option<string>, now: Option<string>) { was.Some? && now.Some? && was != now }

  // -------------------------------------------------------- the table

  datatype Table = Table(lines: seq<Line>, faster: nat, slower: nat, same: nat, unmatched: nat,
                         medianDelta: Option<real>)

  datatype Outcome = DifferentSets | SameRun | Compared(table: Table)

  function WithVerdict(v: Verdict): Line -> bool { (l: Line) => l.verdict == v }

  function Percent(l: Line): Option<real> { l.deltaPercent }

  predicate Earlier(names: seq<string>, i: nat, j: nat) { i < |names| && j < |names| && StringLess(names[i], names[j]) }

  /** Ascending, so no name twice. */
  ghost predicate InOrder(names: seq<string>) { forall i: nat, j: nat | i < j < |names| :: Earlier(names, i, j) }

  /** `sorted(names)`. */
  method SortedNames(names: set<string>) returns (sorted: seq<string>)
    ensures forall name :: name in sorted <==> name in names
    ensures InOrder(sorted)
  {
    sorted := [];
    StringLeqOrder();
    var left := names;
    while left != {}
      invariant left <= names
      invariant forall name :: name in sorted <==> name in names && name !in left
      invariant SortedBy(sorted, StringLeq)
      invariant NoRepeats(sorted)
      decreases |left|
    {
      var name :| name in left;
      ghost var before := sorted;
      InsertKeeps(name, sorted, StringLeq);
      sorted := Insert(name, sorted, StringLeq);
      InsertedMembers(before, sorted, name);
      left := left - {name};
    }
    forall i: nat, j: nat | i < j < |sorted| ensures Earlier(sorted, i, j) {
      assert StringLeq(sorted[i], sorted[j]);
    }
  }

  lemma InsertedMembers(before: seq<string>, after: seq<string>, name: string)
    requires multiset(after) == multiset(before) + multiset{name} && name !in before && NoRepeats(before)
    ensures forall x :: x in after <==> x in before || x == name
    ensures NoRepeats(after)
  {
    SameSize(before + [name], after);
    NoRepeatsSame(before + [name], after);
  }

  function LineName(l: Line): string { l.name }

  predicate Unmatched(l: Line) { l.verdict in {OnlyBaseline, OnlyCandidate} }

  function TableOf(lines: seq<Line>): Table {
    Table(lines, |Filter(lines, WithVerdict(Faster))|, |Filter(lines, WithVerdict(Slower))|,
          |Filter(lines, WithVerdict(Same))|, |Filter(lines, Unmatched)|, Median(Map(lines, Percent)))
  }

  /** Every line falls in exactly one of the four groups of the summary. */
  lemma {:induction false} VerdictsCover(lines: seq<Line>)
    ensures var t := TableOf(lines); t.faster + t.slower + t.same + t.unmatched == |lines|
  {
    if lines != [] { VerdictsCover(lines[..|lines|-1]); }
  }

  /** Everything the table is drawn from: each side's folded queries and recorded SQL. */
  datatype Sides = Sides(
    left: string -> Option<Folded>, right: string -> Option<Folded>,
    was: string -> Option<string>, now: string -> Option<string>)

  function Judgement(sides: Sides, name: string): Line {
    LineOf(name, sides.left(name), sides.right(name), Edited(sides.was(name), sides.now(name)))
  }

  /** One line per name that either side executed, in name order, each judged from that name's own entries. */
  ghost predicate IsComparison(lines: seq<Line>, sides: Sides) {
    && InOrder(Map(lines, LineName))
    && (forall name :: name in Map(lines, LineName) <==> sides.left(name).Some? || sides.right(name).Some?)
    && (forall k | 0 <= k < |lines| :: lines[k] == Judgement(sides, lines[k].name))
  }

  lemma JudgedFromMaps(left: map<string, Folded>, right: map<string, Folded>, was: map<string, string>,
                       now: map<string, string>, sides: Sides, name: string)
    requires Holds(left, sides.left) && Holds(right, sides.right) && Holds(was, sides.was) && Holds(now, sides.now)
    ensures LineOf(name, Get(left, name), Get(right, name), name in was && name in now && was[name] != now[name])
         == Judgement(sides, name)
  {
    assert Get(left, name) == sides.left(name) && Get(right, name) == sides.right(name);
    assert Get(was, name) == sides.was(name) && Get(now, name) == sides.now(name);
  }

  method LineUp(left: map<string, Folded>, right: map<string, Folded>, was: map<string, string>,
                now: map<string, string>,
                names: seq<string>, ghost sides: Sides) returns (lines: seq<Line>)
    requires Holds(left, sides.left) && Holds(right, sides.right) && Holds(was, sides.was) && Holds(now, sides.now)
    ensures |lines| == |names|
    ensures forall k | 0 <= k < |lines| :: lines[k].name == names[k] && lines[k] == Judgement(sides, names[k])
  {
    lines := [];
    var i := 0;
    while i < |names|
      invariant 0 <= i <= |names| && |lines| == i
      invariant forall k | 0 <= k < i :: lines[k].name == names[k] && lines[k] == Judgement(sides, names[k])
    {
      var name := names[i];
      var changed := name in was && name in now && was[name] != now[name];
      JudgedFromMaps(left, right, was, now, sides, name);
      lines := lines + [LineOf(name, Get(left, name), Get(right, name), changed)];
      i := i + 1;
    }
  }

  lemma NamesAreCovered(lines: seq<Line>, names: seq<string>, left: map<string, Folded>, right: map<string, Folded>,
                        sides: Sides)
    requires Holds(left, sides.left) && Holds(right, sides.right)
    requires InOrder(names) && forall name :: name in names <==> name in left.Keys + right.Keys
    requires |lines| == |names|
    requires forall k | 0 <= k < |lines| :: lines[k].name == names[k] && lines[k] == Judgement(sides, names[k])
    ensures IsComparison(lines, sides)
  {
    assert Map(lines, LineName) == names;
    forall name ensures name in left.Keys + right.Keys <==> sides.left(name).Some? || sides.right(name).Some? {
      assert Get(left, name) == sides.left(name) && Get(right, name) == sides.right(name);
    }
  }

  function SidesOf(a: Run, aResults: seq<Row>, b: Run, bResults: seq<Row>): Sides {
    Sides(FoldedIn(aResults), FoldedIn(bResults), StatementsIn(a.queries), StatementsIn(b.queries))
  }

  /** `compare`. */
  method CompareRuns(a: Run, aResults: seq<Row>, b: Run, bResults: seq<Row>) returns (o: Outcome)
    ensures o == DifferentSets <==> a.querySet != b.querySet
    ensures o == SameRun <==> a.querySet == b.querySet && a.id == b.id
    ensures o.Compared? ==> IsComparison(o.table.lines, SidesOf(a, aResults, b, bResults))
    ensures o.Compared? ==> o.table == TableOf(o.table.lines)
  {
    if a.querySet != b.querySet {
      return DifferentSets;
    }
    if a.id == b.id {
      return SameRun;
    }
    var left := SummariseRun(aResults);
    var right := SummariseRun(bResults);
    var was := Statements(a.queries);
    var now := Statements(b.queries);
    ghost var sides := SidesOf(a, aResults, b, bResults);
    var names := SortedNames(left.Keys + right.Keys);
    var lines := LineUp(left, right, was, now, names, sides);
    NamesAreCovered(lines, names, left, right, sides);
    return Compared(TableOf(lines));
  }

  // ------------------------------------------------------ the run page

  datatype PageRow = PageRow(name: string, folded: Folded, allFailed: bool)

  function RowName(r: PageRow): string { r.name }

  /** A row is what its query's own executions fold to, and says whether all of them failed. */
  ghost predicate IsPageRow(row: PageRow, results: seq<Row>) {
    && FoldedOf(results, row.name) == Some(row.folded)
    && (row.allFailed <==> Filter(results, DoneOf(row.name)) == [])
  }

  lemma PageRowHolds(results: seq<Row>, name: string, f: Folded)
    requires FoldedOf(results, name) == Some(f)
    ensures IsPageRow(PageRow(name, f, f.failures == f.runs), results)
  {
    FailedOrDone(results, name);
  }

  ghost function PageRowIn(results: seq<Row>): PageRow -> bool { (row: PageRow) => IsPageRow(row, results) }

  /** `query_rows`: one row per query that ran, in name order. */
  method QueryRows(results: seq<Row>) returns (rows: seq<PageRow>)
    ensures InOrder(Map(rows, RowName))
    ensures forall name :: name in Map(rows, RowName) <==> FoldedIn(results)(name).Some?
    ensures forall k | 0 <= k < |rows| :: IsPageRow(rows[k], results)
  {
    var folded := SummariseRun(results);
    ghost var right := PageRowIn(results);
    forall name: string, f: Folded | FoldedIn(results)(name) == Some(f)
      ensures right(PageRow(name, f, f.failures == f.runs))
    {
      PageRowHolds(results, name, f);
    }
    rows := PageRows(folded, FoldedIn(results), right);
    forall k | 0 <= k < |rows| ensures IsPageRow(rows[k], results) { assert right(rows[k]); }
  }

  /** The rows of what was folded; `right` is what any such row must be. */
  method PageRows(folded: map<string, Folded>, ghost said: string -> Option<Folded>, ghost right: PageRow -> bool)
    returns (rows: seq<PageRow>)
    requires Holds(folded, said)
    requires forall name: string, f: Folded | said(name) == Some(f) :: right(PageRow(name, f, f.failures == f.runs))
    ensures InOrder(Map(rows, RowName))
    ensures forall name :: name in Map(rows, RowName) <==> said(name).Some?
    ensures forall k | 0 <= k < |rows| :: right(rows[k])
  {
    var names := SortedNames(folded.Keys);
    rows := [];
    var i := 0;
    while i < |names|
      invariant 0 <= i <= |names| && |rows| == i
      invariant forall k | 0 <= k < i :: rows[k].name == names[k] && right(rows[k])
    {
      var name := names[i];
      assert name in names && Get(folded, name) == said(name);
      var f := folded[name];
      rows := rows + [PageRow(name, f, f.failures == f.runs)];
      i := i + 1;
    }
    assert Map(rows, RowName) == names;
    forall name ensures name in folded.Keys <==> said(name).Some? { assert Get(folded, name) == said(name); }
  }

  lemma {:induction false} FailedOrDone(results: seq<Row>, name: string)
    ensures |Filter(results, Of(name))| == |Filter(results, FailedOf(name))| + |Filter(results, DoneOf(name))|
  {
    if results != [] { FailedOrDone(results[..|results|-1], name); }
  }
}
