/** How long the longest-waiting query of each resource group has been queued. */
module QueueAge {
  import opened ResourceGroups
  import opened Wrappers

  datatype Query = Query(state: string, path: Path, waited: Option<real>)

  /** What one row shows: nothing was joined, nobody is waiting, or the longest wait. */
  datatype Age = Unset | NoneWaiting | Oldest(ms: real)

  datatype Row = Row(id: string, age: Age)

  datatype Snapshot = Snapshot(trustworthy: bool, queries: seq<Query>)

  /** `in_resource_group`: in the group, or in one beneath it, by whole dotted name. */
  predicate InResourceGroup(path: Path, id: string) {
    id != "" && EndsAtDot(Dotted(path), id)
  }

  /** The names a queued query is credited to: those of every prefix of its path. */
  predicate Credited(path: Path, id: string) {
    exists d | 1 <= d <= |path| :: Dotted(path[..d]) == id
  }

  /** The query takes part at all. `-1` is what a missing entry counts as. */
  predicate Waits(q: Query) {
    q.state == "QUEUED" && q.path != [] && q.waited.Some? && q.waited.value > -1.0
  }

  /** `age` is the longest wait among the queries that `belongs` puts in the group. */
  ghost predicate IsOldest(age: Option<real>, queries: seq<Query>, belongs: (Path, string) -> bool, id: string) {
    match age
    case None => forall q | q in queries && Waits(q) :: !belongs(q.path, id)
    case Some(w) =>
      && (exists q | q in queries && Waits(q) :: belongs(q.path, id) && q.waited.value == w)
      && (forall q | q in queries && Waits(q) && belongs(q.path, id) :: q.waited.value <= w)
  }

  function Lookup(oldest: map<string, real>, id: string): Option<real> {
    if id in oldest then Some(oldest[id]) else None
  }

  function Shown(age: Option<real>): Age {
    if age.None? then NoneWaiting else Oldest(age.value)
  }

  // --------------------------------------- filter and index, on one path

  /** No dot inside a segment, except that the first may begin with one. */
  predicate Undotted(path: Path) {
    forall k | 0 <= k < |path| :: '.' !in (if k == 0 && path[0] != "" then path[0][1..] else path[k])
  }

  lemma CreditedIsInGroup(path: Path, id: string)
    requires Credited(path, id) && id != ""
    ensures InResourceGroup(path, id)
  {
    var d :| 1 <= d <= |path| && Dotted(path[..d]) == id;
    PrefixEndsAtDot(path, d);
  }

  /** Names above `front + "." + last` are `front` and those above it, if `last` has no dot. */
  lemma NoDotInLast(front: string, last: string, id: string)
    requires '.' !in last && id + "." <= front + "." + last
    ensures EndsAtDot(front, id)
  {
    var name := front + "." + last;
    assert name[|id|] == (id + ".")[|id|];
    assert forall i | |front| < i < |name| :: name[i] == last[i - |front| - 1];
    assert id == name[..|id|] && front == name[..|front|];
    if |id| < |front| {
      assert id + "." == name[..|id| + 1] == front[..|id| + 1];
    }
  }

  lemma {:induction false} InGroupIsCredited(path: Path, id: string)
    requires path != [] && Undotted(path) && InResourceGroup(path, id)
    ensures Credited(path, id)
  {
    var name := Dotted(path);
    assert path[..|path|] == path;
    if id != name {
      var n := |path| - 1;
      assert name[|id|] == (id + ".")[|id|];
      assert name[|id|] == name[1..][|id| - 1];
      if n > 0 {
        var init := path[..n];
        assert path == init + [path[n]];
        DottedSnoc(init, path[n]);
        NoDotInLast(Dotted(init), path[n], id);
        InGroupIsCredited(init, id);
        var d :| 1 <= d <= |init| && Dotted(init[..d]) == id;
        assert path[..d] == init[..d];
      }
    }
  }

  /** A name the filter accepts although the query is not credited to it: one that stops at a dot inside a segment. */
  function Stray(path: Path, k: nat, p: nat): string
    requires k < |path| && p < |path[k]|
  {
    if k == 0 then path[0][..p] else Dotted(path[..k]) + "." + path[k][..p]
  }

  lemma StrayIsNotCredited(path: Path, k: nat, p: nat)
    requires k < |path| && p < |path[k]| && path[k][p] == '.'
    ensures EndsAtDot(Dotted(path), Stray(path, k, p))
    ensures !Credited(path, Stray(path, k, p))
  {
    var id, upTo := Stray(path, k, p), Dotted(path[..k + 1]);
    if k == 0 {
      assert path[..1] == [path[0]];
    } else {
      assert path[..k + 1] == path[..k] + [path[k]];
      DottedSnoc(path[..k], path[k]);
    }
    assert id + "." <= upTo;
    PrefixEndsAtDot(path, k + 1);
    assert upTo <= Dotted(path);
    forall d | 1 <= d <= |path| ensures Dotted(path[..d]) != id {
      if d > k {
        if d > k + 1 { PrefixesGrow(path, k + 1, d); }
      } else if d < k {
        PrefixesGrow(path, d, k);
      }
    }
  }

  lemma BlankHeadIsCredited(path: Path)
    requires path != [] && path[0] == ""
    ensures Credited(path, "")
  {
    assert path[..1] == [path[0]];
    assert Dotted(path[..1]) == "";
  }

  /** Filter and index agree on a query, for every group id there could be, exactly when no segment of
      its path contains a dot (a leading one apart) and the first is not empty. */
  lemma FilterAndIndexAgreeExactly(path: Path)
    requires path != []
    ensures (forall id :: Credited(path, id) <==> InResourceGroup(path, id)) <==> Undotted(path) && path[0] != ""
  {
    if Undotted(path) && path[0] != "" {
      forall id ensures Credited(path, id) <==> InResourceGroup(path, id) {
        if InResourceGroup(path, id) { InGroupIsCredited(path, id); }
        if Credited(path, id) {
          var d :| 1 <= d <= |path| && Dotted(path[..d]) == id;
          if d > 1 { PrefixesGrow(path, 1, d); }
          assert path[..1] == [path[0]];
          CreditedIsInGroup(path, id);
        }
      }
    } else if path[0] == "" {
      BlankHeadIsCredited(path);
      assert !InResourceGroup(path, "");
    } else {
      var k :| 0 <= k < |path| && '.' in (if k == 0 then path[0][1..] else path[k]);
      var p :| 0 <= p < |path[k]| && path[k][p] == '.' && (k == 0 ==> p > 0) by {
        if k == 0 {
          var i :| 0 <= i < |path[0]| - 1 && path[0][1..][i] == '.';
          assert path[0][i + 1] == '.';
        }
      }
      StrayIsNotCredited(path, k, p);
      assert Stray(path, k, p) != "";
      assert InResourceGroup(path, Stray(path, k, p));
    }
  }

  /** On the paths the collector makes, filter and index agree for every group id. */
  lemma WellFormedAgrees(path: Path)
    requires WellFormed(path)
    ensures forall id :: Credited(path, id) <==> InResourceGroup(path, id)
  {
    FilterAndIndexAgreeExactly(path);
  }

  // ------------------------------------------------------ over all queries

  lemma SameGroupSameOldest(age: Option<real>, queries: seq<Query>, id: string, f: (Path, string) -> bool,
                            g: (Path, string) -> bool)
    requires forall q | q in queries && Waits(q) :: f(q.path, id) == g(q.path, id)
    requires IsOldest(age, queries, f, id)
    ensures IsOldest(age, queries, g, id)
  {
  }

  lemma OldestIsUnique(a: Option<real>, b: Option<real>, queries: seq<Query>, belongs: (Path, string) -> bool,
                       id: string)
    requires IsOldest(a, queries, belongs, id) && IsOldest(b, queries, belongs, id)
    ensures a == b
  {
  }

  /** A parent's queue holds its children's, so its age is never below theirs. */
  lemma ParentIsNeverYounger(queries: seq<Query>, parent: string, child: string, p: Option<real>, c: Option<real>)
    requires parent != "" && parent + "." <= child
    requires IsOldest(p, queries, InResourceGroup, parent)
    requires IsOldest(c, queries, InResourceGroup, child)
    ensures c.Some? ==> p.Some? && p.value >= c.value
  {
    forall q | q in queries && InResourceGroup(q.path, child) ensures InResourceGroup(q.path, parent) {
      assert parent + "." <= child <= Dotted(q.path);
    }
  }

  /** The index built from `queries`. */
  ghost predicate Indexed(oldest: map<string, real>, queries: seq<Query>) {
    forall id :: IsOldest(Lookup(oldest, id), queries, Credited, id)
  }

  predicate CreditedUpTo(path: Path, id: string, depth: nat)
    requires depth <= |path|
  {
    exists d | 1 <= d <= depth :: Dotted(path[..d]) == id
  }

  function Raised(age: Option<real>, waited: real): Option<real> {
    if waited > (if age.Some? then age.value else -1.0) then Some(waited) else age
  }

  lemma OneMoreQuery(queries: seq<Query>, q: Query, age: Option<real>, belongs: (Path, string) -> bool, id: string)
    requires IsOldest(age, queries, belongs, id)
    ensures IsOldest(if Waits(q) && belongs(q.path, id) then Raised(age, q.waited.value) else age,
                     queries + [q], belongs, id)
  {
    var after := if Waits(q) && belongs(q.path, id) then Raised(age, q.waited.value) else age;
    assert q in queries + [q];
    if age.Some? {
      var top :| top in queries && Waits(top) && belongs(top.path, id) && top.waited.value == age.value;
      assert top in queries + [q];
    }
    forall x | x in queries + [q] && Waits(x) && belongs(x.path, id)
      ensures after.Some? && x.waited.value <= after.value
    {
      assert x in queries || x == q;
    }
  }

  /** The names credited so far are raised to the wait; the others are as before. */
  ghost predicate CreditedSoFar(oldest: map<string, real>, after: map<string, real>, path: Path, depth: nat,
                                waited: real)
    requires depth <= |path|
  {
    forall id ::
      Lookup(after, id) ==
        if CreditedUpTo(path, id, depth) then Raised(Lookup(oldest, id), waited) else Lookup(oldest, id)
  }

  /** The index after one query: each name on its path raised to its wait. */
  method CreditQuery(oldest: map<string, real>, path: Path, waited: real) returns (after: map<string, real>)
    ensures CreditedSoFar(oldest, after, path, |path|, waited)
  {
    after := oldest;
    var depth := 1;
    while depth < |path| + 1
      invariant 1 <= depth <= |path| + 1
      invariant CreditedSoFar(oldest, after, path, depth - 1, waited)
    {
      var key := Dotted(path[..depth]);
      ghost var before := after;
      if waited > (if key in after then after[key] else -1.0) {
        after := after[key := waited];
      }
      forall id
        ensures Lookup(after, id) ==
          if CreditedUpTo(path, id, depth) then Raised(Lookup(oldest, id), waited) else Lookup(oldest, id)
      {
        assert CreditedUpTo(path, id, depth) <==> CreditedUpTo(path, id, depth - 1) || id == key;
        assert Lookup(after, id) == if id == key then Raised(Lookup(before, id), waited) else Lookup(before, id);
      }
      depth := depth + 1;
    }
  }

  /** The row shows the longest wait among the queries that belong to its id. */
  ghost predicate ShowsOldest(row: Row, queries: seq<Query>, belongs: (Path, string) -> bool) {
    exists age :: row.age == Shown(age) && IsOldest(age, queries, belongs, row.id)
  }

  /** Every query in the queue has a path on which filter and index agree. */
  predicate AllAgree(queries: seq<Query>) {
    forall q | q in queries && Waits(q) :: Undotted(q.path) && q.path[0] != ""
  }

  lemma FilterShowsTheSame(row: Row, queries: seq<Query>)
    requires ShowsOldest(row, queries, Credited) && AllAgree(queries)
    ensures ShowsOldest(row, queries, InResourceGroup)
  {
    var age :| row.age == Shown(age) && IsOldest(age, queries, Credited, row.id);
    forall q | q in queries && Waits(q) ensures Credited(q.path, row.id) == InResourceGroup(q.path, row.id) {
      FilterAndIndexAgreeExactly(q.path);
    }
    SameGroupSameOldest(age, queries, row.id, Credited, InResourceGroup);
  }

  /** A parent's row shows an age whenever a child's does, and one no lower. */
  ghost predicate ParentsLead(rows: seq<Row>) {
    forall i, j | 0 <= i < |rows| && 0 <= j < |rows| && rows[i].id != "" && rows[i].id + "." <= rows[j].id ::
      rows[j].age.Oldest? ==> rows[i].age.Oldest? && rows[i].age.ms >= rows[j].age.ms
  }

  lemma ParentRowIsNeverYounger(rows: seq<Row>, queries: seq<Query>)
    requires forall k | 0 <= k < |rows| :: ShowsOldest(rows[k], queries, InResourceGroup)
    ensures ParentsLead(rows)
  {
    forall i, j | 0 <= i < |rows| && 0 <= j < |rows| && rows[i].id != "" && rows[i].id + "." <= rows[j].id
      ensures rows[j].age.Oldest? ==> rows[i].age.Oldest? && rows[i].age.ms >= rows[j].age.ms
    {
      var p :| rows[i].age == Shown(p) && IsOldest(p, queries, InResourceGroup, rows[i].id);
      var c :| rows[j].age == Shown(c) && IsOldest(c, queries, InResourceGroup, rows[j].id);
      ParentIsNeverYounger(queries, rows[i].id, rows[j].id, p, c);
    }
  }

  /** `_add_queue_age`: with a usable query snapshot every row shows the longest wait among the queries
      credited to its id, which is the longest among those the group filter accepts as long as no
      waiting query has a dotted or empty segment in the wrong place. Without a usable snapshot
      nothing is written. */
  method AddQueueAge(rows: array<Row>, snapshot: Option<Snapshot>)
    modifies rows
    ensures snapshot.None? || !snapshot.value.trustworthy ==> rows[..] == old(rows[..])
    ensures forall i | 0 <= i < rows.Length :: rows[i].id == old(rows[i].id)
    ensures snapshot.Some? && snapshot.value.trustworthy ==>
      forall i | 0 <= i < rows.Length :: ShowsOldest(rows[i], snapshot.value.queries, Credited)
    ensures snapshot.Some? && snapshot.value.trustworthy && AllAgree(snapshot.value.queries) ==>
      && (forall i | 0 <= i < rows.Length :: ShowsOldest(rows[i], snapshot.value.queries, InResourceGroup))
      && ParentsLead(rows[..])
  {
    if rows.Length == 0 || snapshot.None? || !snapshot.value.trustworthy {
      return;
    }
    var queries := snapshot.value.queries;
    var oldest := OldestPerGroup(queries);
    var g := 0;
    while g < rows.Length
      invariant 0 <= g <= rows.Length
      invariant forall k | 0 <= k < rows.Length :: rows[k].id == old(rows[k].id)
      invariant forall k | 0 <= k < g :: rows[k].age == Shown(Lookup(oldest, rows[k].id))
    {
      rows[g] := rows[g].(age := if rows[g].id in oldest then Oldest(oldest[rows[g].id]) else NoneWaiting);
      g := g + 1;
    }
    forall k | 0 <= k < rows.Length
      ensures ShowsOldest(rows[k], queries, Credited)
      ensures AllAgree(queries) ==> ShowsOldest(rows[k], queries, InResourceGroup)
    {
      assert IsOldest(Lookup(oldest, rows[k].id), queries, Credited, rows[k].id);
      if AllAgree(queries) { FilterShowsTheSame(rows[k], queries); }
    }
    if AllAgree(queries) { ParentRowIsNeverYounger(rows[..], queries); }
  }

  method OldestPerGroup(queries: seq<Query>) returns (oldest: map<string, real>)
    ensures Indexed(oldest, queries)
  {
    oldest := map[];
    var i := 0;
    while i < |queries|
      invariant 0 <= i <= |queries|
      invariant Indexed(oldest, queries[..i])
    {
      var q := queries[i];
      ghost var before := oldest;
      if q.state == "QUEUED" && q.path != [] && q.waited.Some? {
        oldest := CreditQuery(oldest, q.path, q.waited.value);
      }
      assert queries[..i + 1] == queries[..i] + [q];
      forall id ensures IsOldest(Lookup(oldest, id), queries[..i + 1], Credited, id) {
        OneMoreQuery(queries[..i], q, Lookup(before, id), Credited, id);
      }
      i := i + 1;
    }
    assert queries[..|queries|] == queries;
  }
}
