/** The tree of resource groups built from the flat list, and the order the screen shows it in. */
module Forest {
  import opened Order
  import opened ResourceGroups
  import opened Wrappers
  import Bags

  /** One group's row; the counters stand for everything the row carries beside its path. */
  datatype Group = Group(path: Path, running: int, queued: int)

  function Id(g: Group): string { Dotted(g.path) }

  predicate PathLeq(a: Group, b: Group) { a.path == b.path || PathLess(a.path, b.path) }

  // --------------------------------------------------- one row per path

  /** `by_id` once the sorted rows are entered: a repeated id keeps its place and takes the later row. */
  function Entered(gs: seq<Group>): seq<Group> {
    if gs == [] then []
    else
      var before, g := Entered(gs[..|gs|-1]), gs[|gs|-1];
      if before != [] && before[|before|-1].path == g.path then before[..|before|-1] + [g] else before + [g]
  }

  /** The row last reported for a path. */
  function Latest(gs: seq<Group>, p: Path): Option<Group> {
    if gs == [] then None
    else
      var later := Latest(gs[1..], p);
      if later.Some? then later else if gs[0].path == p then Some(gs[0]) else None
  }

  function Paths(gs: seq<Group>): (ps: seq<Path>) { seq(|gs|, i requires 0 <= i < |gs| => gs[i].path) }

  predicate Before(ps: seq<Path>, i: nat, j: nat) { i < |ps| && j < |ps| && PathLess(ps[i], ps[j]) }

  ghost predicate Ascending(ps: seq<Path>) { forall i: nat, j: nat | i < j < |ps| :: Before(ps, i, j) }

  lemma PathPreorder()
    ensures TotalPreorder(PathLeq)
  {
    PathOrder();
    forall x: Group, y: Group ensures PathLeq(x, y) || PathLeq(y, x) {
      assert x.path == y.path || PathLess(x.path, y.path) || PathLess(y.path, x.path);
    }
    forall x: Group, y: Group, z: Group | PathLeq(x, y) && PathLeq(y, z) ensures PathLeq(x, z) {
      if x.path != y.path && y.path != z.path {
        assert PathLess(x.path, y.path) && PathLess(y.path, z.path);
      }
    }
  }

  lemma {:induction false} LatestSnoc(gs: seq<Group>, g: Group, p: Path)
    ensures Latest(gs + [g], p) == if g.path == p then Some(g) else Latest(gs, p)
  {
    if gs == [] {
      assert (gs + [g])[1..] == [];
    } else {
      assert (gs + [g])[1..] == gs[1..] + [g];
      LatestSnoc(gs[1..], g, p);
    }
  }

  lemma {:induction false} LatestOfInsert(x: Group, s: seq<Group>, p: Path)
    ensures Latest(Insert(x, s, PathLeq), p) == Latest([x] + s, p)
  {
    if s != [] && !PathLeq(x, s[0]) {
      LatestOfInsert(x, s[1..], p);
      var rest := Insert(x, s[1..], PathLeq);
      assert ([s[0]] + rest)[1..] == rest && ([x] + s)[1..] == s && ([x] + s[1..])[1..] == s[1..];
    }
  }

  /** The sort is stable, so the last row of a path is still its last. */
  lemma {:induction false} LatestOfSorted(gs: seq<Group>, p: Path)
    ensures Latest(Sorted(gs, PathLeq), p) == Latest(gs, p)
  {
    if gs != [] {
      var rest := Sorted(gs[1..], PathLeq);
      LatestOfSorted(gs[1..], p);
      LatestOfInsert(gs[0], rest, p);
      assert ([gs[0]] + rest)[1..] == rest;
    }
  }

  lemma {:induction false} LatestOfEntered(gs: seq<Group>, p: Path)
    ensures Latest(Entered(gs), p) == Latest(gs, p)
  {
    if gs != [] {
      var n := |gs| - 1;
      var before, g := Entered(gs[..n]), gs[n];
      LatestOfEntered(gs[..n], p);
      assert gs == gs[..n] + [g];
      LatestSnoc(gs[..n], g, p);
      if before != [] && before[|before|-1].path == g.path {
        var front, top := before[..|before|-1], before[|before|-1];
        assert before == front + [top];
        LatestSnoc(front, top, p);
        LatestSnoc(front, g, p);
      } else {
        LatestSnoc(before, g, p);
      }
    }
  }

  ghost predicate NoneAbove(es: seq<Group>, p: Path) {
    forall i | 0 <= i < |es| :: es[i].path == p || PathLess(es[i].path, p)
  }

  lemma {:induction false} EnteredAscends(gs: seq<Group>)
    requires SortedBy(gs, PathLeq)
    ensures Ascending(Paths(Entered(gs)))
    ensures gs != [] ==> NoneAbove(Entered(gs), gs[|gs|-1].path)
  {
    if gs != [] {
      var n := |gs| - 1;
      EnteredAscends(gs[..n]);
      if n > 0 {
        assert PathLeq(gs[n - 1], gs[n]);
        PathOrder();
      }
      EnterAscends(Entered(gs[..n]), gs[n]);
    }
  }

  lemma EnterAscends(before: seq<Group>, g: Group)
    requires Ascending(Paths(before)) && NoneAbove(before, g.path)
    ensures var after := if before != [] && before[|before|-1].path == g.path
                         then before[..|before|-1] + [g] else before + [g];
      Ascending(Paths(after)) && NoneAbove(after, g.path)
  {
    PathOrder();
    var n := |before| - 1;
    var after := if before != [] && before[n].path == g.path then before[..n] + [g] else before + [g];
    forall i: nat, j: nat | i < j < |after| ensures Before(Paths(after), i, j) {
      assert i < n ==> Before(Paths(before), i, n);
      if j < |before| { assert Before(Paths(before), i, j); }
    }
  }

  /** The rows of the tree, in path order. */
  function Rows(groups: seq<Group>): seq<Group> { Entered(Sorted(groups, PathLeq)) }

  /** Each path once, in order, with the row last reported for it. */
  lemma RowsAreTheLatest(groups: seq<Group>)
    ensures Ascending(Paths(Rows(groups)))
    ensures forall p :: Latest(Rows(groups), p) == Latest(groups, p)
  {
    PathPreorder();
    SortedSorts(groups, PathLeq);
    EnteredAscends(Sorted(groups, PathLeq));
    forall p ensures Latest(Rows(groups), p) == Latest(groups, p) {
      LatestOfEntered(Sorted(groups, PathLeq), p);
      LatestOfSorted(groups, p);
    }
  }

  // ------------------------------------------------------------- the tree

  /** `j` hangs directly under `i`: its path minus the last segment. */
  predicate IsChild(ps: seq<Path>, j: nat, i: nat)
    requires j < |ps| && i < |ps|
  {
    |ps[j]| == |ps[i]| + 1 && ps[j][..|ps[i]|] == ps[i]
  }

  /** Nothing was reported for the path minus its last segment. */
  predicate IsRoot(ps: seq<Path>, j: nat)
    requires j < |ps| && ps[j] != []
  {
    |ps[j]| == 1 || ps[j][..|ps[j]|-1] !in ps
  }

  ghost predicate Ordered(ps: seq<Path>) {
    Ascending(ps) && forall i | 0 <= i < |ps| :: WellFormed(ps[i])
  }

  predicate Within(cs: seq<nat>, n: nat) { forall k | 0 <= k < |cs| :: cs[k] < n }

  ghost predicate Rising(xs: seq<nat>) { forall k, m | 0 <= k < m < |xs| :: xs[k] < xs[m] }

  function Children(ps: seq<Path>, i: nat, upTo: nat): (cs: seq<nat>)
    requires i < |ps| && upTo <= |ps|
    ensures Within(cs, upTo)
  {
    if upTo == 0 then []
    else Children(ps, i, upTo - 1) + if IsChild(ps, upTo - 1, i) then [upTo - 1] else []
  }

  function Roots(ps: seq<Path>, upTo: nat): (rs: seq<nat>)
    requires upTo <= |ps| && forall i | 0 <= i < |ps| :: ps[i] != []
    ensures Within(rs, upTo)
  {
    if upTo == 0 then []
    else Roots(ps, upTo - 1) + if IsRoot(ps, upTo - 1) then [upTo - 1] else []
  }

  lemma {:induction false} ChildrenAre(ps: seq<Path>, i: nat, upTo: nat)
    requires i < |ps| && upTo <= |ps|
    ensures Rising(Children(ps, i, upTo))
    ensures forall j: nat :: j in Children(ps, i, upTo) <==> j < upTo && IsChild(ps, j, i)
  {
    if upTo > 0 {
      ChildrenAre(ps, i, upTo - 1);
      var front, last := Children(ps, i, upTo - 1), if IsChild(ps, upTo - 1, i) then [upTo - 1] else [];
      assert Children(ps, i, upTo) == front + last;
    }
  }

  lemma {:induction false} RootsAre(ps: seq<Path>, upTo: nat)
    requires upTo <= |ps| && forall i | 0 <= i < |ps| :: ps[i] != []
    ensures Rising(Roots(ps, upTo))
    ensures forall j: nat :: j in Roots(ps, upTo) <==> j < upTo && IsRoot(ps, j)
  {
    if upTo > 0 {
      RootsAre(ps, upTo - 1);
      var front, last := Roots(ps, upTo - 1), if IsRoot(ps, upTo - 1) then [upTo - 1] else [];
      assert Roots(ps, upTo) == front + last;
    }
  }

  function NameAt(ps: seq<Path>, i: nat): string { if i < |ps| then Dotted(ps[i]) else "" }

  function ByName(ps: seq<Path>): (nat, nat) -> bool {
    (a: nat, b: nat) => StringLeq(NameAt(ps, a), NameAt(ps, b))
  }

  /** The roots in the order they are shown: by dotted name. */
  function Tops(ps: seq<Path>): seq<nat>
    requires forall i | 0 <= i < |ps| :: ps[i] != []
  {
    Sorted(Roots(ps, |ps|), ByName(ps))
  }

  /** The smallest of `cs`, at most `n`. */
  function Low(cs: seq<nat>, n: nat): (m: nat)
    ensures m <= n && (m == n || m in cs)
    ensures forall k | 0 <= k < |cs| :: m <= cs[k]
  {
    if cs == [] then n
    else
      var front, last := Low(cs[..|cs|-1], n), cs[|cs|-1];
      if last < front then last else front
  }

  lemma PathAsymmetric(a: Path, b: Path)
    requires PathLess(a, b)
    ensures !PathLess(b, a) && a != b
  {
    PathOrder();
    assert PathLess(a, b) && PathLess(b, a) ==> PathLess(a, a);
  }

  /** What extends a path comes after it. */
  lemma ExtensionIsLater(ps: seq<Path>, i: nat, j: nat)
    requires Ascending(ps) && i < |ps| && j < |ps| && ps[i] < ps[j]
    ensures i < j
  {
    PrefixFirst(ps[i], ps[j], StringLess);
    PathAsymmetric(ps[i], ps[j]);
    assert j < i ==> Before(ps, j, i);
  }

  lemma ChildrenAreLater(ps: seq<Path>, i: nat)
    requires Ascending(ps) && i < |ps|
    ensures forall c | c in Children(ps, i, |ps|) :: i < c
  {
    ChildrenAre(ps, i, |ps|);
    forall c | c in Children(ps, i, |ps|) ensures i < c {
      assert ps[i] == ps[c][..|ps[i]|];
      ExtensionIsLater(ps, i, c);
    }
  }

  /** The depth-first walk from `i`: itself, then its children's walks in order. */
  ghost function Walk(ps: seq<Path>, i: nat): (xs: seq<nat>)
    requires Ascending(ps) && i < |ps|
    ensures Within(xs, |ps|)
    decreases |ps| - i, 0
  {
    ChildrenAreLater(ps, i);
    [i] + WalkAll(ps, Children(ps, i, |ps|))
  }

  ghost function WalkAll(ps: seq<Path>, cs: seq<nat>): (xs: seq<nat>)
    requires Ascending(ps) && Within(cs, |ps|)
    ensures Within(xs, |ps|)
    decreases |ps| - Low(cs, |ps|), |cs|
  {
    if cs == [] then []
    else
      var front, last := cs[..|cs|-1], cs[|cs|-1];
      assert Low(cs, |ps|) <= last;
      WalkAll(ps, front) + Walk(ps, last)
  }

  /** `i` is `j` or above it, with every group between them reported. */
  ghost predicate Above(ps: seq<Path>, i: nat, j: nat)
    requires i < |ps| && j < |ps|
  {
    ps[i] <= ps[j] && forall k | |ps[i]| <= k <= |ps[j]| :: ps[j][..k] in ps
  }

  ghost function Tally(ps: seq<Path>, cs: seq<nat>, j: nat): nat
    requires j < |ps| && Within(cs, |ps|)
  {
    if cs == [] then 0
    else Tally(ps, cs[..|cs|-1], j) + if Above(ps, cs[|cs|-1], j) then 1 else 0
  }

  lemma {:induction false} TallyNone(ps: seq<Path>, cs: seq<nat>, j: nat)
    requires j < |ps| && Within(cs, |ps|)
    requires forall k | 0 <= k < |cs| :: !Above(ps, cs[k], j)
    ensures Tally(ps, cs, j) == 0
  {
    if cs != [] { TallyNone(ps, cs[..|cs|-1], j); }
  }

  lemma {:induction false} TallyOne(ps: seq<Path>, cs: seq<nat>, j: nat, only: nat)
    requires j < |ps| && Within(cs, |ps|)
    requires forall k | 0 <= k < |cs| :: Above(ps, cs[k], j) <==> cs[k] == only
    requires multiset(cs)[only] == 1
    ensures Tally(ps, cs, j) == 1
  {
    var front, last := cs[..|cs|-1], cs[|cs|-1];
    assert cs == front + [last];
    if last == only {
      assert only !in front by { assert multiset(cs) == multiset(front) + multiset{last}; }
      TallyNone(ps, front, j);
    } else {
      TallyOne(ps, front, j, only);
    }
  }

  lemma {:induction false} NoRepeats(cs: seq<nat>, c: nat)
    requires c in cs && Rising(cs)
    ensures multiset(cs)[c] == 1
  {
    var front, last := cs[..|cs|-1], cs[|cs|-1];
    assert cs == front + [last];
    if c == last {
      assert c !in front;
    } else {
      NoRepeats(front, c);
    }
  }

  lemma ChildOnTheWay(ps: seq<Path>, i: nat, j: nat) returns (c: nat)
    requires Ascending(ps) && i < |ps| && j < |ps|
    requires ps[i] < ps[j] && Above(ps, i, j)
    ensures c in Children(ps, i, |ps|) && c < |ps| && Above(ps, c, j)
    ensures forall d | d in Children(ps, i, |ps|) && ps[d] <= ps[j] :: d == c
  {
    var n := |ps[i]|;
    ChildrenAre(ps, i, |ps|);
    assert ps[j][..n + 1] in ps;
    c :| 0 <= c < |ps| && ps[c] == ps[j][..n + 1];
    assert ps[c][..n] == ps[j][..n] == ps[i];
    forall d | d in Children(ps, i, |ps|) && ps[d] <= ps[j] ensures d == c {
      assert ps[d] == ps[j][..n + 1];
      PathsDiffer(ps, c, d);
    }
  }

  /** What a child is above, its parent is above. */
  lemma ParentIsAbove(ps: seq<Path>, i: nat, d: nat, j: nat)
    requires i < |ps| && d < |ps| && j < |ps| && IsChild(ps, d, i) && Above(ps, d, j)
    ensures Above(ps, i, j) && ps[i] < ps[j]
  {
    var n := |ps[i]|;
    assert ps[i] == ps[d][..n] == ps[j][..n];
    assert ps[i] in ps;
    forall k | n <= k <= |ps[j]| ensures ps[j][..k] in ps {
      if k == n { assert ps[j][..k] == ps[i]; }
    }
  }

  /** Of the children of `i`, exactly the one on the path to `j` is above `j`. */
  lemma ChildrenTally(ps: seq<Path>, i: nat, j: nat)
    requires Ascending(ps) && i < |ps| && j < |ps|
    ensures Tally(ps, Children(ps, i, |ps|), j) == if i != j && Above(ps, i, j) then 1 else 0
  {
    var cs := Children(ps, i, |ps|);
    ChildrenAre(ps, i, |ps|);
    if ps[i] < ps[j] && Above(ps, i, j) {
      var c := ChildOnTheWay(ps, i, j);
      NoRepeats(cs, c);
      TallyOne(ps, cs, j, c);
      assert i != j;
    } else {
      forall k | 0 <= k < |cs| ensures !Above(ps, cs[k], j) {
        assert cs[k] in cs;
        if Above(ps, cs[k], j) { ParentIsAbove(ps, i, cs[k], j); }
      }
      TallyNone(ps, cs, j);
      if Above(ps, i, j) { PathsDiffer(ps, i, j); }
    }
  }

  lemma PathsDiffer(ps: seq<Path>, a: nat, b: nat)
    requires Ascending(ps) && a < |ps| && b < |ps| && ps[a] == ps[b]
    ensures a == b
  {
    PathOrder();
    assert a < b ==> Before(ps, a, b);
    assert b < a ==> Before(ps, b, a);
  }

  /** The walk from `i` visits what lies below `i`, once. */
  lemma {:induction false} WalkVisits(ps: seq<Path>, i: nat, j: nat)
    requires Ascending(ps) && i < |ps| && j < |ps|
    ensures multiset(Walk(ps, i))[j] == if Above(ps, i, j) then 1 else 0
    decreases |ps| - i, 0
  {
    var cs := Children(ps, i, |ps|);
    ChildrenAreLater(ps, i);
    WalkAllVisits(ps, cs, j);
    ChildrenTally(ps, i, j);
    if i == j {
      assert ps[i][..|ps[i]|] == ps[i];
      assert Above(ps, i, i);
    }
  }

  lemma {:induction false} WalkAllVisits(ps: seq<Path>, cs: seq<nat>, j: nat)
    requires Ascending(ps) && j < |ps| && Within(cs, |ps|)
    ensures multiset(WalkAll(ps, cs))[j] == Tally(ps, cs, j)
    decreases |ps| - Low(cs, |ps|), |cs|
  {
    if cs != [] {
      var front, last := cs[..|cs|-1], cs[|cs|-1];
      assert Low(cs, |ps|) <= last;
      WalkAllVisits(ps, front, j);
      WalkVisits(ps, last, j);
    }
  }

  /** The root above `j`: the shortest prefix of its path from which on everything was reported. */
  ghost function TopOf(ps: seq<Path>, j: nat): (r: nat)
    requires Ordered(ps) && j < |ps|
    ensures r < |ps| && IsRoot(ps, r) && Above(ps, r, j)
    decreases |ps[j]|
  {
    assert ps[j][..|ps[j]|] == ps[j];
    if IsRoot(ps, j) then j
    else
      var up := ps[j][..|ps[j]|-1];
      var i :| 0 <= i < |ps| && ps[i] == up;
      var r := TopOf(ps, i);
      assert Above(ps, r, j) by {
        forall k | |ps[r]| <= k <= |ps[j]| ensures ps[j][..k] in ps {
          if k < |ps[j]| { assert ps[j][..k] == ps[i][..k]; }
        }
      }
      r
  }

  lemma OneRootAbove(ps: seq<Path>, a: nat, b: nat, j: nat)
    requires Ordered(ps) && a < |ps| && b < |ps| && j < |ps|
    requires IsRoot(ps, a) && IsRoot(ps, b) && Above(ps, a, j) && Above(ps, b, j)
    requires |ps[a]| <= |ps[b]|
    ensures a == b
  {
    assert ps[b][..|ps[b]|-1] == ps[j][..|ps[b]|-1];
    assert ps[a] == ps[b];
    PathsDiffer(ps, a, b);
  }

  /** The roots, in any order. */
  ghost predicate AllRoots(ps: seq<Path>, cs: seq<nat>)
    requires forall i | 0 <= i < |ps| :: ps[i] != []
  {
    Within(cs, |ps|) && multiset(cs) == multiset(Roots(ps, |ps|))
  }

  lemma TopsAreRoots(ps: seq<Path>)
    requires forall i | 0 <= i < |ps| :: ps[i] != []
    ensures AllRoots(ps, Tops(ps))
  {
    ByNamePreorder(ps);
    SortedSorts(Roots(ps, |ps|), ByName(ps));
    Bags.SameSize(Tops(ps), Roots(ps, |ps|));
    forall k | 0 <= k < |Tops(ps)| ensures Tops(ps)[k] < |ps| {
      assert Tops(ps)[k] in Roots(ps, |ps|);
    }
  }

  lemma ByNamePreorder(ps: seq<Path>)
    ensures TotalPreorder(ByName(ps))
  {
    StringLeqOrder();
    var leq := ByName(ps);
    forall x: nat, y: nat, z: nat | leq(x, y) && leq(y, z) ensures leq(x, z) {
      var a, b, c := NameAt(ps, x), NameAt(ps, y), NameAt(ps, z);
      assert StringLeq(a, b) && StringLeq(b, c);
    }
  }

  lemma RootsTally(ps: seq<Path>, cs: seq<nat>, j: nat)
    requires Ordered(ps) && j < |ps| && AllRoots(ps, cs)
    ensures Tally(ps, cs, j) == 1
  {
    var roots, top := Roots(ps, |ps|), TopOf(ps, j);
    RootsAre(ps, |ps|);
    Bags.SameSize(cs, roots);
    forall k | 0 <= k < |cs| ensures Above(ps, cs[k], j) <==> cs[k] == top {
      var r := cs[k];
      assert r in roots;
      if Above(ps, r, j) {
        if |ps[r]| <= |ps[top]| { OneRootAbove(ps, r, top, j); } else { OneRootAbove(ps, top, r, j); }
      }
    }
    NoRepeats(roots, top);
    TallyOne(ps, cs, j, top);
  }

  /** The whole walk visits every group exactly once, whether or not its parent was reported. */
  lemma EveryGroupOnce(ps: seq<Path>, cs: seq<nat>, j: nat)
    requires Ordered(ps) && AllRoots(ps, cs)
    ensures multiset(WalkAll(ps, cs))[j] == if j < |ps| then 1 else 0
  {
    if j < |ps| {
      WalkAllVisits(ps, cs, j);
      RootsTally(ps, cs, j);
    } else {
      assert j !in WalkAll(ps, cs);
    }
  }

  // -------------------------------------------------- the order of the walk

  /** `cs` are groups with the same parent path, in order. */
  ghost predicate Siblings(ps: seq<Path>, cs: seq<nat>, parent: Path) {
    && Within(cs, |ps|) && Rising(cs)
    && forall k | 0 <= k < |cs| :: |ps[cs[k]]| == |parent| + 1 && ps[cs[k]][..|parent|] == parent
  }

  /** Whatever lies below an earlier sibling comes before whatever lies below a later one. */
  lemma SubtreesKeepOrder(ps: seq<Path>, a: nat, b: nat, x: nat, y: nat)
    requires Ascending(ps) && a < b < |ps| && x < |ps| && y < |ps|
    requires |ps[a]| == |ps[b]| > 0 && ps[a][..|ps[a]|-1] == ps[b][..|ps[a]|-1]
    requires ps[a] <= ps[x] && ps[b] <= ps[y]
    ensures x < y
  {
    var n := |ps[a]| - 1;
    StringOrder();
    assert Before(ps, a, b);
    LexDifference(ps[a], ps[b], n, StringLess);
    assert ps[x][..n] == ps[a][..n] && ps[y][..n] == ps[b][..n];
    assert ps[x][n] == ps[a][n] && ps[y][n] == ps[b][n];
    LexAtDifference(ps[x], ps[y], n, StringLess);
    assert y < x ==> Before(ps, y, x);
    PathAsymmetric(ps[x], ps[y]);
  }

  lemma VisitedLiesBelow(ps: seq<Path>, i: nat, x: nat)
    requires Ascending(ps) && i < |ps| && x in Walk(ps, i)
    ensures x < |ps| && ps[i] <= ps[x]
  {
    WalkVisits(ps, i, x);
    assert x in multiset(Walk(ps, i));
  }

  ghost predicate BelowSome(ps: seq<Path>, cs: seq<nat>, x: nat)
    requires Within(cs, |ps|)
  {
    x < |ps| && exists k | 0 <= k < |cs| :: ps[cs[k]] <= ps[x]
  }

  lemma {:induction false} VisitedLiesBelowSome(ps: seq<Path>, cs: seq<nat>, x: nat)
    requires Ascending(ps) && Within(cs, |ps|) && x in WalkAll(ps, cs)
    ensures BelowSome(ps, cs, x)
  {
    var front, last := cs[..|cs|-1], cs[|cs|-1];
    if x in Walk(ps, last) {
      VisitedLiesBelow(ps, last, x);
      assert ps[cs[|cs|-1]] <= ps[x];
    } else {
      assert x in WalkAll(ps, front);
      VisitedLiesBelowSome(ps, front, x);
      var k :| 0 <= k < |front| && ps[front[k]] <= ps[x];
      assert ps[cs[k]] <= ps[x];
    }
  }

  lemma RisingJoin(a: seq<nat>, b: seq<nat>)
    requires Rising(a) && Rising(b) && forall x, y | x in a && y in b :: x < y
    ensures Rising(a + b)
  {
    forall k, m | 0 <= k < m < |a + b| ensures (a + b)[k] < (a + b)[m] {
      if k < |a| <= m { assert a[k] in a && b[m - |a|] in b; }
    }
  }

  lemma ChildrenAreSiblings(ps: seq<Path>, i: nat)
    requires Ascending(ps) && i < |ps|
    ensures Siblings(ps, Children(ps, i, |ps|), ps[i])
  {
    var cs := Children(ps, i, |ps|);
    ChildrenAre(ps, i, |ps|);
    forall k | 0 <= k < |cs| ensures IsChild(ps, cs[k], i) { assert cs[k] in cs; }
  }

  lemma BelowIsLater(ps: seq<Path>, i: nat, y: nat)
    requires Ascending(ps) && i < |ps|
    requires y in WalkAll(ps, Children(ps, i, |ps|))
    ensures i < y
  {
    var cs := Children(ps, i, |ps|);
    VisitedLiesBelowSome(ps, cs, y);
    var k :| 0 <= k < |cs| && ps[cs[k]] <= ps[y];
    ChildrenAreSiblings(ps, i);
    assert ps[i] == ps[cs[k]][..|ps[i]|] == ps[y][..|ps[i]|];
    ExtensionIsLater(ps, i, y);
  }

  lemma FrontIsEarlier(ps: seq<Path>, cs: seq<nat>, parent: Path, x: nat, y: nat)
    requires Ascending(ps) && Siblings(ps, cs, parent) && cs != []
    requires Within(cs[..|cs|-1], |ps|) && BelowSome(ps, cs[..|cs|-1], x)
    requires y < |ps| && ps[cs[|cs|-1]] <= ps[y]
    ensures x < y
  {
    var front := cs[..|cs|-1];
    var k :| 0 <= k < |front| && ps[front[k]] <= ps[x];
    assert front[k] == cs[k] < cs[|cs|-1];
    SubtreesKeepOrder(ps, cs[k], cs[|cs|-1], x, y);
  }

  /** Within each tree the walk shows groups in path order. */
  lemma {:induction false} WalkRises(ps: seq<Path>, i: nat)
    requires Ascending(ps) && i < |ps|
    ensures Rising(Walk(ps, i))
    decreases |ps| - i, 0
  {
    var cs := Children(ps, i, |ps|);
    ChildrenAreLater(ps, i);
    ChildrenAreSiblings(ps, i);
    WalkAllRises(ps, cs, ps[i]);
    var rest := WalkAll(ps, cs);
    forall y | y in rest ensures i < y { BelowIsLater(ps, i, y); }
    RisingJoin([i], rest);
  }

  lemma {:induction false} WalkAllRises(ps: seq<Path>, cs: seq<nat>, parent: Path)
    requires Ascending(ps) && Siblings(ps, cs, parent)
    ensures Rising(WalkAll(ps, cs))
    decreases |ps| - Low(cs, |ps|), |cs|
  {
    if cs != [] {
      var front, last := cs[..|cs|-1], cs[|cs|-1];
      assert Low(cs, |ps|) <= last;
      WalkAllRises(ps, front, parent);
      WalkRises(ps, last);
      var early, late := WalkAll(ps, front), Walk(ps, last);
      forall x, y | x in early && y in late ensures x < y {
        VisitedLiesBelowSome(ps, front, x);
        VisitedLiesBelow(ps, last, y);
        FrontIsEarlier(ps, cs, parent, x, y);
      }
      RisingJoin(early, late);
    }
  }

  // ------------------------------------------------- when nothing is missing

  /** Every reported group's parent was reported too. */
  ghost predicate PrefixClosed(ps: seq<Path>) {
    forall j | 0 <= j < |ps| && |ps[j]| > 1 :: ps[j][..|ps[j]|-1] in ps
  }

  function UpTo(n: nat): seq<nat> { seq(n, i => i) }

  lemma {:induction false} RisingFills(xs: seq<nat>, n: nat, k: nat)
    requires Rising(xs) && k < n && forall j: nat | j < n :: j in xs
    ensures k < |xs| && xs[k] == k
  {
    if k > 0 { RisingFills(xs, n, k - 1); }
    assert k in xs;
    var m :| 0 <= m < |xs| && xs[m] == k;
    if k > 0 { assert xs[k - 1] < xs[k]; }
  }

  lemma {:induction false} RisingIsShort(xs: seq<nat>, k: nat)
    requires Rising(xs) && k < |xs|
    ensures k <= xs[k]
  {
    if k > 0 {
      RisingIsShort(xs, k - 1);
      assert xs[k - 1] < xs[k];
    }
  }

  lemma RisingOnceIsAll(xs: seq<nat>, n: nat)
    requires Rising(xs) && Within(xs, n) && forall j: nat | j < n :: j in xs
    ensures xs == UpTo(n)
  {
    forall k: nat | k < n ensures k < |xs| && xs[k] == k { RisingFills(xs, n, k); }
    if |xs| > n { RisingIsShort(xs, n); }
    if |xs| < n { RisingFills(xs, n, |xs|); }
  }

  lemma SingleNames(ps: seq<Path>, a: nat, b: nat)
    requires Ascending(ps) && a < b < |ps| && |ps[a]| == |ps[b]| == 1
    ensures StringLess(NameAt(ps, a), NameAt(ps, b))
  {
    StringOrder();
    assert Before(ps, a, b);
    LexDifference(ps[a], ps[b], 0, StringLess);
  }

  lemma RootsAreSingle(ps: seq<Path>, r: nat)
    requires Ordered(ps) && PrefixClosed(ps) && r < |ps| && IsRoot(ps, r)
    ensures |ps[r]| == 1
  {
  }

  /** Single-segment groups never tie by name. */
  lemma SingleTieIsEqual(ps: seq<Path>, x: nat, y: nat)
    requires Ascending(ps) && x < |ps| && y < |ps| && |ps[x]| == |ps[y]| == 1
    requires StringLeq(NameAt(ps, x), NameAt(ps, y)) && StringLeq(NameAt(ps, y), NameAt(ps, x))
    ensures x == y
  {
    StringOrder();
    if x < y { SingleNames(ps, x, y); }
    if y < x { SingleNames(ps, y, x); }
  }

  lemma RootsByName(ps: seq<Path>)
    requires Ordered(ps) && PrefixClosed(ps)
    ensures SortedBy(Roots(ps, |ps|), ByName(ps))
  {
    var roots, leq := Roots(ps, |ps|), ByName(ps);
    RootsAre(ps, |ps|);
    forall k, m | 0 <= k < m < |roots| ensures leq(roots[k], roots[m]) {
      assert roots[k] in roots && roots[m] in roots;
      RootsAreSingle(ps, roots[k]);
      RootsAreSingle(ps, roots[m]);
      SingleNames(ps, roots[k], roots[m]);
    }
  }

  /** With no parent missing, the roots are already in the order of their names. */
  lemma TopsAreInOrder(ps: seq<Path>)
    requires Ordered(ps) && PrefixClosed(ps)
    ensures Tops(ps) == Roots(ps, |ps|)
  {
    var roots, tops, leq := Roots(ps, |ps|), Tops(ps), ByName(ps);
    ByNamePreorder(ps);
    SortedSorts(roots, leq);
    RootsByName(ps);
    Bags.SameSize(tops, roots);
    RootsAre(ps, |ps|);
    forall x, y | x in tops && y in tops && leq(x, y) && leq(y, x) ensures x == y {
      assert x in roots && y in roots;
      RootsAreSingle(ps, x);
      RootsAreSingle(ps, y);
      SingleTieIsEqual(ps, x, y);
    }
    AscendingUnique(tops, roots, leq);
  }

  lemma SinglesAreSiblings(ps: seq<Path>, cs: seq<nat>)
    requires Within(cs, |ps|) && Rising(cs) && forall k | 0 <= k < |cs| :: |ps[cs[k]]| == 1
    ensures Siblings(ps, cs, [])
  {
  }

  lemma RootsAreSiblings(ps: seq<Path>)
    requires Ordered(ps) && PrefixClosed(ps)
    ensures Siblings(ps, Roots(ps, |ps|), [])
  {
    var roots := Roots(ps, |ps|);
    RootsAre(ps, |ps|);
    forall k | 0 <= k < |roots| ensures |ps[roots[k]]| == 1 {
      assert roots[k] in roots;
      RootsAreSingle(ps, roots[k]);
    }
    SinglesAreSiblings(ps, roots);
  }

  lemma VisitedExactly(ps: seq<Path>, cs: seq<nat>, j: nat)
    requires Ordered(ps) && AllRoots(ps, cs)
    ensures j in WalkAll(ps, cs) <==> j < |ps|
  {
    EveryGroupOnce(ps, cs, j);
    assert j in WalkAll(ps, cs) <==> j in multiset(WalkAll(ps, cs));
  }

  lemma SiblingsWalkIsAll(ps: seq<Path>, cs: seq<nat>)
    requires Ordered(ps) && AllRoots(ps, cs) && Siblings(ps, cs, [])
    ensures WalkAll(ps, cs) == UpTo(|ps|)
  {
    var xs := WalkAll(ps, cs);
    WalkAllRises(ps, cs, []);
    forall j: nat ensures j in xs <==> j < |ps| { VisitedExactly(ps, cs, j); }
    RisingOnceIsAll(xs, |ps|);
  }

  /** With no parent missing, the screen shows the groups sorted by path. */
  lemma ClosedWalkIsSorted(ps: seq<Path>)
    requires Ordered(ps) && PrefixClosed(ps)
    requires Within(Tops(ps), |ps|)
    ensures WalkAll(ps, Tops(ps)) == UpTo(|ps|)
  {
    TopsAreRoots(ps);
    TopsAreInOrder(ps);
    RootsAreSiblings(ps);
    SiblingsWalkIsAll(ps, Tops(ps));
  }

  // ------------------------------------------------------- building it

  /** A node of the tree; children are hung under it in place. */
  class Node {
    const group: Group
    var children: seq<Node>

    constructor (group: Group)
      ensures this.group == group && children == []
    {
      this.group := group;
      children := [];
    }
  }

  function NodesAt(nodes: seq<Node>, cs: seq<nat>): (ns: seq<Node>)
    requires Within(cs, |nodes|)
  {
    seq(|cs|, k requires 0 <= k < |cs| => nodes[cs[k]])
  }

  function GroupsAt(gs: seq<Group>, cs: seq<nat>): seq<Group>
    requires Within(cs, |gs|)
  {
    seq(|cs|, k requires 0 <= k < |cs| => gs[cs[k]])
  }

  /** The nodes carry the rows, and under each hang the nodes of its children among the first `upTo`. */
  ghost predicate Linked(nodes: seq<Node>, gs: seq<Group>, upTo: nat)
    requires upTo <= |gs|
    reads nodes
  {
    && |nodes| == |gs|
    && (forall i, j | 0 <= i < j < |nodes| :: nodes[i] != nodes[j])
    && (forall i | 0 <= i < |nodes| :: nodes[i].group == gs[i])
    && (forall i: nat | i < |nodes| :: Hung(nodes, Paths(gs), i, upTo))
  }

  ghost predicate Hung(nodes: seq<Node>, ps: seq<Path>, i: nat, upTo: nat)
    requires i < |nodes| == |ps| && upTo <= |ps|
    reads nodes[i]
  {
    nodes[i].children == NodesAt(nodes, Children(ps, i, upTo))
  }

  ghost predicate AllWellFormed(groups: seq<Group>) { forall g | g in groups :: WellFormed(g.path) }

  predicate At(gs: seq<Group>, k: nat, id: string) { k < |gs| && Id(gs[k]) == id }

  /** `byId` finds each node by its dotted name, and nothing else. */
  ghost predicate Indexed(byId: map<string, nat>, gs: seq<Group>) {
    && (forall k: nat, id | At(gs, k, id) :: id in byId && byId[id] == k)
    && (forall id | id in byId :: At(gs, byId[id], id))
  }

  lemma {:induction false} EnteredFrom(gs: seq<Group>)
    ensures forall k | 0 <= k < |Entered(gs)| :: Entered(gs)[k] in gs
  {
    if gs != [] { EnteredFrom(gs[..|gs|-1]); }
  }

  /** Entering one more sorted row by id: it replaces the last node, or its id is new. */
  lemma EnterById(before: seq<Group>, g: Group, byId: map<string, nat>)
    requires Ascending(Paths(before)) && NoneAbove(before, g.path) && Indexed(byId, before)
    requires AllWellFormed(before) && WellFormed(g.path)
    ensures Id(g) in byId ==> before != [] && byId[Id(g)] == |before| - 1 && before[|before|-1].path == g.path
    ensures Id(g) !in byId ==> before == [] || before[|before|-1].path != g.path
  {
    PathOrder();
    var last := |before| - 1;
    if before != [] {
      assert before[last].path == g.path || PathLess(before[last].path, g.path);
      forall m | 0 <= m < last ensures before[m].path != g.path {
        assert Before(Paths(before), m, last);
      }
    }
    assert before != [] ==> At(before, last, Id(before[last]));
    if Id(g) in byId {
      assert At(before, byId[Id(g)], Id(g));
      assert before[byId[Id(g)]] in before;
      DottedIsInjective(before[byId[Id(g)]].path, g.path);
    }
  }

  function Reindexed(byId: map<string, nat>, n: nat, g: Group): map<string, nat> {
    if Id(g) in byId then byId else byId[Id(g) := n]
  }

  function EnteredOne(before: seq<Group>, g: Group, byId: map<string, nat>): seq<Group>
    requires Id(g) in byId ==> byId[Id(g)] < |before|
  {
    if Id(g) in byId then before[..byId[Id(g)]] + [g] else before + [g]
  }

  lemma EnteredOneIsIndexed(before: seq<Group>, g: Group, byId: map<string, nat>)
    requires Indexed(byId, before) && (Id(g) in byId ==> byId[Id(g)] == |before| - 1)
    ensures Indexed(Reindexed(byId, |before|, g), EnteredOne(before, g, byId))
  {
    var after, index := EnteredOne(before, g, byId), Reindexed(byId, |before|, g);
    forall k: nat, id | At(after, k, id) ensures id in index && index[id] == k {
      assert k < |before| ==> At(before, k, Id(before[k]));
    }
    forall id | id in index ensures At(after, index[id], id) {
      assert id in byId ==> At(before, byId[id], id);
    }
  }

  lemma EnterStep(sorted: seq<Group>, i: nat, byId: map<string, nat>)
    requires AllWellFormed(sorted) && SortedBy(sorted, PathLeq) && i < |sorted|
    requires Indexed(byId, Entered(sorted[..i]))
    ensures var before := Entered(sorted[..i]);
      && (Id(sorted[i]) in byId ==> byId[Id(sorted[i])] == |before| - 1)
      && Entered(sorted[..i + 1]) == EnteredOne(before, sorted[i], byId)
      && Indexed(Reindexed(byId, |before|, sorted[i]), Entered(sorted[..i + 1]))
  {
    assert sorted[..i + 1][..i] == sorted[..i];
    BeforeEntering(sorted, i);
    EnterById(Entered(sorted[..i]), sorted[i], byId);
    EnteredOneIsIndexed(Entered(sorted[..i]), sorted[i], byId);
  }

  lemma SortedWellFormed(groups: seq<Group>)
    requires AllWellFormed(groups)
    ensures AllWellFormed(Sorted(groups, PathLeq)) && SortedBy(Sorted(groups, PathLeq), PathLeq)
  {
    PathPreorder();
    SortedSorts(groups, PathLeq);
    SortedSameElements(groups, PathLeq);
  }

  /** One fresh, childless node per row. */
  ghost predicate Bare(nodes: seq<Node>, gs: seq<Group>)
    reads nodes
  {
    && |nodes| == |gs|
    && (forall i | 0 <= i < |nodes| :: nodes[i].group == gs[i] && nodes[i].children == [])
    && (forall i, j | 0 <= i < j < |nodes| :: nodes[i] != nodes[j])
  }

  /** `by_id[id] = node`, keeping the place of an id that is already there. */
  method EnterNode(nodes: seq<Node>, byId: map<string, nat>, g: Group, ghost before: seq<Group>)
    returns (after: seq<Node>, index: map<string, nat>)
    requires Bare(nodes, before) && (Id(g) in byId ==> byId[Id(g)] == |before| - 1)
    ensures forall k | 0 <= k < |after| :: fresh(after[k]) || after[k] in nodes
    ensures Bare(after, EnteredOne(before, g, byId))
    ensures index == Reindexed(byId, |before|, g)
  {
    var node := new Node(g);
    assert node !in nodes;
    if Id(g) in byId {
      after, index := nodes[..byId[Id(g)]] + [node], byId;
    } else {
      after, index := nodes + [node], byId[Id(g) := |nodes|];
    }
  }

  /** One turn of the first loop. */
  method EnterNext(sorted: seq<Group>, i: nat, nodes: seq<Node>, byId: map<string, nat>)
    returns (after: seq<Node>, index: map<string, nat>)
    requires AllWellFormed(sorted) && SortedBy(sorted, PathLeq) && i < |sorted|
    requires Bare(nodes, Entered(sorted[..i])) && Indexed(byId, Entered(sorted[..i]))
    ensures forall k | 0 <= k < |after| :: fresh(after[k]) || after[k] in nodes
    ensures Bare(after, Entered(sorted[..i + 1])) && Indexed(index, Entered(sorted[..i + 1]))
  {
    EnterStep(sorted, i, byId);
    after, index := EnterNode(nodes, byId, sorted[i], Entered(sorted[..i]));
  }

  /** The first loop: one node per id, in sorted order. */
  method EnterNodes(sorted: seq<Group>) returns (nodes: seq<Node>, byId: map<string, nat>)
    requires AllWellFormed(sorted) && SortedBy(sorted, PathLeq)
    ensures forall k | 0 <= k < |nodes| :: fresh(nodes[k])
    ensures Bare(nodes, Entered(sorted)) && Indexed(byId, Entered(sorted))
  {
    nodes, byId := [], map[];
    var i := 0;
    while i < |sorted|
      invariant 0 <= i <= |sorted|
      invariant forall k | 0 <= k < |nodes| :: fresh(nodes[k])
      invariant Bare(nodes, Entered(sorted[..i])) && Indexed(byId, Entered(sorted[..i]))
    {
      nodes, byId := EnterNext(sorted, i, nodes, byId);
      i := i + 1;
    }
    assert sorted[..|sorted|] == sorted;
  }

  lemma BeforeEntering(sorted: seq<Group>, i: nat)
    requires AllWellFormed(sorted) && SortedBy(sorted, PathLeq) && i < |sorted|
    ensures var before := Entered(sorted[..i]);
      Ascending(Paths(before)) && NoneAbove(before, sorted[i].path) && AllWellFormed(before)
  {
    var before := Entered(sorted[..i]);
    assert SortedBy(sorted[..i], PathLeq);
    EnteredAscends(sorted[..i]);
    EnteredFrom(sorted[..i]);
    if i > 0 {
      PathOrder();
      assert PathLeq(sorted[i - 1], sorted[i]);
    }
  }

  /** Looking the parent up by name finds the group this one is a child of, or shows it is a root. */
  lemma ParentLookup(gs: seq<Group>, byId: map<string, nat>, i: nat)
    requires Ordered(Paths(gs)) && Indexed(byId, gs) && i < |gs| && gs[i].path != []
    ensures var ps, parent := Paths(gs), Dotted(gs[i].path[..|gs[i].path|-1]);
      if parent != "" && parent in byId
      then byId[parent] < |gs| && !IsRoot(ps, i) && forall k | 0 <= k < |gs| :: IsChild(ps, i, k) <==> k == byId[parent]
      else IsRoot(ps, i) && forall k | 0 <= k < |gs| :: !IsChild(ps, i, k)
  {
    var ps := Paths(gs);
    var path := ps[i];
    var up := path[..|path|-1];
    var parent := Dotted(up);
    if |path| > 1 {
      assert WellFormed(up);
      DottedIsNonEmpty(up);
    }
    if parent != "" && parent in byId {
      assert At(gs, byId[parent], parent);
      DottedIsInjective(ps[byId[parent]], up);
      forall k | 0 <= k < |gs| && IsChild(ps, i, k) ensures k == byId[parent] { PathsDiffer(ps, k, byId[parent]); }
    } else {
      forall k: nat | k < |gs| ensures ps[k] != up { assert At(gs, k, Dotted(ps[k])); }
      forall k | 0 <= k < |gs| ensures !IsChild(ps, i, k) { assert ps[k] != up; }
    }
  }

  lemma OneMoreChild(nodes: seq<Node>, ps: seq<Path>, k: nat, i: nat)
    requires k < |ps| == |nodes| && i < |ps|
    ensures NodesAt(nodes, Children(ps, k, i + 1))
         == NodesAt(nodes, Children(ps, k, i)) + if IsChild(ps, i, k) then [nodes[i]] else []
  {
  }

  /** A root leaves every node's children as they are. */
  lemma RootLeavesLinks(nodes: seq<Node>, gs: seq<Group>, i: nat)
    requires i < |gs| && Linked(nodes, gs, i)
    requires forall k | 0 <= k < |gs| :: !IsChild(Paths(gs), i, k)
    ensures Linked(nodes, gs, i + 1)
  {
    var next := i + 1;
    forall k: nat | k < |nodes| ensures Hung(nodes, Paths(gs), k, next) {
      assert Hung(nodes, Paths(gs), k, i);
      OneMoreChild(nodes, Paths(gs), k, i);
    }
  }

  /** `parent["children"].append(node)`. */
  method HangUnder(nodes: seq<Node>, p: nat, i: nat, ghost gs: seq<Group>)
    requires i < |gs| && p < |gs| && Linked(nodes, gs, i)
    requires forall k | 0 <= k < |gs| :: IsChild(Paths(gs), i, k) <==> k == p
    modifies nodes[p]
    ensures Linked(nodes, gs, i + 1)
  {
    nodes[p].children := nodes[p].children + [nodes[i]];
    var next := i + 1;
    forall k: nat | k < |nodes| ensures Hung(nodes, Paths(gs), k, next) {
      assert old(Hung(nodes, Paths(gs), k, i));
      OneMoreChild(nodes, Paths(gs), k, i);
    }
  }

  /** The first `upTo` nodes are hung, and `roots` are those among them that hang under none. */
  ghost predicate LinkedSoFar(nodes: seq<Node>, gs: seq<Group>, upTo: nat, roots: seq<nat>)
    requires upTo <= |gs| && Ordered(Paths(gs))
    reads nodes
  {
    Linked(nodes, gs, upTo) && roots == Roots(Paths(gs), upTo)
  }

  lemma NothingLinked(nodes: seq<Node>, gs: seq<Group>)
    requires Bare(nodes, gs) && Ordered(Paths(gs))
    ensures LinkedSoFar(nodes, gs, 0, [])
  {
  }

  /** One turn of the second loop: the node is hung under its parent's, or is a root. */
  method LinkNode(nodes: seq<Node>, byId: map<string, nat>, i: nat, ghost gs: seq<Group>) returns (root: bool)
    requires i < |gs| && Linked(nodes, gs, i) && Indexed(byId, gs) && Ordered(Paths(gs)) && gs[i].path != []
    modifies nodes
    ensures Linked(nodes, gs, i + 1)
    ensures root == IsRoot(Paths(gs), i)
  {
    var path := nodes[i].group.path;
    var parent := Dotted(path[..|path|-1]);
    ParentLookup(gs, byId, i);
    if parent != "" && parent in byId {
      HangUnder(nodes, byId[parent], i, gs);
      return false;
    }
    RootLeavesLinks(nodes, gs, i);
    return true;
  }

  lemma PathsAreNonEmpty(gs: seq<Group>)
    requires Ordered(Paths(gs))
    ensures forall i | 0 <= i < |gs| :: gs[i].path != []
  {
    forall i | 0 <= i < |gs| ensures gs[i].path != [] { assert WellFormed(Paths(gs)[i]); }
  }

  lemma RootsSnoc(ps: seq<Path>, i: nat)
    requires i < |ps| && forall k | 0 <= k < |ps| :: ps[k] != []
    ensures Roots(ps, i + 1) == Roots(ps, i) + if IsRoot(ps, i) then [i] else []
  {
  }

  /** The same, with the roots so far. */
  method LinkNext(nodes: seq<Node>, byId: map<string, nat>, i: nat, roots: seq<nat>, ghost gs: seq<Group>)
    returns (after: seq<nat>)
    requires i < |gs| && Ordered(Paths(gs)) && LinkedSoFar(nodes, gs, i, roots) && Indexed(byId, gs)
    modifies nodes
    ensures LinkedSoFar(nodes, gs, i + 1, after)
  {
    PathsAreNonEmpty(gs);
    RootsSnoc(Paths(gs), i);
    var root := LinkNode(nodes, byId, i, gs);
    after := roots + if root then [i] else [];
  }

  /** The second loop. */
  method LinkNodes(nodes: seq<Node>, byId: map<string, nat>, ghost gs: seq<Group>) returns (roots: seq<nat>)
    requires Bare(nodes, gs) && Indexed(byId, gs) && Ordered(Paths(gs))
    modifies nodes
    ensures Linked(nodes, gs, |gs|) && roots == Roots(Paths(gs), |gs|)
  {
    roots := [];
    NothingLinked(nodes, gs);
    var i := 0;
    while i < |nodes|
      invariant 0 <= i <= |nodes| == |gs|
      invariant LinkedSoFar(nodes, gs, i, roots)
    {
      roots := LinkNext(nodes, byId, i, roots, gs);
      i := i + 1;
    }
  }

  lemma RowsOrdered(groups: seq<Group>)
    requires AllWellFormed(groups)
    ensures Ordered(Paths(Rows(groups))) && forall i | 0 <= i < |Rows(groups)| :: Rows(groups)[i].path != []
  {
    var rows := Rows(groups);
    SortedWellFormed(groups);
    RowsAreTheLatest(groups);
    EnteredFrom(Sorted(groups, PathLeq));
    forall i | 0 <= i < |rows| ensures WellFormed(rows[i].path) { assert rows[i] in Sorted(groups, PathLeq); }
  }

  /** `build_tree`: a node for each path, holding the row last reported for it; under each node its
      children in path order; and, by name, the nodes whose parent was not reported. */
  method BuildTree(groups: seq<Group>) returns (tree: seq<Node>, ghost nodes: seq<Node>)
    requires AllWellFormed(groups)
    ensures forall n | n in nodes :: fresh(n)
    ensures Linked(nodes, Rows(groups), |Rows(groups)|)
    ensures Ordered(Paths(Rows(groups))) && forall i | 0 <= i < |Rows(groups)| :: Rows(groups)[i].path != []
    ensures Within(Tops(Paths(Rows(groups))), |nodes|) && tree == NodesAt(nodes, Tops(Paths(Rows(groups))))
  {
    var sorted := Sorted(groups, PathLeq);
    SortedWellFormed(groups);
    RowsOrdered(groups);
    var entered, byId := EnterNodes(sorted);
    var roots := LinkNodes(entered, byId, Rows(groups));
    nodes := entered;
    TopsAreRoots(Paths(Rows(groups)));
    var name := (a: nat, b: nat) => StringLeq(NameOf(entered, a), NameOf(entered, b));
    SameNames(entered, Rows(groups), roots);
    tree := NodesAt(entered, Sorted(roots, name));
  }

  function NameOf(nodes: seq<Node>, i: nat): string { if i < |nodes| then Id(nodes[i].group) else "" }

  lemma {:induction false} SortedSameKeys(s: seq<nat>, f: (nat, nat) -> bool, g: (nat, nat) -> bool)
    requires forall a: nat, b: nat :: f(a, b) == g(a, b)
    ensures Sorted(s, f) == Sorted(s, g)
  {
    if s != [] {
      SortedSameKeys(s[1..], f, g);
      InsertSameKeys(s[0], Sorted(s[1..], f), f, g);
    }
  }

  lemma {:induction false} InsertSameKeys(x: nat, s: seq<nat>, f: (nat, nat) -> bool, g: (nat, nat) -> bool)
    requires forall a: nat, b: nat :: f(a, b) == g(a, b)
    ensures Insert(x, s, f) == Insert(x, s, g)
  {
    if s != [] && !f(x, s[0]) { InsertSameKeys(x, s[1..], f, g); }
  }

  lemma SameNames(nodes: seq<Node>, gs: seq<Group>, roots: seq<nat>)
    requires Linked(nodes, gs, |gs|)
    ensures Sorted(roots, (a: nat, b: nat) => StringLeq(NameOf(nodes, a), NameOf(nodes, b)))
         == Sorted(roots, ByName(Paths(gs)))
  {
    forall a: nat ensures NameOf(nodes, a) == NameAt(Paths(gs), a) {}
    SortedSameKeys(roots, (a: nat, b: nat) => StringLeq(NameOf(nodes, a), NameOf(nodes, b)), ByName(Paths(gs)));
  }

  // ------------------------------------------------------- showing it

  lemma GroupsAtJoin(gs: seq<Group>, a: seq<nat>, b: seq<nat>)
    requires Within(a, |gs|) && Within(b, |gs|)
    ensures Within(a + b, |gs|) && GroupsAt(gs, a + b) == GroupsAt(gs, a) + GroupsAt(gs, b)
  {
  }

  lemma WalkAllLast(ps: seq<Path>, cs: seq<nat>, front: seq<nat>, last: nat)
    requires Ascending(ps) && Within(cs, |ps|) && Within(front, |ps|) && last < |ps|
    requires |cs| == |front| + 1 && cs[..|front|] == front && cs[|front|] == last
    ensures WalkAll(ps, cs) == WalkAll(ps, front) + Walk(ps, last)
  {
  }

  lemma WithinPrefix(cs: seq<nat>, n: nat, k: nat)
    requires Within(cs, n) && k <= |cs|
    ensures Within(cs[..k], n)
  {
  }

  lemma WalkAllSnoc(ps: seq<Path>, cs: seq<nat>, k: nat)
    requires Ascending(ps) && Within(cs, |ps|) && k < |cs|
    ensures WalkAll(ps, cs[..k + 1]) == WalkAll(ps, cs[..k]) + Walk(ps, cs[k])
  {
    WithinPrefix(cs, |ps|, k);
    WithinPrefix(cs, |ps|, k + 1);
    assert cs[..k + 1][..k] == cs[..k];
    WalkAllLast(ps, cs[..k + 1], cs[..k], cs[k]);
  }

  lemma ShownSnoc(gs: seq<Group>, cs: seq<nat>, k: nat, pushed: seq<Group>)
    requires Ascending(Paths(gs)) && Within(cs, |gs|) && k < |cs|
    ensures var ps := Paths(gs);
      pushed + GroupsAt(gs, WalkAll(ps, cs[..k])) + GroupsAt(gs, Walk(ps, cs[k]))
      == pushed + GroupsAt(gs, WalkAll(ps, cs[..k + 1]))
  {
    var ps := Paths(gs);
    WalkAllSnoc(ps, cs, k);
    GroupsAtJoin(gs, WalkAll(ps, cs[..k]), Walk(ps, cs[k]));
  }

  lemma ShownWhole(gs: seq<Group>, i: nat, rows: seq<Group>)
    requires Ascending(Paths(gs)) && i < |gs|
    ensures var ps := Paths(gs);
      rows + [gs[i]] + GroupsAt(gs, WalkAll(ps, Children(ps, i, |ps|))) == rows + GroupsAt(gs, Walk(ps, i))
  {
    var ps := Paths(gs);
    GroupsAtJoin(gs, [i], WalkAll(ps, Children(ps, i, |ps|)));
    assert GroupsAt(gs, [i]) == [gs[i]];
  }

  /** The inner `walk`: push the node, then walk its children. */
  method Visit(node: Node, rows: seq<Group>, ghost nodes: seq<Node>, ghost gs: seq<Group>, ghost i: nat)
    returns (shown: seq<Group>)
    requires Linked(nodes, gs, |gs|) && Ascending(Paths(gs)) && i < |gs| && node == nodes[i]
    ensures shown == rows + GroupsAt(gs, Walk(Paths(gs), i))
    decreases |gs| - i
  {
    ghost var ps := Paths(gs);
    ghost var cs := Children(ps, i, |ps|);
    assert Hung(nodes, ps, i, |gs|);
    ChildrenAreLater(ps, i);
    shown := rows + [node.group];
    ghost var pushed := shown;
    var k := 0;
    while k < |node.children|
      invariant 0 <= k <= |cs| == |node.children|
      invariant shown == pushed + GroupsAt(gs, WalkAll(ps, cs[..k]))
    {
      ShownSnoc(gs, cs, k, pushed);
      assert cs[k] in cs;
      shown := Visit(node.children[k], shown, nodes, gs, cs[k]);
      k := k + 1;
    }
    assert cs[..|cs|] == cs;
    ShownWhole(gs, i, rows);
  }

  /** `flatten`: the rows of the screen. */
  method Flatten(tree: seq<Node>, ghost nodes: seq<Node>, ghost gs: seq<Group>, ghost cs: seq<nat>)
    returns (shown: seq<Group>)
    requires Linked(nodes, gs, |gs|) && Ascending(Paths(gs)) && Within(cs, |gs|) && tree == NodesAt(nodes, cs)
    ensures shown == GroupsAt(gs, WalkAll(Paths(gs), cs))
  {
    ghost var ps := Paths(gs);
    shown := [];
    var k := 0;
    while k < |tree|
      invariant 0 <= k <= |cs| == |tree|
      invariant shown == [] + GroupsAt(gs, WalkAll(ps, cs[..k]))
    {
      ShownSnoc(gs, cs, k, []);
      shown := Visit(tree[k], shown, nodes, gs, cs[k]);
      k := k + 1;
    }
    assert cs[..|cs|] == cs;
  }

  lemma GroupsWithout(gs: seq<Group>, ys: seq<nat>, k: nat)
    requires Within(ys, |gs|) && k < |ys|
    ensures Within(Bags.Without(ys, k), |gs|)
    ensures multiset(GroupsAt(gs, ys)) == multiset(GroupsAt(gs, Bags.Without(ys, k))) + multiset{gs[ys[k]]}
  {
    var all := GroupsAt(gs, ys);
    Bags.WithoutBag(all, k);
    assert Bags.Without(all, k) == GroupsAt(gs, Bags.Without(ys, k));
  }

  lemma {:induction false} SameIndexesSameGroups(gs: seq<Group>, xs: seq<nat>, ys: seq<nat>)
    requires Within(xs, |gs|) && Within(ys, |gs|) && Bags.SameBag(xs, ys)
    ensures Bags.SameBag(GroupsAt(gs, xs), GroupsAt(gs, ys))
    decreases |xs|
  {
    Bags.SameSize(xs, ys);
    if xs != [] {
      var k := Bags.Find(xs, ys, 0);
      Bags.WithoutSame(xs, ys, 0, k);
      GroupsWithout(gs, ys, k);
      GroupsWithout(gs, xs, 0);
      SameIndexesSameGroups(gs, Bags.Without(xs, 0), Bags.Without(ys, k));
    }
  }

  lemma {:induction false} UpToOnce(n: nat, j: nat)
    ensures multiset(UpTo(n))[j] == if j < n then 1 else 0
  {
    if n > 0 {
      assert UpTo(n) == UpTo(n - 1) + [n - 1];
      UpToOnce(n - 1, j);
    }
  }

  /** What the screen shows: every reported path once, with the row last reported for it, whether or not
      its parent was reported; and in path order if no parent is missing. */
  method Show(groups: seq<Group>) returns (shown: seq<Group>)
    requires AllWellFormed(groups)
    ensures multiset(shown) == multiset(Rows(groups))
    ensures PrefixClosed(Paths(Rows(groups))) ==> shown == Rows(groups)
  {
    var tree, nodes := BuildTree(groups);
    ghost var gs := Rows(groups);
    ghost var ps := Paths(gs);
    shown := Flatten(tree, nodes, gs, Tops(ps));
    WalkIsWhole(gs);
  }

  lemma WalkIsWhole(gs: seq<Group>)
    requires Ordered(Paths(gs)) && forall i | 0 <= i < |gs| :: gs[i].path != []
    requires Within(Tops(Paths(gs)), |gs|)
    ensures multiset(GroupsAt(gs, WalkAll(Paths(gs), Tops(Paths(gs))))) == multiset(gs)
    ensures PrefixClosed(Paths(gs)) ==> GroupsAt(gs, WalkAll(Paths(gs), Tops(Paths(gs)))) == gs
  {
    var ps := Paths(gs);
    var xs := WalkAll(ps, Tops(ps));
    TopsAreRoots(ps);
    var seen: multiset<nat>, once: multiset<nat> := multiset(xs), multiset(UpTo(|gs|));
    forall j: nat ensures seen[j] == once[j] {
      EveryGroupOnce(ps, Tops(ps), j);
      UpToOnce(|gs|, j);
    }
    SameIndexesSameGroups(gs, xs, UpTo(|gs|));
    assert GroupsAt(gs, UpTo(|gs|)) == gs;
    if PrefixClosed(ps) { ClosedWalkIsSorted(ps); }
  }
}
