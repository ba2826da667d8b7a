/** Python's ordering of strings and of lists, and what `sorted` returns. */
module Order {

  /** `a < b` for lists whose elements are compared with `less`. */
  predicate LexLess<T(==)>(a: seq<T>, b: seq<T>, less: (T, T) -> bool) {
    if b == [] then false
    else if a == [] then true
    else less(a[0], b[0]) || (a[0] == b[0] && LexLess(a[1..], b[1..], less))
  }

  predicate CharLess(x: char, y: char) { x < y }

  /** `a < b` for two Python strings. */
  predicate StringLess(a: string, b: string) { LexLess(a, b, CharLess) }

  /** `a < b` for two lists of strings, as when groups are sorted by path. */
  predicate PathLess(a: seq<string>, b: seq<string>) { LexLess(a, b, StringLess) }

  predicate StringLeq(a: string, b: string) { a == b || StringLess(a, b) }

  ghost predicate StrictTotal<T(!new)>(less: (T, T) -> bool) {
    && (forall x :: !less(x, x))
    && (forall x, y, z :: less(x, y) && less(y, z) ==> less(x, z))
    && (forall x, y :: x == y || less(x, y) || less(y, x))
  }

  lemma {:induction false} LexIrreflexive<T(!new)>(a: seq<T>, less: (T, T) -> bool)
    requires StrictTotal(less)
    ensures !LexLess(a, a, less)
  {
    if a != [] { LexIrreflexive(a[1..], less); }
  }

  lemma {:induction false} LexTransitive<T(!new)>(a: seq<T>, b: seq<T>, c: seq<T>, less: (T, T) -> bool)
    requires StrictTotal(less)
    requires LexLess(a, b, less) && LexLess(b, c, less)
    ensures LexLess(a, c, less)
  {
    if a != [] && a[0] == b[0] && b[0] == c[0] {
      LexTransitive(a[1..], b[1..], c[1..], less);
    }
  }

  lemma {:induction false} LexTrichotomy<T(!new)>(a: seq<T>, b: seq<T>, less: (T, T) -> bool)
    requires StrictTotal(less)
    ensures a == b || LexLess(a, b, less) || LexLess(b, a, less)
  {
    if a != [] && b != [] && a[0] == b[0] {
      LexTrichotomy(a[1..], b[1..], less);
      assert a == [a[0]] + a[1..] && b == [b[0]] + b[1..];
    }
  }

  lemma LexIsStrictTotal<T(!new)>(less: (T, T) -> bool)
    requires StrictTotal(less)
    ensures StrictTotal((a: seq<T>, b: seq<T>) => LexLess(a, b, less))
  {
    forall a: seq<T> ensures !LexLess(a, a, less) { LexIrreflexive(a, less); }
    forall a: seq<T>, b: seq<T>, c: seq<T> | LexLess(a, b, less) && LexLess(b, c, less)
      ensures LexLess(a, c, less)
    {
      LexTransitive(a, b, c, less);
    }
    forall a: seq<T>, b: seq<T> ensures a == b || LexLess(a, b, less) || LexLess(b, a, less) {
      LexTrichotomy(a, b, less);
    }
  }

  lemma StringOrder()
    ensures StrictTotal(StringLess)
  {
    assert StrictTotal(CharLess);
    LexIsStrictTotal(CharLess);
    forall a: string, b: string ensures StringLess(a, b) == LexLess(a, b, CharLess) {}
    var f := (a: string, b: string) => LexLess(a, b, CharLess);
    assert forall a, b :: f(a, b) == StringLess(a, b);
  }

  lemma PathOrder()
    ensures StrictTotal(PathLess)
  {
    StringOrder();
    LexIsStrictTotal(StringLess);
    var f := (a: seq<string>, b: seq<string>) => LexLess(a, b, StringLess);
    assert forall a, b :: f(a, b) == PathLess(a, b);
  }

  /** A proper prefix sorts before what it is a prefix of. */
  lemma {:induction false} PrefixFirst<T(!new)>(a: seq<T>, b: seq<T>, less: (T, T) -> bool)
    requires a < b
    ensures LexLess(a, b, less)
  {
    if a != [] {
      assert a[0] == b[0];
      PrefixFirst(a[1..], b[1..], less);
    }
  }

  /** Lists that differ at `n` after a shared prefix are ordered by the difference alone. */
  lemma {:induction false} LexAtDifference<T(!new)>(a: seq<T>, b: seq<T>, n: nat, less: (T, T) -> bool)
    requires n < |a| && n < |b| && a[..n] == b[..n]
    requires less(a[n], b[n])
    ensures LexLess(a, b, less)
  {
    if n > 0 {
      assert a[0] == a[..n][0] == b[..n][0] == b[0];
      assert a[1..][..n-1] == a[..n][1..] == b[..n][1..] == b[1..][..n-1];
      LexAtDifference(a[1..], b[1..], n - 1, less);
    }
  }

  lemma {:induction false} LexDifference<T(!new)>(a: seq<T>, b: seq<T>, n: nat, less: (T, T) -> bool)
    requires StrictTotal(less)
    requires |a| == |b| == n + 1 && a[..n] == b[..n]
    requires LexLess(a, b, less)
    ensures less(a[n], b[n])
  {
    if n > 0 {
      assert a[0] == a[..n][0] == b[..n][0] == b[0];
      assert a[1..][..n-1] == a[..n][1..] == b[..n][1..] == b[1..][..n-1];
      LexDifference(a[1..], b[1..], n - 1, less);
    }
  }

  // ------------------------------------------------------------- sorting

  ghost predicate SortedBy<T>(s: seq<T>, leq: (T, T) -> bool) {
    forall i, j | 0 <= i < j < |s| :: leq(s[i], s[j])
  }

  ghost predicate TotalPreorder<T(!new)>(leq: (T, T) -> bool) {
    && (forall x, y :: leq(x, y) || leq(y, x))
    && (forall x, y, z :: leq(x, y) && leq(y, z) ==> leq(x, z))
  }

  lemma StringLeqOrder()
    ensures TotalPreorder(StringLeq)
    ensures forall x: string, y: string | StringLeq(x, y) && StringLeq(y, x) :: x == y
  {
    StringOrder();
    forall x: string, y: string, z: string | StringLeq(x, y) && StringLeq(y, z) ensures StringLeq(x, z) {
      if x != y && y != z { assert StringLess(x, y) && StringLess(y, z); }
    }
    forall x: string, y: string | StringLeq(x, y) && StringLeq(y, x) ensures x == y {
      assert !StringLess(x, x) && (StringLess(x, y) && StringLess(y, x) ==> StringLess(x, x));
    }
  }

  function Insert<T>(x: T, s: seq<T>, leq: (T, T) -> bool): seq<T> {
    if s == [] then [x]
    else if leq(x, s[0]) then [x] + s
    else [s[0]] + Insert(x, s[1..], leq)
  }

  /** Python's `sorted`: stable, ascending in `leq`. */
  function Sorted<T>(s: seq<T>, leq: (T, T) -> bool): seq<T> {
    if s == [] then [] else Insert(s[0], Sorted(s[1..], leq), leq)
  }

  lemma ConsKeepsSorted<T>(x: T, s: seq<T>, leq: (T, T) -> bool)
    requires SortedBy(s, leq)
    requires forall j | 0 <= j < |s| :: leq(x, s[j])
    ensures SortedBy([x] + s, leq)
  {
    forall i, j | 0 <= i < j < |s| + 1 ensures leq(([x] + s)[i], ([x] + s)[j]) {
      if i > 0 { assert leq(s[i - 1], s[j - 1]); }
    }
  }

  lemma {:induction false} InsertKeeps<T(!new)>(x: T, s: seq<T>, leq: (T, T) -> bool)
    requires TotalPreorder(leq) && SortedBy(s, leq)
    ensures SortedBy(Insert(x, s, leq), leq)
    ensures multiset(Insert(x, s, leq)) == multiset(s) + multiset{x}
  {
    if s == [] {
    } else if leq(x, s[0]) {
      assert s == [s[0]] + s[1..];
      assert forall j | 0 <= j < |s| :: leq(s[0], s[j]) || j == 0;
      assert leq(s[0], s[0]);
    } else {
      var rest := Insert(x, s[1..], leq);
      InsertKeeps(x, s[1..], leq);
      assert s == [s[0]] + s[1..];
      forall j | 0 <= j < |rest| ensures leq(s[0], rest[j]) {
        assert rest[j] in multiset(rest);
        if rest[j] != x {
          assert rest[j] in multiset(s[1..]);
          assert rest[j] in s[1..];
        }
      }
      ConsKeepsSorted(s[0], rest, leq);
    }
  }

  lemma {:induction false} SortedSorts<T(!new)>(s: seq<T>, leq: (T, T) -> bool)
    requires TotalPreorder(leq)
    ensures SortedBy(Sorted(s, leq), leq)
    ensures multiset(Sorted(s, leq)) == multiset(s)
  {
    if s != [] {
      SortedSorts(s[1..], leq);
      InsertKeeps(s[0], Sorted(s[1..], leq), leq);
      assert s == [s[0]] + s[1..];
    }
  }

  lemma SortedSameElements<T(!new)>(s: seq<T>, leq: (T, T) -> bool)
    requires TotalPreorder(leq)
    ensures |Sorted(s, leq)| == |s|
    ensures forall x :: x in Sorted(s, leq) <==> x in s
  {
    SortedSorts(s, leq);
    assert |multiset(Sorted(s, leq))| == |multiset(s)|;
    forall x ensures x in Sorted(s, leq) <==> x in s {
      assert x in multiset(Sorted(s, leq)) <==> x in multiset(s);
    }
  }

  lemma SameLeast<T(!new)>(a: seq<T>, b: seq<T>, leq: (T, T) -> bool)
    requires SortedBy(a, leq) && SortedBy(b, leq) && multiset(a) == multiset(b)
    requires forall x, y | x in a && y in a && leq(x, y) && leq(y, x) :: x == y
    requires a != [] && b != []
    ensures a[0] == b[0]
  {
    assert a[0] in multiset(b) && b[0] in multiset(a);
    var i :| 0 <= i < |a| && a[i] == b[0];
    var j :| 0 <= j < |b| && b[j] == a[0];
    if i > 0 && j > 0 {
      assert leq(a[0], a[i]) && leq(b[0], b[j]);
    }
  }

  lemma RestOf<T>(a: seq<T>)
    requires a != []
    ensures a == [a[0]] + a[1..]
    ensures multiset(a[1..]) == multiset(a) - multiset{a[0]}
  {
    assert a == [a[0]] + a[1..];
  }

  /** Two ascending lists of the same elements are equal when no two distinct elements tie. */
  lemma {:induction false} AscendingUnique<T(!new)>(a: seq<T>, b: seq<T>, leq: (T, T) -> bool)
    requires SortedBy(a, leq) && SortedBy(b, leq) && multiset(a) == multiset(b)
    requires forall x, y | x in a && y in a && leq(x, y) && leq(y, x) :: x == y
    ensures a == b
  {
    assert |multiset(a)| == |multiset(b)|;
    if a != [] {
      SameLeast(a, b, leq);
      RestOf(a);
      RestOf(b);
      AscendingUnique(a[1..], b[1..], leq);
    }
  }

  /** Sorting forgets the arrival order when no two distinct elements tie. */
  lemma SortedForgetsOrder<T(!new)>(a: seq<T>, b: seq<T>, leq: (T, T) -> bool)
    requires TotalPreorder(leq) && multiset(a) == multiset(b)
    requires forall x, y | x in a && y in a && leq(x, y) && leq(y, x) :: x == y
    ensures Sorted(a, leq) == Sorted(b, leq)
  {
    SortedSorts(a, leq);
    SortedSorts(b, leq);
    SortedSameElements(a, leq);
    AscendingUnique(Sorted(a, leq), Sorted(b, leq), leq);
  }

  /** Sorting by what a function gives is the same before and after applying it. */
  lemma {:induction false} InsertImage<T, U>(x: T, s: seq<T>, t: seq<U>, f: T -> U, keyed: (T, T) -> bool,
                                                leq: (U, U) -> bool)
    requires forall a, b | a in [x] + s && b in [x] + s :: keyed(a, b) == leq(f(a), f(b))
    requires |t| == |s| && forall k | 0 <= k < |s| :: t[k] == f(s[k])
    ensures var i, j := Insert(x, s, keyed), Insert(f(x), t, leq);
      |i| == |j| == |s| + 1 && forall k | 0 <= k < |i| :: j[k] == f(i[k])
    ensures forall y | y in Insert(x, s, keyed) :: y in [x] + s
  {
    if s != [] && !keyed(x, s[0]) {
      assert x in [x] + s && s[0] in [x] + s;
      InsertImage(x, s[1..], t[1..], f, keyed, leq);
    } else if s != [] {
      assert x in [x] + s && s[0] in [x] + s;
    }
  }

  lemma {:induction false} SortedImage<T, U>(s: seq<T>, t: seq<U>, f: T -> U, keyed: (T, T) -> bool,
                                                leq: (U, U) -> bool)
    requires forall a, b | a in s && b in s :: keyed(a, b) == leq(f(a), f(b))
    requires |t| == |s| && forall k | 0 <= k < |s| :: t[k] == f(s[k])
    ensures var i, j := Sorted(s, keyed), Sorted(t, leq);
      |i| == |j| == |s| && forall k | 0 <= k < |i| :: j[k] == f(i[k])
    ensures forall y | y in Sorted(s, keyed) :: y in s
  {
    if s != [] {
      SortedImage(s[1..], t[1..], f, keyed, leq);
      InsertImage(s[0], Sorted(s[1..], keyed), Sorted(t[1..], leq), f, keyed, leq);
    }
  }
}
