/** Lists whose order does not matter: filters and images of rearranged lists, their keys and their groups. */
module Bags {

  function Filter<T>(s: seq<T>, p: T -> bool): (r: seq<T>)
    ensures |r| <= |s| && forall k | 0 <= k < |r| :: p(r[k])
  {
    if s == [] then []
    else Filter(s[..|s|-1], p) + if p(s[|s|-1]) then [s[|s|-1]] else []
  }

  function Map<T, U>(s: seq<T>, f: T -> U): (r: seq<U>) { seq(|s|, i requires 0 <= i < |s| => f(s[i])) }

  function Sum(s: seq<real>): real { if s == [] then 0.0 else Sum(s[..|s|-1]) + s[|s|-1] }

  ghost predicate SameBag<T>(a: seq<T>, b: seq<T>) { multiset(a) == multiset(b) }

  lemma FilterSnoc<T>(s: seq<T>, i: nat, p: T -> bool)
    requires i < |s|
    ensures Filter(s[..i + 1], p) == Filter(s[..i], p) + if p(s[i]) then [s[i]] else []
  {
    assert s[..i + 1][..i] == s[..i];
  }

  lemma {:induction false} FilterBag<T>(s: seq<T>, p: T -> bool, x: T)
    ensures multiset(Filter(s, p))[x] == if p(x) then multiset(s)[x] else 0
  {
    if s != [] {
      FilterBag(s[..|s|-1], p, x);
      assert s == s[..|s|-1] + [s[|s|-1]];
    }
  }

  lemma FilterSame<T(!new)>(a: seq<T>, b: seq<T>, p: T -> bool)
    requires SameBag(a, b)
    ensures SameBag(Filter(a, p), Filter(b, p))
  {
    forall x: T ensures multiset(Filter(a, p))[x] == multiset(Filter(b, p))[x] {
      FilterBag(a, p, x);
      FilterBag(b, p, x);
    }
  }

  lemma InFilter<T>(s: seq<T>, p: T -> bool, x: T)
    ensures x in Filter(s, p) <==> x in s && p(x)
  {
    FilterBag(s, p, x);
    assert x in Filter(s, p) <==> x in multiset(Filter(s, p));
    assert x in s <==> x in multiset(s);
  }

  /** `s` without the element at `k`. */
  function Without<T>(s: seq<T>, k: nat): seq<T>
    requires k < |s|
  {
    s[..k] + s[k + 1..]
  }

  lemma WithoutBag<T>(s: seq<T>, k: nat)
    requires k < |s|
    ensures multiset(s) == multiset(Without(s, k)) + multiset{s[k]}
  {
    assert s == s[..k] + [s[k]] + s[k + 1..];
  }

  /** Taking one element out of each of two rearranged lists leaves rearranged lists. */
  lemma WithoutSame<T>(a: seq<T>, b: seq<T>, i: nat, k: nat)
    requires SameBag(a, b) && i < |a| && k < |b| && a[i] == b[k]
    ensures SameBag(Without(a, i), Without(b, k))
  {
    WithoutBag(a, i);
    WithoutBag(b, k);
    assert multiset(Without(a, i)) == multiset(a) - multiset{a[i]};
    assert multiset(Without(b, k)) == multiset(b) - multiset{b[k]};
  }

  lemma Find<T>(a: seq<T>, b: seq<T>, i: nat) returns (k: nat)
    requires SameBag(a, b) && i < |a|
    ensures k < |b| && b[k] == a[i]
  {
    assert a[i] in multiset(b);
    k :| 0 <= k < |b| && b[k] == a[i];
  }

  lemma SameSize<T>(a: seq<T>, b: seq<T>)
    requires SameBag(a, b)
    ensures |a| == |b| && forall x :: x in a <==> x in b
  {
    assert |multiset(a)| == |multiset(b)|;
    forall x ensures x in a <==> x in b { assert x in multiset(a) <==> x in multiset(b); }
  }

  lemma {:induction false} MapSame<T, U>(a: seq<T>, b: seq<T>, f: T -> U)
    requires SameBag(a, b)
    ensures SameBag(Map(a, f), Map(b, f))
    decreases |a|
  {
    SameSize(a, b);
    if a != [] {
      var k := Find(a, b, 0);
      WithoutSame(a, b, 0, k);
      MapSame(Without(a, 0), Without(b, k), f);
      assert Without(Map(a, f), 0) == Map(Without(a, 0), f) && Without(Map(b, f), k) == Map(Without(b, k), f);
      WithoutBag(Map(a, f), 0);
      WithoutBag(Map(b, f), k);
    }
  }

  // ------------------------------------------------- each key once

  ghost predicate NoRepeats<T>(s: seq<T>) { forall i, j | 0 <= i < j < |s| :: s[i] != s[j] }

  /** The values of a list in order of first appearance, as a dictionary keeps its keys. */
  function Distinct<T(==)>(s: seq<T>): seq<T> {
    if s == [] then []
    else
      var front, last := Distinct(s[..|s|-1]), s[|s|-1];
      if last in front then front else front + [last]
  }

  lemma {:induction false} DistinctIs<T(!new)>(s: seq<T>)
    ensures NoRepeats(Distinct(s))
    ensures forall x :: x in Distinct(s) <==> x in s
  {
    if s != [] {
      DistinctIs(s[..|s|-1]);
      assert s == s[..|s|-1] + [s[|s|-1]];
    }
  }

  lemma DistinctSnoc<T>(s: seq<T>, x: T)
    ensures Distinct(s + [x]) == if x in Distinct(s) then Distinct(s) else Distinct(s) + [x]
  {
    assert (s + [x])[..|s|] == s;
  }

  lemma {:induction false} OnceEach<T>(s: seq<T>, x: T)
    requires NoRepeats(s)
    ensures multiset(s)[x] == if x in s then 1 else 0
  {
    if s != [] {
      OnceEach(s[..|s|-1], x);
      assert s == s[..|s|-1] + [s[|s|-1]];
    }
  }

  lemma SameSetSameBag<T(!new)>(a: seq<T>, b: seq<T>)
    requires NoRepeats(a) && NoRepeats(b) && forall x :: x in a <==> x in b
    ensures SameBag(a, b)
  {
    forall x: T ensures multiset(a)[x] == multiset(b)[x] {
      OnceEach(a, x);
      OnceEach(b, x);
    }
  }

  lemma DistinctSame<T(!new)>(a: seq<T>, b: seq<T>)
    requires SameBag(a, b)
    ensures SameBag(Distinct(a), Distinct(b))
  {
    SameSize(a, b);
    DistinctIs(a);
    DistinctIs(b);
    SameSetSameBag(Distinct(a), Distinct(b));
  }

  lemma RepeatInBag<T>(s: seq<T>, i: nat, j: nat)
    requires i < j < |s| && s[i] == s[j]
    ensures multiset(s)[s[i]] >= 2
  {
    assert s == s[..j] + s[j..];
    assert s[..j][i] in multiset(s[..j]) && s[j..][0] in multiset(s[j..]);
  }

  /** A rearrangement of a list without repeats has none. */
  lemma NoRepeatsSame<T>(a: seq<T>, b: seq<T>)
    requires SameBag(a, b) && NoRepeats(a)
    ensures NoRepeats(b)
  {
    forall i, j | 0 <= i < j < |b| ensures b[i] != b[j] {
      if b[i] == b[j] {
        RepeatInBag(b, i, j);
        OnceEach(a, b[i]);
      }
    }
  }

  // ------------------------------------------------- groups

  function Concat<T>(ss: seq<seq<T>>): seq<T> { if ss == [] then [] else Concat(ss[..|ss|-1]) + ss[|ss|-1] }

  function Total(s: seq<nat>): nat { if s == [] then 0 else Total(s[..|s|-1]) + s[|s|-1] }

  function Size<T>(s: seq<T>): nat { |s| }

  function Is<T, K(==)>(f: T -> K, k: K): T -> bool { (x: T) => f(x) == k }

  /** The group `f` puts under a key. */
  function Group<T, K(==)>(s: seq<T>, f: T -> K): K -> seq<T> { (k: K) => Filter(s, Is(f, k)) }

  lemma MapSnoc<T, U>(s: seq<T>, x: T, f: T -> U)
    ensures Map(s + [x], f) == Map(s, f) + [f(x)]
  {
  }

  lemma FilterMapSnoc<T, U>(s: seq<T>, x: T, f: T -> U, p: U -> bool)
    ensures Filter(Map(s + [x], f), p) == Filter(Map(s, f), p) + if p(f(x)) then [f(x)] else []
  {
    MapSnoc(s, x, f);
    assert (Map(s, f) + [f(x)])[..|s|] == Map(s, f);
  }

  /** One more element: what passes a filter grows by it, or does not change. */
  lemma FilterOneMore<T>(s: seq<T>, i: nat, p: T -> bool)
    requires i < |s|
    ensures p(s[i]) ==> Filter(s[..i + 1], p) == Filter(s[..i], p) + [s[i]]
    ensures !p(s[i]) ==> Filter(s[..i + 1], p) == Filter(s[..i], p)
  {
    FilterSnoc(s, i, p);
  }

  lemma MapFront<T, U>(s: seq<T>, f: T -> U)
    requires s != []
    ensures Map(s, f)[..|s|-1] == Map(s[..|s|-1], f)
  {
  }

  lemma ConcatLast<T, U>(s: seq<T>, f: T -> seq<U>)
    requires s != []
    ensures Concat(Map(s, f)) == Concat(Map(s[..|s|-1], f)) + f(s[|s|-1])
  {
    MapFront(s, f);
  }

  lemma {:induction false} GroupsHold<T, K>(s: seq<T>, f: T -> K, keys: seq<K>, x: T)
    requires NoRepeats(keys)
    ensures multiset(Concat(Map(keys, Group(s, f))))[x] == if f(x) in keys then multiset(s)[x] else 0
  {
    if keys != [] {
      var front, k := keys[..|keys|-1], keys[|keys|-1];
      GroupsHold(s, f, front, x);
      ConcatLast(keys, Group(s, f));
      FilterBag(s, Is(f, k), x);
      assert f(x) in keys <==> f(x) in front || f(x) == k;
    }
  }

  /** The groups together are the whole list rearranged, in whatever order they are taken. */
  lemma GroupsConserve<T(!new), K>(s: seq<T>, f: T -> K, keys: seq<K>)
    requires NoRepeats(keys) && forall x | x in s :: f(x) in keys
    ensures SameBag(Concat(Map(keys, Group(s, f))), s)
  {
    var all := Concat(Map(keys, Group(s, f)));
    forall x: T ensures multiset(all)[x] == multiset(s)[x] {
      GroupsHold(s, f, keys, x);
      assert multiset(s)[x] > 0 ==> x in s;
    }
  }

  lemma {:induction false} ConcatSize<T>(ss: seq<seq<T>>)
    ensures |Concat(ss)| == Total(Map(ss, Size))
  {
    if ss != [] {
      var sizes: seq<nat>, last := Map(ss, Size), ss[|ss|-1];
      ConcatSize(ss[..|ss|-1]);
      assert sizes[..|ss|-1] == Map(ss[..|ss|-1], Size);
      assert sizes[|ss|-1] == Size(last) == |last|;
    }
  }

  lemma {:induction false} FilterJoin<T>(a: seq<T>, b: seq<T>, p: T -> bool)
    ensures Filter(a + b, p) == Filter(a, p) + Filter(b, p)
  {
    if b == [] {
      assert a + b == a;
    } else {
      assert (a + b)[..|a + b|-1] == a + b[..|b|-1];
      FilterJoin(a, b[..|b|-1], p);
    }
  }

  lemma {:induction false} FilterFilter<T>(s: seq<T>, p: T -> bool, q: T -> bool, both: T -> bool)
    requires forall x | x in s :: both(x) <==> p(x) && q(x)
    ensures Filter(Filter(s, p), q) == Filter(s, both)
  {
    if s != [] {
      var front, last := s[..|s|-1], s[|s|-1];
      FilterFilter(front, p, q, both);
      FilterJoin(Filter(front, p), if p(last) then [last] else [], q);
      assert [last][..0] == [];
    }
  }

  lemma MapJoin<T, U>(a: seq<T>, b: seq<T>, f: T -> U)
    ensures Map(a + b, f) == Map(a, f) + Map(b, f)
  {
  }

  lemma {:induction false} ConcatMap<T, U>(ss: seq<seq<T>>, f: T -> U, g: seq<T> -> seq<U>)
    requires forall s | s in ss :: g(s) == Map(s, f)
    ensures Map(Concat(ss), f) == Concat(Map(ss, g))
  {
    if ss != [] {
      ConcatMap(ss[..|ss|-1], f, g);
      MapFront(ss, g);
      MapJoin(Concat(ss[..|ss|-1]), ss[|ss|-1], f);
    }
  }
}
