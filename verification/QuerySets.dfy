/** Query sets: what may go in one, and the store an administrator edits. */
module QuerySets {
  import opened Wrappers
  import opened Order
  import Sql

  const MAX_QUERIES := 50
  const MAX_REPETITIONS := 20

  datatype Query = Query(name: string, sql: string, title: string, position: int)

  datatype SetError = UnknownSet | DuplicateName

  predicate NameStart(c: char) { 'a' <= c <= 'z' || '0' <= c <= '9' }
  predicate NameChar(c: char) { NameStart(c) || c == '_' || c == '-' }

  /** `NAME_PATTERN.match`; its `$` also matches before one final newline. */
  predicate ValidName(name: string) {
    var core := if name != "" && name[|name|-1] == '\n' then name[..|name|-1] else name;
    1 <= |core| <= 64 && NameStart(core[0]) && forall c | c in core :: NameChar(c)
  }

  // --------------------------------------------------- one set's queries

  predicate QueryLeq(a: Query, b: Query) {
    a.position < b.position || (a.position == b.position && StringLeq(a.name, b.name))
  }

  ghost predicate UniqueNames(qs: seq<Query>) {
    forall i, j | 0 <= i < j < |qs| :: qs[i].name != qs[j].name
  }

  /** Position first, then name, and no name twice: what makes a run repeatable. */
  ghost predicate WellFormed(qs: seq<Query>) {
    SortedBy(qs, QueryLeq) && UniqueNames(qs)
  }

  function IndexOf(qs: seq<Query>, name: string): (r: Option<nat>)
    ensures r.Some? ==> r.value < |qs| && qs[r.value].name == name
    ensures r.None? ==> forall q | q in qs :: q.name != name
  {
    if qs == [] then None
    else if qs[0].name == name then Some(0)
    else match IndexOf(qs[1..], name) case None => None case Some(i) => Some(i + 1)
  }

  function SortQueries(qs: seq<Query>): seq<Query> { Sorted(qs, QueryLeq) }

  /** The query `save_query` rewrites, if the original name is given and known. */
  function Target(qs: seq<Query>, original: Option<string>): (at: Option<nat>)
    ensures at.Some? ==> at.value < |qs| && Some(qs[at.value].name) == original
  {
    if original.Some? && original.value != "" then IndexOf(qs, original.value) else None
  }

  /** An added query without a title is titled by its name. */
  function Saved(qs: seq<Query>, name: string, title: string, sql: string, position: int,
                 original: Option<string>): Query
  {
    Query(name, sql, if title == "" && Target(qs, original).None? then name else title, position)
  }

  /** The list before it is sorted: the named query rewritten in place, or a new one at the end. */
  function Placed(qs: seq<Query>, name: string, title: string, sql: string, position: int,
                  original: Option<string>): seq<Query>
  {
    var q := Saved(qs, name, title, sql, position, original);
    match Target(qs, original)
    case Some(i) => qs[i := q]
    case None => qs + [q]
  }

  /** `save_query` on one set; `None` is DuplicateName. */
  function SaveInto(qs: seq<Query>, name: string, title: string, sql: string, position: int,
                    original: Option<string>): Option<seq<Query>>
  {
    if IndexOf(qs, name).Some? && original != Some(name) then None
    else Some(SortQueries(Placed(qs, name, title, sql, position, original)))
  }

  function Without(qs: seq<Query>, name: string): seq<Query> {
    if qs == [] then []
    else if qs[0].name != name then [qs[0]] + Without(qs[1..], name)
    else Without(qs[1..], name)
  }

  lemma QueryOrder()
    ensures TotalPreorder(QueryLeq)
  {
    StringOrder();
  }

  lemma NamesOfPermutation(a: seq<Query>, b: seq<Query>)
    requires multiset(a) == multiset(b) && UniqueNames(a)
    ensures UniqueNames(b)
  {
    forall i, j | 0 <= i < j < |b| ensures b[i].name != b[j].name {
      if b[i].name == b[j].name {
        assert b[i] in multiset(a) && b[j] in multiset(a);
        var x :| 0 <= x < |a| && a[x] == b[i];
        var y :| 0 <= y < |a| && a[y] == b[j];
        assert x == y && b[i] == b[j];
        TwiceInMultiset(b, i, j);
        OnceInMultiset(a, x);
        assert false;
      }
    }
  }

  lemma TwiceInMultiset(s: seq<Query>, i: nat, j: nat)
    requires i < j < |s| && s[i] == s[j]
    ensures multiset(s)[s[i]] >= 2
  {
    assert s == s[..i] + [s[i]] + s[i + 1..j] + [s[j]] + s[j + 1..];
  }

  lemma OnceInMultiset(s: seq<Query>, i: nat)
    requires i < |s| && UniqueNames(s)
    ensures multiset(s)[s[i]] == 1
  {
    assert s == s[..i] + [s[i]] + s[i + 1..];
    assert s[i] !in s[..i] && s[i] !in s[i + 1..];
  }

  /** `after` is `before` with the query `original` gone and `q` in. */
  ghost predicate Edited(before: seq<Query>, after: seq<Query>, q: Query, original: Option<string>) {
    && q in after
    && (forall other: Query | other.name != q.name ::
          other in after <==> other in before && Some(other.name) != original)
  }

  lemma ReplacedInPlace(qs: seq<Query>, i: nat, q: Query)
    requires UniqueNames(qs) && i < |qs|
    requires forall j | 0 <= j < |qs| && j != i :: qs[j].name != q.name
    ensures UniqueNames(qs[i := q]) && Edited(qs, qs[i := q], q, Some(qs[i].name))
  {
    var placed := qs[i := q];
    assert placed[i] in placed;
    forall other: Query | other.name != q.name
      ensures other in placed <==> other in qs && other.name != qs[i].name
    {
      if other in placed {
        var k :| 0 <= k < |placed| && placed[k] == other;
        assert k != i && qs[k] == other;
      }
      if other in qs && other.name != qs[i].name {
        var k :| 0 <= k < |qs| && qs[k] == other;
        assert placed[k] == other;
      }
    }
  }

  lemma PlacedIsEdited(qs: seq<Query>, name: string, title: string, sql: string, position: int,
                       original: Option<string>)
    requires UniqueNames(qs) && name != "" && forall q | q in qs :: q.name != ""
    requires IndexOf(qs, name).Some? ==> original == Some(name)
    ensures UniqueNames(Placed(qs, name, title, sql, position, original))
    ensures Edited(qs, Placed(qs, name, title, sql, position, original),
                   Saved(qs, name, title, sql, position, original), original)
  {
    var placed := Placed(qs, name, title, sql, position, original);
    var q := Saved(qs, name, title, sql, position, original);
    var at := Target(qs, original);
    if at.Some? {
      forall j | 0 <= j < |qs| && j != at.value ensures qs[j].name != name {
        assert qs[j] in qs;
      }
      ReplacedInPlace(qs, at.value, q);
    } else {
      assert placed[|qs|] == q;
      assert IndexOf(qs, name).None?;
      assert forall k | 0 <= k < |qs| :: qs[k] in qs;
    }
  }

  /** Saving keeps a set sorted and its names unique, and changes only the query it names.
      An empty original name means "add", and no query of a stored set is named "". */
  lemma SaveKeepsSetWellFormed(qs: seq<Query>, name: string, title: string, sql: string, position: int,
                               original: Option<string>)
    requires WellFormed(qs) && name != "" && forall q | q in qs :: q.name != ""
    ensures var r := SaveInto(qs, name, title, sql, position, original);
      && (r.None? <==> (exists q :: q in qs && q.name == name) && original != Some(name))
      && (r.Some? ==>
        && WellFormed(r.value)
        && Edited(qs, r.value, Saved(qs, name, title, sql, position, original), original))
  {
    var r := SaveInto(qs, name, title, sql, position, original);
    if r.Some? {
      var placed := Placed(qs, name, title, sql, position, original);
      PlacedIsEdited(qs, name, title, sql, position, original);
      QueryOrder();
      SortedSorts(placed, QueryLeq);
      SortedSameElements(placed, QueryLeq);
      NamesOfPermutation(placed, r.value);
    } else {
      var i := IndexOf(qs, name).value;
      assert qs[i] in qs && qs[i].name == name;
    }
  }

  lemma {:induction false} DeleteKeepsSetWellFormed(qs: seq<Query>, name: string)
    requires WellFormed(qs)
    ensures WellFormed(Without(qs, name))
    ensures forall q :: q in Without(qs, name) <==> q in qs && q.name != name
    ensures |Without(qs, name)| == |qs| <==> forall q | q in qs :: q.name != name
    ensures |Without(qs, name)| <= |qs|
  {
    if qs != [] {
      var rest := Without(qs[1..], name);
      DeleteKeepsSetWellFormed(qs[1..], name);
      assert qs == [qs[0]] + qs[1..];
      if qs[0].name != name {
        forall k | 0 <= k < |rest| ensures QueryLeq(qs[0], rest[k]) && qs[0].name != rest[k].name {
          assert rest[k] in rest;
          assert rest[k] in qs[1..];
        }
        ConsKeepsSorted(qs[0], rest, QueryLeq);
      }
    }
  }

  // ------------------------------------------------------------ the store

  class QuerySet {
    const key: string
    var queries: seq<Query>

    constructor (key: string)
      ensures this.key == key && queries == []
    {
      this.key := key;
      queries := [];
    }
  }

  class InMemoryQuerySetRepository {
    var sets: map<string, QuerySet>

    constructor ()
      ensures Valid() && sets == map[]
    {
      sets := map[];
    }

    ghost predicate Valid()
      reads this
    {
      forall k | k in sets :: sets[k].key == k
    }

    ghost function Contents(): map<string, seq<Query>>
      reads this, sets.Values
    {
      map k | k in sets :: sets[k].queries
    }

    /** Creates an empty set; an existing one keeps its object and its queries. */
    method SaveSet(key: string) returns (found: QuerySet)
      requires Valid()
      modifies this
      ensures Valid() && key in sets && found == sets[key]
      ensures key in old(sets) ==> sets == old(sets)
      ensures key !in old(sets) ==> fresh(found) && found.queries == [] && sets == old(sets)[key := found]
    {
      if key in sets {
        found := sets[key];
      } else {
        found := new QuerySet(key);
        sets := sets[key := found];
      }
    }

    /** The set object is forgotten, not changed: a run that holds it still reads it. */
    method DeleteSet(key: string) returns (removed: bool)
      requires Valid()
      modifies this
      ensures Valid() && removed == (key in old(sets)) && sets == old(sets) - {key}
    {
      removed := key in sets;
      sets := sets - {key};
    }

    /** Changes the set object in place: whoever holds it sees the new queries. */
    method SaveQuery(key: string, name: string, title: string, sql: string, position: int,
                     original: Option<string>) returns (error: Option<SetError>)
      requires Valid()
      modifies sets.Values
      ensures Valid()
      ensures error == Some(UnknownSet) <==> key !in sets
      ensures error.Some? ==> Contents() == old(Contents())
      ensures key in sets ==>
        var r := SaveInto(old(sets[key].queries), name, title, sql, position, original);
        && (error == Some(DuplicateName) <==> r.None?)
        && (error.None? ==> sets[key].queries == r.value)
      ensures forall k | k in sets && k != key :: sets[k].queries == old(sets[k].queries)
    {
      if key !in sets {
        return Some(UnknownSet);
      }
      var found := sets[key];
      if IndexOf(found.queries, name).Some? && original != Some(name) {
        return Some(DuplicateName);
      }
      var at := Target(found.queries, original);
      if at.None? {
        found.queries := found.queries + [Query(name, sql, if title == "" then name else title, position)];
      } else {
        found.queries := found.queries[at.value := Query(name, sql, title, position)];
      }
      found.queries := SortQueries(found.queries);
      return None;
    }

    method DeleteQuery(key: string, name: string) returns (removed: Option<bool>)
      requires Valid()
      modifies sets.Values
      ensures Valid()
      ensures removed.None? <==> key !in sets
      ensures key in sets ==>
        && sets[key].queries == Without(old(sets[key].queries), name)
        && (removed == Some(false) <==> sets[key].queries == old(sets[key].queries))
      ensures forall k | k in sets && k != key :: sets[k].queries == old(sets[k].queries)
    {
      if key !in sets {
        return None;
      }
      var found := sets[key];
      WithoutShrinks(found.queries, name);
      var remaining := Without(found.queries, name);
      if |remaining| == |found.queries| {
        return Some(false);
      }
      found.queries := remaining;
      return Some(true);
    }
  }

  lemma {:induction false} WithoutShrinks(qs: seq<Query>, name: string)
    ensures |Without(qs, name)| <= |qs|
    ensures |Without(qs, name)| == |qs| ==> Without(qs, name) == qs
  {
    if qs != [] { WithoutShrinks(qs[1..], name); }
  }

  // -------------------------------------------------- sets from configuration

  datatype RawQuery = RawQuery(name: string, sql: string, title: string)

  datatype LoadError =
    | NoQueries
    | TooManyQueries
    | UnusableName(index: nat)
    | NameTwice(index: nat)
    | NotAllowed(index: nat)

  datatype Loaded = Loaded(queries: seq<Query>) | Failed(error: LoadError)

  /** Entry `i` as it is stored. */
  function FromRaw(raw: RawQuery, i: nat, stored: string -> string): Query {
    Query(raw.name, stored(raw.sql), if raw.title == "" then raw.name else raw.title, i)
  }

  predicate Acceptable(sql: string) { Sql.Check(sql) == Sql.Allowed }

  predicate Declarable(raw: seq<RawQuery>, i: nat, accepts: string -> bool)
    requires i < |raw|
  {
    ValidName(raw[i].name) && NameIsNew(raw, i) && accepts(raw[i].sql)
  }

  predicate NameIsNew(raw: seq<RawQuery>, i: nat)
    requires i < |raw|
  {
    forall j | 0 <= j < i :: raw[j].name != raw[i].name
  }

  /** The three checks of one entry, in the order the source makes them. */
  function EntryError(raw: RawQuery, repeated: bool, i: nat, accepts: string -> bool): Option<LoadError> {
    if !ValidName(raw.name) then Some(UnusableName(i))
    else if repeated then Some(NameTwice(i))
    else if !accepts(raw.sql) then Some(NotAllowed(i))
    else None
  }

  lemma DeclaredOrderIsWellFormed(raw: seq<RawQuery>, qs: seq<Query>)
    requires |qs| == |raw|
    requires forall i | 0 <= i < |raw| :: qs[i].name == raw[i].name && qs[i].position == i
    requires forall i, j | 0 <= j < i < |raw| :: raw[j].name != raw[i].name
    ensures WellFormed(qs)
  {
  }

  lemma DeclaredAreWellFormed(raw: seq<RawQuery>, qs: seq<Query>, accepts: string -> bool, stored: string -> string)
    requires |qs| == |raw|
    requires forall i | 0 <= i < |raw| :: Declarable(raw, i, accepts) && qs[i] == FromRaw(raw[i], i, stored)
    ensures WellFormed(qs)
  {
    forall i, j | 0 <= j < i < |raw| ensures raw[j].name != raw[i].name { assert Declarable(raw, i, accepts); }
    DeclaredOrderIsWellFormed(raw, qs);
  }

  /** Entry `i` is the first that cannot be stored, and `error` says why. */
  ghost predicate FirstBad(raw: seq<RawQuery>, i: nat, accepts: string -> bool, error: LoadError) {
    && i < |raw| && (forall j | 0 <= j < i :: Declarable(raw, j, accepts))
    && EntryError(raw[i], !NameIsNew(raw, i), i, accepts) == Some(error)
  }

  /** What loading one declared set gives: every entry in order if all can be stored, and otherwise what
      is wrong with the first that cannot. */
  ghost predicate IsLoad(r: Loaded, raw: seq<RawQuery>, accepts: string -> bool, stored: string -> string) {
    && (r.Loaded? <==> 1 <= |raw| <= MAX_QUERIES && forall i | 0 <= i < |raw| :: Declarable(raw, i, accepts))
    && (r.Loaded? ==> |r.queries| == |raw| && forall i | 0 <= i < |raw| :: r.queries[i] == FromRaw(raw[i], i, stored))
    && (r.Loaded? ==> WellFormed(r.queries))
    && (r.Failed? ==> (r.error == NoQueries <==> raw == []) && (r.error == TooManyQueries <==> |raw| > MAX_QUERIES))
    && (r.Failed? && 1 <= |raw| <= MAX_QUERIES ==> exists i: nat :: FirstBad(raw, i, accepts, r.error))
  }

  method Declare(raw: seq<RawQuery>, accepts: string -> bool, stored: string -> string) returns (r: Loaded)
    ensures IsLoad(r, raw, accepts, stored)
  {
    if raw == [] {
      return Failed(NoQueries);
    }
    if |raw| > MAX_QUERIES {
      return Failed(TooManyQueries);
    }
    var queries := [];
    var seen := {};
    var i := 0;
    while i < |raw|
      invariant 0 <= i <= |raw| && |queries| == i
      invariant seen == set j | 0 <= j < i :: raw[j].name
      invariant forall j | 0 <= j < i :: Declarable(raw, j, accepts)
      invariant forall j | 0 <= j < i :: queries[j] == FromRaw(raw[j], j, stored)
    {
      assert raw[i].name in seen <==> !NameIsNew(raw, i);
      var error := EntryError(raw[i], raw[i].name in seen, i, accepts);
      if error.Some? {
        assert !Declarable(raw, i, accepts) && FirstBad(raw, i, accepts, error.value);
        return Failed(error.value);
      }
      seen := seen + {raw[i].name};
      queries := queries + [FromRaw(raw[i], i, stored)];
      i := i + 1;
    }
    DeclaredAreWellFormed(raw, queries, accepts, stored);
    return Loaded(queries);
  }

  /** One declared set, with the statement check and the storing of a statement that configuration uses. */
  method BuildQueries(raw: seq<RawQuery>) returns (r: Loaded)
    ensures IsLoad(r, raw, Acceptable, Sql.Stored)
  {
    r := Declare(raw, Acceptable, Sql.Stored);
  }

  /** Whatever configuration loads, the runner's own check accepts. */
  lemma LoadedQueriesAreAccepted(raw: seq<RawQuery>, i: nat)
    requires i < |raw| && Declarable(raw, i, Acceptable)
    ensures Acceptable(FromRaw(raw[i], i, Sql.Stored).sql)
  {
    Sql.AcceptedStaysAccepted(raw[i].sql);
  }
}
