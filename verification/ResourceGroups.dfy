/** Resource groups by path and by dotted name, and reading one from the other. */
module ResourceGroups {
  import opened Text
  import opened Wrappers

  type Path = seq<string>

  const PREFIX := "trino.execution.resourcegroups:type=InternalResourceGroup,name="

  /** `".".join(path)`. */
  function Dotted(path: Path): string { Join(path, ".") }

  predicate WellFormed(path: Path) {
    path != [] && forall k | 0 <= k < |path| :: path[k] != "" && '.' !in path[k]
  }

  function UntilDot(s: string): (n: nat)
    ensures n <= |s| && (n < |s| ==> s[n] == '.')
    ensures '.' !in s[..n]
  {
    if s == "" || s[0] == '.' then 0 else 1 + UntilDot(s[1..])
  }

  /** `raw.split(".")`: one more segment than there are dots. */
  function Split(s: string): (segments: seq<string>)
    ensures segments != []
    decreases |s|
  {
    var n := UntilDot(s);
    if n == |s| then [s] else [s[..n]] + Split(s[n + 1..])
  }

  lemma {:induction false} SegmentsHaveNoDot(s: string)
    ensures forall k | 0 <= k < |Split(s)| :: '.' !in Split(s)[k]
    decreases |s|
  {
    var n := UntilDot(s);
    if n < |s| { SegmentsHaveNoDot(s[n + 1..]); }
  }

  function NonEmpty(segments: seq<string>): (kept: seq<string>)
    ensures forall k | 0 <= k < |kept| :: kept[k] != "" && kept[k] in segments
  {
    if segments == [] then []
    else (if segments[0] == "" then [] else [segments[0]]) + NonEmpty(segments[1..])
  }

  /** `group_path`: the path an MBean's object name carries, if it names a group at all. */
  function GroupPath(objectName: string): (path: Option<Path>)
    ensures path.Some? && path.value != [] ==> WellFormed(path.value)
  {
    if !(PREFIX <= objectName) then None
    else
      var raw := Trim(objectName[|PREFIX|..], IsSpace);
      SegmentsHaveNoDot(raw);
      if raw == "" then None else Some(NonEmpty(Split(raw)))
  }

  lemma DottedCons(head: string, rest: Path)
    ensures Dotted([head] + rest) == if rest == [] then head else head + "." + Dotted(rest)
  {
    assert ([head] + rest)[1..] == rest;
  }

  lemma CutAtDot(s: string, n: nat)
    requires n < |s| && s[n] == '.'
    ensures s == s[..n] + "." + s[n + 1..]
  {
  }

  lemma SplitStep(s: string, n: nat)
    requires n == UntilDot(s) < |s|
    ensures Split(s) == [s[..n]] + Split(s[n + 1..])
  {
  }

  lemma {:induction false} JoinSplit(s: string)
    ensures Dotted(Split(s)) == s
    decreases |s|
  {
    var n := UntilDot(s);
    if n == |s| {
      assert Split(s) == [s];
    } else {
      JoinSplit(s[n + 1..]);
      SplitStep(s, n);
      DottedCons(s[..n], Split(s[n + 1..]));
      CutAtDot(s, n);
    }
  }

  lemma {:induction false} UntilDotOf(head: string, rest: string)
    requires '.' !in head
    ensures UntilDot(head + "." + rest) == |head|
    ensures UntilDot(head) == |head|
  {
    if head != "" {
      assert (head + "." + rest)[1..] == head[1..] + "." + rest;
      UntilDotOf(head[1..], rest);
    } else {
      assert (head + "." + rest)[0] == '.';
    }
  }

  lemma SplitCons(head: string, rest: string)
    requires '.' !in head
    ensures Split(head) == [head] && Split(head + "." + rest) == [head] + Split(rest)
  {
    var s := head + "." + rest;
    UntilDotOf(head, rest);
    assert s[..|head|] == head && s[|head| + 1..] == rest;
    SplitStep(s, |head|);
  }

  lemma {:induction false} SplitDotted(path: Path)
    requires WellFormed(path)
    ensures Split(Dotted(path)) == path
  {
    SplitCons(path[0], Dotted(path[1..]));
    assert path == [path[0]] + path[1..];
    if |path| > 1 { SplitDotted(path[1..]); }
  }

  /** Two well-formed paths never share a dotted name, so a name can stand for a path. */
  lemma DottedIsInjective(p: Path, q: Path)
    requires WellFormed(p) && WellFormed(q) && Dotted(p) == Dotted(q)
    ensures p == q
  {
    SplitDotted(p);
    SplitDotted(q);
  }

  lemma DottedIsNonEmpty(p: Path)
    requires WellFormed(p)
    ensures Dotted(p) != ""
  {
  }

  lemma {:induction false} NonEmptyKeepsAll(segments: seq<string>)
    requires forall k | 0 <= k < |segments| :: segments[k] != ""
    ensures NonEmpty(segments) == segments
  {
    if segments != [] { NonEmptyKeepsAll(segments[1..]); }
  }

  lemma {:induction false} NonEmptyIsNoLonger(segments: seq<string>)
    ensures |Dotted(NonEmpty(segments))| <= |Dotted(segments)|
  {
    if segments != [] {
      NonEmptyIsNoLonger(segments[1..]);
      assert segments == [segments[0]] + segments[1..];
      DottedCons(segments[0], segments[1..]);
      DottedCons(segments[0], NonEmpty(segments[1..]));
      assert segments[0] == "" ==> NonEmpty(segments) == NonEmpty(segments[1..]);
    }
  }

  /** Reading back the name of a group gives its path exactly when the name carries no outer whitespace. */
  lemma GroupPathReadsBack(path: Path)
    requires WellFormed(path)
    ensures GroupPath(PREFIX + Dotted(path)) == Some(path) <==> Trim(Dotted(path), IsSpace) == Dotted(path)
  {
    var name := Dotted(path);
    assert (PREFIX + name)[|PREFIX|..] == name;
    var raw := Trim(name, IsSpace);
    DottedIsNonEmpty(path);
    if raw == name {
      SplitDotted(path);
      NonEmptyKeepsAll(path);
    } else if GroupPath(PREFIX + name) == Some(path) {
      TrimLeftSplits(name, IsSpace);
      TrimRightSplits(TrimLeft(name, IsSpace), IsSpace);
      assert |raw| < |name|;
      NonEmptyIsNoLonger(Split(raw));
      JoinSplit(raw);
      assert false;
    }
  }

  // --------------------------------------------- prefixes of dotted names

  lemma {:induction false} DottedSnoc(init: Path, last: string)
    requires init != []
    ensures Dotted(init + [last]) == Dotted(init) + "." + last
  {
    if |init| == 1 {
      assert (init + [last])[1..] == [last] && Dotted([last]) == last;
    } else {
      assert (init + [last])[1..] == init[1..] + [last];
      DottedSnoc(init[1..], last);
      var head, mid := init[0] + ".", Dotted(init[1..]);
      assert head + (mid + "." + last) == (head + mid) + "." + last;
    }
  }

  /** `s` is one of the names in the tree above and at `path`: a prefix of its dotted name that ends at a dot or at
      the end. */
  predicate EndsAtDot(name: string, s: string) {
    s == name || (s + "." <= name)
  }

  lemma {:induction false} PrefixEndsAtDot(path: Path, d: nat)
    requires 1 <= d <= |path|
    ensures EndsAtDot(Dotted(path), Dotted(path[..d]))
    decreases |path| - d
  {
    if d < |path| {
      PrefixEndsAtDot(path, d + 1);
      assert path[..d + 1] == path[..d] + [path[d]];
      DottedSnoc(path[..d], path[d]);
      var here, next, whole := Dotted(path[..d]) + ".", Dotted(path[..d + 1]), Dotted(path);
      assert here <= next;
      assert next <= whole by { if next != whole { assert next <= next + "." <= whole; } }
    } else {
      assert path[..d] == path;
    }
  }

  /** Longer prefixes of a path have longer names. */
  lemma {:induction false} PrefixesGrow(path: Path, d: nat, e: nat)
    requires 1 <= d < e <= |path|
    ensures |Dotted(path[..d])| < |Dotted(path[..e])|
    decreases e
  {
    assert path[..e] == path[..e - 1] + [path[e - 1]];
    DottedSnoc(path[..e - 1], path[e - 1]);
    if d < e - 1 { PrefixesGrow(path, d, e - 1); }
  }
}
