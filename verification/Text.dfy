/** Python string helpers shared by the audit guard, the kill message and the SQL allowlist. */
module Text {

  /** `str.isspace` for one character: what `split()` splits on and `strip()` removes. */
  predicate IsSpace(c: char) {
    || '\U{0009}' <= c <= '\U{000D}'
    || '\U{001C}' <= c <= '\U{0020}'
    || c == '\U{0085}' || c == '\U{00A0}' || c == '\U{1680}'
    || '\U{2000}' <= c <= '\U{200A}'
    || c == '\U{2028}' || c == '\U{2029}' || c == '\U{202F}' || c == '\U{205F}' || c == '\U{3000}'
  }

  /** Length of the leading run without white space. */
  function WordLength(s: string): (n: nat)
    ensures n <= |s|
    ensures forall i | 0 <= i < n :: !IsSpace(s[i])
    ensures n < |s| ==> IsSpace(s[n])
  {
    if s == [] || IsSpace(s[0]) then 0 else 1 + WordLength(s[1..])
  }

  /** `s.split()`. */
  function Words(s: string): seq<string>
    decreases |s|
  {
    if s == [] then []
    else if IsSpace(s[0]) then Words(s[1..])
    else var n := WordLength(s); [s[..n]] + Words(s[n..])
  }

  /** `sep.join(parts)`. */
  function Join(parts: seq<string>, sep: string): string {
    if parts == [] then ""
    else if |parts| == 1 then parts[0]
    else parts[0] + sep + Join(parts[1..], sep)
  }

  /** `" ".join(s.split())`. */
  function Flatten(s: string): string { Join(Words(s), " ") }

  ghost predicate IsWord(w: string) {
    w != "" && forall c | c in w :: !IsSpace(c)
  }

  /** One line, single spaces, none at either end. */
  ghost predicate Flat(s: string) {
    && (s != "" ==> !IsSpace(s[0]) && !IsSpace(s[|s|-1]))
    && (forall i | 0 <= i < |s| && IsSpace(s[i]) :: s[i] == ' ')
    && (forall i | 0 <= i < |s| - 1 && IsSpace(s[i]) :: !IsSpace(s[i+1]))
  }

  lemma {:induction false} WordsAreWords(s: string)
    ensures forall w | w in Words(s) :: IsWord(w)
    decreases |s|
  {
    if s != [] {
      if IsSpace(s[0]) {
        WordsAreWords(s[1..]);
      } else {
        var n := WordLength(s);
        WordsAreWords(s[n..]);
        assert IsWord(s[..n]);
      }
    }
  }

  lemma {:induction false} JoinIsFlat(ws: seq<string>)
    requires forall w | w in ws :: IsWord(w)
    ensures Flat(Join(ws, " "))
    ensures ws != [] ==> Join(ws, " ") != ""
  {
    if |ws| == 1 {
      assert ws[0] in ws;
    } else if |ws| > 1 {
      assert ws[0] in ws;
      JoinIsFlat(ws[1..]);
      var rest := Join(ws[1..], " ");
      var all := Join(ws, " ");
      assert all == ws[0] + " " + rest;
      assert all[|ws[0]| + 1..] == rest;
      assert all[..|ws[0]|] == ws[0];
      forall i | 0 <= i < |all| && IsSpace(all[i])
        ensures all[i] == ' ' && (i < |all| - 1 ==> !IsSpace(all[i + 1]))
      {
        assert forall k | 0 <= k < |ws[0]| :: all[k] == ws[0][k] && ws[0][k] in ws[0];
        if i > |ws[0]| {
          assert all[i] == rest[i - |ws[0]| - 1];
          if i < |all| - 1 { assert all[i + 1] == rest[i - |ws[0]|]; }
        } else {
          assert all[i + 1] == rest[0];
        }
      }
      assert all[0] == ws[0][0] && ws[0][0] in ws[0];
      assert all[|all|-1] == rest[|rest|-1];
    }
  }

  /** White space in flat text is one space between two words. */
  lemma SpaceInFlat(s: string, n: nat)
    requires Flat(s) && n < |s| && IsSpace(s[n])
    ensures s[n] == ' ' && n + 1 < |s| && !IsSpace(s[n + 1])
  {
    assert n != |s| - 1;
  }

  lemma SuffixIsFlat(s: string, k: nat)
    requires Flat(s) && k < |s| && !IsSpace(s[k])
    ensures Flat(s[k..])
  {
    var rest := s[k..];
    forall i | 0 <= i < |rest| && IsSpace(rest[i])
      ensures rest[i] == ' ' && (i < |rest| - 1 ==> !IsSpace(rest[i + 1]))
    {
      SpaceInFlat(s, k + i);
    }
  }

  lemma WordsOfTwoParts(s: string, n: nat)
    requires 0 < n == WordLength(s) < |s| - 1 && s[n] == ' ' && !IsSpace(s[n + 1])
    ensures Words(s[n + 1..]) != [] && Words(s) == [s[..n]] + Words(s[n + 1..])
  {
    assert s[n..][1..] == s[n + 1..];
    assert s[n + 1..][0] == s[n + 1];
  }

  lemma OneWordStays(s: string)
    requires s != "" && WordLength(s) == |s|
    ensures Flatten(s) == s
  {
    assert s[..|s|] == s && s[|s|..] == [];
    assert Words(s) == [s];
  }

  lemma JoinCons(w: string, ws: seq<string>)
    requires ws != []
    ensures Join([w] + ws, " ") == w + " " + Join(ws, " ")
  {
    assert ([w] + ws)[1..] == ws;
  }

  lemma CutAtSpace(s: string, n: nat)
    requires n < |s| && s[n] == ' '
    ensures s == s[..n] + " " + s[n + 1..]
  {
  }

  /** Flattening flat text of several words puts the first back in front of the others. */
  lemma FlattenStep(s: string, n: nat)
    requires Flat(s) && s != "" && n == WordLength(s) < |s|
    ensures Flat(s[n + 1..]) && s == s[..n] + " " + s[n + 1..]
    ensures Flatten(s) == s[..n] + " " + Flatten(s[n + 1..])
  {
    SpaceInFlat(s, n);
    SuffixIsFlat(s, n + 1);
    WordsOfTwoParts(s, n);
    JoinCons(s[..n], Words(s[n + 1..]));
    CutAtSpace(s, n);
  }

  /** Flattening leaves flat text alone. */
  lemma {:induction false} FlattenFlat(s: string)
    requires Flat(s)
    ensures Flatten(s) == s
    decreases |s|
  {
    if s != "" {
      var n := WordLength(s);
      if n == |s| {
        OneWordStays(s);
      } else {
        FlattenStep(s, n);
        FlattenFlat(s[n + 1..]);
      }
    }
  }

  lemma FlattenIsFlat(s: string)
    ensures Flat(Flatten(s))
    ensures Flatten(s) == "" <==> forall c | c in s :: IsSpace(c)
  {
    WordsAreWords(s);
    JoinIsFlat(Words(s));
    BlankHasNoWords(s);
  }

  lemma {:induction false} BlankHasNoWords(s: string)
    ensures Words(s) == [] <==> forall c | c in s :: IsSpace(c)
    decreases |s|
  {
    if s != [] {
      if IsSpace(s[0]) {
        BlankHasNoWords(s[1..]);
        assert s == [s[0]] + s[1..];
      } else {
        assert s[0] in s;
      }
    }
  }

  /** Cutting flat text and adding dots keeps it flat. */
  lemma CutWithDotsIsFlat(s: string, n: nat)
    requires Flat(s) && 0 < n <= |s|
    ensures Flat(s[..n] + "...")
  {
    var t := s[..n] + "...";
    assert t[0] == s[0] && t[|t|-1] == '.';
    forall i | 0 <= i < |t| && IsSpace(t[i])
      ensures t[i] == ' ' && (i < |t| - 1 ==> !IsSpace(t[i + 1]))
    {
      assert i < n && t[i] == s[i];
      if i + 1 < n { assert t[i + 1] == s[i + 1]; } else { assert t[i + 1] == '.'; }
    }
  }

  // ------------------------------------------------------------- trimming

  function TrimLeft(s: string, p: char -> bool): string {
    if s != [] && p(s[0]) then TrimLeft(s[1..], p) else s
  }

  function TrimRight(s: string, p: char -> bool): string {
    if s != [] && p(s[|s|-1]) then TrimRight(s[..|s|-1], p) else s
  }

  function Trim(s: string, p: char -> bool): string {
    TrimRight(TrimLeft(s, p), p)
  }

  lemma {:induction false} TrimLeftSplits(s: string, p: char -> bool)
    ensures exists pad :: s == pad + TrimLeft(s, p) && (forall c | c in pad :: p(c))
    ensures TrimLeft(s, p) != [] ==> !p(TrimLeft(s, p)[0])
  {
    if s != [] && p(s[0]) {
      TrimLeftSplits(s[1..], p);
      var pad :| s[1..] == pad + TrimLeft(s[1..], p) && (forall c | c in pad :: p(c));
      assert s == ([s[0]] + pad) + TrimLeft(s, p);
    } else {
      assert s == [] + TrimLeft(s, p);
    }
  }

  lemma {:induction false} TrimRightSplits(s: string, p: char -> bool)
    ensures TrimRight(s, p) <= s
    ensures forall i | |TrimRight(s, p)| <= i < |s| :: p(s[i])
    ensures TrimRight(s, p) != [] ==> !p(TrimRight(s, p)[|TrimRight(s, p)|-1])
  {
    if s != [] && p(s[|s|-1]) {
      TrimRightSplits(s[..|s|-1], p);
    }
  }

  lemma {:induction false} TrimLeftPad(pad: string, s: string, p: char -> bool)
    requires forall c | c in pad :: p(c)
    ensures TrimLeft(pad + s, p) == TrimLeft(s, p)
  {
    if pad == [] {
      assert pad + s == s;
    } else {
      assert (pad + s)[1..] == pad[1..] + s;
      TrimLeftPad(pad[1..], s, p);
    }
  }

  lemma {:induction false} TrimRightPad(s: string, pad: string, p: char -> bool)
    requires forall c | c in pad :: p(c)
    ensures TrimRight(s + pad, p) == TrimRight(s, p)
  {
    if pad == [] {
      assert s + pad == s;
    } else {
      assert (s + pad)[..|s + pad|-1] == s + pad[..|pad|-1];
      assert (s + pad)[|s + pad|-1] == pad[|pad|-1];
      TrimRightPad(s, pad[..|pad|-1], p);
    }
  }

  /** Appending what is not trimmed away keeps it all. */
  lemma {:induction false} TrimLeftOf(s: string, t: string, p: char -> bool)
    requires exists c :: c in s && !p(c)
    ensures TrimLeft(s + t, p) == TrimLeft(s, p) + t
  {
    var c :| c in s && !p(c);
    if p(s[0]) {
      assert (s + t)[1..] == s[1..] + t;
      assert c in s[1..];
      TrimLeftOf(s[1..], t, p);
    }
  }

  lemma {:induction false} TrimLeftAll(s: string, p: char -> bool)
    requires forall c | c in s :: p(c)
    ensures TrimLeft(s, p) == ""
  {
    if s != [] { TrimLeftAll(s[1..], p); }
  }
}
