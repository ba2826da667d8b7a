/** What a benchmark statement may be: comments stripped, one statement, read-only first word. */
module Sql {
  import opened Text

  const MAX_STATEMENT_CHARS := 20000
  const READ_ONLY_STARTS := ["SELECT", "WITH", "SHOW", "EXPLAIN", "DESCRIBE", "VALUES", "TABLE"]

  predicate StartsOpen(s: string) { |s| >= 2 && s[0] == '/' && s[1] == '*' }
  predicate StartsClose(s: string) { |s| >= 2 && s[0] == '*' && s[1] == '/' }
  predicate StartsDash(s: string) { |s| >= 2 && s[0] == '-' && s[1] == '-' }

  predicate HasClose(s: string) {
    s != [] && (StartsClose(s) || HasClose(s[1..]))
  }

  /** What follows the first comment terminator. */
  function AfterClose(s: string): (r: string)
    requires HasClose(s)
    ensures |r| < |s|
  {
    if StartsClose(s) then s[2..] else AfterClose(s[1..])
  }

  /** `re.sub(r"/\*.*?\*"+"/", " ", s, flags=re.S)`. */
  function StripBlocks(s: string): string
    decreases |s|
  {
    if s == [] then ""
    else if StartsOpen(s) && HasClose(s[2..]) then " " + StripBlocks(AfterClose(s[2..]))
    else [s[0]] + StripBlocks(s[1..])
  }

  function AfterLine(s: string): (r: string)
    ensures |r| <= |s|
  {
    if s == [] || s[0] == '\n' then s else AfterLine(s[1..])
  }

  lemma {:induction false} AfterLineIsSuffix(s: string)
    ensures AfterLine(s) == s[|s| - |AfterLine(s)|..]
  {
    if s != [] && s[0] != '\n' { AfterLineIsSuffix(s[1..]); }
  }

  /** `re.sub(r"--[^\n]*", " ", s)`. */
  function StripLines(s: string): string
    decreases |s|
  {
    if s == [] then ""
    else if StartsDash(s) then " " + StripLines(AfterLine(s[2..]))
    else [s[0]] + StripLines(s[1..])
  }

  function WithoutComments(s: string): string { StripLines(StripBlocks(s)) }

  // ---------------------------------------------------------- idempotence

  ghost predicate NoBlock(s: string) {
    s == [] || (!(StartsOpen(s) && HasClose(s[2..])) && NoBlock(s[1..]))
  }

  ghost predicate NoDash(s: string) {
    s == [] || (!StartsDash(s) && NoDash(s[1..]))
  }

  lemma {:induction false} NoCloseNoChange(s: string)
    requires !HasClose(s)
    ensures StripBlocks(s) == s
  {
    if s != [] {
      NoCloseNoChange(s[1..]);
      if |s| >= 2 { assert s[2..] == s[1..][1..]; }
    }
  }

  lemma {:induction false} BlocksAreGone(s: string)
    ensures NoBlock(StripBlocks(s))
    decreases |s|
  {
    if s != [] {
      if StartsOpen(s) && HasClose(s[2..]) {
        BlocksAreGone(AfterClose(s[2..]));
        var rest := StripBlocks(AfterClose(s[2..]));
        assert (" " + rest)[1..] == rest;
      } else {
        BlocksAreGone(s[1..]);
        var rest := StripBlocks(s[1..]);
        var out := [s[0]] + rest;
        assert out[1..] == rest;
        if StartsOpen(out) {
          assert rest[0] == '*' && s[1] == '*';
          assert s[2..] == s[1..][1..];
          NoCloseNoChange(s[2..]);
          assert rest == ['*'] + s[2..];
          assert out[2..] == s[2..];
        }
      }
    }
  }

  lemma {:induction false} CloseOfSuffix(s: string, n: nat)
    requires n <= |s| && HasClose(s[n..])
    ensures HasClose(s)
  {
    if n > 0 {
      assert s[1..][n-1..] == s[n..];
      CloseOfSuffix(s[1..], n - 1);
    } else {
      assert s[0..] == s;
    }
  }

  lemma {:induction false} LinesAddNoClose(s: string)
    requires HasClose(StripLines(s))
    ensures HasClose(s)
    decreases |s|
  {
    var out := StripLines(s);
    if StartsDash(s) {
      var tail := AfterLine(s[2..]);
      assert out[1..] == StripLines(tail);
      LinesAddNoClose(tail);
      AfterLineIsSuffix(s[2..]);
      assert tail == s[|s| - |tail|..];
      CloseOfSuffix(s, |s| - |tail|);
    } else {
      var rest := StripLines(s[1..]);
      assert out[1..] == rest;
      if StartsClose(out) {
        assert s[1] == '/';
      } else {
        LinesAddNoClose(s[1..]);
      }
    }
  }

  lemma {:induction false} LinesKeepNoBlock(s: string)
    requires NoBlock(s)
    ensures NoBlock(StripLines(s))
    decreases |s|
  {
    if s != [] {
      var out := StripLines(s);
      if StartsDash(s) {
        var tail := AfterLine(s[2..]);
        AfterLineIsSuffix(s[2..]);
        assert tail == s[|s| - |tail|..];
        NoBlockOfSuffix(s, |s| - |tail|);
        LinesKeepNoBlock(tail);
        assert out[1..] == StripLines(tail);
      } else {
        LinesKeepNoBlock(s[1..]);
        var rest := StripLines(s[1..]);
        assert out[1..] == rest;
        if StartsOpen(out) && HasClose(out[2..]) {
          assert s[1] == '*';
          assert s[1..][1..] == s[2..];
          assert rest == ['*'] + StripLines(s[2..]);
          assert out[2..] == StripLines(s[2..]);
          LinesAddNoClose(s[2..]);
          assert false;
        }
      }
    }
  }

  lemma {:induction false} NoBlockOfSuffix(s: string, n: nat)
    requires n <= |s| && NoBlock(s)
    ensures NoBlock(s[n..])
  {
    if n > 0 {
      assert s[1..][n-1..] == s[n..];
      NoBlockOfSuffix(s[1..], n - 1);
    } else {
      assert s[0..] == s;
    }
  }

  lemma {:induction false} DashesAreGone(s: string)
    ensures NoDash(StripLines(s))
    decreases |s|
  {
    if s != [] {
      var out := StripLines(s);
      if StartsDash(s) {
        var rest := StripLines(AfterLine(s[2..]));
        DashesAreGone(AfterLine(s[2..]));
        assert out[1..] == rest;
      } else {
        DashesAreGone(s[1..]);
        assert out[1..] == StripLines(s[1..]);
      }
    }
  }

  lemma {:induction false} CleanIsFixed(s: string)
    requires NoBlock(s) && NoDash(s)
    ensures StripBlocks(s) == s && StripLines(s) == s
  {
    if s != [] { CleanIsFixed(s[1..]); }
  }

  /** Stripping comments twice strips nothing more: what was inside a comment cannot come back as one. */
  lemma StrippingIsIdempotent(s: string)
    ensures WithoutComments(WithoutComments(s)) == WithoutComments(s)
  {
    BlocksAreGone(s);
    LinesKeepNoBlock(StripBlocks(s));
    DashesAreGone(StripBlocks(s));
    CleanIsFixed(WithoutComments(s));
  }

  // ------------------------------------------------------------ acceptance

  predicate IsSemicolon(c: char) { c == ';' }
  predicate IsOpenParen(c: char) { c == '(' }

  function Strip(s: string): string { Trim(s, IsSpace) }

  /** `s.rstrip(";")`. */
  function DropSemicolons(s: string): string { TrimRight(s, IsSemicolon) }

  /** The text before the first white space or opening parenthesis. */
  function FirstWord(s: string): string {
    if s == [] || IsSpace(s[0]) || s[0] == '(' then "" else [s[0]] + FirstWord(s[1..])
  }

  /** The letters whose upper case is one of A to Z: a to z, the long s and the dotless i. */
  function UpperLetter(c: char): char {
    if 'a' <= c <= 'z' then c - 'a' + 'A'
    else if c == '\U{017F}' then 'S'
    else if c == '\U{0131}' then 'I'
    else c
  }

  /** `str.upper` as far as the first words allowed below can tell. */
  function Upper(s: string): (r: string)
    ensures |r| == |s|
    ensures forall i | 0 <= i < |s| :: r[i] == UpperLetter(s[i])
  {
    if s == [] then "" else [UpperLetter(s[0])] + Upper(s[1..])
  }

  datatype Refusal = Empty | TooLong | SeveralStatements | NotReadOnly

  datatype Verdict = Allowed | Refused(why: Refusal)

  /** `_statement_is_read_only`, its four checks in order. */
  function Check(sql: string): Verdict {
    var stripped := Strip(WithoutComments(sql));
    if stripped == "" then Refused(Empty)
    else if |sql| > MAX_STATEMENT_CHARS then Refused(TooLong)
    else if ';' in DropSemicolons(stripped) then Refused(SeveralStatements)
    else if Upper(FirstWord(TrimLeft(stripped, IsOpenParen))) !in READ_ONLY_STARTS then Refused(NotReadOnly)
    else Allowed
  }

  /** What is stored, and what the runner checks again. */
  function Stored(sql: string): string { DropSemicolons(Strip(sql)) }

  /** A character that starts and ends no comment is passed through in front of any text. */
  lemma FrontChar(c: char, s: string)
    requires c != '/' && c != '-'
    ensures WithoutComments([c] + s) == [c] + WithoutComments(s)
  {
    assert ([c] + s)[1..] == s;
    var t := StripBlocks(s);
    assert StripBlocks([c] + s) == [c] + t;
    assert ([c] + t)[1..] == t;
  }

  lemma {:induction false} CloseWithChar(s: string, c: char)
    requires c != '/'
    ensures HasClose(s + [c]) <==> HasClose(s)
    ensures HasClose(s) ==> AfterClose(s + [c]) == AfterClose(s) + [c]
  {
    if s == [] {
      assert s + [c] == [c];
      assert [c][1..] == [];
    } else {
      assert (s + [c])[1..] == s[1..] + [c];
      CloseWithChar(s[1..], c);
      if StartsClose(s) {
        assert (s + [c])[2..] == s[2..] + [c];
      }
    }
  }

  lemma {:induction false} BlocksWithChar(s: string, c: char)
    requires c != '/'
    ensures StripBlocks(s + [c]) == StripBlocks(s) + [c]
    decreases |s|
  {
    if s == [] {
      assert s + [c] == [c];
      assert [c][1..] == [];
    } else {
      assert (s + [c])[1..] == s[1..] + [c];
      if |s| >= 2 {
        assert (s + [c])[2..] == s[2..] + [c];
        CloseWithChar(s[2..], c);
      } else {
        assert (s + [c])[2..] == [];
      }
      if StartsOpen(s) && HasClose(s[2..]) {
        BlocksWithChar(AfterClose(s[2..]), c);
      } else {
        BlocksWithChar(s[1..], c);
      }
    }
  }

  lemma {:induction false} AfterLineWithChar(s: string, c: char)
    requires c != '\n'
    ensures AfterLine(s + [c]) == (if AfterLine(s) == [] then [] else AfterLine(s) + [c])
  {
    if s == [] {
      assert s + [c] == [c];
      assert [c][1..] == [];
    } else {
      assert (s + [c])[1..] == s[1..] + [c];
      if s[0] != '\n' { AfterLineWithChar(s[1..], c); }
    }
  }

  lemma {:induction false} AfterLineWithNewline(s: string)
    ensures AfterLine(s + ['\n']) == AfterLine(s) + ['\n']
  {
    if s == [] {
      assert s + ['\n'] == ['\n'];
    } else {
      assert (s + ['\n'])[1..] == s[1..] + ['\n'];
      if s[0] != '\n' { AfterLineWithNewline(s[1..]); }
    }
  }

  lemma AfterLineWith(s: string, c: char)
    ensures AfterLine(s + [c]) == (if AfterLine(s) == [] && c != '\n' then [] else AfterLine(s) + [c])
  {
    if c == '\n' { AfterLineWithNewline(s); } else { AfterLineWithChar(s, c); }
  }

  ghost predicate KeptOrSwallowed(long: string, short: string, c: char) {
    long == short + [c] || long == short
  }

  lemma CommentWithChar(s: string, c: char)
    requires c != '-' && StartsDash(s)
    requires KeptOrSwallowed(StripLines(AfterLine(s[2..]) + [c]), StripLines(AfterLine(s[2..])), c)
    ensures KeptOrSwallowed(StripLines(s + [c]), StripLines(s), c)
  {
    var tail, long := AfterLine(s[2..]), s + [c];
    assert long[2..] == s[2..] + [c];
    AfterLineWith(s[2..], c);
    if tail != [] || c == '\n' {
      assert StripLines(long) == " " + StripLines(tail + [c]);
      ConsKeptOrSwallowed(' ', StripLines(tail + [c]), StripLines(tail), c);
    }
  }

  lemma PlainWithChar(s: string, c: char)
    requires c != '-' && s != [] && !StartsDash(s)
    requires KeptOrSwallowed(StripLines(s[1..] + [c]), StripLines(s[1..]), c)
    ensures KeptOrSwallowed(StripLines(s + [c]), StripLines(s), c)
  {
    var long := s + [c];
    assert long[1..] == s[1..] + [c];
    assert StripLines(long) == [s[0]] + StripLines(s[1..] + [c]);
    ConsKeptOrSwallowed(s[0], StripLines(s[1..] + [c]), StripLines(s[1..]), c);
  }

  lemma {:induction false} LinesWithChar(s: string, c: char)
    requires c != '-'
    ensures KeptOrSwallowed(StripLines(s + [c]), StripLines(s), c)
    decreases |s|
  {
    if s == [] {
      assert s + [c] == [c];
      assert [c][1..] == [];
    } else if StartsDash(s) {
      LinesWithChar(AfterLine(s[2..]), c);
      CommentWithChar(s, c);
    } else {
      LinesWithChar(s[1..], c);
      PlainWithChar(s, c);
    }
  }

  lemma ConsKeptOrSwallowed(x: char, long: string, short: string, c: char)
    requires KeptOrSwallowed(long, short, c)
    ensures KeptOrSwallowed([x] + long, [x] + short, c)
  {
    assert [x] + (short + [c]) == ([x] + short) + [c];
  }

  /** A last character that starts and ends no comment is kept, or it was part of a line comment. */
  lemma BackChar(s: string, c: char)
    requires c != '/' && c != '-'
    ensures KeptOrSwallowed(WithoutComments(s + [c]), WithoutComments(s), c)
  {
    BlocksWithChar(s, c);
    LinesWithChar(StripBlocks(s), c);
  }

  lemma {:induction false} FrontSpaces(pad: string, s: string)
    requires forall c | c in pad :: IsSpace(c)
    ensures Strip(WithoutComments(pad + s)) == Strip(WithoutComments(s))
  {
    if pad == [] {
      assert pad + s == s;
    } else {
      assert pad + s == [pad[0]] + (pad[1..] + s);
      assert pad[0] in pad;
      FrontChar(pad[0], pad[1..] + s);
      FrontSpaces(pad[1..], s);
      TrimLeftPad([pad[0]], WithoutComments(pad[1..] + s), IsSpace);
    }
  }

  lemma StripOfSpaceAfter(t: string, c: char)
    requires IsSpace(c)
    ensures Strip(t + [c]) == Strip(t)
  {
    if exists x :: x in t && !IsSpace(x) {
      TrimLeftOf(t, [c], IsSpace);
      TrimRightPad(TrimLeft(t, IsSpace), [c], IsSpace);
    } else {
      TrimLeftAll(t, IsSpace);
      TrimLeftAll(t + [c], IsSpace);
    }
  }

  lemma {:induction false} BackSpaces(s: string, pad: string)
    requires forall c | c in pad :: IsSpace(c)
    ensures Strip(WithoutComments(s + pad)) == Strip(WithoutComments(s))
  {
    if pad == [] {
      assert s + pad == s;
    } else {
      var init, c := pad[..|pad|-1], pad[|pad|-1];
      assert s + pad == (s + init) + [c];
      BackSpaces(s, init);
      assert c in pad;
      BackChar(s + init, c);
      StripOfSpaceAfter(WithoutComments(s + init), c);
    }
  }

  lemma FrontIsIrrelevant(sql: string)
    ensures Strip(WithoutComments(TrimLeft(sql, IsSpace))) == Strip(WithoutComments(sql))
  {
    TrimLeftSplits(sql, IsSpace);
    var front :| sql == front + TrimLeft(sql, IsSpace) && (forall c | c in front :: IsSpace(c));
    FrontSpaces(front, TrimLeft(sql, IsSpace));
  }

  lemma BackIsIrrelevant(sql: string)
    ensures Strip(WithoutComments(TrimRight(sql, IsSpace))) == Strip(WithoutComments(sql))
  {
    var body := TrimRight(sql, IsSpace);
    TrimRightSplits(sql, IsSpace);
    var back := sql[|body|..];
    assert sql == body + back;
    BackSpaces(body, back);
  }

  /** Outer white space does not change what the comments leave. */
  lemma OuterSpaceIsIrrelevant(sql: string)
    ensures Strip(WithoutComments(Strip(sql))) == Strip(WithoutComments(sql))
  {
    FrontIsIrrelevant(sql);
    BackIsIrrelevant(TrimLeft(sql, IsSpace));
  }

  function Semicolons(n: nat): (s: string)
    ensures |s| == n && forall c | c in s :: c == ';'
  {
    seq(n, i => ';')
  }

  /** Trailing semicolons come off the stripped text, or were part of a trailing line comment. */
  lemma {:induction false} BackSemicolons(s: string, n: nat)
    ensures exists m: nat :: m <= n && WithoutComments(s + Semicolons(n)) == WithoutComments(s) + Semicolons(m)
  {
    if n == 0 {
      assert s + Semicolons(0) == s;
      assert WithoutComments(s) == WithoutComments(s) + Semicolons(0);
    } else {
      BackSemicolons(s, n - 1);
      var m: nat :| m <= n - 1 && WithoutComments(s + Semicolons(n - 1)) == WithoutComments(s) + Semicolons(m);
      assert s + Semicolons(n) == (s + Semicolons(n - 1)) + [';'];
      BackChar(s + Semicolons(n - 1), ';');
      assert WithoutComments(s) + Semicolons(m) + [';'] == WithoutComments(s) + Semicolons(m + 1);
    }
  }

  lemma {:induction false} FirstWordBefore(s: string, t: string)
    requires t != "" ==> t[0] != '(' && !IsSpace(t[0])
    requires ';' !in FirstWord(s + t)
    requires t != "" ==> t[0] == ';'
    ensures FirstWord(s) == FirstWord(s + t)
  {
    if s == [] {
      assert s + t == t;
    } else {
      assert (s + t)[1..] == s[1..] + t;
      if !IsSpace(s[0]) && s[0] != '(' { FirstWordBefore(s[1..], t); }
    }
  }

  lemma {:induction false} FirstWordPrefix(t: string, s: string)
    requires t <= s
    requires forall i | |t| <= i < |s| :: IsSpace(s[i])
    ensures FirstWord(t) == FirstWord(s)
  {
    if t != [] && !IsSpace(s[0]) && s[0] != '(' {
      FirstWordPrefix(t[1..], s[1..]);
    }
  }

  lemma {:induction false} ParensBeforeSpaces(s: string)
    requires s != [] ==> !IsSpace(s[0])
    ensures FirstWord(TrimLeft(TrimRight(s, IsSpace), IsOpenParen)) == FirstWord(TrimLeft(s, IsOpenParen))
  {
    TrimRightSplits(s, IsSpace);
    ParensOfPrefix(TrimRight(s, IsSpace), s);
  }

  lemma {:induction false} ParensOfPrefix(t: string, s: string)
    requires t <= s
    requires forall i | |t| <= i < |s| :: IsSpace(s[i])
    ensures FirstWord(TrimLeft(t, IsOpenParen)) == FirstWord(TrimLeft(s, IsOpenParen))
  {
    if t != [] && t[0] == '(' {
      assert s[0] == '(';
      ParensOfPrefix(t[1..], s[1..]);
    } else {
      FirstWordPrefix(t, s);
      if t == [] && s != [] { assert IsSpace(s[0]); }
    }
  }

  predicate GoodStart(stripped: string) {
    Upper(FirstWord(TrimLeft(stripped, IsOpenParen))) in READ_ONLY_STARTS
  }

  lemma UpperKeepsSemicolon(w: string)
    requires ';' in w
    ensures ';' in Upper(w)
  {
    var i :| 0 <= i < |w| && w[i] == ';';
    assert Upper(w)[i] == ';';
  }

  lemma StartsAreWords(w: string)
    requires w in READ_ONLY_STARTS
    ensures ';' !in w && |w| > 0
  {
    var i :| 0 <= i < 7 && READ_ONLY_STARTS[i] == w;
  }

  lemma GoodStartHasNoSemicolon(stripped: string)
    requires GoodStart(stripped)
    ensures ';' !in FirstWord(TrimLeft(stripped, IsOpenParen))
    ensures FirstWord(TrimLeft(stripped, IsOpenParen)) != ""
  {
    var w := FirstWord(TrimLeft(stripped, IsOpenParen));
    StartsAreWords(Upper(w));
    if ';' in w {
      UpperKeepsSemicolon(w);
      assert false;
    }
    assert |Upper(w)| == |w|;
  }

  lemma {:induction false} ParensThenSemicolons(a: string, n: nat)
    requires ';' !in FirstWord(TrimLeft(a + Semicolons(n), IsOpenParen))
    ensures FirstWord(TrimLeft(a, IsOpenParen)) == FirstWord(TrimLeft(a + Semicolons(n), IsOpenParen))
  {
    if a != [] && a[0] == '(' {
      assert (a + Semicolons(n))[1..] == a[1..] + Semicolons(n);
      ParensThenSemicolons(a[1..], n);
    } else {
      if a == [] { assert a + Semicolons(n) == Semicolons(n); }
      FirstWordBefore(a, Semicolons(n));
    }
  }

  lemma DropsAll(a: string, n: nat)
    ensures DropSemicolons(a + Semicolons(n)) == DropSemicolons(a)
  {
    TrimRightPad(a, Semicolons(n), IsSemicolon);
  }

  lemma StripBeforeSemicolons(a: string, m: nat)
    requires m > 0
    ensures Strip(a + Semicolons(m)) == TrimLeft(a, IsSpace) + Semicolons(m)
  {
    var left, semis := TrimLeft(a, IsSpace), Semicolons(m);
    assert semis[0] == ';' && semis[m - 1] == ';';
    if exists x :: x in a && !IsSpace(x) {
      TrimLeftOf(a, semis, IsSpace);
    } else {
      TrimLeftPad(a, semis, IsSpace);
      TrimLeftAll(a, IsSpace);
      assert left + semis == semis;
    }
    assert (left + semis)[|left + semis|-1] == ';';
  }

  lemma NoInnerSemicolons(left: string, m: nat)
    requires ';' !in DropSemicolons(left + Semicolons(m))
    ensures ';' !in DropSemicolons(TrimRight(left, IsSpace))
  {
    DropsAll(left, m);
    if left != [] && left[|left|-1] == ';' {
      assert TrimRight(left, IsSpace) == left;
    } else {
      assert DropSemicolons(left) == left;
      TrimRightSplits(left, IsSpace);
      TrimRightSplits(TrimRight(left, IsSpace), IsSemicolon);
    }
  }

  /** Semicolons at the end of the stripped text do not matter to any later check. */
  lemma SemicolonsAtTheEnd(a: string, m: nat)
    requires m > 0
    requires ';' !in DropSemicolons(Strip(a + Semicolons(m)))
    requires GoodStart(Strip(a + Semicolons(m)))
    ensures Strip(a) != "" && ';' !in DropSemicolons(Strip(a)) && GoodStart(Strip(a))
  {
    var left := TrimLeft(a, IsSpace);
    StripBeforeSemicolons(a, m);
    GoodStartHasNoSemicolon(left + Semicolons(m));
    ParensThenSemicolons(left, m);
    TrimLeftSplits(a, IsSpace);
    ParensBeforeSpaces(left);
    NoInnerSemicolons(left, m);
  }

  /** A statement accepted when its set is built is still accepted by the runner, in the form it was stored. */
  lemma AcceptedStaysAccepted(sql: string)
    requires Check(sql) == Allowed
    ensures Check(Stored(sql)) == Allowed
  {
    var y := Strip(sql);
    var x := Stored(sql);
    OuterSpaceIsIrrelevant(sql);
    TrimRightSplits(y, IsSemicolon);
    var n := |y| - |x|;
    assert y == x + Semicolons(n);
    BackSemicolons(x, n);
    var m: nat :| m <= n && WithoutComments(x + Semicolons(n)) == WithoutComments(x) + Semicolons(m);
    TrimRightSplits(TrimLeft(sql, IsSpace), IsSpace);
    TrimLeftSplits(sql, IsSpace);
    assert |x| <= |sql|;
    if m == 0 {
      assert WithoutComments(x) + Semicolons(0) == WithoutComments(x);
    } else {
      SemicolonsAtTheEnd(WithoutComments(x), m);
    }
  }
}
