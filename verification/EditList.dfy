/** The configuration editor's text and the list of edits it stands for. */
module EditList {
  import opened Wrappers
  import opened Text

  /** What JavaScript's `trim` removes: white space and line terminators. */
  predicate JsSpace(c: char) {
    || '\U{0009}' <= c <= '\U{000D}' || c == ' ' || c == '\U{00A0}' || c == '\U{FEFF}'
    || c == '\U{1680}' || '\U{2000}' <= c <= '\U{200A}' || c == '\U{2028}' || c == '\U{2029}'
    || c == '\U{202F}' || c == '\U{205F}' || c == '\U{3000}'
  }

  function JsTrim(s: string): string { Trim(s, JsSpace) }

  datatype Action = Set | Unset

  /** `value` is null for an unset line. */
  datatype Entry = Entry(key: string, action: Action, value: Option<string>)

  /** `text.split("\n")`: always at least one line. */
  function Lines(text: string): (lines: seq<string>)
    ensures |lines| >= 1
  {
    if text == [] then [""]
    else
      var rest := Lines(text[1..]);
      if text[0] == '\n' then [""] + rest else [[text[0]] + rest[0]] + rest[1..]
  }

  function EqualsAt(line: string): (r: Option<nat>)
    ensures r.Some? ==> r.value < |line| && line[r.value] == '=' && '=' !in line[..r.value]
    ensures r.None? ==> '=' !in line
  {
    if line == [] then None
    else if line[0] == '=' then Some(0)
    else match EqualsAt(line[1..]) case None => None case Some(i) => Some(i + 1)
  }

  /** One raw line: nothing for a blank or a comment, otherwise one edit. */
  function ParseLine(raw: string): Option<Entry> {
    var line := JsTrim(raw);
    if line == "" || line[0] == '#' then None
    else if line[0] == '-' then Some(Entry(JsTrim(line[1..]), Unset, None))
    else
      match EqualsAt(line)
      case None => Some(Entry(JsTrim(line), Set, Some("")))
      case Some(at) => Some(Entry(JsTrim(line[..at]), Set, Some(JsTrim(line[at + 1..]))))
  }

  function ParseLines(lines: seq<string>): seq<Entry> {
    if lines == [] then []
    else match ParseLine(lines[0])
      case None => ParseLines(lines[1..])
      case Some(e) => [e] + ParseLines(lines[1..])
  }

  function Parse(text: string): seq<Entry> { ParseLines(Lines(text)) }

  method ParseEdits(text: string) returns (entries: seq<Entry>)
    ensures entries == Parse(text)
  {
    entries := [];
    var lines := Lines(text);
    var i := 0;
    while i < |lines|
      invariant 0 <= i <= |lines|
      invariant entries + ParseLines(lines[i..]) == Parse(text)
    {
      var entry := ParseLine(lines[i]);
      ParseOneMore(lines, i);
      if entry.Some? {
        entries := entries + [entry.value];
      }
      i := i + 1;
    }
  }

  lemma ParseOneMore(lines: seq<string>, i: nat)
    requires i < |lines|
    ensures ParseLines(lines[i..]) ==
      (if ParseLine(lines[i]).Some? then [ParseLine(lines[i]).value] else []) + ParseLines(lines[i + 1..])
  {
    assert lines[i..][0] == lines[i] && lines[i..][1..] == lines[i + 1..];
  }

  /** One edit as a line. */
  function LineOf(e: Entry): string {
    if e.action == Unset then "-" + e.key
    else e.key + "=" + (if e.value.Some? then e.value.value else "")
  }

  function LinesOf(entries: seq<Entry>): seq<string> {
    seq(|entries|, i requires 0 <= i < |entries| => LineOf(entries[i]))
  }

  function ToText(entries: seq<Entry>): string { Join(LinesOf(entries), "\n") }

  // ------------------------------------------------------ well-formed edits

  predicate Trimmed(s: string) {
    && (s != "" ==> !JsSpace(s[0]) && !JsSpace(s[|s|-1]))
    && '\n' !in s
  }

  /** Trimmed, single-line; a set key holds no `=` and does not look like an unset or a comment. */
  predicate WellFormed(e: Entry) {
    && Trimmed(e.key)
    && match e.action
       case Unset => e.value == None
       case Set =>
         && e.value.Some? && Trimmed(e.value.value)
         && '=' !in e.key && (e.key != "" ==> e.key[0] != '-' && e.key[0] != '#')
  }

  ghost predicate AllWellFormed(entries: seq<Entry>) {
    forall i | 0 <= i < |entries| :: WellFormed(entries[i])
  }

  lemma TrimOfTrimmed(s: string)
    requires s != "" ==> !JsSpace(s[0]) && !JsSpace(s[|s|-1])
    ensures JsTrim(s) == s
  {
  }

  /** Trimming keeps a contiguous part whose ends are not white space. */
  lemma TrimIsPart(s: string)
    ensures forall c | c in JsTrim(s) :: c in s
    ensures '\n' !in s ==> Trimmed(JsTrim(s))
    ensures JsTrim(s) != "" ==> !JsSpace(JsTrim(s)[0]) && !JsSpace(JsTrim(s)[|JsTrim(s)|-1])
  {
    TrimLeftSplits(s, JsSpace);
    var left := TrimLeft(s, JsSpace);
    TrimRightSplits(left, JsSpace);
    forall c | c in JsTrim(s) ensures c in s {
      assert c in left;
    }
  }

  lemma {:induction false} LinesHaveNoNewline(text: string)
    ensures forall i | 0 <= i < |Lines(text)| :: '\n' !in Lines(text)[i]
  {
    if text != [] {
      LinesHaveNoNewline(text[1..]);
    }
  }

  /** What a line parses to is always well formed. */
  lemma ParsedLineIsWellFormed(raw: string)
    requires '\n' !in raw
    ensures ParseLine(raw).Some? ==> WellFormed(ParseLine(raw).value)
  {
    TrimIsPart(raw);
    var line := JsTrim(raw);
    if line != "" && line[0] == '-' {
      TrimIsPart(line[1..]);
    } else if line != "" && line[0] != '#' {
      var at := EqualsAt(line);
      TrimOfTrimmed(line);
      if at.Some? {
        TrimIsPart(line[..at.value]);
        TrimIsPart(line[at.value + 1..]);
        if at.value > 0 {
          assert line[..at.value][0] == line[0];
          TrimFirst(line[..at.value]);
        }
      }
    }
  }

  lemma TrimFirst(s: string)
    requires s != "" && !JsSpace(s[0])
    ensures JsTrim(s) != "" && JsTrim(s)[0] == s[0]
  {
    TrimRightSplits(s, JsSpace);
  }

  lemma {:induction false} ParsedLinesAreWellFormed(lines: seq<string>)
    requires forall i | 0 <= i < |lines| :: '\n' !in lines[i]
    ensures AllWellFormed(ParseLines(lines))
  {
    if lines != [] {
      ParsedLineIsWellFormed(lines[0]);
      ParsedLinesAreWellFormed(lines[1..]);
    }
  }

  /** Printing a well-formed edit and parsing the line gives the edit back. */
  lemma LineRoundTrip(e: Entry)
    requires WellFormed(e)
    ensures ParseLine(LineOf(e)) == Some(e) && '\n' !in LineOf(e)
  {
    var line := LineOf(e);
    match e.action
    case Unset =>
      assert line[1..] == e.key;
      TrimOfTrimmed(line);
      TrimOfTrimmed(e.key);
    case Set =>
      var v := e.value.value;
      assert line[|e.key|] == '=' && line[..|e.key|] == e.key && line[|e.key| + 1..] == v;
      TrimOfTrimmed(line);
      TrimOfTrimmed(e.key);
      TrimOfTrimmed(v);
      FirstEquals(line, |e.key|);
  }

  lemma FirstEquals(line: string, at: nat)
    requires at < |line| && line[at] == '=' && '=' !in line[..at]
    ensures EqualsAt(line) == Some(at)
  {
    var r := EqualsAt(line);
    assert line[at] in line;
    assert forall k | 0 <= k < at :: line[k] != '=' by {
      forall k | 0 <= k < at ensures line[k] != '=' { assert line[k] == line[..at][k]; }
    }
    assert forall k | 0 <= k < r.value :: line[k] != '=' by {
      forall k | 0 <= k < r.value ensures line[k] != '=' { assert line[k] == line[..r.value][k]; }
    }
  }

  lemma {:induction false} LinesOfOneMore(head: string, tail: string)
    requires '\n' !in head
    ensures Lines(head + "\n" + tail) == [head] + Lines(tail)
  {
    var text := head + "\n" + tail;
    if head == [] {
      assert text[1..] == tail;
    } else {
      assert text[1..] == head[1..] + "\n" + tail;
      LinesOfOneMore(head[1..], tail);
      assert [head[0]] + head[1..] == head;
    }
  }

  lemma {:induction false} LinesOfOne(line: string)
    requires '\n' !in line
    ensures Lines(line) == [line]
  {
    if line != [] {
      LinesOfOne(line[1..]);
      assert [line[0]] + line[1..] == line;
    }
  }

  lemma {:induction false} LinesOfJoin(parts: seq<string>)
    requires parts != [] && forall i | 0 <= i < |parts| :: '\n' !in parts[i]
    ensures Lines(Join(parts, "\n")) == parts
  {
    if |parts| == 1 {
      LinesOfOne(parts[0]);
    } else {
      LinesOfJoin(parts[1..]);
      LinesOfOneMore(parts[0], Join(parts[1..], "\n"));
    }
  }

  lemma RestIsWellFormed(entries: seq<Entry>)
    requires AllWellFormed(entries) && entries != []
    ensures WellFormed(entries[0]) && AllWellFormed(entries[1..])
  {
    forall i | 0 <= i < |entries[1..]| ensures WellFormed(entries[1..][i]) { assert WellFormed(entries[i + 1]); }
  }

  lemma LinesAreSingle(entries: seq<Entry>)
    requires AllWellFormed(entries)
    ensures forall i | 0 <= i < |entries| :: '\n' !in LinesOf(entries)[i]
  {
    forall i | 0 <= i < |entries| ensures '\n' !in LinesOf(entries)[i] {
      LineRoundTrip(entries[i]);
    }
  }

  lemma {:induction false} LinesRoundTrip(entries: seq<Entry>)
    requires AllWellFormed(entries)
    ensures ParseLines(LinesOf(entries)) == entries
    ensures forall i | 0 <= i < |entries| :: '\n' !in LinesOf(entries)[i]
  {
    LinesAreSingle(entries);
    if entries != [] {
      RestIsWellFormed(entries);
      LinesRoundTrip(entries[1..]);
      LineRoundTrip(entries[0]);
      assert LinesOf(entries)[1..] == LinesOf(entries[1..]);
    }
  }

  /** Printing and parsing gives a list of edits back exactly when every edit is well formed. */
  lemma EditsRoundTripExactlyWhenWellFormed(entries: seq<Entry>)
    ensures Parse(ToText(entries)) == entries <==> AllWellFormed(entries)
  {
    ParsedTextIsWellFormed(ToText(entries));
    if AllWellFormed(entries) {
      LinesRoundTrip(entries);
      if entries == [] {
        assert ParseLines([""]) == [];
      } else {
        LinesOfJoin(LinesOf(entries));
      }
    }
  }

  lemma ParsedTextIsWellFormed(text: string)
    ensures AllWellFormed(Parse(text))
  {
    LinesHaveNoNewline(text);
    ParsedLinesAreWellFormed(Lines(text));
  }

  /** Whatever is typed, saving the parsed edits as text and parsing them again loses nothing. */
  lemma ParsingIsStable(text: string)
    ensures Parse(ToText(Parse(text))) == Parse(text)
  {
    ParsedTextIsWellFormed(text);
    EditsRoundTripExactlyWhenWellFormed(Parse(text));
  }
}
