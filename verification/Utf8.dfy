/** Cutting text to a byte budget without splitting a character. Encoding as in section 3 of RFC 3629. */
module Utf8 {

  /** A Python string is a list of code points; the surrogates among them cannot be encoded. */
  type CodePoint = c: nat | c <= 0x10FFFF
  type Byte = b: nat | b < 256

  predicate Scalar(c: CodePoint) { !(0xD800 <= c <= 0xDFFF) }

  function EncodeChar(c: CodePoint): (bytes: seq<Byte>)
    ensures 1 <= |bytes| <= 4
  {
    if c < 0x80 then [c]
    else if c < 0x800 then [0xC0 + c / 64, 0x80 + c % 64]
    else if c < 0x10000 then [0xE0 + c / 4096, 0x80 + c / 64 % 64, 0x80 + c % 64]
    else [0xF0 + c / 262144, 0x80 + c / 4096 % 64, 0x80 + c / 64 % 64, 0x80 + c % 64]
  }

  function Encode(text: seq<CodePoint>): seq<Byte> {
    if text == [] then [] else EncodeChar(text[0]) + Encode(text[1..])
  }

  /** `(b & 0xC0) == 0x80`. */
  predicate Continuation(b: Byte) { b / 64 == 2 }

  /** `(b & 0xC0) == 0xC0`. */
  predicate Lead(b: Byte) { b / 64 == 3 }

  /** The value the leading bytes spell, by the bit patterns of the four lengths; -1 if too few. */
  function Spelled(bytes: seq<Byte>): int
    requires bytes != []
  {
    var b: int := bytes[0];
    if b < 0x80 then b
    else if 0xC0 <= b < 0xE0 && |bytes| >= 2 then (b - 0xC0) * 64 + bytes[1] as int % 64
    else if 0xE0 <= b < 0xF0 && |bytes| >= 3
    then ((b - 0xE0) * 64 + bytes[1] as int % 64) * 64 + bytes[2] as int % 64
    else if 0xF0 <= b && |bytes| >= 4
    then (((b - 0xF0) * 64 + bytes[1] as int % 64) * 64 + bytes[2] as int % 64) * 64 + bytes[3] as int % 64
    else -1
  }

  /** The character that starts the bytes, if they start with a well-formed one: shortest form,
      no surrogate, nothing above U+10FFFF. */
  function FirstChar(bytes: seq<Byte>): (c: int)
    requires bytes != []
    ensures c != -1 ==> 0 <= c <= 0x10FFFF && Scalar(c) && EncodeChar(c) <= bytes
  {
    var v := Spelled(bytes);
    if 0 <= v <= 0x10FFFF && Scalar(v) && EncodeChar(v) <= bytes then v else -1
  }

  /** `decode("utf-8", errors="ignore")`: a byte that starts no well-formed character is discarded. */
  function Decode(bytes: seq<Byte>): seq<CodePoint>
    decreases |bytes|
  {
    if bytes == [] then []
    else
      var c := FirstChar(bytes);
      if c == -1 then Decode(bytes[1..]) else [c] + Decode(bytes[|EncodeChar(c)|..])
  }

  ghost predicate AllScalar(text: seq<CodePoint>) { forall c | c in text :: Scalar(c) }

  lemma Digits(c: nat)
    ensures c == c / 64 * 64 + c % 64
    ensures c / 4096 == c / 64 / 64 && c / 262144 == c / 4096 / 64
  {
  }

  lemma SpelledTwo(c: CodePoint)
    requires 0x80 <= c < 0x800
    ensures Spelled(EncodeChar(c)) == c
  {
    Digits(c);
  }

  lemma SpelledThree(c: CodePoint)
    requires 0x800 <= c < 0x10000
    ensures Spelled(EncodeChar(c)) == c
  {
    Digits(c);
    Digits(c / 64);
  }

  lemma FourDigits(c: nat)
    ensures c == ((c / 262144 * 64 + c / 4096 % 64) * 64 + c / 64 % 64) * 64 + c % 64
  {
    Digits(c);
    Digits(c / 64);
    Digits(c / 4096);
  }

  /** A continuation byte gives back the six bits it carries. */
  lemma SixBits(d: nat)
    requires d < 64
    ensures (0x80 + d) % 64 == d
  {
  }

  lemma SpelledFour(c: CodePoint)
    requires 0x10000 <= c
    ensures Spelled(EncodeChar(c)) == c
  {
    FourDigits(c);
    SixBits(c / 4096 % 64);
    SixBits(c / 64 % 64);
    SixBits(c % 64);
  }

  lemma SpelledAlone(c: CodePoint)
    ensures Spelled(EncodeChar(c)) == c
  {
    if 0x80 <= c < 0x800 {
      SpelledTwo(c);
    } else if 0x800 <= c < 0x10000 {
      SpelledThree(c);
    } else if 0x10000 <= c {
      SpelledFour(c);
    }
  }

  lemma SpelledIsEncoded(c: CodePoint, rest: seq<Byte>)
    ensures Spelled(EncodeChar(c) + rest) == c
  {
    SpelledAlone(c);
    SpelledFromPrefix(EncodeChar(c), rest);
  }

  /** What the leading bytes spell does not depend on what follows them. */
  lemma SpelledFromPrefix(bytes: seq<Byte>, rest: seq<Byte>)
    requires bytes != [] && Spelled(bytes) != -1
    ensures Spelled(bytes + rest) == Spelled(bytes)
  {
    assert forall i | 0 <= i < |bytes| :: (bytes + rest)[i] == bytes[i];
  }

  lemma FirstCharOfEncoded(c: CodePoint, rest: seq<Byte>)
    requires Scalar(c)
    ensures FirstChar(EncodeChar(c) + rest) == c
  {
    SpelledIsEncoded(c, rest);
    assert EncodeChar(c) <= EncodeChar(c) + rest;
  }

  /** The lenient decoder discards nothing from well-formed bytes. */
  lemma {:induction false} DecodeEncode(text: seq<CodePoint>)
    requires AllScalar(text)
    ensures Decode(Encode(text)) == text
  {
    if text != [] {
      var rest := Encode(text[1..]);
      FirstCharOfEncoded(text[0], rest);
      assert (EncodeChar(text[0]) + rest)[|EncodeChar(text[0])|..] == rest;
      DecodeEncode(text[1..]);
    }
  }

  // ------------------------------------------------------------ the cut

  datatype Result = Ok(text: seq<CodePoint>, truncated: bool) | EncodeError

  function DropContinuations(cut: seq<Byte>): seq<Byte> {
    if cut != [] && Continuation(cut[|cut|-1]) then DropContinuations(cut[..|cut|-1]) else cut
  }

  function DropPartial(cut: seq<Byte>): seq<Byte> {
    var c := DropContinuations(cut);
    if c != [] && Lead(c[|c|-1]) then c[..|c|-1] else c
  }

  /** How many whole characters fit in the budget. */
  function Fitting(text: seq<CodePoint>, budget: nat): (k: nat)
    ensures k <= |text|
  {
    if text == [] || |EncodeChar(text[0])| > budget then 0
    else 1 + Fitting(text[1..], budget - |EncodeChar(text[0])|)
  }

  lemma Associates(a: seq<Byte>, b: seq<Byte>, c: seq<Byte>)
    ensures a + (b + c) == (a + b) + c
  {
  }

  lemma {:induction false} EncodeSplit(text: seq<CodePoint>, k: nat)
    requires k <= |text|
    ensures Encode(text) == Encode(text[..k]) + Encode(text[k..])
  {
    if k == 0 {
      assert text[..0] == [] && text[0..] == text;
    } else {
      var first := EncodeChar(text[0]);
      EncodeSplit(text[1..], k - 1);
      assert text[..k][1..] == text[1..][..k-1] && text[1..][k-1..] == text[k..];
      assert Encode(text[..k]) == first + Encode(text[1..][..k-1]);
      Associates(first, Encode(text[1..][..k-1]), Encode(text[k..]));
    }
  }

  /** The last character of a prefix. */
  lemma EncodeLast(text: seq<CodePoint>, k: nat)
    requires 0 < k <= |text|
    ensures Encode(text[..k]) == Encode(text[..k-1]) + EncodeChar(text[k-1])
  {
    EncodeSplit(text[..k], k - 1);
    assert text[..k][..k-1] == text[..k-1] && text[..k][k-1..] == [text[k-1]];
    assert [text[k-1]][1..] == [];
    assert Encode([text[k-1]]) == EncodeChar(text[k-1]);
  }

  /** The budget holds exactly the first `Fitting` characters, and the next one does not fit. */
  lemma {:induction false} FittingFits(text: seq<CodePoint>, budget: nat)
    ensures var k := Fitting(text, budget);
      && |Encode(text[..k])| <= budget
      && (k < |text| ==> |Encode(text[..k])| + |EncodeChar(text[k])| > budget)
  {
    if text != [] && |EncodeChar(text[0])| <= budget {
      var k := Fitting(text[1..], budget - |EncodeChar(text[0])|);
      FittingFits(text[1..], budget - |EncodeChar(text[0])|);
      assert text[..k + 1][1..] == text[1..][..k];
    }
  }

  lemma PartOfChar(whole: seq<Byte>, next: seq<Byte>, tail: seq<Byte>, budget: nat)
    requires |whole| <= budget < |whole| + |next|
    ensures var cut := (whole + (next + tail))[..budget];
      cut[|whole|..] == next[..budget - |whole|] && cut == whole + cut[|whole|..]
  {
  }

  /** The bytes of `text` up to the budget: whole characters, then part of the next one. */
  lemma BudgetSplits(text: seq<CodePoint>, budget: nat) returns (part: seq<Byte>)
    requires budget < |Encode(text)|
    ensures var k := Fitting(text, budget);
      && k < |text| && |Encode(text[..k])| + |part| == budget
      && Encode(text)[..budget] == Encode(text[..k]) + part
      && part <= EncodeChar(text[k]) && |part| < |EncodeChar(text[k])|
  {
    var k := Fitting(text, budget);
    FittingFits(text, budget);
    EncodeSplit(text, k);
    assert text[..|text|] == text;
    assert Encode(text[k..]) == EncodeChar(text[k]) + Encode(text[k..][1..]);
    PartOfChar(Encode(text[..k]), EncodeChar(text[k]), Encode(text[k..][1..]), budget);
    part := EncodeChar(text[k])[..budget - |Encode(text[..k])|];
  }

  lemma CharBytes(c: CodePoint)
    ensures var b := EncodeChar(c);
      && (c < 0x80 <==> !Lead(b[0])) && !Continuation(b[0])
      && (forall i | 1 <= i < |b| :: Continuation(b[i]))
      && (c < 0x80 <==> |b| == 1)
  {
  }

  /** Continuations come off down to the byte before them. */
  lemma {:induction false} DropTail(head: seq<Byte>, tail: seq<Byte>)
    requires forall i | 0 <= i < |tail| :: Continuation(tail[i])
    requires head != [] ==> !Continuation(head[|head|-1])
    ensures DropContinuations(head + tail) == head
  {
    if tail == [] {
      assert head + tail == head;
    } else {
      var cut := head + tail;
      assert cut[..|cut|-1] == head + tail[..|tail|-1];
      DropTail(head, tail[..|tail|-1]);
    }
  }

  /** A non-empty part of one multi-byte character, at the end, comes off whole. */
  lemma DropPartOfChar(front: seq<Byte>, part: seq<Byte>, c: CodePoint)
    requires part != [] && part <= EncodeChar(c) && c >= 0x80
    ensures DropPartial(front + part) == front
  {
    CharBytes(c);
    var head := front + [part[0]];
    assert front + part == head + part[1..];
    DropTail(head, part[1..]);
    assert head[..|head|-1] == front;
  }

  lemma DropNothing(front: seq<Byte>, c: CodePoint)
    requires c < 0x80
    ensures DropPartial(front + EncodeChar(c)) == front + EncodeChar(c)
  {
    var cut := front + [c];
    assert cut[|cut|-1] == c;
  }

  /** What fits ends exactly on the budget, with a multi-byte character. */
  predicate EndsOnBudget(text: seq<CodePoint>, budget: nat) {
    var k := Fitting(text, budget);
    k > 0 && |Encode(text[..k])| == budget && text[k - 1] >= 0x80
  }

  /** The number of characters kept: those that fit, less a last multi-byte one that ends exactly on the budget. */
  function Kept(text: seq<CodePoint>, budget: nat): (k: nat)
    ensures k <= |text|
  {
    Fitting(text, budget) - if EndsOnBudget(text, budget) then 1 else 0
  }

  lemma CutIsWhole(text: seq<CodePoint>, budget: nat)
    requires 0 < budget < |Encode(text)|
    ensures DropPartial(Encode(text)[..budget]) == Encode(text[..Kept(text, budget)])
  {
    var k := Fitting(text, budget);
    var part := BudgetSplits(text, budget);
    var whole := Encode(text[..k]);
    if part != [] {
      CharBytes(text[k]);
      DropPartOfChar(whole, part, text[k]);
    } else {
      assert whole + part == whole;
      CutOnBudget(text, k);
    }
  }

  /** Cutting right after a character: a multi-byte one comes off, a single byte stays. */
  lemma CutOnBudget(text: seq<CodePoint>, k: nat)
    requires 0 < k <= |text|
    ensures DropPartial(Encode(text[..k])) == Encode(text[..if text[k - 1] >= 0x80 then k - 1 else k])
  {
    EncodeLast(text, k);
    CutAtBoundary(Encode(text[..k - 1]), text[k - 1]);
  }

  lemma CutAtBoundary(front: seq<Byte>, last: CodePoint)
    ensures DropPartial(front + EncodeChar(last)) == if last >= 0x80 then front else front + EncodeChar(last)
  {
    if last >= 0x80 {
      DropPartOfChar(front, EncodeChar(last), last);
    } else {
      DropNothing(front, last);
    }
  }

  lemma KeptIsClose(text: seq<CodePoint>, budget: nat)
    requires 0 < budget < |Encode(text)|
    ensures budget - 4 <= |Encode(text[..Kept(text, budget)])| <= budget
  {
    var k := Fitting(text, budget);
    var part := BudgetSplits(text, budget);
    if k > 0 { EncodeLast(text, k); }
  }

  /** What the two trimming steps leave decodes to the characters kept, with no byte discarded. */
  lemma CutDecodes(text: seq<CodePoint>, budget: nat)
    requires 0 < budget < |Encode(text)| && AllScalar(text)
    ensures Decode(DropPartial(Encode(text)[..budget])) == text[..Kept(text, budget)]
    ensures budget - 4 <= |Encode(text[..Kept(text, budget)])| <= budget
  {
    CutIsWhole(text, budget);
    KeptIsClose(text, budget);
    DecodeEncode(text[..Kept(text, budget)]);
  }

  /** `truncate_utf8`: a whole-character prefix within the budget, short of it by at most four bytes.
      The one surprise is stated exactly: a complete multi-byte character that ends on the budget is
      dropped, and only then does the result hold fewer characters than would fit. */
  method TruncateUtf8(text: seq<CodePoint>, maxBytes: int) returns (r: Result)
    ensures maxBytes <= 0 ==> r == Ok([], text != [])
    ensures maxBytes > 0 ==> (r == EncodeError <==> !AllScalar(text))
    ensures maxBytes > 0 && r.Ok? && |Encode(text)| <= maxBytes ==> r == Ok(text, false)
    ensures maxBytes > 0 && r.Ok? && |Encode(text)| > maxBytes ==>
      && r.truncated && r.text <= text
      && maxBytes - 4 <= |Encode(r.text)| <= maxBytes
      && |r.text| == Fitting(text, maxBytes) - if EndsOnBudget(text, maxBytes) then 1 else 0
  {
    if maxBytes <= 0 {
      return Ok([], text != []);
    }
    if exists c :: c in text && !Scalar(c) {
      return EncodeError;
    }
    var encoded := Encode(text);
    if |encoded| <= maxBytes {
      return Ok(text, false);
    }
    var cut := encoded[..maxBytes];
    while cut != [] && Continuation(cut[|cut|-1])
      invariant DropContinuations(cut) == DropContinuations(encoded[..maxBytes])
      decreases |cut|
    {
      cut := cut[..|cut|-1];
    }
    if cut != [] && Lead(cut[|cut|-1]) {
      cut := cut[..|cut|-1];
    }
    CutDecodes(text, maxBytes);
    return Ok(Decode(cut), true);
  }
}
