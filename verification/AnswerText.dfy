/** The text side of the streamed-answer decoder: where the answer starts, where it ends,
    and what an encoded prefix of it decodes to. Text is a sequence of code units, because
    a `\ud83d` escape yields a lone surrogate. */
module AnswerText {
  import opened Wrappers

  type Text = seq<int>

  const QUOTE := 34
  const BACKSLASH := 92
  const COLON := 58
  const LETTER_U := 117
  const ANSWER_KEY: Text := [34, 97, 110, 115, 119, 101, 114, 34]

  // ---------------------------------------------------------------- the start pattern

  /** The units `\s` matches in a Python string pattern. */
  predicate IsSpace(u: int) {
    || 9 <= u <= 13 || 28 <= u <= 32 || u == 0x85 || u == 0xA0 || u == 0x1680
    || 0x2000 <= u <= 0x200A || u == 0x2028 || u == 0x2029 || u == 0x202F || u == 0x205F || u == 0x3000
  }

  function SkipSpaces(s: Text, i: nat): (j: nat)
    requires i <= |s|
    ensures i <= j <= |s|
    ensures forall k :: i <= k < j ==> IsSpace(s[k])
    ensures j < |s| ==> !IsSpace(s[j])
    decreases |s| - i
  {
    if i < |s| && IsSpace(s[i]) then SkipSpaces(s, i + 1) else i
  }

  /** The end of the start pattern anchored at `i`, when it matches there. */
  function MatchEnd(s: Text, i: nat): Option<nat>
    requires i <= |s|
  {
    if i + 8 <= |s| && s[i..i + 8] == ANSWER_KEY then
      var a := SkipSpaces(s, i + 8);
      if a < |s| && s[a] == COLON then
        var b := SkipSpaces(s, a + 1);
        if b < |s| && s[b] == QUOTE then Some(b + 1) else None
      else None
    else None
  }

  datatype Match = Match(start: nat, end: nat)

  /** Leftmost match at or after `i`. */
  function Search(s: Text, i: nat): (m: Option<Match>)
    requires i <= |s|
    decreases |s| - i
  {
    match MatchEnd(s, i)
    case Some(e) => Some(Match(i, e))
    case None => if i < |s| then Search(s, i + 1) else None
  }

  /** The pattern `"answer"\s*:\s*"` said without an algorithm: it spans `s[i..e]`. */
  ghost predicate Spans(s: Text, i: nat, e: nat) {
    exists a: nat, b: nat :: SpansAt(s, i, a, b, e)
  }

  ghost predicate SpansAt(s: Text, i: nat, a: nat, b: nat, e: nat) {
    && i + 8 <= a < b < |s| && e == b + 1
    && s[i..i + 8] == ANSWER_KEY
    && (forall k :: i + 8 <= k < a ==> IsSpace(s[k]))
    && s[a] == COLON
    && (forall k :: a < k < b ==> IsSpace(s[k]))
    && s[b] == QUOTE
  }

  lemma MatchEndIsPattern(s: Text, i: nat, e: nat)
    requires i <= |s|
    ensures MatchEnd(s, i) == Some(e) <==> Spans(s, i, e)
  {
    if MatchEnd(s, i) == Some(e) {
      var a := SkipSpaces(s, i + 8);
      var b := SkipSpaces(s, a + 1);
      assert SpansAt(s, i, a, b, e);
    }
    if Spans(s, i, e) {
      var a: nat, b: nat :| SpansAt(s, i, a, b, e);
      assert SkipSpaces(s, i + 8) == a;
      assert SkipSpaces(s, a + 1) == b;
    }
  }

  /** No match starts at a position from `i` up to `j`. */
  ghost predicate NoSpan(s: Text, i: nat, j: nat) {
    forall k: nat, e: nat :: i <= k < j ==> !Spans(s, k, e)
  }

  /** The first match at or after `i`, or none. */
  ghost predicate Leftmost(s: Text, i: nat, m: Option<Match>) {
    match m
    case Some(m) => i <= m.start <= |s| && Spans(s, m.start, m.end) && NoSpan(s, i, m.start)
    case None => NoSpan(s, i, |s| + 1)
  }

  /** `Search` finds a match exactly when there is one, and then the leftmost. */
  lemma {:induction false} SearchIsLeftmost(s: Text, i: nat)
    requires i <= |s|
    ensures Leftmost(s, i, Search(s, i))
    decreases |s| - i
  {
    if MatchEnd(s, i).Some? {
      MatchEndIsPattern(s, i, MatchEnd(s, i).value);
    } else {
      forall e: nat ensures !Spans(s, i, e) {
        MatchEndIsPattern(s, i, e);
      }
      if i < |s| {
        SearchIsLeftmost(s, i + 1);
        LeftmostFromEarlier(s, i, Search(s, i + 1));
      }
    }
  }

  lemma LeftmostFromEarlier(s: Text, i: nat, m: Option<Match>)
    requires i < |s| && Leftmost(s, i + 1, m) && NoSpan(s, i, i + 1)
    ensures Leftmost(s, i, m)
  {
  }

  lemma SpansExtends(s: Text, t: Text, i: nat, e: nat)
    requires e <= |s|
    ensures Spans(s, i, e) <==> Spans(s + t, i, e)
  {
    assert forall k :: 0 <= k < |s| ==> (s + t)[k] == s[k];
    if i + 8 <= |s| { assert (s + t)[i..i + 8] == s[i..i + 8]; }
    if Spans(s, i, e) {
      var a: nat, b: nat :| SpansAt(s, i, a, b, e);
      assert SpansAt(s + t, i, a, b, e);
    }
    if Spans(s + t, i, e) {
      var a: nat, b: nat :| SpansAt(s + t, i, a, b, e);
      assert SpansAt(s, i, a, b, e);
    }
  }

  /** Two spans of the pattern cannot overlap: no quote inside one is followed by a letter. */
  lemma SpansDoNotOverlap(s: Text, i: nat, e: nat, j: nat, f: nat)
    requires Spans(s, i, e) && Spans(s, j, f) && i < j
    ensures e <= j + 1
  {
    var a: nat, b: nat :| SpansAt(s, i, a, b, e);
    var c: nat, d: nat :| SpansAt(s, j, c, d, f);
    assert s[j] == s[j..j + 8][0] == QUOTE;
    assert s[j + 1] == s[j..j + 8][1] == 97;
    assert forall k :: i <= k < i + 8 ==> s[k] == s[i..i + 8][k - i];
    assert s[i + 8] != 97;
  }

  /** A match that is not there yet cannot appear to the left of one that is. */
  lemma NoEarlierMatch(s: Text, t: Text, i: nat, j: nat)
    requires i < j <= |s| && MatchEnd(s, i).None? && MatchEnd(s, j).Some?
    ensures MatchEnd(s + t, i).None?
  {
    var f := MatchEnd(s, j).value;
    MatchEndIsPattern(s, j, f);
    SpansExtends(s, t, j, f);
    if MatchEnd(s + t, i).Some? {
      var e := MatchEnd(s + t, i).value;
      MatchEndIsPattern(s + t, i, e);
      SpansDoNotOverlap(s + t, i, e, j, f);
      SpansExtends(s, t, i, e);
      MatchEndIsPattern(s, i, e);
    }
  }

  lemma MatchStays(s: Text, t: Text, i: nat, e: nat)
    requires i <= |s| && MatchEnd(s, i) == Some(e)
    ensures MatchEnd(s + t, i) == Some(e)
  {
    MatchEndIsPattern(s, i, e);
    SpansExtends(s, t, i, e);
    MatchEndIsPattern(s + t, i, e);
  }

  /** More input never moves a match that has been found. */
  lemma {:induction false} SearchStable(s: Text, t: Text, i: nat)
    requires i <= |s| && Search(s, i).Some?
    ensures Search(s + t, i) == Search(s, i)
    decreases |s| - i
  {
    if MatchEnd(s, i).Some? {
      MatchStays(s, t, i, MatchEnd(s, i).value);
    } else {
      SearchHits(s, i + 1);
      NoEarlierMatch(s, t, i, Search(s, i + 1).value.start);
      SearchStable(s, t, i + 1);
    }
  }

  lemma {:induction false} SearchHits(s: Text, i: nat)
    requires i <= |s| && Search(s, i).Some?
    ensures var m := Search(s, i).value;
      i <= m.start < m.end <= |s| && MatchEnd(s, m.start) == Some(m.end)
    decreases |s| - i
  {
    if MatchEnd(s, i).None? {
      SearchHits(s, i + 1);
    }
  }

  // ---------------------------------------------------------------- the closing quote

  /** Left-to-right escape flag before position `k`: true when a backslash escapes `s[k]`. */
  predicate Escaped(s: Text, k: nat)
    requires k <= |s|
  {
    k > 0 && s[k - 1] == BACKSLASH && !Escaped(s, k - 1)
  }

  /** No quote in `s[i..j]` closes the string. */
  ghost predicate Open(s: Text, i: nat, j: nat) {
    j <= |s| && forall k :: i <= k < j && s[k] == QUOTE ==> Escaped(s, k)
  }

  /** Index of the first unescaped quote at or after `i`, or |s| when there is none. */
  function ClosingQuote(s: Text, i: nat): (q: nat)
    requires i <= |s|
    ensures i <= q <= |s| && Open(s, i, q)
    ensures q < |s| ==> s[q] == QUOTE && !Escaped(s, q)
    decreases |s| - i
  {
    if i == |s| then i
    else if s[i] == QUOTE && !Escaped(s, i) then i
    else ClosingQuote(s, i + 1)
  }

  lemma ClosingQuoteUnique(s: Text, i: nat, q: nat)
    requires i <= q <= |s| && Open(s, i, q)
    requires q < |s| ==> s[q] == QUOTE && !Escaped(s, q)
    ensures ClosingQuote(s, i) == q
  {
  }

  lemma {:induction false} EscapedIsLocal(s: Text, t: Text, k: nat)
    requires s <= t && k <= |s|
    ensures Escaped(s, k) == Escaped(t, k)
  {
    if k > 0 {
      EscapedIsLocal(s, t, k - 1);
    }
  }

  lemma OpenIsLocal(s: Text, t: Text, i: nat, j: nat)
    requires s <= t && j <= |s|
    ensures Open(s, i, j) == Open(t, i, j)
  {
    forall k | i <= k < j ensures s[k] == t[k] && Escaped(s, k) == Escaped(t, k) {
      EscapedIsLocal(s, t, k);
    }
  }

  lemma ClosingQuoteExtends(s: Text, t: Text)
    requires s <= t
    ensures ClosingQuote(s, 0) < |s| ==> ClosingQuote(t, 0) == ClosingQuote(s, 0)
    ensures ClosingQuote(s, 0) <= ClosingQuote(t, 0)
  {
    var p, q := ClosingQuote(s, 0), ClosingQuote(t, 0);
    OpenIsLocal(s, t, 0, p);
    EscapedIsLocal(s, t, p);
    if p < |s| {
      ClosingQuoteUnique(t, 0, p);
    }
  }

  // ---------------------------------------------------------------- decoding

  const ESCAPES: map<int, int> :=
    map[34 := 34, 92 := 92, 47 := 47, 98 := 8, 102 := 12, 110 := 10, 114 := 13, 116 := 9]

  predicate IsHex(u: int) {
    48 <= u <= 57 || 65 <= u <= 70 || 97 <= u <= 102
  }

  function HexDigit(u: int): (d: int)
    requires IsHex(u)
    ensures 0 <= d < 16
  {
    if u <= 57 then u - 48 else if u <= 70 then u - 55 else u - 87
  }

  function HexValue(a: int, b: int, c: int, d: int): (v: int)
    requires IsHex(a) && IsHex(b) && IsHex(c) && IsHex(d)
    ensures 0 <= v < 0x10000
  {
    HexDigit(a) * 4096 + HexDigit(b) * 256 + HexDigit(c) * 16 + HexDigit(d)
  }

  /** Length of the complete token at `i`; zero when it is incomplete or not an escape at all. */
  function TokenLength(e: Text, i: nat): (n: nat)
    requires i < |e|
    ensures i + n <= |e|
  {
    if e[i] != BACKSLASH then 1
    else if i + 1 == |e| then 0
    else if e[i + 1] == LETTER_U then
      if i + 6 <= |e| && IsHex(e[i + 2]) && IsHex(e[i + 3]) && IsHex(e[i + 4]) && IsHex(e[i + 5]) then 6 else 0
    else if e[i + 1] in ESCAPES then 2
    else 0
  }

  function TokenUnit(e: Text, i: nat): int
    requires i < |e| && TokenLength(e, i) > 0
  {
    if e[i] != BACKSLASH then e[i]
    else if e[i + 1] == LETTER_U then HexValue(e[i + 2], e[i + 3], e[i + 4], e[i + 5])
    else ESCAPES[e[i + 1]]
  }

  /** What the encoded text from `i` on decodes to, up to the first token that is not complete. */
  function Decode(e: Text, i: nat): Text
    requires i <= |e|
    decreases |e| - i
  {
    if i == |e| || TokenLength(e, i) == 0 then []
    else [TokenUnit(e, i)] + Decode(e, i + TokenLength(e, i))
  }

  /** Decoding is monotone: a longer encoded text decodes to an extension. */
  lemma {:induction false} DecodeMonotone(e: Text, f: Text, i: nat)
    requires i <= |e| && e <= f
    ensures Decode(e, i) <= Decode(f, i)
    decreases |e| - i
  {
    if i < |e| && TokenLength(e, i) > 0 {
      DecodeMonotone(e, f, i + TokenLength(e, i));
    }
  }

  // ---------------------------------------------------------------- the whole output

  /** The encoded answer in a text that follows the opening quote. */
  function Body(s: Text): Text {
    s[..ClosingQuote(s, 0)]
  }

  /** Everything that should have been emitted once `s` has been received. */
  function Output(s: Text): Text {
    match Search(s, 0)
    case None => []
    case Some(m) => if m.end <= |s| then Decode(Body(s[m.end..]), 0) else []
  }

  ghost predicate Complete(s: Text) {
    match Search(s, 0)
    case None => false
    case Some(m) => m.end <= |s| && ClosingQuote(s[m.end..], 0) < |s| - m.end
  }

  lemma BodyExtends(a: Text, t: Text)
    ensures Body(a) <= Body(a + t)
    ensures ClosingQuote(a, 0) < |a| ==> Body(a + t) == Body(a)
  {
    ClosingQuoteExtends(a, a + t);
  }

  /** Output only grows, and after the closing quote it never changes again. */
  lemma OutputExtends(s: Text, t: Text)
    ensures Output(s) <= Output(s + t)
    ensures Complete(s) ==> Complete(s + t) && Output(s + t) == Output(s)
  {
    if Search(s, 0).Some? {
      SearchStable(s, t, 0);
      SearchHits(s, 0);
      var m := Search(s, 0).value;
      assert (s + t)[m.end..] == s[m.end..] + t;
      BodyExtends(s[m.end..], t);
      DecodeMonotone(Body(s[m.end..]), Body(s[m.end..] + t), 0);
      ClosingQuoteExtends(s[m.end..], s[m.end..] + t);
    }
  }
}
