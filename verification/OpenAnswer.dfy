/** Streaming: what has been emitted of an answer whose closing quote has not arrived, and where an answer starts. */
module OpenAnswer {
  import opened Wrappers
  import opened AnswerText
  import opened AnswerRoundTrip

  // ---------------------------------------------------------------- what stops the decoder

  /** No legal token stands at the start of the text. */
  ghost predicate NoToken(rest: Text) {
    forall t | LegalToken(t) :: !(SpellToken(t) <= rest)
  }

  /** Nothing, or a backslash that begins no legal escape: an escape that has not arrived in full, or no escape at
      all. */
  ghost predicate Stuck(rest: Text) {
    rest == [] || (rest[0] == BACKSLASH && NoToken(rest))
  }

  /** Whatever the decoder takes for an escape is a legal one. */
  lemma TokenIsLegal(e: Text, i: nat) returns (t: Token)
    requires i < |e| && e[i] == BACKSLASH && TokenLength(e, i) > 0
    ensures LegalToken(t) && SpellToken(t) <= e[i..]
  {
    var r := e[i..];
    assert r[0] == e[i] && r[1] == e[i + 1];
    if e[i + 1] == LETTER_U {
      assert r[2] == e[i + 2] && r[3] == e[i + 3] && r[4] == e[i + 4] && r[5] == e[i + 5];
      t := Hex(r[2], r[3], r[4], r[5]);
      assert r[..6] == SpellToken(t);
    } else {
      t := Short(r[1]);
      assert r[..2] == SpellToken(t);
    }
  }

  lemma StuckDecodesNothing(e: Text, i: nat, rest: Text)
    requires i <= |e| && e[i..] <= rest && Stuck(rest)
    ensures Decode(e, i) == []
  {
    if i < |e| {
      assert e[i] == e[i..][0] == rest[0];
      if TokenLength(e, i) > 0 {
        var t := TokenIsLegal(e, i);
        LongerPrefix(SpellToken(t), e[i..], rest);
      }
    }
  }

  lemma LongerPrefix(a: Text, b: Text, c: Text)
    requires a <= b && b <= c
    ensures a <= c
  {
  }

  /** What has arrived of an escape before it is complete stops the decoder. */
  lemma PartOfATokenIsStuck(t: Token, rest: Text)
    requires LegalToken(t) && rest < SpellToken(t)
    ensures Stuck(rest)
  {
    if rest != [] {
      assert |SpellToken(t)| > 1;
      assert !t.Raw?;
      assert rest[0] == SpellToken(t)[0] == BACKSLASH;
      forall other | LegalToken(other) ensures !(SpellToken(other) <= rest) {
        if SpellToken(other) <= rest {
          LongerPrefix(SpellToken(other), rest, SpellToken(t));
          TokensAreNoPrefixes(other, t);
        }
      }
      assert NoToken(rest);
    }
  }

  lemma TokensAreNoPrefixes(a: Token, b: Token)
    requires LegalToken(a) && LegalToken(b) && SpellToken(a) <= SpellToken(b)
    ensures |SpellToken(a)| == |SpellToken(b)|
  {
    var x, y := SpellToken(a), SpellToken(b);
    assert x[0] == y[0];
    assert |x| > 1 ==> x[1] == y[1];
  }

  // ---------------------------------------------------------------- promptness

  /** The body of an answer that has begun with a legal spelling and gets stuck after it goes on with the rest, as far
      as that reaches. */
  lemma BodyKeepsTheSpelling(ts: seq<Token>, rest: Text) returns (part: Text)
    requires Legal(ts) && Stuck(rest)
    ensures part <= rest && Body(Spell(ts) + rest) == Spell(ts) + part
  {
    var spelled, text := Spell(ts), Spell(ts) + rest;
    SpellingIsRead(ts, rest);
    var q := ClosingQuote(text, 0);
    QuoteBeyond(spelled, rest, q);
    part := rest[..q - |spelled|];
  }

  lemma QuoteBeyond(spelled: Text, rest: Text, q: nat)
    requires q == ClosingQuote(spelled + rest, 0) && Open(spelled + rest, 0, |spelled|)
    ensures |spelled| <= q <= |spelled| + |rest| && (spelled + rest)[..q] == spelled + rest[..q - |spelled|]
  {
  }

  /** Everything is emitted as soon as it can be: an answer that has arrived up to some point, with its closing quote
      still to come or behind an escape that is incomplete or none, has been emitted up to that point. */
  lemma OpenAnswerIsPrompt(pre: Text, ts: seq<Token>, rest: Text)
    requires Search(pre, 0).Some? && Search(pre, 0).value.end == |pre|
    requires Legal(ts) && Stuck(rest)
    ensures Output(pre + (Spell(ts) + rest)) == Units(ts)
  {
    var text := Spell(ts) + rest;
    SearchStable(pre, text, 0);
    assert (pre + text)[|pre|..] == text;
    var part := BodyKeepsTheSpelling(ts, rest);
    SpellingIsRead(ts, part);
    assert (Spell(ts) + part)[|Spell(ts)|..] == part;
    StuckDecodesNothing(Spell(ts) + part, |Spell(ts)|, rest);
    assert Units(ts) + [] == Units(ts);
  }

  /** In particular with nothing after the last token, or any part of the next one. */
  lemma StreamedSoFar(pre: Text, ts: seq<Token>, next: Token, part: Text)
    requires Search(pre, 0).Some? && Search(pre, 0).value.end == |pre|
    requires Legal(ts) && LegalToken(next) && part < SpellToken(next)
    ensures Output(pre + Spell(ts)) == Units(ts)
    ensures Output(pre + (Spell(ts) + part)) == Units(ts)
  {
    OpenAnswerIsPrompt(pre, ts, []);
    assert Spell(ts) + [] == Spell(ts);
    PartOfATokenIsStuck(next, part);
    OpenAnswerIsPrompt(pre, ts, part);
  }

  // ---------------------------------------------------------------- where the answer starts

  function Codes(s: string): Text {
    seq(|s|, i requires 0 <= i < |s| => s[i] as int)
  }

  /** Section 2 of RFC 8259. */
  predicate JsonSpace(u: int) {
    u == ' ' as int || u == '\t' as int || u == '\n' as int || u == '\r' as int
  }

  function Opening(a: Text, b: Text): Text {
    Codes("\"answer\"") + a + Codes(":") + b + Codes("\"")
  }

  lemma OpeningSpans(p: Text, a: Text, b: Text)
    requires forall u | u in a || u in b :: JsonSpace(u)
    ensures Spans(p + Opening(a, b), |p|, |p| + |Opening(a, b)|)
  {
    var s, key := p + Opening(a, b), Codes("\"answer\"");
    var i, j := |p| + 8 + |a|, |p| + 9 + |a| + |b|;
    assert s[|p|..|p| + 8] == key == ANSWER_KEY;
    assert s[|p| + 8..i] == a && s[i] == COLON && s[i + 1..j] == b && s[j] == QUOTE;
    forall k | |p| + 8 <= k < i ensures IsSpace(s[k]) {
      assert s[k] == a[k - |p| - 8] && a[k - |p| - 8] in a;
    }
    forall k | i < k < j ensures IsSpace(s[k]) {
      assert s[k] == b[k - i - 1] && b[k - i - 1] in b;
    }
    assert SpansAt(s, |p|, i, j, j + 1);
  }

  /** The first answer key is found in every JSON layout: any white space around the colon, and any text without a
      quote before it. */
  lemma AnyLayoutStartsTheAnswer(p: Text, a: Text, b: Text)
    requires QUOTE !in p && forall u | u in a || u in b :: JsonSpace(u)
    ensures Search(p + Opening(a, b), 0) == Some(Match(|p|, |p + Opening(a, b)|))
  {
    var s := p + Opening(a, b);
    OpeningSpans(p, a, b);
    SearchIsLeftmost(s, 0);
    var m := Search(s, 0);
    assert m.Some? && m.value.start <= |p|;
    var start := m.value.start;
    assert Spans(s, start, m.value.end);
    SpanStartsWithQuote(s, start, m.value.end);
    NoQuoteWithin(p, s, start);
    MatchEndIsPattern(s, |p|, |s|);
    MatchEndIsPattern(s, |p|, m.value.end);
  }

  lemma NoQuoteWithin(p: Text, s: Text, i: nat)
    requires p <= s && QUOTE !in p && i < |s| && s[i] == QUOTE
    ensures |p| <= i
  {
    forall k | 0 <= k < |p| ensures p[k] != QUOTE {
      assert p[k] in p;
    }
  }

  lemma SpanStartsWithQuote(s: Text, i: nat, e: nat)
    requires Spans(s, i, e)
    ensures i < |s| && s[i] == QUOTE
  {
    var a: nat, b: nat :| SpansAt(s, i, a, b, e);
    assert s[i..i + 8][0] == s[i];
  }
}
