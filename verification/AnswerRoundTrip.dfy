/** Encoding against decoding: any legal JSON spelling of a text (section 7 of RFC 8259),
    placed after the first answer key, is emitted as exactly that text. */
module AnswerRoundTrip {
  import opened AnswerText

  /** One element of a JSON string: an unescaped unit, a two-character escape, a `\uXXXX` escape. */
  datatype Token = Raw(u: int) | Short(letter: int) | Hex(a: int, b: int, c: int, d: int)

  /** What section 7 of RFC 8259 says that a backslash and this character stand for. */
  function Meaning(letter: int): (u: int)
    requires IsEscape(letter)
  {
    if letter == 'b' as int then 0x08
    else if letter == 't' as int then 0x09
    else if letter == 'n' as int then 0x0A
    else if letter == 'f' as int then 0x0C
    else if letter == 'r' as int then 0x0D
    else letter
  }

  predicate IsEscape(letter: int) {
    || letter == QUOTE || letter == BACKSLASH || letter == '/' as int || letter == 'b' as int || letter == 'f' as int
    || letter == 'n' as int || letter == 'r' as int || letter == 't' as int
  }

  const DIGITS := "0123456789abcdef"
  const CAPITALS := "0123456789ABCDEF"

  /** The character is the hexadecimal digit of this value, in either case. */
  ghost predicate Denotes(u: int, v: nat) {
    v < 16 && (u == DIGITS[v] as int || u == CAPITALS[v] as int)
  }

  /** Exactly the digits of both cases are read, four of them as their positional value. */
  lemma HexDigitsDenote(a: int, b: int, c: int, d: int, w: nat, x: nat, y: nat, z: nat)
    requires Denotes(a, w) && Denotes(b, x) && Denotes(c, y) && Denotes(d, z)
    ensures IsHex(a) && IsHex(b) && IsHex(c) && IsHex(d) && HexValue(a, b, c, d) == 4096 * w + 256 * x + 16 * y + z
    ensures forall u :: IsHex(u) ==> exists v: nat :: Denotes(u, v)
  {
    DigitDenotes(a, w);
    DigitDenotes(b, x);
    DigitDenotes(c, y);
    DigitDenotes(d, z);
    forall u | IsHex(u) ensures exists v: nat :: Denotes(u, v) {
      HexHasAValue(u);
    }
  }

  lemma DigitDenotes(u: int, v: nat)
    requires Denotes(u, v)
    ensures IsHex(u) && HexDigit(u) == v
  {
  }

  lemma HexHasAValue(u: int)
    requires IsHex(u)
    ensures Denotes(u, HexDigit(u))
  {
  }

  predicate LegalToken(t: Token) {
    match t
    case Raw(u) => 0x20 <= u <= 0x10FFFF && u != QUOTE && u != BACKSLASH
    case Short(letter) => IsEscape(letter)
    case Hex(a, b, c, d) => IsHex(a) && IsHex(b) && IsHex(c) && IsHex(d)
  }

  predicate Legal(ts: seq<Token>) {
    forall t | t in ts :: LegalToken(t)
  }

  function SpellToken(t: Token): Text {
    match t
    case Raw(u) => [u]
    case Short(letter) => [BACKSLASH, letter]
    case Hex(a, b, c, d) => [BACKSLASH, LETTER_U, a, b, c, d]
  }

  function Spell(ts: seq<Token>): Text {
    if ts == [] then [] else SpellToken(ts[0]) + Spell(ts[1..])
  }

  function UnitOf(t: Token): int
    requires LegalToken(t)
  {
    match t
    case Raw(u) => u
    case Short(letter) => Meaning(letter)
    case Hex(a, b, c, d) => HexValue(a, b, c, d)
  }

  /** The code units a spelling stands for. */
  function Units(ts: seq<Token>): (v: Text)
    requires Legal(ts)
    ensures |v| == |ts|
    ensures forall i :: 0 <= i < |ts| ==> v[i] == UnitOf(ts[i])
  {
    if ts == [] then [] else [UnitOf(ts[0])] + Units(ts[1..])
  }

  lemma TokenIsRead(e: Text, i: nat, t: Token)
    requires LegalToken(t) && i + |SpellToken(t)| <= |e|
    requires e[i..i + |SpellToken(t)|] == SpellToken(t)
    ensures TokenLength(e, i) == |SpellToken(t)| && TokenUnit(e, i) == UnitOf(t)
    ensures !Escaped(e, i) ==> !Escaped(e, i + |SpellToken(t)|) && Open(e, i, i + |SpellToken(t)|)
  {
    var w := e[i..i + |SpellToken(t)|];
    assert w[0] == e[i];
    if t.Hex? {
      assert w[1] == e[i + 1] && w[2] == e[i + 2] && w[3] == e[i + 3] && w[4] == e[i + 4] && w[5] == e[i + 5];
      HexIsOpen(e, i);
    } else if t.Short? {
      assert w[1] == e[i + 1];
    }
  }

  /** A `\uXXXX` escape holds no quote, and no second backslash that could escape what follows. */
  lemma HexIsOpen(e: Text, i: nat)
    requires i + 6 <= |e| && e[i] == BACKSLASH && e[i + 1] == LETTER_U
    requires IsHex(e[i + 2]) && IsHex(e[i + 3]) && IsHex(e[i + 4]) && IsHex(e[i + 5])
    ensures !Escaped(e, i + 6) && Open(e, i, i + 6)
  {
  }

  lemma DecodeOne(e: Text, i: nat, n: nat, u: int)
    requires i < |e| && n > 0 && TokenLength(e, i) == n && TokenUnit(e, i) == u
    ensures Decode(e, i) == [u] + Decode(e, i + n)
  {
  }

  lemma OpenJoins(e: Text, i: nat, j: nat, k: nat)
    requires i <= j <= k && Open(e, i, j) && Open(e, j, k)
    ensures Open(e, i, k)
  {
  }

  /** The tokens are spelled one after another from position `i` to position `end`. */
  predicate SpelledTo(e: Text, i: nat, ts: seq<Token>, end: nat)
    decreases |ts|
  {
    if ts == [] then i == end <= |e|
    else
      var j := i + |SpellToken(ts[0])|;
      j <= |e| && e[i..j] == SpellToken(ts[0]) && SpelledTo(e, j, ts[1..], end)
  }

  /** A spelling stands where it has been put. */
  lemma {:induction false} SpellingStands(pre: Text, ts: seq<Token>, rest: Text)
    ensures SpelledTo(pre + Spell(ts) + rest, |pre|, ts, |pre| + |Spell(ts)|)
    decreases |ts|
  {
    if ts != [] {
      var w, s := SpellToken(ts[0]), Spell(ts[1..]);
      Regroup(pre, w, s, rest);
      SpellingStands(pre + w, ts[1..], rest);
    }
  }

  lemma Regroup(pre: Text, w: Text, s: Text, rest: Text)
    ensures pre + (w + s) + rest == (pre + w) + s + rest && |pre + w| == |pre| + |w| && |w + s| == |w| + |s|
    ensures (pre + (w + s) + rest)[|pre|..|pre| + |w|] == w
  {
  }

  lemma {:induction false} SpellingDecodesOn(e: Text, i: nat, ts: seq<Token>, end: nat)
    requires Legal(ts) && SpelledTo(e, i, ts, end)
    ensures i <= end <= |e| && Decode(e, i) == Units(ts) + Decode(e, end)
    decreases |ts|
  {
    if ts != [] {
      var j := i + |SpellToken(ts[0])|;
      TokenIsRead(e, i, ts[0]);
      DecodeOne(e, i, j - i, UnitOf(ts[0]));
      SpellingDecodesOn(e, j, ts[1..], end);
      Prepended(ts, Decode(e, i), Decode(e, j), Decode(e, end));
    } else {
      assert Units(ts) + Decode(e, i) == Decode(e, i);
    }
  }

  lemma {:induction false} SpellingStaysOpen(e: Text, i: nat, ts: seq<Token>, end: nat)
    requires Legal(ts) && SpelledTo(e, i, ts, end) && i <= |e| && !Escaped(e, i)
    ensures i <= end <= |e| && !Escaped(e, end) && Open(e, i, end)
    decreases |ts|
  {
    if ts != [] {
      var j := i + |SpellToken(ts[0])|;
      TokenIsRead(e, i, ts[0]);
      SpellingStaysOpen(e, j, ts[1..], end);
      OpenJoins(e, i, j, end);
    }
  }

  /** A spelling decodes to its units and then whatever follows it; it holds no closing quote and leaves no escape
      open. */
  lemma SpellingIsRead(ts: seq<Token>, rest: Text)
    requires Legal(ts)
    ensures var e, end := Spell(ts) + rest, |Spell(ts)|;
      Decode(e, 0) == Units(ts) + Decode(e, end) && !Escaped(e, end) && Open(e, 0, end)
  {
    SpellingStands([], ts, rest);
    assert [] + Spell(ts) + rest == Spell(ts) + rest;
    SpellingDecodesOn(Spell(ts) + rest, 0, ts, |Spell(ts)|);
    SpellingStaysOpen(Spell(ts) + rest, 0, ts, |Spell(ts)|);
  }

  lemma Prepended(ts: seq<Token>, all: Text, later: Text, rest: Text)
    requires Legal(ts) && ts != [] && all == [UnitOf(ts[0])] + later && later == Units(ts[1..]) + rest
    ensures all == Units(ts) + rest
  {
    assert Units(ts) == [UnitOf(ts[0])] + Units(ts[1..]);
  }

  lemma BodyIsTheSpelling(ts: seq<Token>, post: Text)
    requires Legal(ts)
    ensures var rest := Spell(ts) + [QUOTE] + post; ClosingQuote(rest, 0) == |Spell(ts)| && Body(rest) == Spell(ts)
  {
    var spelled, rest := Spell(ts), Spell(ts) + [QUOTE] + post;
    assert rest == spelled + ([QUOTE] + post) && rest[|spelled|] == QUOTE;
    SpellingIsRead(ts, [QUOTE] + post);
    ClosingQuoteUnique(rest, 0, |spelled|);
  }

  lemma SpellingDecodes(ts: seq<Token>)
    requires Legal(ts)
    ensures Decode(Spell(ts), 0) == Units(ts)
  {
    SpellingIsRead(ts, []);
    assert Spell(ts) + [] == Spell(ts) && Units(ts) + [] == Units(ts);
  }

  /** Round trip: whatever comes before the first answer key and after the closing quote, any legal
      spelling of the answer is emitted as its code units and nothing else. */
  lemma AnswerRoundTrips(pre: Text, ts: seq<Token>, post: Text)
    requires Search(pre, 0).Some? && Search(pre, 0).value.end == |pre|
    requires Legal(ts)
    ensures Output(pre + (Spell(ts) + [QUOTE] + post)) == Units(ts)
    ensures Complete(pre + (Spell(ts) + [QUOTE] + post))
  {
    var rest := Spell(ts) + [QUOTE] + post;
    SearchStable(pre, rest, 0);
    assert (pre + rest)[|pre|..] == rest;
    BodyIsTheSpelling(ts, post);
    SpellingDecodes(ts);
  }

  /** Every sequence of characters has a legal spelling, so the round trip leaves none out. */
  lemma {:induction false} EveryTextHasASpelling(v: Text) returns (ts: seq<Token>)
    requires forall i :: 0 <= i < |v| ==> 0 <= v[i] <= 0x10FFFF
    ensures Legal(ts) && Units(ts) == v
  {
    if v == [] {
      ts := [];
    } else {
      var rest := EveryTextHasASpelling(v[1..]);
      var t := SpellingOf(v[0]);
      ts := [t] + rest;
      assert ts[1..] == rest;
    }
  }

  lemma SpellingOf(u: int) returns (t: Token)
    requires 0 <= u <= 0x10FFFF
    ensures LegalToken(t) && UnitOf(t) == u
  {
    if u == QUOTE || u == BACKSLASH {
      t := Short(u);
    } else if u < 0x20 {
      t := Hex(48, 48, 48 + u / 16, if u % 16 < 10 then 48 + u % 16 else 55 + u % 16);
    } else {
      t := Raw(u);
    }
  }

  // ------------------------------------------------------- surrogate pairs, where the two part

  predicate IsHigh(t: Token)
    requires LegalToken(t)
  {
    t.Hex? && 0xD800 <= UnitOf(t) <= 0xDBFF
  }

  predicate IsLow(t: Token)
    requires LegalToken(t)
  {
    t.Hex? && 0xDC00 <= UnitOf(t) <= 0xDFFF
  }

  /** What RFC 8259 says the string is: an escaped surrogate pair is one character. */
  function Characters(ts: seq<Token>): (v: Text)
    requires Legal(ts)
    ensures |v| <= |ts|
  {
    if ts == [] then []
    else if |ts| >= 2 && IsHigh(ts[0]) && IsLow(ts[1]) then
      [0x10000 + (UnitOf(ts[0]) - 0xD800) * 0x400 + (UnitOf(ts[1]) - 0xDC00)] + Characters(ts[2..])
    else [UnitOf(ts[0])] + Characters(ts[1..])
  }

  predicate PairAt(ts: seq<Token>, i: nat)
    requires Legal(ts)
  {
    i + 1 < |ts| && IsHigh(ts[i]) && IsLow(ts[i + 1])
  }

  predicate HasEscapedPair(ts: seq<Token>)
    requires Legal(ts)
  {
    exists i :: 0 <= i < |ts| && PairAt(ts, i)
  }

  lemma PairMovesUp(ts: seq<Token>)
    requires Legal(ts) && ts != []
    ensures HasEscapedPair(ts) <==> PairAt(ts, 0) || HasEscapedPair(ts[1..])
  {
    if HasEscapedPair(ts) && !PairAt(ts, 0) {
      var i :| 0 <= i < |ts| && PairAt(ts, i);
      assert PairAt(ts[1..], i - 1);
    }
    if HasEscapedPair(ts[1..]) {
      var i :| 0 <= i < |ts[1..]| && PairAt(ts[1..], i);
      assert PairAt(ts, i + 1);
    }
  }

  /** The decoder emits the characters of section 7 of RFC 8259 exactly when no character outside the
      basic plane is spelled as an escaped surrogate pair. */
  lemma {:induction false} EmitsCharactersUnlessPaired(ts: seq<Token>)
    requires Legal(ts)
    ensures Units(ts) == Characters(ts) <==> !HasEscapedPair(ts)
    ensures HasEscapedPair(ts) ==> |Characters(ts)| < |ts|
  {
    if ts != [] {
      PairMovesUp(ts);
      EmitsCharactersUnlessPaired(ts[1..]);
      if !PairAt(ts, 0) {
        assert Characters(ts) == [UnitOf(ts[0])] + Characters(ts[1..]);
        assert Units(ts)[1..] == Units(ts[1..]) && Characters(ts)[1..] == Characters(ts[1..]);
      }
    }
  }

  /** A smiling face spelled `\ud83d\ude00` comes out as two lone surrogates. */
  lemma SurrogatePairIsNotJoined()
    ensures exists ts :: Legal(ts) && Characters(ts) == [0x1F600] && Units(ts) == [0xD83D, 0xDE00]
  {
    var ts := [Hex(100, 56, 51, 100), Hex(100, 101, 48, 48)];
    assert ts[1..] == [Hex(100, 101, 48, 48)] && ts[2..] == [];
    assert Legal(ts) && Characters(ts) == [0x1F600] && Units(ts) == [0xD83D, 0xDE00];
  }
}
