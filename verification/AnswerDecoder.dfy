/** The streaming decoder object and the loop that drives it. */
module AnswerDecoder {
  import opened AnswerText

  class AnswerDeltaDecoder {
    var source: Text
    var cursor: nat
    var started: bool
    var encoded: Text
    var decodedLength: nat
    var finished: bool
    /** Everything ever passed to `Feed`, also what arrived after the closing quote. */
    ghost var fed: Text

    /** The fields are what scanning `source` from the start yields. */
    ghost predicate Scanned()
      reads this
    {
      && (started <==> Search(source, 0).Some?)
      && (!started ==> cursor == 0 && encoded == [] && !finished)
      && (started ==>
            var end := Search(source, 0).value.end;
            && end <= cursor <= |source|
            && encoded == source[end..cursor]
            && cursor - end == ClosingQuote(source[end..], 0)
            && (finished <==> cursor < |source|))
      && decodedLength == |Output(source)|
    }

    ghost predicate Valid()
      reads this
    {
      Scanned() && source <= fed && (finished || source == fed) && Output(fed) == Output(source)
    }

    constructor ()
      ensures Valid() && fed == []
    {
      source, cursor, started, encoded, decodedLength, finished := [], 0, false, [], 0, false;
      fed := [];
    }

    /** Emits exactly what the new text adds to the output of everything fed so far. */
    method Feed(delta: Text) returns (emitted: Text)
      requires Valid()
      modifies this
      ensures Valid() && fed == old(fed) + delta
      ensures Output(fed) == old(Output(fed)) + emitted
      ensures old(finished) ==> finished && emitted == []
    {
      if finished || delta == [] {
        if finished {
          SearchHits(source, 0);
          AfterTheEnd(source, fed, delta);
        } else {
          assert fed + delta == fed;
        }
        fed := fed + delta;
        return [];
      }
      emitted := Absorb(delta);
      fed := fed + delta;
    }

    /** The rest of `feed`, for text that can still change the output. */
    method Absorb(delta: Text) returns (emitted: Text)
      requires Scanned() && !finished
      modifies this
      ensures Scanned() && source == old(source) + delta && fed == old(fed)
      ensures Output(source) == old(Output(source)) + emitted
    {
      ghost var before := source;
      OutputExtends(before, delta);
      source := source + delta;
      if started {
        Resume(before, delta, cursor, encoded);
      } else {
        var found := Search(source, 0);
        if found.None? {
          return [];
        }
        Begin(source);
        started, cursor := true, found.value.end;
      }
      emitted := EmitNew();
      Rest(Output(before), Output(source));
    }

    static lemma Rest(before: Text, after: Text)
      requires before <= after
      ensures after == before + after[|before|..]
    {
    }

    /** The answer has begun, and what has been collected of it up to `cursor` holds no closing quote. */
    static ghost predicate Collecting(source: Text, cursor: nat, encoded: Text) {
      && Search(source, 0).Some?
      && var end := Search(source, 0).value.end;
         end <= cursor <= |source| && encoded == source[end..cursor] && Open(source[end..], 0, cursor - end)
    }

    static lemma Begin(source: Text)
      requires Search(source, 0).Some?
      ensures Collecting(source, Search(source, 0).value.end, [])
    {
      SearchHits(source, 0);
    }

    /** The tail of `feed`: scan, decode what has been collected, return what is new in it. */
    method EmitNew() returns (emitted: Text)
      requires Collecting(source, cursor, encoded) && !finished
      requires decodedLength <= |Output(source)|
      modifies this`cursor, this`encoded, this`finished, this`decodedLength
      ensures var end := Search(source, 0).value.end;
        && end <= cursor <= |source| && encoded == source[end..cursor]
        && cursor - end == ClosingQuote(source[end..], 0)
      ensures finished <==> cursor < |source|
      ensures emitted == Output(source)[old(decodedLength)..] && decodedLength == |Output(source)|
    {
      ScanAnswer();
      var decoded := DecodeCompletePrefix(encoded);
      emitted := decoded[decodedLength..];
      decodedLength := |decoded|;
    }

    /** The scanning loop of `feed`: collect units up to the closing quote or the end of the input. */
    method ScanAnswer()
      requires Collecting(source, cursor, encoded) && !finished
      modifies this`cursor, this`encoded, this`finished
      ensures var end := Search(source, 0).value.end;
        && end <= cursor <= |source| && encoded == Body(source[end..])
        && cursor - end == ClosingQuote(source[end..], 0)
      ensures finished <==> cursor < |source|
    {
      ghost var end := Search(source, 0).value.end;
      ghost var answer := source[end..];
      while cursor < |source|
        invariant end <= cursor <= |source| && !finished
        invariant encoded == answer[..cursor - end] && Open(answer, 0, cursor - end)
      {
        var character := source[cursor];
        assert character == answer[cursor - end];
        if character == QUOTE {
          var escaped := QuoteIsEscaped();
          EscapedIsLocal(encoded, answer, |encoded|);
          if !escaped {
            finished := true;
            break;
          }
        }
        encoded := encoded + [character];
        cursor := cursor + 1;
      }
      ClosingQuoteUnique(answer, 0, cursor - end);
    }

    /** Text after the closing quote adds nothing. */
    static lemma AfterTheEnd(source: Text, fed: Text, delta: Text)
      requires source <= fed && Complete(source)
      ensures Output(fed + delta) == Output(fed) == Output(source)
    {
      assert fed == source + fed[|source|..];
      assert fed + delta == source + (fed[|source|..] + delta);
      OutputExtends(source, fed[|source|..]);
      OutputExtends(source, fed[|source|..] + delta);
    }

    /** A scan that stopped at `cursor` for want of input has passed only escaped quotes. */
    static lemma Resume(before: Text, delta: Text, cursor: nat, encoded: Text)
      requires Search(before, 0).Some?
      requires var end := Search(before, 0).value.end;
        end <= cursor <= |before| && encoded == before[end..cursor] && cursor - end == ClosingQuote(before[end..], 0)
      ensures Collecting(before + delta, cursor, encoded)
    {
      SearchStable(before, delta, 0);
      var end := Search(before, 0).value.end;
      Longer(before, delta, end, cursor);
      OpenIsLocal(before[end..], (before + delta)[end..], 0, cursor - end);
    }

    static lemma Longer(before: Text, delta: Text, end: nat, cursor: nat)
      requires end <= cursor <= |before|
      ensures (before + delta)[end..cursor] == before[end..cursor] && before[end..] <= (before + delta)[end..]
    {
      assert (before + delta)[end..] == before[end..] + delta;
    }

    /** The backward count of backslashes agrees with the left-to-right escape flag. */
    method QuoteIsEscaped() returns (escaped: bool)
      ensures escaped == Escaped(encoded, |encoded|)
    {
      var backslashes, index := 0, |encoded| - 1;
      while index >= 0 && encoded[index] == BACKSLASH
        invariant -1 <= index < |encoded| && 0 <= backslashes
        invariant Escaped(encoded, |encoded|) == (Escaped(encoded, index + 1) != (backslashes % 2 == 1))
      {
        backslashes, index := backslashes + 1, index - 1;
      }
      return backslashes % 2 == 1;
    }

    static method DecodeCompletePrefix(encoded: Text) returns (decoded: Text)
      ensures decoded == Decode(encoded, 0)
    {
      decoded := [];
      var index := 0;
      while index < |encoded|
        invariant index <= |encoded| && DecodedUpTo(encoded, decoded, index)
      {
        var character := encoded[index];
        if character != BACKSLASH {
          PlainToken(encoded, index);
          TokenDecoded(encoded, decoded, index, 1, character);
          decoded, index := decoded + [character], index + 1;
          continue;
        }
        if index + 1 >= |encoded| {
          NoMoreTokens(encoded, decoded, index);
          return;
        }
        var escape := encoded[index + 1];
        if escape == LETTER_U {
          var codepoint := encoded[index + 2..Min(index + 6, |encoded|)];
          CodepointIsToken(encoded, index, codepoint);
          if |codepoint| < 4 || exists k :: 0 <= k < |codepoint| && !IsHex(codepoint[k]) {
            NoMoreTokens(encoded, decoded, index);
            return;
          }
          var unit := HexValue(codepoint[0], codepoint[1], codepoint[2], codepoint[3]);
          TokenDecoded(encoded, decoded, index, 6, unit);
          decoded, index := decoded + [unit], index + 6;
          continue;
        }
        EscapeToken(encoded, index);
        if escape !in ESCAPES {
          NoMoreTokens(encoded, decoded, index);
          return;
        }
        TokenDecoded(encoded, decoded, index, 2, ESCAPES[escape]);
        decoded, index := decoded + [ESCAPES[escape]], index + 2;
      }
    }
  }

  /** `decoded` is what comes before position `index`. */
  ghost predicate DecodedUpTo(e: Text, decoded: Text, index: nat) {
    index <= |e| && Decode(e, 0) == decoded + Decode(e, index)
  }

  lemma PlainToken(e: Text, index: nat)
    requires index < |e| && e[index] != BACKSLASH
    ensures TokenLength(e, index) == 1 && TokenUnit(e, index) == e[index]
  {
  }

  lemma EscapeToken(e: Text, index: nat)
    requires index + 1 < |e| && e[index] == BACKSLASH && e[index + 1] != LETTER_U
    ensures TokenLength(e, index) == if e[index + 1] in ESCAPES then 2 else 0
    ensures e[index + 1] in ESCAPES ==> TokenUnit(e, index) == ESCAPES[e[index + 1]]
  {
  }

  lemma TokenDecoded(e: Text, decoded: Text, index: nat, length: nat, unit: int)
    requires DecodedUpTo(e, decoded, index) && index < |e|
    requires length > 0 && TokenLength(e, index) == length && TokenUnit(e, index) == unit
    ensures DecodedUpTo(e, decoded + [unit], index + length)
  {
    assert decoded + ([unit] + Decode(e, index + length)) == decoded + [unit] + Decode(e, index + length);
  }

  lemma NoMoreTokens(e: Text, decoded: Text, index: nat)
    requires DecodedUpTo(e, decoded, index) && (index == |e| || TokenLength(e, index) == 0)
    ensures decoded == Decode(e, 0)
  {
  }

  /** The four hexadecimal digits that the slice holds, or fewer, or something else. */
  lemma CodepointIsToken(e: Text, index: nat, codepoint: Text)
    requires index + 1 < |e| && e[index] == BACKSLASH && e[index + 1] == LETTER_U
    requires codepoint == e[index + 2..Min(index + 6, |e|)]
    ensures TokenLength(e, index) == 0 <==> |codepoint| < 4 || exists k :: 0 <= k < |codepoint| && !IsHex(codepoint[k])
    ensures TokenLength(e, index) > 0 ==>
      && |codepoint| == 4 && TokenLength(e, index) == 6
      && TokenUnit(e, index) == HexValue(codepoint[0], codepoint[1], codepoint[2], codepoint[3])
  {
    if |codepoint| == 4 {
      assert codepoint[0] == e[index + 2] && codepoint[1] == e[index + 3];
      assert codepoint[2] == e[index + 4] && codepoint[3] == e[index + 5];
    }
  }

  function Min(a: int, b: int): int { if a < b then a else b }

  function Concat(parts: seq<Text>): Text {
    if parts == [] then [] else Concat(parts[..|parts| - 1]) + parts[|parts| - 1]
  }

  /** The provider loop: feed every delta, pass on every non-empty emission. What comes out depends
      on the concatenated input alone, so not on where the stream was cut. */
  method RelayAnswer(deltas: seq<Text>) returns (tokens: seq<Text>)
    ensures Concat(tokens) == Output(Concat(deltas))
    ensures [] !in tokens
  {
    var decoder := new AnswerDeltaDecoder();
    tokens := [];
    for i := 0 to |deltas|
      invariant fresh(decoder) && decoder.Valid()
      invariant decoder.fed == Concat(deltas[..i])
      invariant Concat(tokens) == Output(decoder.fed)
      invariant [] !in tokens
    {
      var emitted := decoder.Feed(deltas[i]);
      assert deltas[..i + 1][..i] == deltas[..i];
      if emitted != [] {
        tokens := tokens + [emitted];
        assert tokens[..|tokens| - 1] + [emitted] == tokens;
      }
    }
    assert deltas[..|deltas|] == deltas;
  }

  /** Any two ways of cutting the same text give the same emitted answer. */
  method CutIndependence(left: seq<Text>, right: seq<Text>) returns (a: seq<Text>, b: seq<Text>)
    requires Concat(left) == Concat(right)
    ensures Concat(a) == Concat(b)
  {
    a := RelayAnswer(left);
    b := RelayAnswer(right);
  }
}
