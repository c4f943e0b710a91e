/**
 Texts of one-word paragraphs, and what they show about all texts: how large a
 chunk can get under a limit, exactly.
 */
module PlainTexts {
  import opened Basics
  import opened Chunking
  import opened Headings
  import opened Paragraphs
  import opened SentenceSplitting
  import opened Text

  /** A word that does not look like a heading. */
  predicate PlainWord(w: string) {
    IsWord(w) && w[0] != '#'
  }

  /** One-word paragraphs with a blank line between them. */
  function Spaced(words: seq<string>): string {
    Join(words, "\n\n")
  }

  lemma WordHasNoBlank(w: string)
    requires IsWord(w)
    ensures NextBlank(w, 0) == |w|
  {
  }

  lemma BlankAfterWord(w: string, rest: string)
    requires IsWord(w) && rest != "" && !Space(rest[0])
    ensures var s := w + "\n\n" + rest;
            NextBlank(s, 0) == |w| && BlankEnd(s, |w|) == |w| + 2
  {
    var s, n := w + "\n\n" + rest, |w|;
    assert s[n] == '\n' && s[n + 1] == '\n' && s[n + 2] == rest[0];
    assert SpaceEnd(s, n + 2) == n + 2 && SpaceEnd(s, n + 1) == n + 2;
    assert LastBreak(s, n + 1, n + 2) == n + 1;
    FirstBlankIs(s, n);
  }

  lemma FirstBlankIs(s: string, n: nat)
    requires n < |s| && BlankEnd(s, n) != 0 && forall k | 0 <= k < n :: !Space(s[k])
    ensures NextBlank(s, 0) == n
  {
    assert forall k | 0 <= k < n :: BlankEnd(s, k) == 0;
  }

  lemma {:induction false} SpacedSplits(words: seq<string>)
    requires words != [] && forall w | w in words :: IsWord(w)
    ensures SplitAtBlanks(Spaced(words)) == words
  {
    var w := words[0];
    if |words| == 1 {
      WordHasNoBlank(w);
    } else {
      var rest := Spaced(words[1..]);
      SpacedSplits(words[1..]);
      SpacedStartsWithAWord(words[1..]);
      BlankAfterWord(w, rest);
      var s := w + "\n\n" + rest;
      assert s[..|w|] == w && s[|w| + 2..] == rest;
    }
  }

  lemma SpacedStartsWithAWord(words: seq<string>)
    requires words != [] && forall w | w in words :: IsWord(w)
    ensures Spaced(words) != "" && !Space(Spaced(words)[0])
  {
    assert IsWord(words[0]);
  }

  lemma PlainParagraph(outline: Outline, w: string)
    requires PlainWord(w)
    ensures Trimmed(w)
    ensures WithParagraph(outline, w) == Outline(outline.blocks + [RawBlock(outline.heading, w)], outline.heading)
  {
    StripTrimmed(w);
    WordIsOneLine(w);
  }

  lemma WordIsOneLine(w: string)
    requires IsWord(w)
    ensures Lines(w) == [w]
  {
    assert LineEnd(w) == |w|;
  }

  lemma {:induction false} PlainOutline(words: seq<string>)
    requires forall w | w in words :: PlainWord(w)
    ensures forall w | w in words :: Trimmed(w)
    ensures OutlineOf(words) == Outline(Plain(words), "")
  {
    forall w | w in words ensures Trimmed(w) {
      assert PlainWord(w);
    }
    if words != [] {
      var n := |words| - 1;
      PlainOutline(words[..n]);
      PlainParagraph(OutlineOf(words[..n]), words[n]);
      assert Plain(words) == Plain(words[..n]) + [RawBlock("", words[n])];
    } else {
      assert Plain(words) == [];
    }
  }

  /** The paragraphs of such a text are its words, without headings. */
  lemma SpacedBlocks(words: seq<string>)
    requires words != [] && forall w | w in words :: PlainWord(w)
    ensures forall w | w in words :: Trimmed(w)
    ensures BlocksOf(Spaced(words)) == Plain(words)
  {
    forall w | w in words ensures IsWord(w) {
      assert PlainWord(w);
    }
    SpacedSplits(words);
    PlainOutline(words);
  }

  lemma SpacedPieces(lim: Limits, words: seq<string>, longest: int)
    requires words != [] && forall w | w in words :: PlainWord(w) && |w| <= longest
    ensures LongestPiece(lim, BlocksOf(Spaced(words)), longest)
  {
    SpacedBlocks(words);
    var blocks := BlocksOf(Spaced(words));
    forall b, x | b in blocks && x in Pieces(lim.maxChars, b.text) ensures |x| <= longest {
      var i :| 0 <= i < |blocks| && blocks[i] == b;
      assert words[i] in words && PlainWord(words[i]);
      WordIsOnePiece(lim, words[i]);
    }
  }

  // ------------------------------------------------------------ the exact bound

  /** The bodies of the chunks of a text. */
  function Bodies(lim: Limits, title: string, text: string): (bodies: seq<string>)
    ensures |bodies| == |Layouts(lim, title, BlocksOf(text))|
    ensures forall i | 0 <= i < |bodies| :: bodies[i] == Layouts(lim, title, BlocksOf(text))[i].Body()
  {
    var ls := Layouts(lim, title, BlocksOf(text));
    seq(|ls|, i requires 0 <= i < |ls| => ls[i].Body())
  }

  /** No text whose pieces are at most so long gets a larger body. */
  ghost predicate BodiesFit(lim: Limits, title: string, longest: int, bound: int) {
    forall text, body | LongestPiece(lim, BlocksOf(text), longest) && body in Bodies(lim, title, text) ::
      |body| <= bound
  }

  /** A text with the largest body there is. */
  lemma BoundIsReached(lim: Limits, title: string, longest: int) returns (text: string, body: string)
    requires longest >= 1
    ensures LongestPiece(lim, BlocksOf(text), longest)
    ensures body in Bodies(lim, title, text) && |body| == BodyBound(lim, longest)
  {
    var v, w := Letters('a', if lim.overlapChars > 0 then lim.overlapChars else 0), Letters('b', longest);
    if BodyBound(lim, longest) == 3 * lim.maxChars - 2 {
      text, body := ManyWords(lim, title, longest);
    } else if lim.overlapChars > 0 {
      text, body := TwoWords(lim, title, v, w, longest);
    } else {
      text, body := OneWord(lim, title, w, longest);
    }
  }

  lemma ManyWords(lim: Limits, title: string, longest: int) returns (text: string, body: string)
    requires longest >= 1 && BodyBound(lim, longest) == 3 * lim.maxChars - 2
    ensures LongestPiece(lim, BlocksOf(text), longest)
    ensures body in Bodies(lim, title, text) && |body| == 3 * lim.maxChars - 2
  {
    var words := OneLetterWords(lim.maxChars);
    text := Spaced(words);
    SpacedBlocks(words);
    SpacedPieces(lim, words, longest);
    OneLetterWordsReach(lim, title);
    body := Bodies(lim, title, text)[0];
  }

  lemma TwoWords(lim: Limits, title: string, v: string, w: string, longest: int) returns (text: string, body: string)
    requires PlainWord(v) && PlainWord(w) && |v| == lim.overlapChars <= longest && |w| == longest
    requires |v| + |w| > lim.maxChars
    ensures LongestPiece(lim, BlocksOf(text), longest)
    ensures body in Bodies(lim, title, text) && |body| == lim.overlapChars + 2 + longest
  {
    text := Spaced([v, w]);
    SpacedBlocks([v, w]);
    SpacedPieces(lim, [v, w], longest);
    assert v in [v, w] && w in [v, w];
    TwoWordsReach(lim, title, v, w);
    body := Bodies(lim, title, text)[2];
  }

  lemma OneWord(lim: Limits, title: string, w: string, longest: int) returns (text: string, body: string)
    requires PlainWord(w) && |w| == longest
    ensures LongestPiece(lim, BlocksOf(text), longest)
    ensures body in Bodies(lim, title, text) && |body| == longest
  {
    text := Spaced([w]);
    SpacedBlocks([w]);
    SpacedPieces(lim, [w], longest);
    assert w in [w];
    OneWordReaches(lim, title, w);
    body := Bodies(lim, title, text)[0];
  }

  /** The bound is exact: all bodies fit into so many characters exactly if it does. */
  lemma BodyBoundIsExact(lim: Limits, title: string, longest: int, bound: int)
    requires longest >= 1
    ensures BodiesFit(lim, title, longest, bound) <==> BodyBound(lim, longest) <= bound
  {
    if BodyBound(lim, longest) <= bound {
      forall text, body | LongestPiece(lim, BlocksOf(text), longest) && body in Bodies(lim, title, text)
        ensures |body| <= bound
      {
        var i :| 0 <= i < |Bodies(lim, title, text)| && Bodies(lim, title, text)[i] == body;
        BodiesAreBounded(lim, title, BlocksOf(text), longest, i);
      }
    } else {
      var text, body := BoundIsReached(lim, title, longest);
    }
  }

  /** Bodies keep to the limit exactly if it is one and no piece is longer. */
  lemma BodiesKeepTheLimitIff(lim: Limits, title: string, longest: int)
    requires longest >= 1
    ensures BodiesFit(lim, title, longest, lim.maxChars) <==> lim.maxChars == 1 && longest == 1
  {
    BodyBoundIsExact(lim, title, longest, lim.maxChars);
  }
}
