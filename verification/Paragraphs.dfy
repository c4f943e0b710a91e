/**
 Paragraphs: a text is split where whitespace that holds two line breaks begins
 with one of them and ends with another. This is the pattern the chunker splits
 documents at.
 */
module Paragraphs {
  import opened SentenceSplitting
  import opened Text

  /** The last line break from i up to j, if there is one. */
  function LastBreak(s: string, i: nat, j: nat): (p: int)
    requires i <= j <= |s|
    ensures p == -1 || (i <= p < j && s[p] == '\n')
    ensures forall k | Later(i, p) <= k < j :: s[k] != '\n'
  {
    if j == i then -1
    else if s[j - 1] == '\n' then j - 1
    else LastBreak(s, i, j - 1)
  }

  function Later(i: nat, p: int): int {
    if p < 0 then i else p + 1
  }

  /** Where the blank lines that begin at i end, or 0 if none begin there. */
  function BlankEnd(s: string, i: nat): (e: nat)
    requires i < |s|
    ensures e == 0 || (i + 2 <= e <= |s| && forall k | i <= k < e :: Space(s[k]))
  {
    if s[i] != '\n' then 0 else LastBreak(s, i + 1, SpaceEnd(s, i + 1)) + 1
  }

  /** Where blank lines first begin from i on, or the length of the text. */
  function NextBlank(s: string, i: nat): (b: nat)
    requires i <= |s|
    ensures i <= b <= |s|
    ensures b < |s| ==> BlankEnd(s, b) != 0
    ensures forall k | i <= k < b :: BlankEnd(s, k) == 0
    decreases |s| - i
  {
    if i == |s| || BlankEnd(s, i) != 0 then i else NextBlank(s, i + 1)
  }

  function SplitAtBlanks(s: string): (parts: seq<string>)
    ensures parts != []
    decreases |s|
  {
    var b := NextBlank(s, 0);
    if b == |s| then [s] else [s[..b]] + SplitAtBlanks(s[BlankEnd(s, b)..])
  }

  /** Splitting into paragraphs loses nothing but whitespace. */
  lemma {:induction false} ParagraphsKeepWords(s: string)
    ensures WordsOfAll(SplitAtBlanks(s)) == Words(s)
    decreases |s|
  {
    var b := NextBlank(s, 0);
    if b < |s| {
      WordsAroundSpace(s, b, BlankEnd(s, b));
      ParagraphsKeepWords(s[BlankEnd(s, b)..]);
    } else {
      assert SplitAtBlanks(s)[1..] == [];
    }
  }

  /** No paragraph holds a blank line. */
  lemma {:induction false} NoBlankLeft(s: string, part: string, k: nat)
    requires part in SplitAtBlanks(s) && k < |part|
    ensures BlankEnd(part, k) == 0
    decreases |s|
  {
    var b := NextBlank(s, 0);
    if part == s[..b] {
      assert BlankEnd(s, k) == 0;
      BlankOfPrefix(s, b, k);
    } else {
      NoBlankLeft(s[BlankEnd(s, b)..], part, k);
    }
  }

  /** Cutting a text off creates no blank lines in what is left. */
  lemma BlankOfPrefix(s: string, b: nat, k: nat)
    requires k < b <= |s| && BlankEnd(s, k) == 0
    ensures BlankEnd(s[..b], k) == 0
  {
    var t := s[..b];
    SpaceEndGrows(s, b, k + 1);
    if s[k] == '\n' {
      assert LastBreak(s, k + 1, SpaceEnd(s, k + 1)) == -1;
      assert forall q | k + 1 <= q < SpaceEnd(t, k + 1) :: t[q] == s[q] != '\n';
    }
  }

  lemma {:induction false} SpaceEndGrows(s: string, b: nat, i: nat)
    requires i <= b <= |s|
    ensures SpaceEnd(s[..b], i) <= SpaceEnd(s, i)
    decreases b - i
  {
    if i < b && Space(s[i]) {
      SpaceEndGrows(s, b, i + 1);
    }
  }

  /** A paragraph by itself: trimmed, and without a blank line inside. */
  ghost predicate IsParagraph(s: string) {
    Trimmed(s) && forall k | 0 <= k < |s| :: BlankEnd(s, k) == 0
  }

  /** What separates paragraphs: whitespace from one line break to another. */
  predicate IsGap(gap: string) {
    && |gap| >= 2 && gap[0] == '\n' && gap[|gap| - 1] == '\n'
    && forall i | 0 <= i < |gap| :: Space(gap[i])
  }

  lemma {:induction false} NextBlankIs(s: string, i: nat, b: nat)
    requires i <= b <= |s| && (b < |s| ==> BlankEnd(s, b) != 0) && forall k | i <= k < b :: BlankEnd(s, k) == 0
    ensures NextBlank(s, i) == b
    decreases b - i
  {
    if i < b {
      NextBlankIs(s, i + 1, b);
    }
  }

  /** What follows a trimmed text creates no blank line in it. */
  lemma NoBlankBefore(first: string, more: string, k: nat)
    requires IsParagraph(first) && k < |first|
    ensures BlankEnd(first + more, k) == 0
  {
    var s := first + more;
    assert BlankEnd(first, k) == 0 && s[k] == first[k];
    if first[k] == '\n' {
      assert k + 1 < |first| by {
        assert Space('\n');
      }
      var e := SpaceEnd(first, k + 1);
      assert e < |first| && s[e] == first[e] && forall i | k + 1 <= i < e :: s[i] == first[i];
      SpaceEndIs(s, k + 1, e);
      assert forall i | k + 1 <= i < e :: s[i] != '\n';
    }
  }

  lemma GapIsBlank(first: string, gap: string, rest: string)
    requires IsParagraph(first) && IsGap(gap) && rest != "" && !Space(rest[0])
    ensures var s := first + gap + rest; BlankEnd(s, |first|) == |first| + |gap|
  {
    var s, n, m := first + gap + rest, |first|, |first| + |gap|;
    assert forall k | n <= k < m :: s[k] == gap[k - n];
    assert s[m] == rest[0];
    SpaceEndIs(s, n + 1, m);
    assert s[m - 1] == '\n';
  }

  lemma ParagraphThenRest(first: string, gap: string, rest: string)
    requires IsParagraph(first) && IsGap(gap) && rest != "" && !Space(rest[0])
    ensures SplitAtBlanks(first + gap + rest) == [first] + SplitAtBlanks(rest)
  {
    hide SplitAtBlanks;
    var s, n := first + gap + rest, |first|;
    forall k | 0 <= k < n ensures BlankEnd(s, k) == 0 {
      NoBlankBefore(first, gap + rest, k);
      assert first + (gap + rest) == s;
    }
    GapIsBlank(first, gap, rest);
    NextBlankIs(s, 0, n);
    SplitThere(s, n, n + |gap|);
    assert s[..n] == first && s[n + |gap|..] == rest;
  }

  lemma SplitThere(s: string, b: nat, next: nat)
    requires b < |s| && NextBlank(s, 0) == b && BlankEnd(s, b) == next
    ensures next <= |s| && SplitAtBlanks(s) == [s[..b]] + SplitAtBlanks(s[next..])
  {
  }

  /** Paragraphs with blank lines between them, whatever else is on these, are read back. */
  lemma {:induction false} ParagraphsReadBack(paragraphs: seq<string>, gap: string)
    requires paragraphs != [] && (forall p | p in paragraphs :: IsParagraph(p)) && IsGap(gap)
    ensures SplitAtBlanks(Join(paragraphs, gap)) == paragraphs
  {
    var first := paragraphs[0];
    assert IsParagraph(first);
    if |paragraphs| == 1 {
      NextBlankIs(first, 0, |first|);
    } else {
      var rest := Join(paragraphs[1..], gap);
      forall p | p in paragraphs[1..] ensures Trimmed(p) {
        assert IsParagraph(p);
      }
      JoinTrimmed(paragraphs[1..], gap);
      ParagraphsReadBack(paragraphs[1..], gap);
      ParagraphThenRest(first, gap, rest);
    }
  }
}
