/**
 Sentence boundaries: a run of whitespace right after a full stop, exclamation or
 question mark. This is the pattern the chunker splits long paragraphs at.
 */
module SentenceSplitting {
  import opened Text

  predicate Stop(c: char) {
    c == '.' || c == '!' || c == '?'
  }

  predicate Boundary(s: string, i: nat) {
    0 < i < |s| && Space(s[i]) && Stop(s[i - 1])
  }

  /** The first boundary from position i on, or the length of the text. */
  function NextBoundary(s: string, i: nat): (b: nat)
    ensures b <= |s|
    ensures b < |s| ==> i <= b && Boundary(s, b)
    ensures forall k | i <= k < b :: !Boundary(s, k)
    decreases |s| - i
  {
    if i >= |s| then |s|
    else if Boundary(s, i) then i
    else NextBoundary(s, i + 1)
  }

  /** The end of the whitespace run that starts at i. */
  function SpaceEnd(s: string, i: nat): (j: nat)
    requires i <= |s|
    ensures i <= j <= |s|
    ensures forall k | i <= k < j :: Space(s[k])
    ensures j == |s| || !Space(s[j])
    decreases |s| - i
  {
    if i < |s| && Space(s[i]) then SpaceEnd(s, i + 1) else i
  }

  function Sentences(s: string): (parts: seq<string>)
    ensures parts != []
    decreases |s|
  {
    var b := NextBoundary(s, 1);
    if b == |s| then [s] else [s[..b]] + Sentences(s[SpaceEnd(s, b)..])
  }

  lemma {:induction false} SentencesTrimmed(s: string)
    requires Trimmed(s)
    ensures forall t | t in Sentences(s) :: Trimmed(t)
    decreases |s|
  {
    var b := NextBoundary(s, 1);
    if b < |s| {
      assert !Space('.') && !Space('!') && !Space('?');
      assert Trimmed(s[..b]);
      var rest := s[SpaceEnd(s, b)..];
      assert rest[|rest| - 1] == s[|s| - 1];
      SentencesTrimmed(rest);
    }
  }

  lemma WordsAroundSpace(s: string, b: nat, j: nat)
    requires b < j <= |s| && forall k | b <= k < j :: Space(s[k])
    ensures Words(s) == Words(s[..b]) + Words(s[j..])
  {
    CutInThree(s, b, j);
    WordsAround(s[..b], s[b..j], s[j..]);
  }

  lemma CutInThree<T>(s: seq<T>, b: nat, j: nat)
    requires b <= j <= |s|
    ensures s == s[..b] + (s[b..j] + s[j..])
  {
  }

  /** Splitting into sentences loses nothing but whitespace. */
  lemma {:induction false} SentencesKeepWords(s: string)
    ensures WordsOfAll(Sentences(s)) == Words(s)
    decreases |s|
  {
    var b := NextBoundary(s, 1);
    if b < |s| {
      WordsAroundSpace(s, b, SpaceEnd(s, b));
      SentencesKeepWords(s[SpaceEnd(s, b)..]);
    } else {
      assert Sentences(s)[1..] == [];
    }
  }

  /** A sentence by itself: trimmed, and without a boundary inside. */
  ghost predicate IsSentence(s: string) {
    Trimmed(s) && forall i | 0 <= i < |s| :: !Boundary(s, i)
  }

  lemma {:induction false} NextBoundaryIs(s: string, i: nat, b: nat)
    requires i <= b <= |s| && (b < |s| ==> Boundary(s, b)) && forall k | i <= k < b :: !Boundary(s, k)
    ensures NextBoundary(s, i) == b
    decreases b - i
  {
    if i < b {
      NextBoundaryIs(s, i + 1, b);
    }
  }

  lemma {:induction false} SpaceEndIs(s: string, i: nat, j: nat)
    requires i <= j <= |s| && (j < |s| ==> !Space(s[j])) && forall k | i <= k < j :: Space(s[k])
    ensures SpaceEnd(s, i) == j
    decreases j - i
  {
    if i < j {
      SpaceEndIs(s, i + 1, j);
    }
  }

  lemma SentenceThenRest(first: string, gap: string, rest: string)
    requires IsSentence(first) && Stop(first[|first| - 1]) && rest != "" && !Space(rest[0])
    requires gap != "" && forall i | 0 <= i < |gap| :: Space(gap[i])
    ensures Sentences(first + gap + rest) == [first] + Sentences(rest)
  {
    assert first != "" && forall k | 0 < k < |first| :: !Boundary(first, k);
    hide *;
    var s, n, m := first + gap + rest, |first|, |first| + |gap|;
    GapIsBoundary(first, gap, rest);
    SplitThere(s, n, m);
    assert s[..n] == first && s[m..] == rest;
  }

  lemma GapIsBoundary(first: string, gap: string, rest: string)
    requires first != "" && Stop(first[|first| - 1]) && rest != "" && !Space(rest[0])
    requires forall k | 0 < k < |first| :: !Boundary(first, k)
    requires gap != "" && forall i | 0 <= i < |gap| :: Space(gap[i])
    ensures var s, n := first + gap + rest, |first|;
            NextBoundary(s, 1) == n && SpaceEnd(s, n) == n + |gap|
  {
    hide NextBoundary, SpaceEnd;
    var s, n, m := first + gap + rest, |first|, |first| + |gap|;
    forall k | 1 <= k < n ensures !Boundary(s, k) {
      assert s[k] == first[k] && s[k - 1] == first[k - 1] && !Boundary(first, k);
    }
    assert s[n] == gap[0] && s[n - 1] == first[n - 1] && s[m] == rest[0];
    NextBoundaryIs(s, 1, n);
    assert forall k | n <= k < m :: s[k] == gap[k - n];
    SpaceEndIs(s, n, m);
  }

  lemma SplitThere(s: string, b: nat, next: nat)
    requires b < |s| && NextBoundary(s, 1) == b && SpaceEnd(s, b) == next
    ensures next <= |s| && Sentences(s) == [s[..b]] + Sentences(s[next..])
  {
  }

  /** Sentences written one after the other, whatever whitespace is between them, are read back. */
  lemma {:induction false} SentencesReadBack(sentences: seq<string>, gap: string)
    requires sentences != [] && forall t | t in sentences :: IsSentence(t)
    requires forall i | 0 <= i < |sentences| - 1 :: sentences[i] != "" && Stop(sentences[i][|sentences[i]| - 1])
    requires gap != "" && forall i | 0 <= i < |gap| :: Space(gap[i])
    ensures Sentences(Join(sentences, gap)) == sentences
  {
    var first := sentences[0];
    assert IsSentence(first);
    if |sentences| == 1 {
      NextBoundaryIs(first, 1, |first|);
    } else {
      var rest := Join(sentences[1..], gap);
      assert Stop(first[|first| - 1]);
      forall t | t in sentences[1..] ensures Trimmed(t) {
        assert IsSentence(t);
      }
      JoinTrimmed(sentences[1..], gap);
      SentencesReadBack(sentences[1..], gap);
      SentenceThenRest(first, gap, rest);
    }
  }
}
