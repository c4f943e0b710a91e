/**
 The context package: retrieved chunks without near-duplicates, rendered under
 numbered markers into a character budget.
 */
module ContextBuilder {
  import opened Arithmetic
  import opened Basics
  import opened Chunking
  import opened Retrieval
  import opened Searching
  import opened Text

  const TOO_SMALL := 200

  function JaccardAbove(a: set<string>, b: set<string>): bool {
    // |a * b| / max(|a + b|, 1) > 0.85, cleared of the division
    |a * b| * 100 > 85 * Max(|a + b|, 1)
  }

  /** Two sets are that alike exactly if what they share is more than 85 percent of what either has. */
  lemma JaccardAboveIff(a: set<string>, b: set<string>)
    requires a + b != {}
    ensures |a + b| > 0
    ensures JaccardAbove(a, b) <==> |a * b| as real / |a + b| as real > 0.85
  {
    assert |a + b| > 0;
    RatioAbove(|a * b|, |a + b|);
  }

  lemma RatioAbove(x: nat, y: nat)
    requires y > 0
    ensures x * 100 > 85 * y <==> x as real / y as real > 0.85
  {
    QuotientAbove(x as real, y as real, 0.85);
  }

  predicate NearDuplicate(tokens: Tokenizer, x: RetrievedChunk, y: RetrievedChunk) {
    JaccardAbove(tokens(x.chunk.text), tokens(y.chunk.text))
  }

  /** When one item counts as a repetition of another. */
  type Similarity = (RetrievedChunk, RetrievedChunk) -> bool

  function SimilarBy(tokens: Tokenizer): Similarity {
    (x: RetrievedChunk, y: RetrievedChunk) => NearDuplicate(tokens, x, y)
  }

  predicate Repeats(similar: Similarity, kept: seq<RetrievedChunk>, item: RetrievedChunk) {
    exists i :: 0 <= i < |kept| && similar(item, kept[i])
  }

  function Compressed(similar: Similarity, items: seq<RetrievedChunk>): seq<RetrievedChunk> {
    if items == [] then []
    else
      var kept := Compressed(similar, items[..|items| - 1]);
      if Repeats(similar, kept, items[|items| - 1]) then kept else kept + [items[|items| - 1]]
  }

  // ------------------------------------------------------------------- cutting

  /** The last position where a two-character pattern occurs, or -1. */
  function RFind(s: string, a: char, b: char, n: nat): (p: int)
    requires n <= |s|
    ensures -1 <= p < n
    ensures p >= 0 ==> p + 1 < |s| && s[p] == a && s[p + 1] == b
    ensures forall k | p < k < n && k + 1 < |s| :: !(s[k] == a && s[k + 1] == b)
  {
    if n == 0 then -1
    else if n < |s| && s[n - 1] == a && s[n] == b then n - 1
    else RFind(s, a, b, n - 1)
  }

  function LastSentenceEnd(cut: string): (p: int)
    ensures p < |cut|
    ensures p >= 0 ==> cut[p] in {'.', '!', '?'}
  {
    Max(Max(RFind(cut, '.', ' ', |cut|), RFind(cut, '!', ' ', |cut|)),
        Max(RFind(cut, '?', ' ', |cut|), RFind(cut, '.', '\n', |cut|)))
  }

  /** A sentence ends here: a mark and a blank, or a full stop and a line break. */
  predicate EndsSentence(s: string, k: nat) {
    && k + 1 < |s| && s[k] in {'.', '!', '?'}
    && (s[k + 1] == ' ' || (s[k] == '.' && s[k + 1] == '\n'))
  }

  /** The last sentence end is one, and none comes after it; there is none exactly if it is negative. */
  lemma LastSentenceEndIsLast(s: string)
    ensures var p := LastSentenceEnd(s);
            && (p >= 0 ==> EndsSentence(s, p))
            && forall k: nat | EndsSentence(s, k) :: k <= p
  {
  }

  /** A text is shortened exactly if a sentence ends in the second half of what fits, and then at the last such. */
  lemma ShortenedIff(text: string, limit: nat)
    requires limit <= |text|
    ensures var cut, fits := CutAtSentence(text, limit), text[..limit];
            && (|cut| < limit <==> exists k: nat :: limit / 2 < k && EndsSentence(fits, k))
            && (|cut| < limit ==> EndsSentence(fits, |cut| - 1) && forall k: nat | EndsSentence(fits, k) :: k < |cut|)
  {
    LastSentenceEndIsLast(text[..limit]);
    var p := LastSentenceEnd(text[..limit]);
    if p > limit / 2 {
      assert EndsSentence(text[..limit], p);
    }
  }

  /** The text up to the limit, or to its last sentence end in the second half of it. */
  function CutAtSentence(text: string, limit: nat): (cut: string)
    requires limit <= |text|
    ensures cut <= text && |cut| <= limit
    ensures |cut| < limit ==> |cut| > limit / 2 + 1 && cut[|cut| - 1] in {'.', '!', '?'}
  {
    var cut := text[..limit];
    var end := LastSentenceEnd(cut);
    if end > limit / 2 then cut[..end + 1] else cut
  }

  // ------------------------------------------------------------------ rendering

  function Decimal(n: nat): string {
    if n < 10 then ["0123456789"[n]] else Decimal(n / 10) + ["0123456789"[n % 10]]
  }

  /** The number that a string of digits denotes. */
  function Denoted(s: string): nat
    requires forall i | 0 <= i < |s| :: '0' <= s[i] <= '9'
  {
    if s == "" then 0 else 10 * Denoted(s[..|s| - 1]) + (s[|s| - 1] - '0') as nat
  }

  lemma {:induction false} DecimalDenotes(n: nat)
    ensures Decimal(n) != "" && forall i | 0 <= i < |Decimal(n)| :: '0' <= Decimal(n)[i] <= '9'
    ensures Denoted(Decimal(n)) == n
    ensures Decimal(n)[0] == '0' ==> n == 0
  {
    if n >= 10 {
      DecimalDenotes(n / 10);
      OneMoreDigit(Decimal(n / 10), n % 10);
    } else {
      OneMoreDigit("", n);
      assert "" + ["0123456789"[n]] == Decimal(n);
    }
  }

  lemma OneMoreDigit(s: string, d: nat)
    requires d < 10 && forall i | 0 <= i < |s| :: '0' <= s[i] <= '9'
    ensures '0' <= "0123456789"[d] <= '9' && ("0123456789"[d] == '0' <==> d == 0)
    ensures Denoted(s + ["0123456789"[d]]) == 10 * Denoted(s) + d
  {
    var t := s + ["0123456789"[d]];
    assert t[..|t| - 1] == s;
  }

  /** A header starts with the marker of its number, and then names the source. */
  lemma HeaderReads(position: nat, item: RetrievedChunk)
    ensures var h, d := Header(position, item), |Decimal(position)|;
            && h[..2] == "[S" && h[2..2 + d] == Decimal(position) && h[2 + d..5 + d] == "] ("
            && h[5 + d..|h| - 2] == item.chunk.document.source && h[|h| - 2..] == ")\n"
  {
  }

  function Header(position: nat, item: RetrievedChunk): string {
    "[S" + Decimal(position) + "] (" + item.chunk.document.source + ")\n"
  }

  /** A header and the text that goes under it. */
  datatype Passage = Passage(header: string, text: string)

  function PassagesOf(items: seq<RetrievedChunk>): (ps: seq<Passage>)
    ensures |ps| == |items|
    ensures forall i | 0 <= i < |items| :: ps[i] == Passage(Header(i + 1, items[i]), Strip(items[i].chunk.text))
  {
    seq(|items|, i requires 0 <= i < |items| => Passage(Header(i + 1, items[i]), Strip(items[i].chunk.text)))
  }

  function Fitted(text: string, remaining: nat): (body: string)
    ensures |body| <= remaining && body <= text
    ensures |text| <= remaining ==> body == text
  {
    if |text| > remaining then CutAtSentence(text, remaining) else text
  }

  /** A way of cutting a text down to a length. */
  type Cutter = (string, nat) -> string

  ghost predicate Cuts(cut: Cutter) {
    forall t, r :: |cut(t, r)| <= r && cut(t, r) <= t
  }

  /** The rendered blocks of the first n passages, as far as the budget goes. */
  function Blocks(cut: Cutter, budget: int, passages: seq<Passage>, n: nat): seq<string>
    requires n <= |passages|
  {
    if n == 0 then [] else WithNext(cut, budget, passages, n, Blocks(cut, budget, passages, n - 1))
  }

  /** Passage n is rendered if all before it were and the window is large enough. */
  function WithNext(cut: Cutter, budget: int, passages: seq<Passage>, n: nat, before: seq<string>): seq<string>
    requires 0 < n <= |passages|
  {
    var remaining := budget - TotalLength(before);
    if |before| < n - 1 || remaining <= TOO_SMALL then before
    else before + [passages[n - 1].header + cut(passages[n - 1].text, remaining)]
  }

  function SourcesOf(items: seq<RetrievedChunk>): (names: seq<string>)
    ensures |names| == |items|
    ensures forall i | 0 <= i < |items| :: names[i] == items[i].chunk.document.source
  {
    seq(|items|, i requires 0 <= i < |items| => items[i].chunk.document.source)
  }

  /** The distinct names of a list, in order of first use. */
  function FirstUses(names: seq<string>): seq<string> {
    if names == [] then []
    else
      var before := FirstUses(names[..|names| - 1]);
      if names[|names| - 1] in before then before else before + [names[|names| - 1]]
  }

  datatype ContextPackage = ContextPackage(chunks: seq<RetrievedChunk>, text: string, sources: seq<string>)

  class Builder {
    const tokens: Tokenizer
    const charBudget: int

    constructor (tokens: Tokenizer, charBudget: int)
      ensures this.tokens == tokens && this.charBudget == charBudget
    {
      this.tokens, this.charBudget := tokens, charBudget;
    }

    method Build(retrieved: seq<RetrievedChunk>) returns (package: ContextPackage)
      ensures var selected := Compressed(SimilarBy(tokens), retrieved);
              var blocks := Blocks(Fitted, charBudget, PassagesOf(selected), |selected|);
              && package.text == Join(blocks, "\n\n")
              && |blocks| <= |selected|
              && package.chunks == selected[..|blocks|]
              && package.sources == FirstUses(SourcesOf(package.chunks))
    {
      var selected := Compress(retrieved);
      var parts := Render(Fitted, PassagesOf(selected));
      var kept := selected[..|parts|];
      var sources := Distinct(SourcesOf(kept));
      package := ContextPackage(kept, Join(parts, "\n\n"), sources);
    }

    /** Whole passages first, then a cut one, until too small a window is left. */
    method Render(cut: Cutter, passages: seq<Passage>) returns (parts: seq<string>)
      ensures parts == Blocks(cut, charBudget, passages, |passages|) && |parts| <= |passages|
    {
      parts := [];
      var used := 0;
      var position := 0;
      while position < |passages|
        invariant RenderedTo(cut, charBudget, passages, parts, used, position)
      {
        var remaining := charBudget - used;
        if remaining <= TOO_SMALL {
          StopsHere(cut, charBudget, passages, position, |passages|);
          break;
        }
        var block := passages[position].header + cut(passages[position].text, remaining);
        NextBlock(cut, charBudget, passages, position, parts, used, block);
        parts := parts + [block];
        used := used + |block|;
        position := position + 1;
      }
    }

    method Distinct(names: seq<string>) returns (sources: seq<string>)
      ensures sources == FirstUses(names)
    {
      sources := [];
      for i := 0 to |names|
        invariant sources == FirstUses(names[..i])
      {
        assert names[..i + 1][..i] == names[..i];
        if names[i] !in sources {
          sources := sources + [names[i]];
        }
      }
      assert names[..|names|] == names;
    }

    method Compress(items: seq<RetrievedChunk>) returns (kept: seq<RetrievedChunk>)
      ensures kept == Compressed(SimilarBy(tokens), items)
    {
      kept := [];
      var keptTokens: seq<set<string>> := [];
      for i := 0 to |items|
        invariant kept == Compressed(SimilarBy(tokens), items[..i])
        invariant |keptTokens| == |kept|
        invariant forall j | 0 <= j < |kept| :: keptTokens[j] == tokens(kept[j].chunk.text)
      {
        assert items[..i + 1][..i] == items[..i];
        var own := tokens(items[i].chunk.text);
        var duplicate := exists j :: 0 <= j < |keptTokens| && JaccardAbove(own, keptTokens[j]);
        RepeatsByTokens(tokens, kept, keptTokens, items[i]);
        if !duplicate {
          kept := kept + [items[i]];
          keptTokens := keptTokens + [own];
        }
      }
      assert items[..|items|] == items;
    }
  }

  lemma RepeatsByTokens(tokens: Tokenizer, kept: seq<RetrievedChunk>, keptTokens: seq<set<string>>,
                        item: RetrievedChunk)
    requires |keptTokens| == |kept|
    requires forall j | 0 <= j < |kept| :: keptTokens[j] == tokens(kept[j].chunk.text)
    ensures Repeats(SimilarBy(tokens), kept, item)
            <==> exists j :: 0 <= j < |keptTokens| && JaccardAbove(tokens(item.chunk.text), keptTokens[j])
  {
    forall j | 0 <= j < |kept|
      ensures JaccardAbove(tokens(item.chunk.text), keptTokens[j]) == SimilarBy(tokens)(item, kept[j])
    { }
  }

  /** The first n passages are rendered and their lengths added up. */
  ghost predicate RenderedTo(cut: Cutter, budget: int, passages: seq<Passage>,
                             parts: seq<string>, used: int, n: nat) {
    n <= |passages| && |parts| == n && parts == Blocks(cut, budget, passages, n) && used == TotalLength(parts)
  }

  lemma NextBlock(cut: Cutter, budget: int, passages: seq<Passage>, p: nat,
                  parts: seq<string>, used: int, block: string)
    requires p < |passages| && RenderedTo(cut, budget, passages, parts, used, p) && budget - used > TOO_SMALL
    requires block == passages[p].header + cut(passages[p].text, budget - used)
    ensures RenderedTo(cut, budget, passages, parts + [block], used + |block|, p + 1)
  {
    TotalOfTwo(parts, block);
  }

  /** Once the window is too small, nothing more is rendered. */
  lemma {:induction false} StopsHere(cut: Cutter, budget: int, passages: seq<Passage>, p: nat, n: nat)
    requires p <= n <= |passages| && |Blocks(cut, budget, passages, p)| == p
    requires budget - TotalLength(Blocks(cut, budget, passages, p)) <= TOO_SMALL
    ensures Blocks(cut, budget, passages, n) == Blocks(cut, budget, passages, p)
  {
    if p < n {
      StopsHere(cut, budget, passages, p, n - 1);
    }
  }

  // ------------------------------------------------------------- deduplication

  /** No kept item nearly duplicates an earlier one. */
  ghost predicate Sparse(similar: Similarity, kept: seq<RetrievedChunk>) {
    forall i, j | 0 <= i < j < |kept| :: !similar(kept[j], kept[i])
  }

  lemma {:induction false} CompressedIsSparse(similar: Similarity, items: seq<RetrievedChunk>)
    ensures Sparse(similar, Compressed(similar, items))
  {
    if items != [] {
      CompressedIsSparse(similar, items[..|items| - 1]);
    }
  }

  /** Near-duplication is symmetric, so no two kept items are near-duplicates. */
  lemma NearDuplicateSymmetric(tokens: Tokenizer, x: RetrievedChunk, y: RetrievedChunk)
    ensures NearDuplicate(tokens, x, y) == NearDuplicate(tokens, y, x)
  {
    var a, b := tokens(x.chunk.text), tokens(y.chunk.text);
    assert a * b == b * a && a + b == b + a;
  }

  /** A list without near-duplicates is left as it is; so compressing is idempotent. */
  lemma {:induction false} SparseIsKept(similar: Similarity, items: seq<RetrievedChunk>)
    requires Sparse(similar, items)
    ensures Compressed(similar, items) == items
  {
    if items != [] {
      SparseIsKept(similar, items[..|items| - 1]);
    }
  }

  lemma {:induction false} CompressingIsIdempotent(similar: Similarity, items: seq<RetrievedChunk>)
    ensures Compressed(similar, Compressed(similar, items)) == Compressed(similar, items)
  {
    CompressedIsSparse(similar, items);
    SparseIsKept(similar, Compressed(similar, items));
  }

  lemma {:induction false} CompressedGrows(similar: Similarity, items: seq<RetrievedChunk>, n: nat)
    requires n <= |items|
    ensures Compressed(similar, items[..n]) <= Compressed(similar, items)
    decreases |items|
  {
    if n < |items| {
      assert items[..|items| - 1][..n] == items[..n];
      CompressedGrows(similar, items[..|items| - 1], n);
    } else {
      assert items[..n] == items;
    }
  }

  /** Item n is kept exactly when it does not repeat something kept before it. */
  lemma KeptIff(similar: Similarity, items: seq<RetrievedChunk>, n: nat)
    requires n < |items|
    ensures var before := Compressed(similar, items[..n]);
            && before <= Compressed(similar, items)
            && Compressed(similar, items[..n + 1])
               == if Repeats(similar, before, items[n]) then before else before + [items[n]]
  {
    assert items[..n + 1][..n] == items[..n];
    CompressedGrows(similar, items, n);
  }

  /** The positions of the items that are kept. */
  function KeptAt(similar: Similarity, items: seq<RetrievedChunk>): seq<nat> {
    if items == [] then []
    else
      var before := items[..|items| - 1];
      KeptAt(similar, before)
      + if Repeats(similar, Compressed(similar, before), items[|items| - 1]) then [] else [|items| - 1]
  }

  /** What is kept is a subsequence of what was retrieved. */
  lemma {:induction false} CompressedIsSubsequence(similar: Similarity, items: seq<RetrievedChunk>)
    ensures var at := KeptAt(similar, items);
            && |at| == |Compressed(similar, items)|
            && (forall i | 0 <= i < |at| :: at[i] < |items| && Compressed(similar, items)[i] == items[at[i]])
            && (forall i, j | 0 <= i < j < |at| :: at[i] < at[j])
  {
    if items != [] {
      CompressedIsSubsequence(similar, items[..|items| - 1]);
    }
  }

  // -------------------------------------------------------------------- budget

  /** One block: its header, then its text, cut only at the end. */
  predicate Renders(block: string, passage: Passage) {
    passage.header <= block && block[|passage.header|..] <= passage.text
  }

  lemma {:induction false} BlocksRender(cut: Cutter, budget: int, passages: seq<Passage>, n: nat)
    requires Cuts(cut) && n <= |passages|
    ensures var blocks := Blocks(cut, budget, passages, n);
            |blocks| <= n && forall i | 0 <= i < |blocks| :: Renders(blocks[i], passages[i])
  {
    if n > 0 {
      BlocksRender(cut, budget, passages, n - 1);
      NextRenders(cut, budget, passages, n, Blocks(cut, budget, passages, n - 1));
    }
  }

  lemma NextRenders(cut: Cutter, budget: int, passages: seq<Passage>, n: nat, before: seq<string>)
    requires Cuts(cut) && 0 < n <= |passages| && |before| <= n - 1
    requires forall i | 0 <= i < |before| :: Renders(before[i], passages[i])
    ensures var blocks := WithNext(cut, budget, passages, n, before);
            |blocks| <= n && forall i | 0 <= i < |blocks| :: Renders(blocks[i], passages[i])
  {
    var remaining := budget - TotalLength(before);
    if remaining > TOO_SMALL {
      BlockRenders(passages[n - 1], cut(passages[n - 1].text, remaining));
    }
  }

  lemma BlockRenders(passage: Passage, body: string)
    requires body <= passage.text
    ensures Renders(passage.header + body, passage)
  {
    assert (passage.header + body)[|passage.header|..] == body;
  }

  lemma CutIsShort(cut: Cutter, text: string, limit: nat)
    requires Cuts(cut)
    ensures |cut(text, limit)| <= limit
  {
  }

  lemma BlockLength(before: seq<string>, header: string, body: string)
    ensures TotalLength(before + [header + body]) == TotalLength(before) + |header| + |body|
  {
    TotalOfTwo(before, header + body);
  }

  lemma {:induction false} BlocksWithinBudget(cut: Cutter, budget: int, passages: seq<Passage>, n: nat)
    requires Cuts(cut) && n <= |passages|
    ensures WithinBudget(budget, passages, n, Blocks(cut, budget, passages, n))
  {
    if n > 0 {
      BlocksWithinBudget(cut, budget, passages, n - 1);
      NextWithinBudget(cut, budget, passages, n, Blocks(cut, budget, passages, n - 1));
    }
  }

  lemma NextWithinBudget(cut: Cutter, budget: int, passages: seq<Passage>, n: nat, before: seq<string>)
    requires Cuts(cut) && 0 < n <= |passages| && WithinBudget(budget, passages, n - 1, before)
    ensures WithinBudget(budget, passages, n, WithNext(cut, budget, passages, n, before))
  {
    KeptWithinBudget(budget, passages, n, before);
    var remaining := budget - TotalLength(before);
    if |before| == n - 1 && remaining > TOO_SMALL {
      var text := passages[n - 1].text;
      CutIsShort(cut, text, remaining);
      GrownWithinBudget(budget, passages, n, before, cut(text, remaining));
    }
  }

  /** At most n blocks, over the budget by no more than the header of the last one. */
  ghost predicate WithinBudget(budget: int, passages: seq<Passage>, n: nat, blocks: seq<string>) {
    && |blocks| <= n <= |passages|
    && (blocks == [] || TotalLength(blocks) <= budget + |passages[|blocks| - 1].header|)
  }

  lemma KeptWithinBudget(budget: int, passages: seq<Passage>, n: nat, before: seq<string>)
    requires 0 < n <= |passages| && WithinBudget(budget, passages, n - 1, before)
    ensures WithinBudget(budget, passages, n, before)
  {
  }

  lemma GrownWithinBudget(budget: int, passages: seq<Passage>, n: nat, before: seq<string>, body: string)
    requires 0 < n <= |passages| && |before| == n - 1 && |body| <= budget - TotalLength(before)
    ensures WithinBudget(budget, passages, n, before + [passages[n - 1].header + body])
  {
    BlockLength(before, passages[n - 1].header, body);
  }

  /**
   The package is a prefix of the selected chunks, numbered from 1, each under its
   source and cut only at its end; headers and separators come on top of the
   budget: one header, and two characters between blocks.
   */
  lemma PackageIsBounded(budget: int, selected: seq<RetrievedChunk>)
    ensures var blocks := Blocks(Fitted, budget, PassagesOf(selected), |selected|);
            && |blocks| <= |selected|
            && (forall i | 0 <= i < |blocks| ::
                  Renders(blocks[i], Passage(Header(i + 1, selected[i]), Strip(selected[i].chunk.text))))
            && (blocks != [] ==>
                  |Join(blocks, "\n\n")|
                  <= budget + |Header(|blocks|, selected[|blocks| - 1])| + 2 * (|blocks| - 1))
  {
    var passages := PassagesOf(selected);
    var blocks := Blocks(Fitted, budget, passages, |selected|);
    BlocksRender(Fitted, budget, passages, |selected|);
    BlocksWithinBudget(Fitted, budget, passages, |selected|);
    if blocks != [] {
      JoinedLength(blocks);
    }
  }

  /** The text of the package for what was retrieved. */
  function PackageText(tokens: Tokenizer, budget: int, retrieved: seq<RetrievedChunk>): string {
    var selected := Compressed(SimilarBy(tokens), retrieved);
    Join(Blocks(Fitted, budget, PassagesOf(selected), |selected|), "\n\n")
  }

  /** One chunk that fills the budget: its header comes on top, so the bound is reached. */
  lemma BoundIsReachedByOne(tokens: Tokenizer, budget: int, item: RetrievedChunk)
    requires Trimmed(item.chunk.text) && |item.chunk.text| == budget > TOO_SMALL
    ensures |PackageText(tokens, budget, [item])| == budget + |Header(1, item)| > budget
  {
    OneIsKept(SimilarBy(tokens), item);
    StripTrimmed(item.chunk.text);
    OneBlock(Fitted, budget, PassagesOf([item]));
  }

  /** The chunk of a document whose text is one long word. */
  function Lengthy(word: string): Chunk {
    MakeChunk(Document("D", "words.md", "Words"), 0, "", word)
  }

  /** The word that makes the chunk as long as is asked for, "[Words > ]" and a line break included. */
  function LongWord(length: int): string
    requires length > TOO_SMALL
  {
    Letters('a', length - 11)
  }

  lemma LengthyIsLong(length: int)
    requires length > TOO_SMALL
    ensures var text := Lengthy(LongWord(length)).text; Trimmed(text) && |text| == length
  {
    var word := LongWord(length);
    assert Lengthy(word).text == "[Words > ]\n" + word;
  }

  lemma OneIsKept(similar: Similarity, item: RetrievedChunk)
    ensures Compressed(similar, [item]) == [item]
  {
    assert [item][..0] == [];
  }

  lemma OneBlock(cut: Cutter, budget: int, passages: seq<Passage>)
    requires |passages| == 1 && budget > TOO_SMALL
    ensures Blocks(cut, budget, passages, 1) == [passages[0].header + cut(passages[0].text, budget)]
  {
    assert Blocks(cut, budget, passages, 0) == [] && TotalLength([]) == 0;
  }

  /** A budget too small for any window renders nothing. */
  lemma NothingFits(tokens: Tokenizer, budget: int, retrieved: seq<RetrievedChunk>)
    requires budget <= TOO_SMALL
    ensures PackageText(tokens, budget, retrieved) == ""
  {
    var selected := Compressed(SimilarBy(tokens), retrieved);
    StopsHere(Fitted, budget, PassagesOf(selected), 0, |selected|);
  }

  /** No retrieval result makes the package longer than the budget. */
  ghost predicate BudgetIsHard(tokens: Tokenizer, budget: int) {
    forall retrieved: seq<RetrievedChunk> :: |PackageText(tokens, budget, retrieved)| <= budget
  }

  /** The budget is hard exactly when it is too small to render anything. */
  lemma BudgetIsHardIff(tokens: Tokenizer, budget: int)
    ensures BudgetIsHard(tokens, budget) <==> 0 <= budget <= TOO_SMALL
  {
    if 0 <= budget <= TOO_SMALL {
      forall retrieved: seq<RetrievedChunk> ensures |PackageText(tokens, budget, retrieved)| <= budget {
        NothingFits(tokens, budget, retrieved);
      }
    } else if budget < 0 {
      assert |PackageText(tokens, budget, [])| > budget;
    } else {
      var item := RetrievedChunk(Lengthy(LongWord(budget)), 0.0, []);
      LengthyIsLong(budget);
      BoundIsReachedByOne(tokens, budget, item);
      assert |PackageText(tokens, budget, [item])| > budget;
    }
  }

  // ------------------------------------------------------------------- sources

  /** Where a name is used first. */
  function FirstIndex(names: seq<string>, name: string): (i: nat)
    requires name in names
    ensures i < |names| && names[i] == name && forall k | 0 <= k < i :: names[k] != name
  {
    var n := |names| - 1;
    if name in names[..n] then FirstIndex(names[..n], name) else n
  }

  lemma FirstIndexUnique(names: seq<string>, name: string, i: nat)
    requires i < |names| && names[i] == name && forall k | 0 <= k < i :: names[k] != name
    ensures FirstIndex(names, name) == i
  {
  }

  /** Sources are listed in the order of their first uses. */
  lemma {:induction false} FirstUsesInOrder(names: seq<string>)
    ensures forall s | s in FirstUses(names) :: s in names
    ensures forall i, j | 0 <= i < j < |FirstUses(names)| ::
              FirstIndex(names, FirstUses(names)[i]) < FirstIndex(names, FirstUses(names)[j])
  {
    FirstUsesFacts(names);
    if names != [] {
      var n := |names| - 1;
      var before, after := FirstUses(names[..n]), FirstUses(names);
      assert after == before || (after == before + [names[n]] && names[n] !in names[..n]) by {
        FirstUsesFacts(names[..n]);
      }
      hide FirstUses, FirstIndex;
      FirstUsesInOrder(names[..n]);
      forall s | s in before ensures FirstIndex(names, s) == FirstIndex(names[..n], s) < n {
        FirstIndexUnique(names, s, FirstIndex(names[..n], s));
      }
      if after != before {
        FirstIndexUnique(names, names[n], n);
      }
    }
  }

  /** Sources are listed once each, and all of them. */
  lemma {:induction false} FirstUsesFacts(names: seq<string>)
    ensures forall s :: s in FirstUses(names) <==> s in names
    ensures forall i, j | 0 <= i < j < |FirstUses(names)| :: FirstUses(names)[i] != FirstUses(names)[j]
  {
    if names != [] {
      var n := |names| - 1;
      FirstUsesFacts(names[..n]);
      assert names == names[..n] + [names[n]];
      var before := FirstUses(names[..n]);
      assert names[n] !in before ==> forall i | 0 <= i < |before| :: before[i] != names[n];
    }
  }
}
