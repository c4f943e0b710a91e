/** From ingestion to fusion: what hybrid search promises on every ingested store, exactly. */
module Hybrid {
  import opened Basics
  import opened Chunking
  import opened Retrieval
  import opened Searching
  import opened Sorting
  import opened VectorStore
  import opened WordStores

  lemma IngestedIdsAreUnique(lim: Limits, embed: string -> Vector, files: seq<File>)
    ensures UniqueIds(IngestedChunks(lim, embed, files))
  {
    ChunkIdsAreUnique(lim, embed, files);
  }

  /**
   On every store that ingestion can reach, for every lexical scoring and every
   ranking by vectors, a chunk found by both searches scores above, and is placed
   before, every chunk found by only one, up to a pool of 61.
   */
  lemma AgreementWins(lim: Limits, embed: string -> Vector, files: seq<File>, score: Chunk -> Option<real>,
                      order: seq<nat>, pool: nat)
    requires Ranking(order, |IngestedChunks(lim, embed, files)|) && pool <= 61
    ensures var chunks := IngestedChunks(lim, embed, files);
            var vector, keyword := Picked(chunks, order, pool), ChunksIn(TopHits(chunks, score, pool));
            UniqueIds(vector) && UniqueIds(keyword) && BothWin(vector, keyword)
  {
    var chunks := IngestedChunks(lim, embed, files);
    IngestedIdsAreUnique(lim, embed, files);
    HitsHaveUniqueIds(chunks, score, order, pool);
    BothWinAll(Picked(chunks, order, pool), ChunksIn(TopHits(chunks, score, pool)), pool);
  }

  ghost predicate FoundByBoth(vector: seq<Chunk>, keyword: seq<Chunk>, chunk: Chunk) {
    Found(vector, chunk.id) && Found(keyword, chunk.id)
  }

  /** What both searches found scores above, and is placed before, what only one did. */
  ghost predicate BothWin(vector: seq<Chunk>, keyword: seq<Chunk>) {
    var fused := Fused(vector, keyword);
    forall i, j | 0 <= i < |fused| && 0 <= j < |fused|
      && FoundByBoth(vector, keyword, fused[i].chunk) && !FoundByBoth(vector, keyword, fused[j].chunk) ::
      fused[i].score > fused[j].score && i < j
  }

  lemma BothWinAll(vector: seq<Chunk>, keyword: seq<Chunk>, pool: nat)
    requires UniqueIds(vector) && UniqueIds(keyword) && |vector| <= pool && |keyword| <= pool && pool <= 61
    ensures BothWin(vector, keyword)
  {
    var fused := Fused(vector, keyword);
    forall i, j | 0 <= i < |fused| && 0 <= j < |fused|
      && FoundByBoth(vector, keyword, fused[i].chunk) && !FoundByBoth(vector, keyword, fused[j].chunk)
      ensures fused[i].score > fused[j].score && i < j
    {
      BothChannelsWin(vector, keyword, pool, i, j);
    }
  }

  // ------------------------------------------------------- where agreement ends

  /** A lexical search for one query beside a ranking by vectors. */
  datatype Query = Query(tokens: Tokenizer, weight: real -> real, terms: seq<string>, order: seq<nat>)

  function VectorHits(chunks: seq<Chunk>, q: Query, pool: nat): seq<Chunk>
    requires Ranking(q.order, |chunks|)
  {
    Picked(chunks, q.order, pool)
  }

  function KeywordHits(chunks: seq<Chunk>, q: Query, pool: nat): seq<Chunk> {
    ChunksIn(TopHits(chunks, Overlap(q.tokens, q.weight, chunks, q.terms), pool))
  }

  /** On this store, agreement wins for this query. */
  ghost predicate AgreesOn(chunks: seq<Chunk>, q: Query, pool: nat) {
    Ranking(q.order, |chunks|) ==> BothWin(VectorHits(chunks, q, pool), KeywordHits(chunks, q, pool))
  }

  /** On every ingested store, agreement wins for every query. */
  ghost predicate AgreementAlwaysWins(lim: Limits, embed: string -> Vector, pool: nat) {
    forall files, q :: AgreesOn(IngestedChunks(lim, embed, files), q, pool)
  }

  /** 62 documents that the query matches, and one that it does not. */
  function TieWords(): (words: seq<string>)
    ensures |words| == 63 && forall i | 0 <= i < 63 :: words[i] == if i < 62 then "q" else "x"
  {
    seq(63, i => if i < 62 then "q" else "x")
  }

  /** The vectors rank the other document first, and the last match at place 61. */
  function TieOrder(): (order: seq<nat>)
    ensures |order| == 63 && order[0] == 62 && order[61] == 61 && order[62] == 60
    ensures forall i | 1 <= i < 61 :: order[i] == i - 1
  {
    seq(63, i => if i == 0 then 62 else if i == 61 then 61 else if i == 62 then 60 else i - 1)
  }

  function LastLetter(text: string): set<string> {
    if text == "" then {} else {[text[|text| - 1]]}
  }

  function TieQuery(): Query {
    Query(LastLetter, x => x, ["q"], TieOrder())
  }

  lemma {:induction false} FirstMatch(chunks: seq<Chunk>, score: Chunk -> Option<real>, n: nat, k: real)
    requires n <= |chunks| && forall i | 0 <= i < n :: score(chunks[i]) == Some(k)
    requires forall i | n <= i < |chunks| :: score(chunks[i]) == None
    ensures |Matches(chunks, score)| == n
    ensures forall i | 0 <= i < n :: Matches(chunks, score)[i] == (chunks[i], k)
  {
    if chunks != [] {
      var m := |chunks| - 1;
      FirstMatch(chunks[..m], score, Min(n, m), k);
    }
  }

  /** Chunks that match alike are found in store order. */
  lemma AlikeHits(chunks: seq<Chunk>, score: Chunk -> Option<real>, n: nat, k: real, pool: nat)
    requires n <= |chunks| && forall i | 0 <= i < n :: score(chunks[i]) == Some(k)
    requires forall i | n <= i < |chunks| :: score(chunks[i]) == None
    ensures ChunksIn(TopHits(chunks, score, pool)) == chunks[..Min(n, pool)]
  {
    FirstMatch(chunks, score, n, k);
    SortedAlike(ScoreIn, Matches(chunks, score), k);
  }

  lemma TieHits(chunks: seq<Chunk>, pool: nat)
    requires |chunks| == 63 && forall i | 0 <= i < 63 :: chunks[i] == WordChunk(TieWords(), i)
    ensures KeywordHits(chunks, TieQuery(), pool) == chunks[..Min(62, pool)]
  {
    var q := TieQuery();
    var score := Overlap(q.tokens, q.weight, chunks, q.terms);
    var worth := WorthOf(["q"], {"q"}, (t: string) => Worth(q.tokens, q.weight, chunks, t));
    forall i | 0 <= i < 63 ensures score(chunks[i]) == if i < 62 then Some(worth) else None {
      var text := chunks[i].text;
      assert text[|text| - 1] == TieWords()[i][0];
      assert ["q"][0] in {"q"};
      assert Shares(["q"], LastLetter(text)) <==> "q" in LastLetter(text);
    }
    AlikeHits(chunks, score, 62, worth, pool);
  }

  lemma TieIsNoWin(vector: seq<Chunk>, keyword: seq<Chunk>)
    requires UniqueIds(vector) && UniqueIds(keyword) && |vector| > 61 && |keyword| > 61
    requires vector[61] == keyword[61] && !Found(keyword, vector[0].id)
    ensures !BothWin(vector, keyword)
  {
    var a, b := vector[61].id, vector[0].id;
    TieAtRank61(vector, keyword);
    var i := CandidateFor(vector, keyword, a);
    var j := CandidateFor(vector, keyword, b);
    assert FoundByBoth(vector, keyword, Fused(vector, keyword)[i].chunk);
  }

  lemma CandidateFor(vector: seq<Chunk>, keyword: seq<Chunk>, id: ChunkId) returns (i: nat)
    requires Found(vector, id)
    ensures i < |Fused(vector, keyword)| && Fused(vector, keyword)[i].chunk.id == id
    ensures Fused(vector, keyword)[i].score == FusedScore(vector, keyword, id)
  {
    FusionIsComplete(vector, keyword, id);
    var fused := Fused(vector, keyword);
    var c :| c in fused && c.chunk.id == id;
    i :| i < |fused| && fused[i] == c;
    CandidateMeaning(vector, keyword, c);
  }

  /** On ingested stores, too, 61 is exactly the largest pool for which agreement always wins. */
  lemma AgreementAlwaysWinsIff(lim: Limits, embed: string -> Vector, pool: nat)
    ensures AgreementAlwaysWins(lim, embed, pool) <==> pool <= 61
  {
    if pool <= 61 {
      forall files: seq<File>, q: Query ensures AgreesOn(IngestedChunks(lim, embed, files), q, pool) {
        var chunks := IngestedChunks(lim, embed, files);
        if Ranking(q.order, |chunks|) {
          AgreementWins(lim, embed, files, Overlap(q.tokens, q.weight, chunks, q.terms), q.order, pool);
        }
      }
    } else {
      TieIsReached(lim, embed, pool);
    }
  }

  lemma TieIsReached(lim: Limits, embed: string -> Vector, pool: nat)
    requires pool > 61
    ensures !AgreesOn(IngestedChunks(lim, embed, WordFiles(TieWords())), TieQuery(), pool)
  {
    WordChunks(lim, embed, TieWords());
    IngestedIdsAreUnique(lim, embed, WordFiles(TieWords()));
    TieOn(IngestedChunks(lim, embed, WordFiles(TieWords())), pool);
  }

  lemma TieOrderRanks()
    ensures Ranking(TieOrder(), 63)
  {
  }

  lemma TieOn(chunks: seq<Chunk>, pool: nat)
    requires |chunks| == 63 && forall i | 0 <= i < 63 :: chunks[i] == WordChunk(TieWords(), i)
    requires UniqueIds(chunks) && pool > 61
    ensures !AgreesOn(chunks, TieQuery(), pool)
  {
    var q := TieQuery();
    TieHits(chunks, pool);
    TieOrderRanks();
    var vector, keyword := VectorHits(chunks, q, pool), KeywordHits(chunks, q, pool);
    HitsHaveUniqueIds(chunks, Overlap(q.tokens, q.weight, chunks, q.terms), q.order, pool);
    assert vector[0] == chunks[62] && vector[61] == chunks[61] == keyword[61];
    assert !Found(keyword, chunks[62].id);
    TieIsNoWin(vector, keyword);
  }
}
