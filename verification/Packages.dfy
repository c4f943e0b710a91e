/** From ingestion to the context package: when the budget is kept on every ingested store. */
module Packages {
  import opened Basics
  import opened Chunking
  import opened ContextBuilder
  import opened Hybrid
  import opened PlainTexts
  import opened Retrieval
  import opened Searching
  import opened Text
  import opened VectorStore
  import opened WordStores

  /** How a retrieval service is set up. */
  datatype Setup = Setup(topK: nat, pool: nat, hybrid: bool)

  function TermSet(terms: seq<string>): set<string> {
    set t | t in terms
  }

  /** What retrieval returns for a query on a store. */
  ghost function Retrieved(setup: Setup, chunks: seq<Chunk>, q: Query): seq<RetrievedChunk>
    requires Ranking(q.order, |chunks|)
  {
    BestFused(setup.topK, setup.hybrid, TermSet(q.terms), q.tokens, VectorHits(chunks, q, setup.pool),
              KeywordHits(chunks, q, setup.pool))
  }

  /** The package for this query on this store keeps to the budget. */
  ghost predicate KeepsBudget(setup: Setup, chunks: seq<Chunk>, q: Query, budget: int) {
    Ranking(q.order, |chunks|) ==> |PackageText(q.tokens, budget, Retrieved(setup, chunks, q))| <= budget
  }

  ghost predicate BudgetAlwaysKept(lim: Limits, embed: string -> Vector, setup: Setup, budget: int) {
    forall files, q :: KeepsBudget(setup, IngestedChunks(lim, embed, files), q, budget)
  }

  /** Whether retrieval can find anything. */
  predicate FindsNothing(setup: Setup) {
    setup.topK == 0 || setup.pool == 0
  }

  lemma NothingRetrieved(setup: Setup, chunks: seq<Chunk>, q: Query)
    requires Ranking(q.order, |chunks|) && FindsNothing(setup)
    ensures Retrieved(setup, chunks, q) == []
  {
    if setup.pool == 0 {
      assert VectorHits(chunks, q, 0) == [] && KeywordHits(chunks, q, 0) == [];
      NothingFused();
    }
  }

  lemma NoTermsNoHits(chunks: seq<Chunk>, q: Query, pool: nat)
    requires q.terms == []
    ensures KeywordHits(chunks, q, pool) == []
  {
    var score := Overlap(q.tokens, q.weight, chunks, []);
    forall c | c in chunks ensures score(c) == None {
      assert !Shares([], q.tokens(c.text));
    }
    NoMatches(chunks, score);
  }

  /** The only chunk of a store, found by its vector, is all that is retrieved. */
  lemma OneRetrieved(setup: Setup, chunk: Chunk, q: Query)
    requires !FindsNothing(setup) && q.terms == [] && q.order == [0]
    ensures |Retrieved(setup, [chunk], q)| == 1 && Retrieved(setup, [chunk], q)[0].chunk == chunk
  {
    NoTermsNoHits([chunk], q, setup.pool);
    assert VectorHits([chunk], q, setup.pool) == [chunk];
    OneFused(chunk);
    var c := Fused([chunk], [])[0];
    assert Fused([chunk], []) == [c];
    OneReranked(TermSet(q.terms), q.tokens, c);
  }

  function LongFile(length: int): File
    requires length > TOO_SMALL
  {
    Parsed("words.md", Document("D", "words.md", "Words"), LongWord(length))
  }

  /** A query without terms, for which the vectors rank the only chunk. */
  function PlainQuery(tokens: Tokenizer): Query {
    Query(tokens, x => x, [], [0])
  }

  /** The chunk of one long word fills the budget, and its header comes on top. */
  lemma BudgetIsExceeded(lim: Limits, embed: string -> Vector, setup: Setup, tokens: Tokenizer, budget: int)
    requires budget > TOO_SMALL && !FindsNothing(setup)
    ensures !KeepsBudget(setup, IngestedChunks(lim, embed, [LongFile(budget)]), PlainQuery(tokens), budget)
  {
    var chunk, q := Lengthy(LongWord(budget)), PlainQuery(tokens);
    OneWordStore(lim, embed, LongFile(budget));
    assert IngestedChunks(lim, embed, [LongFile(budget)]) == [chunk];
    OneRetrieved(setup, chunk, q);
    var found := Retrieved(setup, [chunk], q);
    assert found == [found[0]];
    LengthyIsLong(budget);
    BoundIsReachedByOne(tokens, budget, found[0]);
  }

  /**
   On every ingested store and for every query the package keeps to the budget,
   exactly if the budget is too small to render anything, or nothing is ever found.
   */
  lemma BudgetAlwaysKeptIff(lim: Limits, embed: string -> Vector, setup: Setup, budget: int)
    ensures BudgetAlwaysKept(lim, embed, setup, budget)
            <==> 0 <= budget && (budget <= TOO_SMALL || FindsNothing(setup))
  {
    if 0 <= budget && (budget <= TOO_SMALL || FindsNothing(setup)) {
      forall files: seq<File>, q: Query ensures KeepsBudget(setup, IngestedChunks(lim, embed, files), q, budget) {
        NothingRendered(setup, IngestedChunks(lim, embed, files), q, budget);
      }
    } else if budget < 0 {
      assert Ranking([], 0) && |IngestedChunks(lim, embed, [])| == 0;
      assert !KeepsBudget(setup, IngestedChunks(lim, embed, []), Query(LastLetter, x => x, [], []), budget);
    } else {
      BudgetIsExceeded(lim, embed, setup, LastLetter, budget);
    }
  }

  lemma NothingRendered(setup: Setup, chunks: seq<Chunk>, q: Query, budget: int)
    requires 0 <= budget && (budget <= TOO_SMALL || FindsNothing(setup))
    ensures KeepsBudget(setup, chunks, q, budget)
  {
    if Ranking(q.order, |chunks|) {
      if budget <= TOO_SMALL {
        NothingFits(q.tokens, budget, Retrieved(setup, chunks, q));
      } else {
        NothingRetrieved(setup, chunks, q);
        assert PackageText(q.tokens, budget, []) == "";
      }
    }
  }
}
