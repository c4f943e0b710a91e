/**
 The searches over the stored chunks: a lexical one that weighs the query's terms
 by how rare they are, and the picking of chunks by a ranking of their positions.
 */
module Searching {
  import opened Arithmetic
  import opened Basics
  import opened Chunking
  import opened Sorting

  /** Texts are tokenized by a pattern that is a parameter here. */
  type Tokenizer = string -> set<string>

  /** No two chunks of a list share an id. */
  ghost predicate UniqueIds(hits: seq<Chunk>) {
    forall i, j | 0 <= i < j < |hits| :: hits[i].id != hits[j].id
  }

  type Scored = (Chunk, real)

  function ScoreIn(hit: Scored): real {
    hit.1
  }

  /** The chunks that score at all, with their scores, in store order. */
  function Matches(chunks: seq<Chunk>, score: Chunk -> Option<real>): seq<Scored> {
    if chunks == [] then []
    else
      var last := chunks[|chunks| - 1];
      Matches(chunks[..|chunks| - 1], score) + if score(last).Some? then [(last, score(last).value)] else []
  }

  /** The best k matches, best first. */
  function TopHits(chunks: seq<Chunk>, score: Chunk -> Option<real>, k: nat): seq<Scored> {
    var sorted := SortDesc(ScoreIn, Matches(chunks, score));
    sorted[..Min(k, |sorted|)]
  }

  lemma {:induction false} MatchesFacts(chunks: seq<Chunk>, score: Chunk -> Option<real>)
    requires UniqueIds(chunks)
    ensures forall h :: h in Matches(chunks, score) <==> h.0 in chunks && score(h.0) == Some(h.1)
    ensures forall i, j | 0 <= i < j < |Matches(chunks, score)| ::
              Matches(chunks, score)[i].0.id != Matches(chunks, score)[j].0.id
  {
    if chunks != [] {
      var n := |chunks| - 1;
      MatchesFacts(chunks[..n], score);
      assert chunks == chunks[..n] + [chunks[n]];
      forall i | 0 <= i < |Matches(chunks[..n], score)|
        ensures Matches(chunks[..n], score)[i].0.id != chunks[n].id
      {
        assert Matches(chunks[..n], score)[i] in Matches(chunks[..n], score);
      }
    }
  }

  /**
   A search of a store with unique chunk ids returns each chunk at most once, with
   its own score; no chunk left out scores better than one returned.
   */
  lemma SearchFindsTheBest(chunks: seq<Chunk>, score: Chunk -> Option<real>, k: nat)
    requires UniqueIds(chunks)
    ensures var hits := TopHits(chunks, score, k);
            && (forall i, j | 0 <= i < j < |hits| :: hits[i].0.id != hits[j].0.id)
            && (forall h | h in hits :: h.0 in chunks && score(h.0) == Some(h.1))
            && (forall c, h | c in chunks && score(c).Some? && (c, score(c).value) !in hits && h in hits ::
                  score(c).value <= h.1)
  {
    var matches := Matches(chunks, score);
    var sorted := SortDesc(ScoreIn, matches);
    var n := Min(k, |sorted|);
    MatchesFacts(chunks, score);
    SortDescFacts(ScoreIn, matches);
    SortDescMembers(ScoreIn, matches);
    SortDescDistinct(ScoreIn, matches);
    HitsAreDistinct(matches, sorted, n);
    forall c, h | c in chunks && score(c).Some? && (c, score(c).value) !in sorted[..n] && h in sorted[..n]
      ensures score(c).value <= h.1
    {
      TopBeatsRest(ScoreIn, sorted, n, h, (c, score(c).value));
    }
  }

  lemma HitsAreDistinct(matches: seq<Scored>, sorted: seq<Scored>, n: nat)
    requires forall i, j | 0 <= i < j < |matches| :: matches[i].0.id != matches[j].0.id
    requires forall i, j | 0 <= i < j < |sorted| :: sorted[i] != sorted[j]
    requires n <= |sorted| && forall x :: x in sorted <==> x in matches
    ensures forall i, j | 0 <= i < j < n :: sorted[i].0.id != sorted[j].0.id
  {
    forall i, j | 0 <= i < j < n ensures sorted[i].0.id != sorted[j].0.id {
      assert sorted[i] in sorted && sorted[j] in sorted;
      SameIdSameMatch(matches, sorted[i], sorted[j]);
    }
  }

  lemma SameIdSameMatch(matches: seq<Scored>, a: Scored, b: Scored)
    requires forall i, j | 0 <= i < j < |matches| :: matches[i].0.id != matches[j].0.id
    requires a in matches && b in matches && a != b
    ensures a.0.id != b.0.id
  {
  }

  // -------------------------------------------------------------- rare terms

  /** In how many chunks a term occurs. */
  function Frequency(tokens: Tokenizer, chunks: seq<Chunk>, term: string): nat {
    if chunks == [] then 0
    else
      Frequency(tokens, chunks[..|chunks| - 1], term)
      + if term in tokens(chunks[|chunks| - 1].text) then 1 else 0
  }

  /** What a term is worth: a growing function (`log1p`) of its rarity. */
  function Worth(tokens: Tokenizer, weight: real -> real, chunks: seq<Chunk>, term: string): real {
    var n := Frequency(tokens, chunks, term);
    if n == 0 then 0.0 else weight(|chunks| as real / n as real)
  }

  /** The sum of what the terms are worth that occur among the tokens. */
  function WorthOf(terms: seq<string>, present: set<string>, worth: string -> real): real {
    if terms == [] then 0.0
    else
      var last := terms[|terms| - 1];
      WorthOf(terms[..|terms| - 1], present, worth) + if last in present then worth(last) else 0.0
  }

  predicate Shares(terms: seq<string>, present: set<string>) {
    exists i :: 0 <= i < |terms| && terms[i] in present
  }

  /** The score of a chunk for a query: none unless they share a term. */
  function Overlap(tokens: Tokenizer, weight: real -> real, chunks: seq<Chunk>, query: seq<string>)
    : Chunk -> Option<real>
  {
    (c: Chunk) =>
      if Shares(query, tokens(c.text))
      then Some(WorthOf(query, tokens(c.text), (t: string) => Worth(tokens, weight, chunks, t)))
      else None
  }

  function CountOf(frequency: map<string, nat>, term: string): nat {
    if term in frequency then frequency[term] else 0
  }

  /** A chunk's tokens are added to the counts of the query's terms. */
  method CountTerms(query: seq<string>, present: set<string>, frequency0: map<string, nat>)
    returns (frequency: map<string, nat>)
    requires forall i, j | 0 <= i < j < |query| :: query[i] != query[j]
    ensures forall t | t in query :: CountOf(frequency, t) == CountOf(frequency0, t) + if t in present then 1 else 0
  {
    frequency := frequency0;
    for j := 0 to |query|
      invariant forall i | 0 <= i < |query| ::
                  CountOf(frequency, query[i])
                  == CountOf(frequency0, query[i]) + if i < j && query[i] in present then 1 else 0
    {
      if query[j] in present {
        frequency := frequency[query[j] := CountOf(frequency, query[j]) + 1];
      }
    }
  }

  method CountAll(tokens: Tokenizer, chunks: seq<Chunk>, query: seq<string>) returns (frequency: map<string, nat>)
    requires forall i, j | 0 <= i < j < |query| :: query[i] != query[j]
    ensures forall t | t in query :: CountOf(frequency, t) == Frequency(tokens, chunks, t)
  {
    frequency := map[];
    for i := 0 to |chunks|
      invariant forall t | t in query :: CountOf(frequency, t) == Frequency(tokens, chunks[..i], t)
    {
      assert chunks[..i + 1][..i] == chunks[..i];
      frequency := CountTerms(query, tokens(chunks[i].text), frequency);
    }
    assert chunks[..|chunks|] == chunks;
  }

  lemma {:induction false} OccursSomewhere(tokens: Tokenizer, chunks: seq<Chunk>, i: nat, term: string)
    requires i < |chunks| && term in tokens(chunks[i].text)
    ensures Frequency(tokens, chunks, term) > 0
  {
    if i < |chunks| - 1 {
      OccursSomewhere(tokens, chunks[..|chunks| - 1], i, term);
    }
  }

  /** The worth of one chunk, from the counts. */
  method Score(tokens: Tokenizer, weight: real -> real, chunks: seq<Chunk>, query: seq<string>,
               frequency: map<string, nat>, i: nat)
    returns (score: real)
    requires i < |chunks| && forall t | t in query :: CountOf(frequency, t) == Frequency(tokens, chunks, t)
    ensures score == WorthOf(query, tokens(chunks[i].text), (t: string) => Worth(tokens, weight, chunks, t))
  {
    var present := tokens(chunks[i].text);
    ghost var worth := (t: string) => Worth(tokens, weight, chunks, t);
    score := 0.0;
    for j := 0 to |query|
      invariant score == WorthOf(query[..j], present, worth)
    {
      assert query[..j + 1][..j] == query[..j];
      if query[j] in present {
        OccursSomewhere(tokens, chunks, i, query[j]);
        assert query[j] in query;
        score := score + weight(|chunks| as real / CountOf(frequency, query[j]) as real);
      }
    }
    assert query[..|query|] == query;
  }

  /** Lexical search; the query's terms are distinct and come in any order. */
  method KeywordSearch(tokens: Tokenizer, weight: real -> real, chunks: seq<Chunk>, query: seq<string>, k: nat)
    returns (hits: seq<Scored>)
    requires forall i, j | 0 <= i < j < |query| :: query[i] != query[j]
    ensures hits == TopHits(chunks, Overlap(tokens, weight, chunks, query), k)
  {
    ghost var overlap := Overlap(tokens, weight, chunks, query);
    if query == [] || chunks == [] {
      forall c | c in chunks ensures overlap(c) == None {
        assert !Shares(query, tokens(c.text));
      }
      NoMatches(chunks, overlap);
      return [];
    }
    var frequency := CountAll(tokens, chunks, query);
    var scored: seq<Scored> := [];
    for i := 0 to |chunks|
      invariant scored == Matches(chunks[..i], overlap)
    {
      assert chunks[..i + 1][..i] == chunks[..i];
      if Shares(query, tokens(chunks[i].text)) {
        var score := Score(tokens, weight, chunks, query, frequency, i);
        scored := scored + [(chunks[i], score)];
      }
    }
    assert chunks[..|chunks|] == chunks;
    var sorted := SortDesc(ScoreIn, scored);
    hits := sorted[..Min(k, |sorted|)];
  }

  lemma {:induction false} NoMatches(chunks: seq<Chunk>, score: Chunk -> Option<real>)
    requires forall c | c in chunks :: score(c) == None
    ensures Matches(chunks, score) == []
  {
    if chunks != [] {
      NoMatches(chunks[..|chunks| - 1], score);
      assert chunks[|chunks| - 1] in chunks;
    }
  }

  /** Of two chunks, the one with all the query's terms of the other and one more scores better. */
  lemma CoveringMoreScoresMore(tokens: Tokenizer, weight: real -> real, chunks: seq<Chunk>, query: seq<string>,
                               a: Chunk, b: Chunk, extra: string)
    requires (forall x | x > 0.0 :: weight(x) > 0.0) && a in chunks
    requires forall t | t in query && t in tokens(b.text) :: t in tokens(a.text)
    requires extra in query && extra in tokens(a.text) && extra !in tokens(b.text)
    ensures var score := Overlap(tokens, weight, chunks, query);
            score(a).Some? && (score(b).Some? ==> score(b).value < score(a).value)
  {
    var worth := (t: string) => Worth(tokens, weight, chunks, t);
    var i: nat :| i < |chunks| && chunks[i] == a;
    forall t | t in tokens(a.text) ensures worth(t) > 0.0 {
      OccursSomewhere(tokens, chunks, i, t);
      Rarity(|chunks|, Frequency(tokens, chunks, t));
    }
    MorePresentWorthMore(query, tokens(a.text), tokens(b.text), worth);
  }

  /** A chunk's score is the sum of what the query's terms in it are worth, and none without one. */
  lemma {:induction false} ScoresAddUp(tokens: Tokenizer, weight: real -> real, chunks: seq<Chunk>,
                                       query: seq<string>, term: string, c: Chunk)
    ensures var score := Overlap(tokens, weight, chunks, query)(c);
            var more := Overlap(tokens, weight, chunks, query + [term])(c);
            var worth := Worth(tokens, weight, chunks, term);
            if term !in tokens(c.text) then more == score
            else more == Some(worth + if score.Some? then score.value else 0.0)
    ensures Overlap(tokens, weight, chunks, [])(c) == None
  {
    var present, value := tokens(c.text), (t: string) => Worth(tokens, weight, chunks, t);
    var more := query + [term];
    assert more[..|query|] == query && more[|query|] == term;
    assert Shares(more, present) <==> Shares(query, present) || term in present by {
      if i :| 0 <= i < |query| && query[i] in present {
        assert more[i] in present;
      }
      if i :| 0 <= i < |more| && more[i] in present {
        assert i < |query| ==> query[i] in present;
      }
    }
    if !Shares(query, present) {
      NothingSharedIsWorthless(query, present, value);
    }
  }

  lemma {:induction false} NothingSharedIsWorthless(terms: seq<string>, present: set<string>, worth: string -> real)
    requires !Shares(terms, present)
    ensures WorthOf(terms, present, worth) == 0.0
  {
    if terms != [] {
      var n := |terms| - 1;
      assert forall i | 0 <= i < n :: terms[..n][i] == terms[i];
      NothingSharedIsWorthless(terms[..n], present, worth);
    }
  }

  lemma {:induction false} FrequencyCounts(tokens: Tokenizer, chunks: seq<Chunk>, term: string)
    ensures Frequency(tokens, chunks, term) == |set i | 0 <= i < |chunks| && term in tokens(chunks[i].text)|
  {
    if chunks != [] {
      var n := |chunks| - 1;
      FrequencyCounts(tokens, chunks[..n], term);
      var before := set i | 0 <= i < n && term in tokens(chunks[..n][i].text);
      var now := set i | 0 <= i < |chunks| && term in tokens(chunks[i].text);
      assert now == before + if term in tokens(chunks[n].text) then {n} else {};
    }
  }

  /** A term that fewer chunks have is worth more, if rarity weighs. */
  lemma RarerIsWorthMore(tokens: Tokenizer, weight: real -> real, chunks: seq<Chunk>, rare: string, common: string)
    requires forall x, y | 0.0 < x < y :: weight(x) < weight(y)
    requires var having := (t: string) => set i | 0 <= i < |chunks| && t in tokens(chunks[i].text);
             0 < |having(rare)| < |having(common)|
    ensures Worth(tokens, weight, chunks, rare) > Worth(tokens, weight, chunks, common)
  {
    FrequencyCounts(tokens, chunks, rare);
    FrequencyCounts(tokens, chunks, common);
    var n, m := Frequency(tokens, chunks, rare), Frequency(tokens, chunks, common);
    assert chunks != [];
    SmallerPart(|chunks| as real, n as real, m as real);
  }

  lemma SmallerPart(x: real, n: real, m: real)
    requires x > 0.0 && 0.0 < n < m
    ensures 0.0 < x / m < x / n
  {
    var p, q := x / m, x / n;
    assert p * m == x && q * n == x;
    assert p > 0.0;
    assert p * (m - n) > 0.0;
    assert (q - p) * n == p * (m - n);
    ProductSign(q - p, n);
  }

  predicate Inverts(x: real, y: real) {
    x * y == 1.0
  }

  /** The worth of a term depends on its share of the chunks alone. */
  lemma WorthIsOfTheShare(tokens: Tokenizer, weight: real -> real, chunks: seq<Chunk>, term: string)
    requires exists i :: 0 <= i < |chunks| && term in tokens(chunks[i].text)
    ensures var share := |set i | 0 <= i < |chunks| && term in tokens(chunks[i].text)| as real / |chunks| as real;
            exists x :: Inverts(x, share) && Worth(tokens, weight, chunks, term) == weight(x)
  {
    FrequencyCounts(tokens, chunks, term);
    var i :| 0 <= i < |chunks| && term in tokens(chunks[i].text);
    OccursSomewhere(tokens, chunks, i, term);
    var n, m := Frequency(tokens, chunks, term) as real, |chunks| as real;
    var x := m / n;
    Inverse(m, n);
    assert Inverts(x, n / m) && Worth(tokens, weight, chunks, term) == weight(x);
  }

  lemma Inverse(m: real, n: real)
    requires m > 0.0 && n > 0.0
    ensures m / n * (n / m) == 1.0
  {
    var p, q := m / n, n / m;
    assert p * n == m && q * m == n;
    assert p * q * m == p * (q * m);
    assert (p * q - 1.0) * m == 0.0;
  }

  lemma Rarity(total: nat, n: nat)
    requires total > 0 && n > 0
    ensures total as real / n as real > 0.0
  {
  }

  lemma {:induction false} MorePresentWorthMore(terms: seq<string>, a: set<string>, b: set<string>,
                                                worth: string -> real)
    requires forall t | t in terms && t in b :: t in a
    requires forall t | t in a :: worth(t) > 0.0
    ensures WorthOf(terms, b, worth) <= WorthOf(terms, a, worth)
    ensures (exists t :: t in terms && t in a && t !in b) ==> WorthOf(terms, b, worth) < WorthOf(terms, a, worth)
  {
    if terms != [] {
      var n := |terms| - 1;
      MorePresentWorthMore(terms[..n], a, b, worth);
      assert terms == terms[..n] + [terms[n]];
    }
  }

  /** The order in which the query's terms are listed does not matter. */
  lemma {:induction false} OrderOfTermsIsIrrelevant(p: seq<string>, q: seq<string>, present: set<string>,
                                                   worth: string -> real)
    requires multiset(p) == multiset(q)
    ensures WorthOf(p, present, worth) == WorthOf(q, present, worth)
  {
    if p == [] {
      assert |q| == |multiset(q)| == 0;
    } else {
      var n := |p| - 1;
      assert p[n] in multiset(q);
      var i: nat :| i < |q| && q[i] == p[n];
      WithoutOne(p, q, n, i);
      OrderOfTermsIsIrrelevant(p[..n], q[..i] + q[i + 1..], present, worth);
      WorthWithout(q, i, present, worth);
    }
  }

  lemma WithoutOne(p: seq<string>, q: seq<string>, n: nat, i: nat)
    requires multiset(p) == multiset(q) && |p| == n + 1 && i < |q| && q[i] == p[n]
    ensures multiset(p[..n]) == multiset(q[..i] + q[i + 1..])
  {
    assert p == p[..n] + [p[n]] && q == q[..i] + [q[i]] + q[i + 1..];
    assert multiset(q[..i] + q[i + 1..]) == multiset(q) - multiset{q[i]};
  }

  lemma {:induction false} WorthWithout(q: seq<string>, i: nat, present: set<string>, worth: string -> real)
    requires i < |q|
    ensures WorthOf(q, present, worth)
            == WorthOf(q[..i] + q[i + 1..], present, worth) + if q[i] in present then worth(q[i]) else 0.0
  {
    var n := |q| - 1;
    if i < n {
      WorthWithout(q[..n], i, present, worth);
      assert (q[..i] + q[i + 1..])[..n - 1] == q[..n][..i] + q[..n][i + 1..];
    } else {
      assert q[..i] + q[i + 1..] == q[..n];
    }
  }

  // --------------------------------------------------------- hits of a search

  /** The chunks of scored hits. */
  function ChunksIn(hits: seq<Scored>): (chunks: seq<Chunk>)
    ensures |chunks| == |hits| && forall i | 0 <= i < |hits| :: chunks[i] == hits[i].0
  {
    seq(|hits|, i requires 0 <= i < |hits| => hits[i].0)
  }

  /** Positions of stored chunks, each at most once: what ranking them all gives. */
  ghost predicate Ranking(order: seq<nat>, n: nat) {
    (forall i | 0 <= i < |order| :: order[i] < n) && forall i, j | 0 <= i < j < |order| :: order[i] != order[j]
  }

  /** Vector search: the chunks at the first k positions of a ranking. */
  function Picked(chunks: seq<Chunk>, order: seq<nat>, k: nat): (hits: seq<Chunk>)
    requires forall i | 0 <= i < |order| :: order[i] < |chunks|
    ensures |hits| == Min(k, |order|) && forall i | 0 <= i < |hits| :: hits[i] == chunks[order[i]]
  {
    seq(Min(k, |order|), i requires 0 <= i < Min(k, |order|) => chunks[order[i]])
  }

  /** Over chunks with unique ids, no search finds an id twice. */
  lemma HitsHaveUniqueIds(chunks: seq<Chunk>, score: Chunk -> Option<real>, order: seq<nat>, k: nat)
    requires UniqueIds(chunks) && Ranking(order, |chunks|)
    ensures UniqueIds(ChunksIn(TopHits(chunks, score, k))) && |TopHits(chunks, score, k)| <= k
    ensures UniqueIds(Picked(chunks, order, k))
  {
    SearchFindsTheBest(chunks, score, k);
    forall i, j | 0 <= i < j < |Picked(chunks, order, k)|
      ensures Picked(chunks, order, k)[i].id != Picked(chunks, order, k)[j].id
    {
      if order[i] < order[j] {
        assert chunks[order[i]].id != chunks[order[j]].id;
      }
    }
  }
}
