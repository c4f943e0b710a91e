/**
 Hybrid retrieval: the hits of two searches are fused by reciprocal rank, reranked
 by a blend of fused score and query coverage, and cut to the top few.
 */
module Retrieval {
  import opened Basics
  import opened Chunking
  import opened Rounding
  import opened Searching
  import opened Sorting

  datatype Channel = VectorChannel | KeywordChannel

  datatype Candidate = Candidate(chunk: Chunk, score: real, channels: seq<Channel>)

  datatype RetrievedChunk = RetrievedChunk(chunk: Chunk, score: real, channels: seq<Channel>)

  const RRF_K := 60

  function Contribution(rank: nat): (c: real)
    ensures c > 0.0
  {
    1.0 / (RRF_K + rank + 1) as real
  }

  // ------------------------------------------------------------------- fusion

  /** A hit of one of the searches, at its rank. */
  datatype Hit = Hit(channel: Channel, rank: nat, chunk: Chunk)

  function Ranked(channel: Channel, hits: seq<Chunk>): (ranked: seq<Hit>)
    ensures |ranked| == |hits|
    ensures forall i | 0 <= i < |hits| :: ranked[i] == Hit(channel, i, hits[i])
  {
    seq(|hits|, i requires 0 <= i < |hits| => Hit(channel, i, hits[i]))
  }

  /** All hits in the order fusion meets them. */
  function Stream(vector: seq<Chunk>, keyword: seq<Chunk>): seq<Hit> {
    Ranked(VectorChannel, vector) + Ranked(KeywordChannel, keyword)
  }

  /** The fusion table, with its ids in order of first insertion. */
  datatype Table = Table(order: seq<ChunkId>, entries: map<ChunkId, Candidate>)

  const EMPTY: Table := Table([], map[])

  function Absorbed(t: Table, hit: Hit): Table {
    var id := hit.chunk.id;
    if id in t.entries then
      var c := t.entries[id];
      t.(entries := t.entries[id := Candidate(c.chunk, c.score + Contribution(hit.rank), c.channels + [hit.channel])])
    else
      Table(t.order + [id], t.entries[id := Candidate(hit.chunk, Contribution(hit.rank), [hit.channel])])
  }

  function AbsorbedAll(t: Table, hits: seq<Hit>): Table {
    if hits == [] then t else Absorbed(AbsorbedAll(t, hits[..|hits| - 1]), hits[|hits| - 1])
  }

  ghost predicate WellKept(t: Table) {
    && (forall id :: id in t.order <==> id in t.entries)
    && (forall i, j | 0 <= i < j < |t.order| :: t.order[i] != t.order[j])
    && (forall id | id in t.entries :: t.entries[id].chunk.id == id)
  }

  function Values(t: Table): (vs: seq<Candidate>)
    requires forall id | id in t.order :: id in t.entries
    ensures |vs| == |t.order|
    ensures forall i | 0 <= i < |vs| :: vs[i] == t.entries[t.order[i]]
  {
    seq(|t.order|, i requires 0 <= i < |t.order| => t.entries[t.order[i]])
  }

  lemma {:induction false} AbsorbedAllWellKept(t: Table, hits: seq<Hit>)
    requires WellKept(t)
    ensures WellKept(AbsorbedAll(t, hits))
  {
    if hits != [] {
      AbsorbedAllWellKept(t, hits[..|hits| - 1]);
    }
  }

  function ScoreOf(c: Candidate): real {
    c.score
  }

  ghost function Fused(vector: seq<Chunk>, keyword: seq<Chunk>): seq<Candidate> {
    AbsorbedAllWellKept(EMPTY, Stream(vector, keyword));
    SortDesc(ScoreOf, Values(AbsorbedAll(EMPTY, Stream(vector, keyword))))
  }

  lemma {:induction false} AbsorbedAllAppend(t: Table, a: seq<Hit>, b: seq<Hit>)
    ensures AbsorbedAll(t, a + b) == AbsorbedAll(AbsorbedAll(t, a), b)
  {
    if b == [] {
      assert a + b == a;
    } else {
      assert (a + b)[..|a + b| - 1] == a + b[..|b| - 1];
      AbsorbedAllAppend(t, a, b[..|b| - 1]);
    }
  }

  /** Reciprocal rank fusion across the two channels. */
  method Fuse(vectorHits: seq<Chunk>, keywordHits: seq<Chunk>) returns (candidates: seq<Candidate>)
    ensures candidates == Fused(vectorHits, keywordHits)
  {
    var order: seq<ChunkId>, fused: map<ChunkId, Candidate> := [], map[];
    order, fused := FuseChannel(VectorChannel, vectorHits, order, fused);
    order, fused := FuseChannel(KeywordChannel, keywordHits, order, fused);
    AbsorbedAllAppend(EMPTY, Ranked(VectorChannel, vectorHits), Ranked(KeywordChannel, keywordHits));
    AbsorbedAllWellKept(EMPTY, Stream(vectorHits, keywordHits));
    candidates := SortDesc(ScoreOf, Values(Table(order, fused)));
  }

  /** One channel of the fusion loop. */
  method FuseChannel(channel: Channel, hits: seq<Chunk>, order0: seq<ChunkId>, fused0: map<ChunkId, Candidate>)
    returns (order: seq<ChunkId>, fused: map<ChunkId, Candidate>)
    ensures Table(order, fused) == AbsorbedAll(Table(order0, fused0), Ranked(channel, hits))
  {
    order, fused := order0, fused0;
    ghost var ranked := Ranked(channel, hits);
    for rank := 0 to |hits|
      invariant Table(order, fused) == AbsorbedAll(Table(order0, fused0), ranked[..rank])
    {
      assert ranked[..rank + 1][..rank] == ranked[..rank];
      var chunk := hits[rank];
      var contribution := Contribution(rank);
      if chunk.id in fused {
        var c := fused[chunk.id];
        fused := fused[chunk.id := Candidate(c.chunk, c.score + contribution, c.channels + [channel])];
      } else {
        order := order + [chunk.id];
        fused := fused[chunk.id := Candidate(chunk, contribution, [channel])];
      }
    }
    assert ranked[..|hits|] == ranked;
  }

  // ------------------------------------------------- what fusion computes

  /** What a list of hits contributes to a chunk. */
  function Share(hits: seq<Hit>, id: ChunkId): real {
    if hits == [] then 0.0
    else
      var last := hits[|hits| - 1];
      Share(hits[..|hits| - 1], id) + if last.chunk.id == id then Contribution(last.rank) else 0.0
  }

  function ChannelsOf(hits: seq<Hit>, id: ChunkId): seq<Channel> {
    if hits == [] then []
    else
      var last := hits[|hits| - 1];
      ChannelsOf(hits[..|hits| - 1], id) + if last.chunk.id == id then [last.channel] else []
  }

  predicate Met(hits: seq<Hit>, id: ChunkId) {
    exists i :: 0 <= i < |hits| && hits[i].chunk.id == id
  }

  /** The table after any hits: met ids, each with its whole score and channels. */
  lemma {:induction false} TableMeaning(hits: seq<Hit>, id: ChunkId)
    ensures var t := AbsorbedAll(EMPTY, hits);
            && (id in t.entries <==> Met(hits, id))
            && (id in t.entries ==>
                  t.entries[id].score == Share(hits, id) && t.entries[id].channels == ChannelsOf(hits, id))
            && (id !in t.entries ==> Share(hits, id) == 0.0 && ChannelsOf(hits, id) == [])
  {
    if hits != [] {
      var n := |hits| - 1;
      TableMeaning(hits[..n], id);
      if hits[n].chunk.id == id {
        assert Met(hits, id);
      } else if Met(hits, id) {
        var i :| 0 <= i < |hits| && hits[i].chunk.id == id;
        assert hits[..n][i].chunk.id == id;
      }
    }
  }

  lemma {:induction false} ShareAppend(a: seq<Hit>, b: seq<Hit>, id: ChunkId)
    ensures Share(a + b, id) == Share(a, id) + Share(b, id)
    ensures ChannelsOf(a + b, id) == ChannelsOf(a, id) + ChannelsOf(b, id)
  {
    if b == [] {
      assert a + b == a;
    } else {
      assert (a + b)[..|a + b| - 1] == a + b[..|b| - 1];
      ShareAppend(a, b[..|b| - 1], id);
    }
  }

  ghost predicate Found(hits: seq<Chunk>, id: ChunkId) {
    exists i :: 0 <= i < |hits| && hits[i].id == id
  }

  lemma LastShares(channel: Channel, hits: seq<Chunk>, id: ChunkId)
    requires hits != []
    ensures var n := |hits| - 1;
            var before, now := Ranked(channel, hits[..n]), Ranked(channel, hits);
            && Share(now, id) == Share(before, id) + (if hits[n].id == id then Contribution(n) else 0.0)
            && ChannelsOf(now, id) == ChannelsOf(before, id) + if hits[n].id == id then [channel] else []
  {
    assert Ranked(channel, hits)[..|hits| - 1] == Ranked(channel, hits[..|hits| - 1]);
  }

  lemma {:induction false} NotShared(channel: Channel, hits: seq<Chunk>, id: ChunkId)
    requires forall r | 0 <= r < |hits| :: hits[r].id != id
    ensures Share(Ranked(channel, hits), id) == 0.0 && ChannelsOf(Ranked(channel, hits), id) == []
  {
    if hits != [] {
      hide Ranked, Share, ChannelsOf;
      NotShared(channel, hits[..|hits| - 1], id);
      LastShares(channel, hits, id);
    }
  }

  lemma {:induction false} SharedOnce(channel: Channel, hits: seq<Chunk>, id: ChunkId, r: nat)
    requires UniqueIds(hits) && r < |hits| && hits[r].id == id
    ensures Share(Ranked(channel, hits), id) == Contribution(r)
    ensures ChannelsOf(Ranked(channel, hits), id) == [channel]
  {
    hide Ranked, Share, ChannelsOf, Contribution;
    var n := |hits| - 1;
    LastShares(channel, hits, id);
    if r < n {
      SharedOnce(channel, hits[..n], id, r);
    } else {
      NotShared(channel, hits[..n], id);
    }
  }

  /** In a list without repetitions a chunk gets the contribution of its one rank. */
  lemma ShareInList(channel: Channel, hits: seq<Chunk>, id: ChunkId)
    requires UniqueIds(hits)
    ensures forall r | 0 <= r < |hits| && hits[r].id == id ::
              && Share(Ranked(channel, hits), id) == Contribution(r)
              && ChannelsOf(Ranked(channel, hits), id) == [channel]
    ensures !Found(hits, id) ==> Share(Ranked(channel, hits), id) == 0.0 && ChannelsOf(Ranked(channel, hits), id) == []
  {
    forall r | 0 <= r < |hits| && hits[r].id == id
      ensures Share(Ranked(channel, hits), id) == Contribution(r)
      ensures ChannelsOf(Ranked(channel, hits), id) == [channel]
    {
      SharedOnce(channel, hits, id, r);
    }
    if !Found(hits, id) {
      NotShared(channel, hits, id);
    }
  }

  // ------------------------------------------------------------ main theorems

  function FusedScore(vector: seq<Chunk>, keyword: seq<Chunk>, id: ChunkId): real {
    Share(Ranked(VectorChannel, vector), id) + Share(Ranked(KeywordChannel, keyword), id)
  }

  ghost function TableFor(vector: seq<Chunk>, keyword: seq<Chunk>): Table {
    AbsorbedAll(EMPTY, Stream(vector, keyword))
  }

  /** The candidates are the entries of the fusion table. */
  lemma FusedMember(vector: seq<Chunk>, keyword: seq<Chunk>, c: Candidate)
    ensures var t := TableFor(vector, keyword);
            c in Fused(vector, keyword) <==> c.chunk.id in t.entries && t.entries[c.chunk.id] == c
  {
    var t := TableFor(vector, keyword);
    AbsorbedAllWellKept(EMPTY, Stream(vector, keyword));
    SortDescMembers(ScoreOf, Values(t));
    if c in Values(t) {
      var i :| 0 <= i < |Values(t)| && Values(t)[i] == c;
      assert t.order[i] in t.entries;
    }
    if c.chunk.id in t.entries && t.entries[c.chunk.id] == c {
      var i :| 0 <= i < |t.order| && t.order[i] == c.chunk.id;
      assert Values(t)[i] == c;
    }
  }

  lemma EntryMeaning(vector: seq<Chunk>, keyword: seq<Chunk>, id: ChunkId)
    ensures var t := TableFor(vector, keyword);
            && (id in t.entries <==> Found(vector, id) || Found(keyword, id))
            && (id in t.entries ==>
                  && t.entries[id].score == FusedScore(vector, keyword, id)
                  && t.entries[id].channels == ChannelsOf(Ranked(VectorChannel, vector), id)
                                               + ChannelsOf(Ranked(KeywordChannel, keyword), id))
  {
    TableMeaning(Stream(vector, keyword), id);
    ShareAppend(Ranked(VectorChannel, vector), Ranked(KeywordChannel, keyword), id);
    MetIffFound(vector, keyword, id);
  }

  /** A candidate's score and channels are those of its ranks in the two lists. */
  lemma CandidateMeaning(vector: seq<Chunk>, keyword: seq<Chunk>, c: Candidate)
    requires c in Fused(vector, keyword)
    ensures c.score == FusedScore(vector, keyword, c.chunk.id)
    ensures c.channels == ChannelsOf(Ranked(VectorChannel, vector), c.chunk.id)
                          + ChannelsOf(Ranked(KeywordChannel, keyword), c.chunk.id)
    ensures Found(vector, c.chunk.id) || Found(keyword, c.chunk.id)
  {
    FusedMember(vector, keyword, c);
    EntryMeaning(vector, keyword, c.chunk.id);
  }

  lemma MetIffFound(vector: seq<Chunk>, keyword: seq<Chunk>, id: ChunkId)
    ensures Met(Stream(vector, keyword), id) <==> Found(vector, id) || Found(keyword, id)
  {
    var stream := Stream(vector, keyword);
    if Found(vector, id) {
      var i :| 0 <= i < |vector| && vector[i].id == id;
      assert stream[i].chunk.id == id;
    }
    if Found(keyword, id) {
      var i :| 0 <= i < |keyword| && keyword[i].id == id;
      assert stream[|vector| + i].chunk.id == id;
    }
    if Met(stream, id) {
      var i :| 0 <= i < |stream| && stream[i].chunk.id == id;
      if i < |vector| {
        assert vector[i].id == id;
      } else {
        assert keyword[i - |vector|].id == id;
      }
    }
  }

  /** Every chunk found is a candidate, and only those. */
  lemma FusionIsComplete(vector: seq<Chunk>, keyword: seq<Chunk>, id: ChunkId)
    ensures (exists c :: c in Fused(vector, keyword) && c.chunk.id == id)
            <==> Found(vector, id) || Found(keyword, id)
  {
    EntryMeaning(vector, keyword, id);
    AbsorbedAllWellKept(EMPTY, Stream(vector, keyword));
    if id in TableFor(vector, keyword).entries {
      FusedMember(vector, keyword, TableFor(vector, keyword).entries[id]);
    }
    forall c | c in Fused(vector, keyword) && c.chunk.id == id ensures Found(vector, id) || Found(keyword, id) {
      FusedMember(vector, keyword, c);
    }
  }

  /** No chunk is a candidate twice. */
  lemma CandidatesAreDistinct(vector: seq<Chunk>, keyword: seq<Chunk>, i: nat, j: nat)
    requires i < j < |Fused(vector, keyword)|
    ensures Fused(vector, keyword)[i].chunk.id != Fused(vector, keyword)[j].chunk.id
  {
    var fused := Fused(vector, keyword);
    assert fused[i] in fused && fused[j] in fused;
    FusedMember(vector, keyword, fused[i]);
    FusedMember(vector, keyword, fused[j]);
    AbsorbedAllWellKept(EMPTY, Stream(vector, keyword));
    ValuesDistinct(TableFor(vector, keyword));
    SortDescDistinct(ScoreOf, Values(TableFor(vector, keyword)));
    assert fused[i] != fused[j] by {
      assert fused == SortDesc(ScoreOf, Values(TableFor(vector, keyword)));
    }
  }

  lemma ValuesDistinct(t: Table)
    requires WellKept(t)
    ensures forall i, j | 0 <= i < j < |Values(t)| :: Values(t)[i] != Values(t)[j]
  {
    forall i, j | 0 <= i < j < |Values(t)| ensures Values(t)[i] != Values(t)[j] {
      assert t.order[i] in t.entries && t.order[j] in t.entries;
    }
  }

  lemma ContributionBounds(rank: nat, pool: nat)
    requires rank < pool
    ensures 1.0 / (60 + pool) as real <= Contribution(rank) <= 1.0 / 61.0
  {
    Reciprocal((60 + rank + 1) as real, (60 + pool) as real);
    Reciprocal(61.0, (60 + rank + 1) as real);
  }

  lemma Reciprocal(x: real, y: real)
    requires 0.0 < x <= y
    ensures 1.0 / y <= 1.0 / x
  {
  }

  /** The smallest score of a chunk found twice, the largest of one found once. */
  lemma ScoresByChannels(vector: seq<Chunk>, keyword: seq<Chunk>, pool: nat, id: ChunkId)
    requires UniqueIds(vector) && UniqueIds(keyword) && |vector| <= pool && |keyword| <= pool
    ensures Found(vector, id) && Found(keyword, id) ==> FusedScore(vector, keyword, id) >= 2.0 / (60 + pool) as real
    ensures !(Found(vector, id) && Found(keyword, id)) ==> FusedScore(vector, keyword, id) <= 1.0 / 61.0
  {
    ShareInList(VectorChannel, vector, id);
    ShareInList(KeywordChannel, keyword, id);
    if Found(vector, id) {
      var r :| 0 <= r < |vector| && vector[r].id == id;
      ContributionBounds(r, pool);
    }
    if Found(keyword, id) {
      var r :| 0 <= r < |keyword| && keyword[r].id == id;
      ContributionBounds(r, pool);
    }
    TwoOver((60 + pool) as real);
  }

  lemma TwoOver(x: real)
    requires x > 0.0
    ensures 2.0 / x == 1.0 / x + 1.0 / x
    ensures x <= 121.0 ==> 2.0 / x > 1.0 / 61.0
  {
    if x <= 121.0 {
      Reciprocal(x, 121.0);
    }
  }

  /**
   Up to a pool of 61, a chunk both searches found outscores, and is placed
   before, every chunk that only one of them found.
   */
  lemma BothChannelsWin(vector: seq<Chunk>, keyword: seq<Chunk>, pool: nat, i: nat, j: nat)
    requires UniqueIds(vector) && UniqueIds(keyword) && |vector| <= pool && |keyword| <= pool && pool <= 61
    requires i < |Fused(vector, keyword)| && j < |Fused(vector, keyword)|
    requires var id := Fused(vector, keyword)[i].chunk.id; Found(vector, id) && Found(keyword, id)
    requires var id := Fused(vector, keyword)[j].chunk.id; !(Found(vector, id) && Found(keyword, id))
    ensures Fused(vector, keyword)[i].score > Fused(vector, keyword)[j].score
    ensures i < j
  {
    var fused := Fused(vector, keyword);
    CandidateMeaning(vector, keyword, fused[i]);
    CandidateMeaning(vector, keyword, fused[j]);
    ScoresByChannels(vector, keyword, pool, fused[i].chunk.id);
    ScoresByChannels(vector, keyword, pool, fused[j].chunk.id);
    TwoOver((60 + pool) as real);
    AbsorbedAllWellKept(EMPTY, Stream(vector, keyword));
    LargerComesFirst(ScoreOf, Values(AbsorbedAll(EMPTY, Stream(vector, keyword))), i, j);
  }

  lemma NothingFused()
    ensures Fused([], []) == []
  {
    assert Stream([], []) == [];
  }

  /** A single hit makes a single candidate. */
  lemma OneFused(chunk: Chunk)
    ensures |Fused([chunk], [])| == 1 && Fused([chunk], [])[0].chunk == chunk
  {
    var hit := Hit(VectorChannel, 0, chunk);
    assert Stream([chunk], []) == [hit];
    assert [hit][..0] == [] && AbsorbedAll(EMPTY, [hit]) == Absorbed(EMPTY, hit);
    SortedAlike(ScoreOf, Values(Absorbed(EMPTY, hit)), Contribution(0));
  }

  /** At rank 61 in both searches a chunk only ties with one at rank 0 of a single search. */
  lemma TieAtRank61(vector: seq<Chunk>, keyword: seq<Chunk>)
    requires UniqueIds(vector) && UniqueIds(keyword) && |vector| > 61 && |keyword| > 61
    requires vector[61] == keyword[61] && !Found(keyword, vector[0].id)
    ensures FusedScore(vector, keyword, vector[61].id) == FusedScore(vector, keyword, vector[0].id)
  {
    var a, b := vector[61].id, vector[0].id;
    ShareInList(VectorChannel, vector, a);
    ShareInList(KeywordChannel, keyword, a);
    ShareInList(VectorChannel, vector, b);
    ShareInList(KeywordChannel, keyword, b);
    assert FusedScore(vector, keyword, a) == 1.0 / 122.0 + 1.0 / 122.0;
  }

  /** Found by both always beats found by one, for every pair of hit lists. */
  ghost predicate BothAlwaysWin(pool: nat) {
    forall vector, keyword, a, b |
      Rivals(vector, keyword, pool, a, b) :: FusedScore(vector, keyword, a) > FusedScore(vector, keyword, b)
  }

  ghost predicate Rivals(vector: seq<Chunk>, keyword: seq<Chunk>, pool: nat, a: ChunkId, b: ChunkId) {
    && UniqueIds(vector) && UniqueIds(keyword) && |vector| <= pool && |keyword| <= pool
    && Found(vector, a) && Found(keyword, a) && !(Found(vector, b) && Found(keyword, b))
  }

  function Numbered(n: nat): Chunk {
    MakeChunk(Document("d", "s", "t"), n, "", "")
  }

  /** 62 hits: one chunk of the given number last, the others numbered from a base. */
  function HitList(base: nat, last: nat): (hits: seq<Chunk>)
    ensures |hits| == 62 && hits[61] == Numbered(last)
    ensures forall i | 0 <= i < 61 :: hits[i] == Numbered(base + i)
  {
    seq(61, i requires 0 <= i < 61 => Numbered(base + i)) + [Numbered(last)]
  }

  /** 61 is exactly the largest pool for which agreement of the channels always wins. */
  lemma BothAlwaysWinIff(pool: nat)
    ensures BothAlwaysWin(pool) <==> pool <= 61
  {
    if pool <= 61 {
      forall vector, keyword, a, b | Rivals(vector, keyword, pool, a, b)
        ensures FusedScore(vector, keyword, a) > FusedScore(vector, keyword, b)
      {
        ScoresByChannels(vector, keyword, pool, a);
        ScoresByChannels(vector, keyword, pool, b);
        TwoOver((60 + pool) as real);
      }
    } else {
      var vector, keyword := HitList(0, 61), HitList(100, 61);
      var a, b := Numbered(61).id, Numbered(0).id;
      assert vector[61].id == a && keyword[61].id == a && vector[0].id == b;
      assert !Found(keyword, b);
      TieAtRank61(vector, keyword);
      assert Rivals(vector, keyword, pool, a, b);
    }
  }

  // ---------------------------------------------------------------- reranking

  function MaxScore(candidates: seq<Candidate>): (m: real)
    requires candidates != []
    ensures forall c | c in candidates :: c.score <= m
    ensures exists c :: c in candidates && c.score == m
  {
    if |candidates| == 1 then
      assert candidates[0] in candidates;
      candidates[0].score
    else
      var first, rest := candidates[0], candidates[1..];
      var m := MaxScore(rest);
      assert candidates == [first] + rest;
      if first.score > m then
        assert first in candidates;
        first.score
      else m
  }

  /** The fraction of the query's tokens that a chunk contains. */
  function Coverage(query: set<string>, tokens: string -> set<string>, chunk: Chunk): real {
    if query == {} then 0.0
    else
      assert |query| > 0;
      |query * tokens(chunk.text)| as real / |query| as real
  }

  function FinalScore(max: real, query: set<string>, tokens: string -> set<string>, c: Candidate): real
    requires max != 0.0
  {
    0.6 * (c.score / max) + 0.4 * Coverage(query, tokens, c.chunk)
  }

  function Scale(candidates: seq<Candidate>): (m: real)
    requires candidates != []
    ensures m != 0.0
  {
    if MaxScore(candidates) == 0.0 then 1.0 else MaxScore(candidates)
  }

  function Reranked(query: set<string>, tokens: string -> set<string>, candidates: seq<Candidate>): seq<Candidate> {
    if candidates == [] then []
    else
      var max := Scale(candidates);
      SortDesc((c: Candidate) => FinalScore(max, query, tokens, c), candidates)
  }

  /** Reranking is a stable descending sort by the blend of fused score and coverage. */
  lemma RerankingSorts(query: set<string>, tokens: string -> set<string>, candidates: seq<Candidate>)
    requires candidates != []
    ensures var max, r := Scale(candidates), Reranked(query, tokens, candidates);
            var blend := (c: Candidate) => FinalScore(max, query, tokens, c);
            && Descending(blend, r)
            && multiset(r) == multiset(candidates)
            && forall k :: Level(blend, r, k) == Level(blend, candidates, k)
  {
    var max := Scale(candidates);
    SortDescFacts((c: Candidate) => FinalScore(max, query, tokens, c), candidates);
  }

  lemma OneReranked(query: set<string>, tokens: string -> set<string>, c: Candidate)
    ensures Reranked(query, tokens, [c]) == [c]
  {
    var max := Scale([c]);
    SortedAlike((x: Candidate) => FinalScore(max, query, tokens, x), [c], FinalScore(max, query, tokens, c));
  }

  /** Higher or equal on fused score and coverage, and strictly on one, ranks first. */
  lemma DominanceRanksFirst(query: set<string>, tokens: string -> set<string>, candidates: seq<Candidate>,
                            i: nat, j: nat)
    requires forall c | c in candidates :: c.score > 0.0
    requires i < |Reranked(query, tokens, candidates)| && j < |Reranked(query, tokens, candidates)|
    requires var r := Reranked(query, tokens, candidates);
             var (ci, cj) := (Coverage(query, tokens, r[i].chunk), Coverage(query, tokens, r[j].chunk));
             r[i].score >= r[j].score && ci >= cj && (r[i].score > r[j].score || ci > cj)
    ensures i < j
  {
    var r := Reranked(query, tokens, candidates);
    var max := Scale(candidates);
    Quotients(r[j].score, r[i].score, max);
    LargerComesFirst((c: Candidate) => FinalScore(max, query, tokens, c), candidates, i, j);
  }

  /** How many of the query's words a chunk's text has. */
  function WordsMet(query: set<string>, tokens: string -> set<string>, c: Candidate): nat {
    |set w | w in query && w in tokens(c.chunk.text)|
  }

  lemma CoverageCounts(query: set<string>, tokens: string -> set<string>, c: Candidate)
    requires query != {}
    ensures |query| > 0
    ensures Coverage(query, tokens, c.chunk) == WordsMet(query, tokens, c) as real / |query| as real
  {
    assert query * tokens(c.chunk.text) == set w | w in query && w in tokens(c.chunk.text);
    assert |query| > 0;
  }

  /** A lead of so many of n words is worth more than a score that trails by d. */
  predicate Buys(n: nat, d: real, max: real, lead: int) {
    3.0 * n as real * d < 2.0 * max * lead as real
  }

  /**
   What coverage buys: with n words in the query, a candidate stands before another of
   larger fused score as long as it trails by less than two thirds of the largest score for
   every n-th word it has more.
   */
  lemma CoverageBuysScore(query: set<string>, tokens: string -> set<string>, candidates: seq<Candidate>,
                          i: nat, j: nat)
    requires query != {} && forall c | c in candidates :: c.score > 0.0
    requires i < |Reranked(query, tokens, candidates)| && j < |Reranked(query, tokens, candidates)|
    requires var r := Reranked(query, tokens, candidates);
             Buys(|query|, r[j].score - r[i].score, MaxScore(candidates),
                  WordsMet(query, tokens, r[i]) - WordsMet(query, tokens, r[j]))
    ensures i < j
  {
    var r, max := Reranked(query, tokens, candidates), Scale(candidates);
    BuysBlend(query, tokens, max, r[i], r[j]);
    LargerComesFirst((c: Candidate) => FinalScore(max, query, tokens, c), candidates, i, j);
  }

  lemma BuysBlend(query: set<string>, tokens: string -> set<string>, max: real, a: Candidate, b: Candidate)
    requires query != {} && max > 0.0
    requires Buys(|query|, b.score - a.score, max, WordsMet(query, tokens, a) - WordsMet(query, tokens, b))
    ensures FinalScore(max, query, tokens, a) > FinalScore(max, query, tokens, b)
  {
    hide Coverage;
    CoverageCounts(query, tokens, a);
    CoverageCounts(query, tokens, b);
    BuysMore(a.score, b.score, max, WordsMet(query, tokens, a) as real, WordsMet(query, tokens, b) as real,
             |query| as real);
  }

  lemma BuysMore(x: real, y: real, max: real, a: real, b: real, n: real)
    requires max > 0.0 && n > 0.0 && 3.0 * n * (y - x) < 2.0 * max * (a - b)
    ensures 0.6 * (x / max) + 0.4 * (a / n) > 0.6 * (y / max) + 0.4 * (b / n)
  {
    var p, q, u, v := x / max, y / max, a / n, b / n;
    assert x == p * max && y == q * max && a == u * n && b == v * n;
    var d := 0.6 * (p - q) + 0.4 * (u - v);
    assert n * max * (p - q) == n * (x - y);
    assert n * max * (u - v) == max * (a - b);
    assert n * max * d == 0.6 * (n * (x - y)) + 0.4 * (max * (a - b));
    assert n * max > 0.0;
    assert n * max * d > 0.0;
  }

  lemma SomethingIsRanked(query: set<string>, tokens: string -> set<string>, candidates: seq<Candidate>, i: nat)
    requires i < |Reranked(query, tokens, candidates)|
    ensures candidates != []
  {
  }

  /** No fewer score and a word of the query more, besides all the other has, put a chunk first. */
  lemma CoveringMoreRanksFirst(query: set<string>, tokens: string -> set<string>, candidates: seq<Candidate>,
                               i: nat, j: nat, word: string)
    requires forall c | c in candidates :: c.score > 0.0
    requires i < |Reranked(query, tokens, candidates)| && j < |Reranked(query, tokens, candidates)|
    requires var r := Reranked(query, tokens, candidates);
             && r[i].score >= r[j].score
             && (forall w | w in query && w in tokens(r[j].chunk.text) :: w in tokens(r[i].chunk.text))
             && word in query && word in tokens(r[i].chunk.text) && word !in tokens(r[j].chunk.text)
    ensures i < j
  {
    hide *;
    SomethingIsRanked(query, tokens, candidates, i);
    var r := Reranked(query, tokens, candidates);
    MeetsMore(query, tokens, r[i], r[j], word);
    Behind(|query|, r[j].score - r[i].score, MaxScore(candidates),
           WordsMet(query, tokens, r[i]) - WordsMet(query, tokens, r[j]));
    CoverageBuysScore(query, tokens, candidates, i, j);
  }

  lemma MeetsMore(query: set<string>, tokens: string -> set<string>, a: Candidate, b: Candidate, word: string)
    requires forall w | w in query && w in tokens(b.chunk.text) :: w in tokens(a.chunk.text)
    requires word in query && word in tokens(a.chunk.text) && word !in tokens(b.chunk.text)
    ensures WordsMet(query, tokens, a) > WordsMet(query, tokens, b) && |query| > 0
  {
    var more := set w | w in query && w in tokens(a.chunk.text);
    var fewer := set w | w in query && w in tokens(b.chunk.text);
    assert word in more && word !in fewer;
    FewerIsSmaller(fewer, more);
  }

  lemma FewerIsSmaller(a: set<string>, b: set<string>)
    requires a < b
    ensures |a| < |b|
  {
    assert b == a + (b - a);
    assert |b| == |a| + |b - a|;
  }

  lemma Behind(n: nat, d: real, max: real, lead: int)
    requires n > 0 && d <= 0.0 && max > 0.0 && lead > 0
    ensures Buys(n, d, max, lead)
  {
    assert n as real * d <= 0.0;
    assert max * lead as real > 0.0;
  }

  lemma AllOrNothing(query: set<string>, tokens: string -> set<string>, a: Candidate, b: Candidate)
    requires query <= tokens(a.chunk.text) && query !! tokens(b.chunk.text)
    ensures WordsMet(query, tokens, a) == |query| && WordsMet(query, tokens, b) == 0
  {
    assert (set w | w in query && w in tokens(a.chunk.text)) == query;
    assert (set w | w in query && w in tokens(b.chunk.text)) == {};
  }

  /** Ranks i and j hold a chunk with all the query's words and one with none. */
  ghost predicate AllAgainstNone(query: set<string>, tokens: string -> set<string>, r: seq<Candidate>, i: nat, j: nat) {
    && query != {} && i < |r| && j < |r|
    && query <= tokens(r[i].chunk.text) && query !! tokens(r[j].chunk.text)
  }

  /**
   A chunk with all the query's words stands before one with none while its fused score
   trails by less than two thirds of the largest.
   */
  lemma AllWordsOutweigh(query: set<string>, tokens: string -> set<string>, candidates: seq<Candidate>,
                         i: nat, j: nat)
    requires candidates != [] && forall c | c in candidates :: c.score > 0.0
    requires var r := Reranked(query, tokens, candidates);
             AllAgainstNone(query, tokens, r, i, j) && r[j].score - r[i].score < 2.0 * MaxScore(candidates) / 3.0
    ensures i < j
  {
    hide Reranked;
    var r := Reranked(query, tokens, candidates);
    AllOrNothing(query, tokens, r[i], r[j]);
    TwoThirds(|query|, r[j].score - r[i].score, MaxScore(candidates));
    CoverageBuysScore(query, tokens, candidates, i, j);
  }

  /** Beyond two thirds it stands behind. */
  lemma AllWordsAreOutweighed(query: set<string>, tokens: string -> set<string>, candidates: seq<Candidate>,
                              i: nat, j: nat)
    requires candidates != [] && forall c | c in candidates :: c.score > 0.0
    requires var r := Reranked(query, tokens, candidates);
             AllAgainstNone(query, tokens, r, i, j) && r[j].score - r[i].score > 2.0 * MaxScore(candidates) / 3.0
    ensures j < i
  {
    hide Reranked;
    var r := Reranked(query, tokens, candidates);
    AllOrNothing(query, tokens, r[i], r[j]);
    TwoThirds(|query|, r[j].score - r[i].score, MaxScore(candidates));
    CoverageBuysScore(query, tokens, candidates, j, i);
  }

  lemma TwoThirds(n: nat, d: real, max: real)
    requires n > 0
    ensures d < 2.0 * max / 3.0 ==> Buys(n, d, max, n)
    ensures d > 2.0 * max / 3.0 ==> Buys(n, -d, max, 0 - n)
  {
    var x := n as real;
    assert (0 - n) as real == -x;
    if d < 2.0 * max / 3.0 {
      assert x * (2.0 * max - 3.0 * d) > 0.0;
    } else if d > 2.0 * max / 3.0 {
      assert x * (3.0 * d - 2.0 * max) > 0.0;
    }
  }

  lemma Quotients(x: real, y: real, d: real)
    requires d > 0.0 && x <= y
    ensures x / d <= y / d && (x < y ==> x / d < y / d)
  {
  }

  /** The first candidates, with their fused scores rounded. */
  function ResultsOf(topK: nat, ranked: seq<Candidate>): (results: seq<RetrievedChunk>)
    ensures |results| == Min(topK, |ranked|)
    ensures forall i | 0 <= i < |results| ::
              results[i] == RetrievedChunk(ranked[i].chunk, RoundTo(ranked[i].score, 10000), ranked[i].channels)
  {
    seq(Min(topK, |ranked|), i requires 0 <= i < Min(topK, |ranked|) =>
      RetrievedChunk(ranked[i].chunk, RoundTo(ranked[i].score, 10000), ranked[i].channels))
  }

  /** What is returned are the candidates that rank best, their scores to the nearest ten-thousandth. */
  lemma ResultsAreTheBest(topK: nat, ranked: seq<Candidate>, i: nat)
    requires i < |ResultsOf(topK, ranked)|
    ensures i < |ranked| && |ResultsOf(topK, ranked)| == Min(topK, |ranked|)
    ensures var r := ResultsOf(topK, ranked)[i];
            && r.chunk == ranked[i].chunk && r.channels == ranked[i].channels
            && -0.00005 <= r.score - ranked[i].score <= 0.00005
            && r.score * 10000.0 == (r.score * 10000.0).Floor as real
  {
    RoundToIsNearest(ranked[i].score, 10000);
  }

  /** What retrieval finds: both hit lists or one fused, reranked and cut. */
  ghost function BestFused(topK: nat, hybrid: bool, query: set<string>, tokens: string -> set<string>,
                           vectorHits: seq<Chunk>, keywordHits: seq<Chunk>): seq<RetrievedChunk>
  {
    ResultsOf(topK, Reranked(query, tokens, Fused(vectorHits, if hybrid then keywordHits else [])))
  }

  class RetrievalService {
    const tokens: string -> set<string>
    const topK: nat
    const hybrid: bool

    constructor (tokens: string -> set<string>, topK: nat, hybrid: bool)
      ensures this.tokens == tokens && this.topK == topK && this.hybrid == hybrid
    {
      this.tokens, this.topK, this.hybrid := tokens, topK, hybrid;
    }

    /** Fuse, rerank, cut: the results carry the fused score, not the final one. */
    method Retrieve(query: set<string>, vectorHits: seq<Chunk>, keywordHits: seq<Chunk>)
      returns (results: seq<RetrievedChunk>)
      ensures results == BestFused(topK, hybrid, query, tokens, vectorHits, keywordHits)
    {
      var fused := Fuse(vectorHits, if hybrid then keywordHits else []);
      var ranked := Rerank(query, fused);
      results := Cut(ranked);
    }

    method Cut(ranked: seq<Candidate>) returns (results: seq<RetrievedChunk>)
      ensures results == ResultsOf(topK, ranked)
    {
      results := [];
      for i := 0 to Min(topK, |ranked|)
        invariant |results| == i
        invariant forall j | 0 <= j < i ::
                    results[j] == RetrievedChunk(ranked[j].chunk, RoundTo(ranked[j].score, 10000), ranked[j].channels)
      {
        var c := ranked[i];
        results := results + [RetrievedChunk(c.chunk, RoundTo(c.score, 10000), c.channels)];
      }
    }

    method Rerank(query: set<string>, candidates: seq<Candidate>) returns (ranked: seq<Candidate>)
      ensures ranked == Reranked(query, tokens, candidates)
    {
      if candidates == [] {
        return [];
      }
      var max := Scale(candidates);
      ranked := SortDesc((c: Candidate) => FinalScore(max, query, tokens, c), candidates);
    }
  }

  /** Every candidate of a fusion has a positive score, so the scale is positive. */
  lemma FusedScoresPositive(vector: seq<Chunk>, keyword: seq<Chunk>)
    ensures forall c | c in Fused(vector, keyword) :: c.score > 0.0
  {
    forall c | c in Fused(vector, keyword) ensures c.score > 0.0 {
      CandidateMeaning(vector, keyword, c);
      MetIffFound(vector, keyword, c.chunk.id);
      MetIsPositive(Stream(vector, keyword), c.chunk.id);
      ShareAppend(Ranked(VectorChannel, vector), Ranked(KeywordChannel, keyword), c.chunk.id);
    }
  }

  lemma {:induction false} MetIsPositive(hits: seq<Hit>, id: ChunkId)
    ensures Share(hits, id) >= 0.0
    ensures Met(hits, id) ==> Share(hits, id) > 0.0
  {
    if hits != [] {
      var n := |hits| - 1;
      MetIsPositive(hits[..n], id);
      if hits[n].chunk.id != id && Met(hits, id) {
        var i :| 0 <= i < |hits| && hits[i].chunk.id == id;
        assert hits[..n][i].chunk.id == id;
      }
    }
  }

  /**
   The pipeline invents nothing and repeats nothing: reranking permutes the fused
   candidates, each of which one of the searches found.
   */
  lemma RerankingPermutes(query: set<string>, tokens: string -> set<string>, vector: seq<Chunk>, keyword: seq<Chunk>)
    ensures multiset(Reranked(query, tokens, Fused(vector, keyword))) == multiset(Fused(vector, keyword))
    ensures forall c | c in Reranked(query, tokens, Fused(vector, keyword)) ::
              Found(vector, c.chunk.id) || Found(keyword, c.chunk.id)
  {
    var fused := Fused(vector, keyword);
    if fused != [] {
      var max := Scale(fused);
      var key := (c: Candidate) => FinalScore(max, query, tokens, c);
      SortDescFacts(key, fused);
      SortDescMembers(key, fused);
      forall c | c in Reranked(query, tokens, fused) ensures Found(vector, c.chunk.id) || Found(keyword, c.chunk.id) {
        CandidateMeaning(vector, keyword, c);
      }
    }
  }
}
