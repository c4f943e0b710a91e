/** Stores of one-word documents: whatever the limits, one chunk each. */
module WordStores {
  import opened Basics
  import opened Chunking
  import opened KeyedLog
  import opened PlainTexts
  import opened VectorStore

  function WordDocument(n: nat): Document {
    Document(Letters('D', n), "words.md", "Words")
  }

  /** A file for each word, each with a document id of its own. */
  function WordFiles(words: seq<string>): (files: seq<File>)
    ensures |files| == |words|
    ensures forall i | 0 <= i < |words| :: files[i] == Parsed("words.md", WordDocument(i + 1), words[i])
  {
    seq(|words|, i requires 0 <= i < |words| => Parsed("words.md", WordDocument(i + 1), words[i]))
  }

  function WordChunk(words: seq<string>, i: nat): Chunk
    requires i < |words|
  {
    MakeChunk(WordDocument(i + 1), 0, "", words[i])
  }

  lemma WordBatch(lim: Limits, embed: string -> Vector, name: string, document: Document, word: string)
    requires PlainWord(word)
    ensures var batch := BatchOf(lim, embed, Parsed(name, document, word));
            |batch| == 1 && batch[0].0 == document.docId && batch[0].1.0 == MakeChunk(document, 0, "", word)
  {
    assert Spaced([word]) == word;
    assert word in [word];
    SpacedBlocks([word]);
    OneWordReaches(lim, document.title, word);
  }

  /** Entry i of the store holds the chunk of word i. */
  ghost predicate HoldsWords(entries: seq<Entry>, words: seq<string>) {
    && |entries| == |words|
    && forall i | 0 <= i < |words| ::
         entries[i].0 == WordDocument(i + 1).docId && entries[i].1.0 == WordChunk(words, i)
  }

  /** Ingesting such files stores one chunk for each word, in order. */
  lemma {:induction false} WordStore(lim: Limits, embed: string -> Vector, words: seq<string>)
    requires forall w | w in words :: PlainWord(w)
    ensures HoldsWords(Ingested(lim, embed, [], WordFiles(words)), words)
  {
    hide Ingested, BatchOf, Put, HoldsWords, PlainWord;
    if words == [] {
      NoWordsNoStore(lim, embed);
    } else {
      var n := |words| - 1;
      var before := Ingested(lim, embed, [], WordFiles(words[..n]));
      WordStore(lim, embed, words[..n]);
      assert words[n] in words;
      WordBatch(lim, embed, "words.md", WordDocument(n + 1), words[n]);
      var batch := BatchOf(lim, embed, WordFiles(words)[n]);
      OneMoreFile(lim, embed, words);
      OneMoreWord(before, words, batch[0]);
      assert batch == [batch[0]];
    }
  }

  lemma NoWordsNoStore(lim: Limits, embed: string -> Vector)
    ensures HoldsWords(Ingested(lim, embed, [], WordFiles([])), [])
  {
  }

  lemma OneMoreFile(lim: Limits, embed: string -> Vector, words: seq<string>)
    requires words != []
    ensures var n := |words| - 1;
            Ingested(lim, embed, [], WordFiles(words))
            == Put(Ingested(lim, embed, [], WordFiles(words[..n])), BatchOf(lim, embed, WordFiles(words)[n]))
  {
    hide BatchOf, Put;
    var n := |words| - 1;
    assert WordFiles(words)[..n] == WordFiles(words[..n]);
    assert Batches(lim, embed, WordFiles(words))[..n] == Batches(lim, embed, WordFiles(words[..n]));
  }

  lemma OneMoreWord(before: seq<Entry>, words: seq<string>, entry: Entry)
    requires words != [] && HoldsWords(before, words[..|words| - 1])
    requires entry.0 == WordDocument(|words|).docId && entry.1.0 == WordChunk(words, |words| - 1)
    ensures HoldsWords(Put(before, [entry]), words)
  {
    forall i | 0 <= i < |before| ensures before[i].0 != entry.0 {
      assert |before[i].0| == i + 1;
    }
    PutFresh(before, [entry]);
  }

  lemma PutFresh<K, V>(xs: seq<(K, V)>, batch: seq<(K, V)>)
    requires |batch| == 1 && forall i | 0 <= i < |xs| :: xs[i].0 != batch[0].0
    ensures Put(xs, batch) == xs + batch
  {
    WithoutNone(xs, Keys(batch));
  }

  /** The store of a single one-word document. */
  lemma OneWordStore(lim: Limits, embed: string -> Vector, file: File)
    requires file.Parsed? && PlainWord(file.text)
    ensures IngestedChunks(lim, embed, [file]) == [MakeChunk(file.document, 0, "", file.text)]
  {
    WordBatch(lim, embed, file.name, file.document, file.text);
    var batches := Batches(lim, embed, [file]);
    assert batches[..0] == [] && PutAll([], batches) == Put([], BatchOf(lim, embed, file));
    PutFresh([], BatchOf(lim, embed, file));
  }

  lemma WordChunks(lim: Limits, embed: string -> Vector, words: seq<string>)
    requires forall w | w in words :: PlainWord(w)
    ensures var chunks := IngestedChunks(lim, embed, WordFiles(words));
            |chunks| == |words| && forall i | 0 <= i < |words| :: chunks[i] == WordChunk(words, i)
  {
    WordStore(lim, embed, words);
  }
}
