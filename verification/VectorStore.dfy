/**
 The in-memory vector store and the ingestion pipeline that fills it. Chunks and
 matrix rows are kept in two parallel lists; together they are one list of
 entries keyed by document, in which adding replaces whole documents.
 */
module VectorStore {
  import opened Basics
  import opened Chunking
  import opened Headings
  import opened KeyedLog
  import opened Paragraphs

  type Vector = seq<real>

  /** A chunk and its vector, under the id of its document. */
  type Entry = (string, (Chunk, Vector))

  function DocOf(c: Chunk): string {
    c.document.docId
  }

  function Zip(chunks: seq<Chunk>, rows: seq<Vector>): (entries: seq<Entry>)
    requires |chunks| == |rows|
    ensures |entries| == |chunks|
    ensures forall i | 0 <= i < |chunks| :: entries[i] == (DocOf(chunks[i]), (chunks[i], rows[i]))
  {
    seq(|chunks|, i requires 0 <= i < |chunks| => (DocOf(chunks[i]), (chunks[i], rows[i])))
  }

  class InMemoryVectorStore {
    var chunks: seq<Chunk>
    var rows: seq<Vector>

    /** The two lists are aligned. */
    ghost predicate Valid()
      reads this
    {
      |chunks| == |rows|
    }

    ghost function Entries(): seq<Entry>
      reads this
      requires Valid()
    {
      Zip(chunks, rows)
    }

    constructor ()
      ensures Valid() && Entries() == []
    {
      chunks, rows := [], [];
    }

    /** Replace every document that occurs in the new chunks; refuse uneven lists. */
    method Add(newChunks: seq<Chunk>, vectors: seq<Vector>) returns (ok: bool)
      requires Valid()
      modifies this
      ensures Valid()
      ensures ok <==> |newChunks| == |vectors|
      ensures Entries() == if ok then Put(old(Entries()), Zip(newChunks, vectors)) else old(Entries())
    {
      if |newChunks| != |vectors| {
        return false;
      }
      var replaced := set i | 0 <= i < |newChunks| :: DocOf(newChunks[i]);
      ghost var batch := Zip(newChunks, vectors);
      assert replaced == Keys(batch) by {
        forall i | 0 <= i < |batch| ensures batch[i].0 in replaced { }
        forall i | 0 <= i < |newChunks| ensures DocOf(newChunks[i]) in Keys(batch) {
          assert batch[i].0 in Keys(batch);
        }
      }
      var keptChunks: seq<Chunk>, keptRows: seq<Vector> := [], [];
      ghost var entries := Entries();
      for i := 0 to |chunks|
        invariant chunks == old(chunks) && rows == old(rows)
        invariant |keptChunks| == |keptRows|
        invariant Zip(keptChunks, keptRows) == Without(entries[..i], replaced)
      {
        assert entries[..i + 1][..i] == entries[..i];
        if DocOf(chunks[i]) !in replaced {
          ZipAppend(keptChunks, keptRows, [chunks[i]], [rows[i]]);
          keptChunks, keptRows := keptChunks + [chunks[i]], keptRows + [rows[i]];
        }
      }
      assert entries[..|chunks|] == entries;
      ZipAppend(keptChunks, keptRows, newChunks, vectors);
      chunks := keptChunks + newChunks;
      rows := keptRows + vectors;
      return true;
    }
  }

  lemma ZipAppend(a: seq<Chunk>, r: seq<Vector>, b: seq<Chunk>, s: seq<Vector>)
    requires |a| == |r| && |b| == |s|
    ensures Zip(a + b, r + s) == Zip(a, r) + Zip(b, s)
  {
  }

  // --------------------------------------------------------------- ingestion

  /** A document and its text, or a file that could not be parsed. */
  datatype File = Parsed(name: string, document: Document, text: string) | Unreadable(name: string)

  datatype IngestionReport = IngestionReport(files: int, chunks: nat, skipped: seq<string>)

  function Embedded(embed: string -> Vector, chunks: seq<Chunk>): (vs: seq<Vector>)
    ensures |vs| == |chunks|
    ensures forall i | 0 <= i < |chunks| :: vs[i] == embed(chunks[i].text)
  {
    seq(|chunks|, i requires 0 <= i < |chunks| => embed(chunks[i].text))
  }

  /** What ingesting a file puts into the store: nothing for an unreadable one. */
  function BatchOf(lim: Limits, embed: string -> Vector, file: File): seq<Entry> {
    if file.Unreadable? then []
    else
      var chunks := Chunked(lim, file.document, BlocksOf(file.text));
      Zip(chunks, Embedded(embed, chunks))
  }

  function Batches(lim: Limits, embed: string -> Vector, files: seq<File>): (bs: seq<seq<Entry>>)
    ensures |bs| == |files|
    ensures forall i | 0 <= i < |files| :: bs[i] == BatchOf(lim, embed, files[i])
  {
    seq(|files|, i requires 0 <= i < |files| => BatchOf(lim, embed, files[i]))
  }

  function TotalChunks(batches: seq<seq<Entry>>): nat {
    if batches == [] then 0 else TotalChunks(batches[..|batches| - 1]) + |batches[|batches| - 1]|
  }

  function SkippedNames(files: seq<File>): seq<string> {
    if files == [] then []
    else
      var last := files[|files| - 1];
      SkippedNames(files[..|files| - 1]) + if last.Unreadable? then [last.name] else []
  }

  lemma IngestionStep(xs: seq<Entry>, batches: seq<seq<Entry>>, files: seq<File>, i: nat)
    requires i < |batches| == |files|
    ensures PutAll(xs, batches[..i + 1]) == Put(PutAll(xs, batches[..i]), batches[i])
    ensures TotalChunks(batches[..i + 1]) == TotalChunks(batches[..i]) + |batches[i]|
    ensures SkippedNames(files[..i + 1])
            == SkippedNames(files[..i]) + if files[i].Unreadable? then [files[i].name] else []
  {
    assert batches[..i + 1][..i] == batches[..i] && files[..i + 1][..i] == files[..i];
  }

  class IngestionService {
    const chunking: ChunkingService
    const store: InMemoryVectorStore
    const embed: string -> Vector

    constructor (chunking: ChunkingService, store: InMemoryVectorStore, embed: string -> Vector)
      ensures this.chunking == chunking && this.store == store && this.embed == embed
    {
      this.chunking, this.store, this.embed := chunking, store, embed;
    }

    /** A document that yields no chunks leaves the store as it was. */
    method IngestText(document: Document, text: string) returns (count: nat)
      requires store.Valid()
      modifies store
      ensures store.Valid()
      ensures var batch := BatchOf(chunking.limits, embed, Parsed("", document, text));
              store.Entries() == Put(old(store.Entries()), batch) && count == |batch|
    {
      var chunks := chunking.Split(document, text);
      if chunks == [] {
        PutNothing(store.Entries());
        return 0;
      }
      var vectors := Embedded(embed, chunks);
      var _ := store.Add(chunks, vectors);
      count := |chunks|;
    }

    /** A parse fault is the caller's to catch; nothing is stored. */
    method IngestFile(file: File) returns (count: Option<nat>)
      requires store.Valid()
      modifies store
      ensures store.Valid()
      ensures store.Entries() == Put(old(store.Entries()), BatchOf(chunking.limits, embed, file))
      ensures count == if file.Unreadable? then None else Some(|BatchOf(chunking.limits, embed, file)|)
    {
      if file.Unreadable? {
        PutNothing(store.Entries());
        return None;
      }
      var n := IngestText(file.document, file.text);
      count := Some(n);
    }

    method IngestDirectory(files: seq<File>) returns (report: IngestionReport)
      requires store.Valid()
      modifies store
      ensures store.Valid()
      ensures store.Entries() == PutAll(old(store.Entries()), Batches(chunking.limits, embed, files))
      ensures report.chunks == TotalChunks(Batches(chunking.limits, embed, files))
      ensures report.skipped == SkippedNames(files) && report.files + |report.skipped| == |files|
    {
      var totalChunks := 0;
      var skipped: seq<string> := [];
      ghost var batches := Batches(chunking.limits, embed, files);
      for i := 0 to |files|
        invariant store.Valid()
        invariant store.Entries() == PutAll(old(store.Entries()), batches[..i])
        invariant totalChunks == TotalChunks(batches[..i]) && skipped == SkippedNames(files[..i])
      {
        IngestionStep(old(store.Entries()), batches, files, i);
        var count := IngestFile(files[i]);
        assert batches[i] == BatchOf(chunking.limits, embed, files[i]);
        assert files[i].Unreadable? ==> batches[i] == [];
        if count.Some? {
          totalChunks := totalChunks + count.value;
        } else {
          skipped := skipped + [files[i].name];
        }
      }
      assert batches[..|files|] == batches && files[..|files|] == files;
      report := IngestionReport(|files| - |skipped|, totalChunks, skipped);
    }
  }

  // ------------------------------------------------------------ main theorems

  /** The store after ingesting files into it. */
  function Ingested(lim: Limits, embed: string -> Vector, store: seq<Entry>, files: seq<File>): seq<Entry> {
    PutAll(store, Batches(lim, embed, files))
  }

  function StoredChunks(entries: seq<Entry>): (chunks: seq<Chunk>)
    ensures |chunks| == |entries| && forall i | 0 <= i < |entries| :: chunks[i] == entries[i].1.0
  {
    seq(|entries|, i requires 0 <= i < |entries| => entries[i].1.0)
  }

  /** The chunks that ingesting files into an empty store leaves in it. */
  function IngestedChunks(lim: Limits, embed: string -> Vector, files: seq<File>): seq<Chunk> {
    StoredChunks(Ingested(lim, embed, [], files))
  }

  /** Ingesting any files twice equals ingesting them once, order included. */
  lemma IngestionIsIdempotent(lim: Limits, embed: string -> Vector, store: seq<Entry>, files: seq<File>)
    ensures Ingested(lim, embed, Ingested(lim, embed, store, files), files) == Ingested(lim, embed, store, files)
  {
    PutAllTwice(store, Batches(lim, embed, files));
  }

  /**
   The store after ingesting, in closed form: untouched documents in their old
   order, then each ingested document as and where it was last ingested.
   */
  lemma IngestionClosedForm(lim: Limits, embed: string -> Vector, store: seq<Entry>, files: seq<File>)
    ensures var batches := Batches(lim, embed, files);
            Ingested(lim, embed, store, files) == Without(store, AllKeys(batches)) + LastOccurrences(batches)
  {
    PutAllClosedForm(store, Batches(lim, embed, files));
    PutAllKeepsLast(Batches(lim, embed, files));
  }

  lemma BatchFacts(lim: Limits, embed: string -> Vector, file: File)
    ensures forall x | x in BatchOf(lim, embed, file) ::
              file.Parsed? && x.0 == file.document.docId && x.1.0.id.docId == x.0
    ensures Unique(BatchOf(lim, embed, file))
  {
  }

  /** No two entries share a chunk id. */
  ghost predicate Unique(entries: seq<Entry>) {
    forall i, j | 0 <= i < j < |entries| :: entries[i].1.0.id != entries[j].1.0.id
  }

  /** Chunk ids belong to the document their entry is filed under. */
  ghost predicate Filed(entries: seq<Entry>) {
    forall x | x in entries :: x.1.0.id.docId == x.0
  }

  lemma {:induction false} WithoutKeepsUnique(entries: seq<Entry>, gone: set<string>)
    requires Unique(entries) && Filed(entries)
    ensures Unique(Without(entries, gone)) && Filed(Without(entries, gone))
  {
    if entries != [] {
      var n := |entries| - 1;
      WithoutKeepsUnique(entries[..n], gone);
      forall i | 0 <= i < |Without(entries[..n], gone)|
        ensures Without(entries[..n], gone)[i].1.0.id != entries[n].1.0.id
      {
        WithoutMember(entries[..n], gone, Without(entries[..n], gone)[i]);
      }
    }
  }

  lemma PutKeepsUnique(entries: seq<Entry>, batch: seq<Entry>)
    requires Unique(entries) && Filed(entries) && Unique(batch) && Filed(batch)
    ensures Unique(Put(entries, batch)) && Filed(Put(entries, batch))
  {
    var kept := Without(entries, Keys(batch));
    WithoutKeepsUnique(entries, Keys(batch));
    forall i, j | 0 <= i < |kept| && 0 <= j < |batch| ensures kept[i].1.0.id != batch[j].1.0.id {
      WithoutMember(entries, Keys(batch), kept[i]);
      assert batch[j].0 in Keys(batch) && batch[j] in batch && kept[i] in kept;
    }
  }

  /** In every store reachable by ingestion, chunk ids are unique. */
  lemma {:induction false} ChunkIdsAreUnique(lim: Limits, embed: string -> Vector, files: seq<File>)
    ensures Unique(Ingested(lim, embed, [], files)) && Filed(Ingested(lim, embed, [], files))
  {
    if files != [] {
      var n := |files| - 1;
      ChunkIdsAreUnique(lim, embed, files[..n]);
      assert Batches(lim, embed, files)[..n] == Batches(lim, embed, files[..n]);
      BatchFacts(lim, embed, files[n]);
      PutKeepsUnique(Ingested(lim, embed, [], files[..n]), BatchOf(lim, embed, files[n]));
    }
  }

  lemma BatchVectors(lim: Limits, embed: string -> Vector, file: File)
    ensures forall x | x in BatchOf(lim, embed, file) :: x.1.1 == embed(x.1.0.text)
  {
  }

  /** In every store reachable by ingestion each chunk stands beside the vector of its own text. */
  lemma {:induction false} VectorsAreOfTheText(lim: Limits, embed: string -> Vector, files: seq<File>)
    ensures forall x | x in Ingested(lim, embed, [], files) :: x.1.1 == embed(x.1.0.text)
  {
    if files != [] {
      hide BatchOf;
      var n := |files| - 1;
      VectorsAreOfTheText(lim, embed, files[..n]);
      assert Batches(lim, embed, files)[..n] == Batches(lim, embed, files[..n]);
      var before, batch := Ingested(lim, embed, [], files[..n]), BatchOf(lim, embed, files[n]);
      assert Ingested(lim, embed, [], files) == Put(before, batch);
      BatchVectors(lim, embed, files[n]);
      forall x | x in Put(before, batch) ensures x.1.1 == embed(x.1.0.text) {
        if x in Without(before, Keys(batch)) {
          WithoutMember(before, Keys(batch), x);
        }
      }
    }
  }

  /** The chunks of a report are counted batch by batch. */
  lemma {:induction false} ChunksAddUp(a: seq<seq<Entry>>, b: seq<seq<Entry>>, batch: seq<Entry>)
    ensures TotalChunks(a + b) == TotalChunks(a) + TotalChunks(b)
    ensures TotalChunks([batch]) == |batch|
    decreases |b|
  {
    assert [batch][..0] == [];
    if b == [] {
      assert a + b == a;
    } else {
      ChunksAddUp(a, b[..|b| - 1], batch);
      assert (a + b)[..|a + b| - 1] == a + b[..|b| - 1];
    }
  }

  /** The files that could not be read are named file by file, in order. */
  lemma {:induction false} SkippedAddUp(a: seq<File>, b: seq<File>, file: File)
    ensures SkippedNames(a + b) == SkippedNames(a) + SkippedNames(b)
    ensures SkippedNames([file]) == if file.Unreadable? then [file.name] else []
    decreases |b|
  {
    assert [file][..0] == [];
    if b == [] {
      assert a + b == a;
    } else {
      SkippedAddUp(a, b[..|b| - 1], file);
      assert (a + b)[..|a + b| - 1] == a + b[..|b| - 1];
    }
  }

  /** A file puts nothing into the store exactly if it cannot be read or has no words outside heading lines. */
  lemma NothingToStoreIff(lim: Limits, embed: string -> Vector, file: File)
    ensures BatchOf(lim, embed, file) != [] <==> HasBody(file)
  {
    if file.Parsed? {
      NoChunksIff(lim, file.document.title, file.text);
    }
  }

  predicate HasBody(file: File) {
    file.Parsed? && BodyWordsOfAll(SplitAtBlanks(file.text)) != []
  }

  /**
   As a map from documents to entries: ingesting a document replaces exactly its
   entries, unless it has no words outside heading lines, when its old entries stay.
   */
  lemma IngestionRefinesMap(lim: Limits, embed: string -> Vector, store: seq<Entry>, file: File, docId: string)
    ensures var batch := BatchOf(lim, embed, file);
            Of(Put(store, batch), docId)
            == if HasBody(file) && file.document.docId == docId then batch else Of(store, docId)
  {
    var batch := BatchOf(lim, embed, file);
    BatchFacts(lim, embed, file);
    NothingToStoreIff(lim, embed, file);
    if batch == [] {
      PutNothing(store);
    } else {
      PutOneKey(store, batch, file.document.docId, docId);
    }
  }
}
