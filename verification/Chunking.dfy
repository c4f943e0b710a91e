/**
 Chunking: the paragraphs of a document are packed greedily under a size limit,
 long ones split at sentences, and the end of each chunk is carried into the
 next one of the same section.
 */
module Chunking {
  import opened Basics
  import opened SentenceSplitting
  import opened Text

  datatype Document = Document(docId: string, source: string, title: string)

  /** Chunk ids are an injective function of the document and the position. */
  datatype ChunkId = ChunkId(docId: string, index: nat)

  datatype Chunk = Chunk(id: ChunkId, document: Document, index: nat, text: string, heading: string)

  datatype Settings = Settings(maxChars: int, overlapChars: int)

  /** The service refuses an overlap that is not smaller than the limit. */
  type Limits = s: Settings | s.overlapChars < s.maxChars witness Settings(900, 150)

  datatype RawBlock = RawBlock(heading: string, text: string)

  /** A paragraph under its heading; paragraphs are stripped and never empty. */
  type Block = b: RawBlock | Trimmed(b.text) witness RawBlock("", "x")

  // --------------------------------------------------------- long paragraphs

  function Grown(current: string, sentence: string): string {
    current + sentence + " "
  }

  /** The pieces that sentences are packed into, starting from a partly filled one. */
  function Packed(max: int, current: string, sentences: seq<string>): seq<string>
    decreases |sentences|
  {
    if sentences == [] then Closed(current)
    else if |current| + |sentences[0]| + 1 > max && current != "" then
      [Strip(current)] + Packed(max, Grown("", sentences[0]), sentences[1..])
    else Packed(max, Grown(current, sentences[0]), sentences[1..])
  }

  function Closed(current: string): seq<string> {
    if Strip(current) != "" then [Strip(current)] else []
  }

  function Pieces(max: int, block: string): seq<string> {
    if |block| <= max then [block] else Packed(max, "", Sentences(block))
  }

  method SplitOversized(max: int, block: string) returns (pieces: seq<string>)
    ensures pieces == Pieces(max, block)
  {
    if |block| <= max {
      return [block];
    }
    pieces := [];
    var current := "";
    var sentences := Sentences(block);
    ghost var packed := Packed(max, "", sentences);
    for i := 0 to |sentences|
      invariant packed == pieces + Packed(max, current, sentences[i..])
    {
      PackedStep(max, current, sentences, i);
      var sentence := sentences[i];
      if |current| + |sentence| + 1 > max && current != "" {
        pieces := pieces + [Strip(current)];
        current := "";
      }
      current := current + sentence + " ";
    }
    if Strip(current) != "" {
      pieces := pieces + [Strip(current)];
    }
  }

  lemma PackedStep(max: int, current: string, sentences: seq<string>, i: nat)
    requires i < |sentences|
    ensures Packed(max, current, sentences[i..]) ==
              if |current| + |sentences[i]| + 1 > max && current != "" then
                [Strip(current)] + Packed(max, Grown("", sentences[i]), sentences[i + 1..])
              else Packed(max, Grown(current, sentences[i]), sentences[i + 1..])
  {
    assert sentences[i..][1..] == sentences[i + 1..];
  }

  /** A piece under construction: nothing yet, or trimmed text and a blank. */
  predicate Growing(current: string) {
    current == "" || (current[|current| - 1] == ' ' && Trimmed(current[..|current| - 1]))
  }

  lemma GrowingStrip(current: string)
    requires Growing(current) && current != ""
    ensures |Strip(current)| == |current| - 1 && Trimmed(Strip(current))
    ensures Words(Strip(current)) == Words(current)
    ensures Closed(current) == [Strip(current)]
  {
    WordsStrip(current);
    assert Space(' ');
    assert StripRight(current[..|current| - 1]) == current[..|current| - 1];
  }

  lemma GrownFacts(current: string, sentence: string)
    requires Growing(current) && Trimmed(sentence)
    ensures Growing(Grown(current, sentence)) && |Grown(current, sentence)| == |current| + |sentence| + 1
    ensures Words(Grown(current, sentence)) == Words(current) + Words(sentence)
  {
    GrownShape(current, sentence);
    WordsSplit(current, sentence);
    WordsThenBlank(current + sentence);
  }

  lemma GrownShape(current: string, sentence: string)
    requires Growing(current) && Trimmed(sentence)
    ensures Growing(Grown(current, sentence))
  {
    EndsInBlank(current + sentence);
    assert (current + sentence)[0] == if current == "" then sentence[0] else current[0];
  }

  lemma EndsInBlank(s: string)
    ensures (s + " ")[..|s|] == s && (s + " ")[|s|] == ' '
  {
  }

  lemma WordsThenBlank(s: string)
    ensures Words(s + " ") == Words(s)
  {
    WordsSplit(s, " ");
    WordsOfSpace(" ");
  }

  // ----------------------------------------------------------- greedy groups

  function OnOneLine(group: seq<string>): string {
    Join(group, " ")
  }

  /** With two blanks to spare, a text takes another after it. */
  predicate Takes(max: int, group: seq<string>, next: string) {
    |OnOneLine(group)| + |next| + 2 <= max
  }

  /** A group took every sentence but its first when it still fitted. */
  ghost predicate Filled(max: int, group: seq<string>) {
    group != [] && forall k | 0 < k < |group| :: Takes(max, group[..k], group[k])
  }

  /** Consecutive groups, each filled and with no room for the sentence that opens the next. */
  ghost predicate Greedy(max: int, groups: seq<seq<string>>) {
    groups == []
    || (&& Filled(max, groups[0]) && Greedy(max, groups[1..])
        && (|groups| == 1 || (groups[1] != [] && !Takes(max, groups[0], groups[1][0]))))
  }

  ghost function OnLines(groups: seq<seq<string>>): seq<string> {
    if groups == [] then [] else [OnOneLine(groups[0])] + OnLines(groups[1..])
  }

  ghost function Ungrouped(groups: seq<seq<string>>): seq<string> {
    if groups == [] then [] else groups[0] + Ungrouped(groups[1..])
  }

  /** What a group looks like while sentences are still added to it. */
  function Running(group: seq<string>): string {
    if group == [] then "" else OnOneLine(group) + " "
  }

  lemma RunningGrows(group: seq<string>, sentence: string)
    requires Trimmed(sentence) && forall t | t in group :: Trimmed(t)
    ensures Grown(Running(group), sentence) == Running(group + [sentence])
    ensures Growing(Running(group)) && (group != [] ==> Strip(Running(group)) == OnOneLine(group))
  {
    if group != [] {
      JoinAppend(group, sentence, " ");
      assert OnOneLine(group) + " " + sentence + " " == OnOneLine(group + [sentence]) + " ";
      JoinTrimmed(group, " ");
      EndsInBlank(OnOneLine(group));
      GrowingStrip(Running(group));
      assert StripRight(OnOneLine(group)) == OnOneLine(group);
    }
  }

  lemma ClosedGroup(group: seq<string>)
    requires group != [] && forall t | t in group :: Trimmed(t)
    ensures Closed(Running(group)) == [OnOneLine(group)]
  {
    RunningGrows(group, group[0]);
    GrowingStrip(Running(group));
  }

  /** The next sentence goes on the line at hand if that takes it, and on a new one otherwise. */
  lemma SentenceIsPacked(max: int, group: seq<string>, sentence: string, more: seq<string>)
    requires Trimmed(sentence) && forall t | t in group :: Trimmed(t)
    ensures Packed(max, Running(group), [sentence] + more)
            == if group != [] && !Takes(max, group, sentence) then
                 [OnOneLine(group)] + Packed(max, Running([sentence]), more)
               else Packed(max, Running(group + [sentence]), more)
  {
    RunningGrows(group, sentence);
    RunningGrows([], sentence);
    assert [] + [sentence] == [sentence] && ([sentence] + more)[1..] == more;
  }

  lemma FilledGrows(max: int, group: seq<string>, sentence: string)
    requires group != [] ==> Filled(max, group) && Takes(max, group, sentence)
    ensures Filled(max, group + [sentence])
  {
    var longer := group + [sentence];
    forall k | 0 < k < |longer| ensures Takes(max, longer[..k], longer[k]) {
      assert longer[..k] == group[..k] && group[..|group|] == group;
    }
  }

  lemma {:induction false} PackedIsGreedy(max: int, group: seq<string>, sentences: seq<string>)
    returns (groups: seq<seq<string>>)
    requires group + sentences != [] && (forall t | t in group + sentences :: Trimmed(t))
    requires group != [] ==> Filled(max, group)
    ensures Greedy(max, groups) && Ungrouped(groups) == group + sentences
    ensures groups != [] && group <= groups[0] && Packed(max, Running(group), sentences) == OnLines(groups)
    decreases |sentences|
  {
    hide Join, Strip, Growing, Takes, Filled, Trimmed, OnOneLine, Running, Grown, Closed;
    if sentences == [] {
      assert forall t | t in group :: t in group + sentences;
      ClosedGroup(group);
      groups := [group];
      assert group + sentences == group;
    } else {
      var s, more := sentences[0], sentences[1..];
      assert [s] + more == sentences && s in group + sentences && forall t | t in group :: t in group + sentences;
      SentenceIsPacked(max, group, s, more);
      if group != [] && !Takes(max, group, s) {
        FilledGrows(max, [], s);
        assert [] + [s] == [s];
        var rest := PackedIsGreedy(max, [s], more);
        groups := [group] + rest;
        assert groups[1..] == rest && groups[0] == group;
      } else {
        assert group + [s] + more == group + sentences;
        FilledGrows(max, group, s);
        groups := PackedIsGreedy(max, group + [s], more);
        assert group <= group + [s];
      }
    }
  }

  /**
   A paragraph that is too long is cut into greedy groups of its sentences, each
   group on one line: none could take the sentence that opens the next.
   */
  lemma PiecesAreGreedy(max: int, block: string) returns (groups: seq<seq<string>>)
    requires Trimmed(block)
    ensures |block| <= max ==> Pieces(max, block) == [block]
    ensures |block| > max ==>
              && Greedy(max, groups) && Ungrouped(groups) == Sentences(block)
              && Pieces(max, block) == OnLines(groups)
  {
    groups := [];
    if |block| > max {
      SentencesTrimmed(block);
      assert [] + Sentences(block) == Sentences(block);
      groups := PackedIsGreedy(max, [], Sentences(block));
    }
  }

  ghost predicate AllWithin(parts: seq<string>, bound: int) {
    forall p | p in parts :: Trimmed(p) && |p| <= bound
  }

  /** Pieces are trimmed and bounded by the limit or by one sentence. */
  lemma {:induction false} PackedWithin(max: int, current: string, sentences: seq<string>, longest: int)
    requires Growing(current) && |current| - 1 <= Max(max, longest) && AllWithin(sentences, longest)
    ensures AllWithin(Packed(max, current, sentences), Max(max, longest))
    decreases |sentences|
  {
    ClosedFacts(current);
    if sentences != [] {
      var s, rest := sentences[0], sentences[1..];
      assert Trimmed(s) && AllWithin(rest, longest);
      var full := |current| + |s| + 1 > max && current != "";
      var kept := if full then "" else current;
      GrownFacts(kept, s);
      PackedWithin(max, Grown(kept, s), rest, longest);
      if full {
        OneMoreWithin(Strip(current), Packed(max, Grown("", s), rest), Max(max, longest));
      }
    }
  }

  lemma OneMoreWithin(p: string, parts: seq<string>, bound: int)
    requires Trimmed(p) && |p| <= bound && AllWithin(parts, bound)
    ensures AllWithin([p] + parts, bound)
  {
  }

  /** Together the pieces keep every word, in order. */
  lemma {:induction false} PackedKeepsWords(max: int, current: string, sentences: seq<string>)
    requires Growing(current) && forall s | s in sentences :: Trimmed(s)
    ensures WordsOfAll(Packed(max, current, sentences)) == Words(current) + WordsOfAll(sentences)
    ensures current != "" || sentences != [] ==> Packed(max, current, sentences) != []
    decreases |sentences|
  {
    ClosedFacts(current);
    if sentences == [] {
      assert Words(current) + [] == Words(current);
    } else {
      var s, rest := sentences[0], sentences[1..];
      Regroup(Words(current), Words(s), WordsOfAll(rest));
      if |current| + |s| + 1 > max && current != "" {
        GrownFacts("", s);
        assert Words("") + Words(s) == Words(s);
        PackedKeepsWords(max, Grown("", s), rest);
        WordsOfAllCons(Strip(current), Packed(max, Grown("", s), rest));
      } else {
        GrownFacts(current, s);
        PackedKeepsWords(max, Grown(current, s), rest);
      }
    }
  }

  lemma ClosedFacts(current: string)
    requires Growing(current)
    ensures current == "" ==> Closed(current) == [] && Words(current) == []
    ensures current != "" ==>
              && Closed(current) == [Strip(current)]
              && Trimmed(Strip(current)) && |Strip(current)| == |current| - 1
              && Words(Strip(current)) == Words(current)
    ensures WordsOfAll(Closed(current)) == Words(current)
  {
    if current != "" {
      GrowingStrip(current);
      WordsOfAllCons(Strip(current), []);
    }
  }

  lemma WordsOfAllCons(part: string, parts: seq<string>)
    ensures WordsOfAll([part] + parts) == Words(part) + WordsOfAll(parts)
  {
    assert ([part] + parts)[1..] == parts;
  }

  /** Every sentence of the paragraph is at most this long. */
  ghost predicate SentencesWithin(block: string, longest: int) {
    forall s | s in Sentences(block) :: |s| <= longest
  }

  lemma PiecesFacts(max: int, block: string, longest: int)
    requires Trimmed(block) && SentencesWithin(block, longest)
    ensures Pieces(max, block) != []
    ensures forall p | p in Pieces(max, block) :: Trimmed(p) && |p| <= Max(max, longest)
    ensures WordsOfAll(Pieces(max, block)) == Words(block)
  {
    if |block| <= max {
      WordsOfAllCons(block, []);
    } else {
      SentencesTrimmed(block);
      SentencesKeepWords(block);
      var first := Sentences(block)[0];
      assert first in Sentences(block) && Trimmed(first);
      PackedWithin(max, "", Sentences(block), longest);
      PackedKeepsWords(max, "", Sentences(block));
    }
  }

  function LongestOf(parts: seq<string>): (n: nat)
    ensures forall p | p in parts :: |p| <= n
  {
    if parts == [] then 0 else Max(|parts[0]|, LongestOf(parts[1..]))
  }

  lemma PiecesTrimmed(max: int, block: string)
    requires Trimmed(block)
    ensures forall p | p in Pieces(max, block) :: Trimmed(p)
  {
    PiecesFacts(max, block, LongestOf(Sentences(block)));
  }

  // ----------------------------------------------------------------- overlap

  function OverlapTail(lim: Limits, body: string): string {
    if lim.overlapChars <= 0 then ""
    else
      var tail := body[Max(0, |body| - lim.overlapChars)..];
      var b := NextBoundary(tail, 1);
      if b < |tail| then Strip(tail[SpaceEnd(tail, b)..]) else Strip(tail)
  }

  predicate Suffix(t: string, s: string) {
    |t| <= |s| && t == s[|s| - |t|..]
  }

  lemma StripOfSuffix(t: string, s: string)
    requires Trimmed(s) && Suffix(t, s)
    ensures Suffix(Strip(t), s) && (Strip(t) == "" || Trimmed(Strip(t)))
  {
    StripShape(t);
    StripLeftShape(t);
    var u := StripLeft(t);
    assert u != "" ==> u[|u| - 1] == s[|s| - 1];
    assert Strip(t) == u;
  }

  lemma StripOfEnd(s: string, i: nat)
    requires Trimmed(s) && i <= |s|
    ensures Suffix(Strip(s[i..]), s) && |Strip(s[i..])| <= |s| - i
    ensures Strip(s[i..]) == "" || Trimmed(Strip(s[i..]))
  {
    StripOfSuffix(s[i..], s);
    StripShape(s[i..]);
  }

  /** What is carried over is the end of the body, at most the overlap long. */
  lemma OverlapIsSuffix(lim: Limits, body: string)
    requires Trimmed(body)
    ensures Suffix(OverlapTail(lim, body), body)
    ensures |OverlapTail(lim, body)| <= Max(0, lim.overlapChars)
    ensures OverlapTail(lim, body) == "" || Trimmed(OverlapTail(lim, body))
  {
    if lim.overlapChars > 0 {
      var i := OverlapStart(lim, body);
      StripOfEnd(body, i);
    }
  }

  /** What of a body the overlap may take: its last characters, or all of it if it is shorter. */
  predicate EndOfBody(lim: Limits, before: string, end: string) {
    lim.overlapChars > 0 && |end| <= lim.overlapChars && (before == "" || |end| == lim.overlapChars)
  }

  /** What is carried starts with the first sentence that begins in the end of the body. */
  lemma OverlapStartsASentence(lim: Limits, before: string, cut: string, gap: string, rest: string)
    requires EndOfBody(lim, before, cut + gap + rest) && cut != "" && Stop(cut[|cut| - 1])
    requires forall k | 0 < k < |cut| :: !Boundary(cut, k)
    requires gap != "" && (forall k | 0 <= k < |gap| :: Space(gap[k])) && Trimmed(rest)
    ensures OverlapTail(lim, before + (cut + gap + rest)) == rest
  {
    hide OverlapTail, Strip;
    var tail, n, m := cut + gap + rest, |cut|, |cut| + |gap|;
    assert (before + tail)[|before|..] == tail;
    GapIsBoundary(cut, gap, rest);
    assert tail[m..] == rest;
    StripTrimmed(rest);
    TailFrom(lim, before + tail, tail, n, m);
  }

  lemma TailFrom(lim: Limits, body: string, tail: string, b: nat, next: nat)
    requires lim.overlapChars > 0 && tail == body[Max(0, |body| - lim.overlapChars)..]
    requires b < |tail| && NextBoundary(tail, 1) == b && SpaceEnd(tail, b) == next
    ensures next <= |tail| && OverlapTail(lim, body) == Strip(tail[next..])
  {
  }

  /** If none begins there, all of the end is carried. */
  lemma OverlapInASentence(lim: Limits, before: string, end: string)
    requires EndOfBody(lim, before, end) && forall k | 0 < k < |end| :: !Boundary(end, k)
    ensures OverlapTail(lim, before + end) == Strip(end)
  {
    assert (before + end)[|before|..] == end;
    if end != "" {
      NextBoundaryIs(end, 1, |end|);
    }
  }

  lemma OverlapStart(lim: Limits, body: string) returns (i: nat)
    requires lim.overlapChars > 0
    ensures |body| - lim.overlapChars <= i <= |body| && OverlapTail(lim, body) == Strip(body[i..])
  {
    var from := Max(0, |body| - lim.overlapChars);
    var tail := body[from..];
    var b := NextBoundary(tail, 1);
    i := from;
    if b < |tail| {
      i := from + SpaceEnd(tail, b);
      assert body[from..][SpaceEnd(tail, b)..] == body[i..];
    }
  }

  // ----------------------------------------------------------------- packing

  /** A chunk in the making: text carried over from the last chunk, and new pieces. */
  datatype Layout = Layout(heading: string, carried: string, added: seq<string>)
  {
    function Parts(): seq<string> {
      (if carried == "" then [] else [carried]) + added
    }

    function Body(): string {
      Join(Parts(), "\n\n")
    }
  }

  datatype Packer = Packer(done: seq<Layout>, open: Layout)

  function TotalLength(parts: seq<string>): nat {
    if parts == [] then 0 else TotalLength(parts[..|parts| - 1]) + |parts[|parts| - 1]|
  }

  function Flushed(lim: Limits, p: Packer): Packer {
    if p.open.Parts() == [] then p
    else Packer(p.done + [p.open], Layout(p.open.heading, OverlapTail(lim, p.open.Body()), []))
  }

  predicate Overflows(lim: Limits, p: Packer, extra: nat) {
    TotalLength(p.open.Parts()) + extra > lim.maxChars && p.open.Parts() != []
  }

  function MadeRoom(lim: Limits, p: Packer, extra: nat): Packer {
    if Overflows(lim, p, extra) then Flushed(lim, p) else p
  }

  function WithPiece(lim: Limits, p: Packer, piece: string): Packer {
    var q := MadeRoom(lim, p, |piece|);
    q.(open := q.open.(added := q.open.added + [piece]))
  }

  function WithPieces(lim: Limits, p: Packer, pieces: seq<string>): Packer {
    if pieces == [] then p
    else WithPiece(lim, WithPieces(lim, p, pieces[..|pieces| - 1]), pieces[|pieces| - 1])
  }

  function UnderHeading(lim: Limits, p: Packer, heading: string): Packer {
    if heading == p.open.heading then p else Packer(Flushed(lim, p).done, Layout(heading, "", []))
  }

  function WithBlock(lim: Limits, p: Packer, block: Block): Packer {
    var q := MadeRoom(lim, UnderHeading(lim, p, block.heading), |block.text|);
    WithPieces(lim, q, Pieces(lim.maxChars, block.text))
  }

  function WithBlocks(lim: Limits, title: string, blocks: seq<Block>): Packer {
    if blocks == [] then Packer([], Layout(title, "", []))
    else WithBlock(lim, WithBlocks(lim, title, blocks[..|blocks| - 1]), blocks[|blocks| - 1])
  }

  /** The chunks of a document, as carried text and fresh pieces. */
  function Layouts(lim: Limits, title: string, blocks: seq<Block>): seq<Layout> {
    Flushed(lim, WithBlocks(lim, title, blocks)).done
  }

  function MakeChunk(doc: Document, index: nat, heading: string, body: string): Chunk {
    var prefix := if heading != doc.title then doc.title + " > " + heading else doc.title;
    Chunk(ChunkId(doc.docId, index), doc, index, "[" + prefix + "]\n" + body, heading)
  }

  /** A chunk names its document and its heading, once if they are the same, and then gives its body. */
  lemma ChunkReads(doc: Document, index: nat, heading: string, body: string)
    ensures var c := MakeChunk(doc, index, heading, body);
            var cut := |c.text| - |body|;
            && c.heading == heading && c.document == doc && c.id == ChunkId(doc.docId, index) && c.index == index
            && cut >= 0 && c.text[cut..] == body
            && c.text[..cut] == if heading == doc.title then "[" + doc.title + "]\n"
                                else "[" + doc.title + " > " + heading + "]\n"
  {
  }

  function ChunksOf(doc: Document, layouts: seq<Layout>): (chunks: seq<Chunk>)
    ensures |chunks| == |layouts|
    ensures forall i | 0 <= i < |layouts| ::
              chunks[i] == MakeChunk(doc, i, layouts[i].heading, layouts[i].Body())
  {
    seq(|layouts|, i requires 0 <= i < |layouts| => MakeChunk(doc, i, layouts[i].heading, layouts[i].Body()))
  }

  function Chunked(lim: Limits, doc: Document, blocks: seq<Block>): seq<Chunk> {
    ChunksOf(doc, Layouts(lim, doc.title, blocks))
  }

  ghost predicate PartsTrimmed(l: Layout) {
    (l.carried == "" || Trimmed(l.carried)) && forall p | p in l.added :: Trimmed(p)
  }

  lemma BodyTrimmed(l: Layout)
    requires PartsTrimmed(l) && l.Parts() != []
    ensures Trimmed(l.Body())
  {
    JoinTrimmed(l.Parts(), "\n\n");
  }

  lemma FlushKeepsTrimmed(lim: Limits, p: Packer)
    requires PartsTrimmed(p.open)
    ensures PartsTrimmed(Flushed(lim, p).open)
  {
    if p.open.Parts() != [] {
      BodyTrimmed(p.open);
      OverlapIsSuffix(lim, p.open.Body());
    }
  }

  lemma PartsGrow(l: Layout, piece: string)
    ensures l.(added := l.added + [piece]).Parts() == l.Parts() + [piece]
  {
  }

  lemma NextPiece(lim: Limits, p: Packer, pieces: seq<string>, i: nat)
    requires i < |pieces|
    ensures pieces[i] in pieces
    ensures WithPieces(lim, p, pieces[..i + 1]) == WithPiece(lim, WithPieces(lim, p, pieces[..i]), pieces[i])
    ensures forall q, x: string :: WithPiece(lim, q, x).open.heading == q.open.heading
  {
    assert pieces[..i + 1][..i] == pieces[..i];
  }

  lemma OneMorePart(l: Layout, piece: string)
    requires PartsTrimmed(l) && Trimmed(piece)
    ensures var l' := l.(added := l.added + [piece]);
            l'.Parts() == l.Parts() + [piece] && PartsTrimmed(l')
  {
    PartsGrow(l, piece);
  }

  lemma ChunksGrow(doc: Document, done: seq<Layout>, open: Layout)
    ensures ChunksOf(doc, done + [open])
            == ChunksOf(doc, done) + [MakeChunk(doc, |done|, open.heading, open.Body())]
  {
  }

  lemma TailAlone(heading: string, tail: string)
    ensures var parts := Layout(heading, tail, []).Parts();
            parts == (if tail != "" then [tail] else []) && TotalLength(parts) == |tail|
  {
    OneLength(tail);
  }

  lemma OneLength(s: string)
    ensures TotalLength([s]) == |s|
  {
    assert [s][..0] == [];
  }

  /** The variables the original packs with, and its flush. */
  class Assembly {
    const document: Document
    const limits: Limits
    var buffer: seq<string>
    var bufferLen: int
    var chunks: seq<Chunk>

    constructor (document: Document, limits: Limits)
      ensures this.document == document && this.limits == limits
      ensures Represents(Packer([], Layout(document.title, "", [])))
    {
      this.document, this.limits := document, limits;
      buffer, bufferLen, chunks := [], 0, [];
    }

    ghost predicate Represents(p: Packer)
      reads this
    {
      && buffer == p.open.Parts() && bufferLen == TotalLength(buffer)
      && chunks == ChunksOf(document, p.done) && PartsTrimmed(p.open)
    }

    method Flush(heading: string, ghost p: Packer)
      requires Represents(p) && heading == p.open.heading
      modifies this
      ensures Represents(Flushed(limits, p))
    {
      if buffer == [] {
        return;
      }
      BodyTrimmed(p.open);
      FlushKeepsTrimmed(limits, p);
      StripTrimmed(p.open.Body());
      var body := Strip(Join(buffer, "\n\n"));
      assert body != "";  // the original's guard against a blank body never fires
      ChunksGrow(document, p.done, p.open);
      chunks := chunks + [MakeChunk(document, |chunks|, heading, body)];
      var tail := OverlapTail(limits, body);
      TailAlone(heading, tail);
      buffer := if tail != "" then [tail] else [];
      bufferLen := |tail|;
    }

    method Append(piece: string, ghost p: Packer)
      requires Represents(p) && Trimmed(piece)
      modifies this
      ensures Represents(p.(open := p.open.(added := p.open.added + [piece])))
    {
      TotalOfTwo(buffer, piece);
      OneMorePart(p.open, piece);
      buffer := buffer + [piece];
      bufferLen := bufferLen + |piece|;
    }

    /** No overlap across section boundaries. */
    method StartSection(heading: string, ghost p: Packer)
      requires Represents(p)
      modifies this
      ensures Represents(Packer(p.done, Layout(heading, "", [])))
    {
      buffer, bufferLen := [], 0;
    }

    method AppendAll(heading: string, pieces: seq<string>, ghost text: string, ghost p: Packer)
      requires Represents(p) && heading == p.open.heading
      requires Trimmed(text) && pieces == Pieces(limits.maxChars, text)
      modifies this
      ensures Represents(WithPieces(limits, p, pieces))
    {
      PiecesTrimmed(limits.maxChars, text);
      ghost var q := p;
      for i := 0 to |pieces|
        invariant Represents(q) && q == WithPieces(limits, p, pieces[..i]) && q.open.heading == heading
      {
        NextPiece(limits, p, pieces, i);
        AppendPiece(heading, pieces[i], q);
        q := WithPiece(limits, q, pieces[i]);
      }
      assert pieces[..|pieces|] == pieces;
    }

    method AppendPiece(heading: string, piece: string, ghost p: Packer)
      requires Represents(p) && heading == p.open.heading && Trimmed(piece)
      modifies this
      ensures Represents(WithPiece(limits, p, piece))
    {
      MakeRoom(heading, |piece|, p);
      Append(piece, MadeRoom(limits, p, |piece|));
    }

    method MakeRoom(heading: string, extra: nat, ghost p: Packer)
      requires Represents(p) && heading == p.open.heading
      modifies this
      ensures Represents(MadeRoom(limits, p, extra))
    {
      if bufferLen + extra > limits.maxChars && buffer != [] {
        Flush(heading, p);
      }
    }
  }

  lemma {:induction false} HeadingKept(lim: Limits, p: Packer, pieces: seq<string>)
    ensures WithPieces(lim, p, pieces).open.heading == p.open.heading
  {
    if pieces != [] {
      HeadingKept(lim, p, pieces[..|pieces| - 1]);
    }
  }

  /** The packing loop over the paragraphs of a document. */
  method Pack(limits: Limits, document: Document, blocks: seq<Block>) returns (chunks: seq<Chunk>)
    ensures chunks == Chunked(limits, document, blocks)
  {
    var assembly := new Assembly(document, limits);
    var currentHeading := document.title;
    ghost var p := Packer([], Layout(document.title, "", []));
    for i := 0 to |blocks|
      invariant fresh(assembly) && assembly.document == document && assembly.limits == limits
      invariant p == WithBlocks(limits, document.title, blocks[..i])
      invariant assembly.Represents(p) && currentHeading == p.open.heading
    {
      var heading, text := blocks[i].heading, blocks[i].text;
      assert blocks[..i + 1][..i] == blocks[..i];
      if heading != currentHeading {
        assembly.Flush(currentHeading, p);
        assembly.StartSection(heading, Flushed(limits, p));
        currentHeading := heading;
      }
      ghost var q := UnderHeading(limits, p, heading);
      assembly.MakeRoom(currentHeading, |text|, q);
      q := MadeRoom(limits, q, |text|);
      var pieces := SplitOversized(limits.maxChars, text);
      assembly.AppendAll(currentHeading, pieces, text, q);
      p := WithPieces(limits, q, pieces);
      HeadingKept(limits, q, pieces);
    }
    assert blocks[..|blocks|] == blocks;
    assembly.Flush(currentHeading, p);
    chunks := assembly.chunks;
  }

  // ------------------------------------------------- nothing lost or repeated

  /** A piece together with the heading it stands under. */
  type Tagged = (string, string)

  function Tag(heading: string, pieces: seq<string>): (tagged: seq<Tagged>)
    ensures |tagged| == |pieces|
    ensures forall i | 0 <= i < |pieces| :: tagged[i] == (heading, pieces[i])
  {
    seq(|pieces|, i requires 0 <= i < |pieces| => (heading, pieces[i]))
  }

  /** The pieces new in each chunk, chunk after chunk. */
  function NewPieces(layouts: seq<Layout>): seq<Tagged> {
    if layouts == [] then []
    else
      var last := layouts[|layouts| - 1];
      NewPieces(layouts[..|layouts| - 1]) + Tag(last.heading, last.added)
  }

  /** The pieces of the document, block after block. */
  function DocumentPieces(max: int, blocks: seq<Block>): seq<Tagged> {
    if blocks == [] then []
    else
      var last := blocks[|blocks| - 1];
      DocumentPieces(max, blocks[..|blocks| - 1]) + Tag(last.heading, Pieces(max, last.text))
  }

  function PiecesIn(p: Packer): seq<Tagged> {
    NewPieces(p.done) + Tag(p.open.heading, p.open.added)
  }

  lemma FlushKeepsPieces(lim: Limits, p: Packer)
    ensures PiecesIn(Flushed(lim, p)) == PiecesIn(p)
    ensures NewPieces(Flushed(lim, p).done) == PiecesIn(p)
  {
    assert (p.done + [p.open])[..|p.done|] == p.done;
    if p.open.Parts() == [] {
      assert p.open.added == [];
    }
  }

  lemma PieceIsAdded(lim: Limits, p: Packer, piece: string)
    ensures PiecesIn(WithPiece(lim, p, piece)) == PiecesIn(p) + Tag(p.open.heading, [piece])
  {
    FlushKeepsPieces(lim, p);
    AddedAtTheEnd(MadeRoom(lim, p, |piece|), piece);
  }

  lemma AddedAtTheEnd(q: Packer, piece: string)
    ensures PiecesIn(q.(open := q.open.(added := q.open.added + [piece]))) == PiecesIn(q) + Tag(q.open.heading, [piece])
  {
    var added := q.open.added;
    assert (added + [piece])[..|added|] == added;
    TagSplits(q.open.heading, added + [piece], |added|);
    Regroup(NewPieces(q.done), Tag(q.open.heading, added), Tag(q.open.heading, [piece]));
  }

  lemma {:induction false} PiecesAreAdded(lim: Limits, p: Packer, pieces: seq<string>)
    ensures PiecesIn(WithPieces(lim, p, pieces)) == PiecesIn(p) + Tag(p.open.heading, pieces)
  {
    if pieces != [] {
      var n := |pieces| - 1;
      PiecesAreAdded(lim, p, pieces[..n]);
      HeadingKept(lim, p, pieces[..n]);
      PieceIsAdded(lim, WithPieces(lim, p, pieces[..n]), pieces[n]);
      TagSplits(p.open.heading, pieces, n);
      Regroup(PiecesIn(p), Tag(p.open.heading, pieces[..n]), Tag(p.open.heading, [pieces[n]]));
    }
  }

  lemma TagSplits(heading: string, pieces: seq<string>, n: nat)
    requires n + 1 == |pieces|
    ensures Tag(heading, pieces) == Tag(heading, pieces[..n]) + Tag(heading, [pieces[n]])
  {
  }

  lemma BlockIsAdded(lim: Limits, p: Packer, block: Block)
    ensures PiecesIn(WithBlock(lim, p, block)) == PiecesIn(p) + Tag(block.heading, Pieces(lim.maxChars, block.text))
  {
    FlushKeepsPieces(lim, p);
    var q := UnderHeading(lim, p, block.heading);
    assert PiecesIn(q) == PiecesIn(p);
    FlushKeepsPieces(lim, q);
    PiecesAreAdded(lim, MadeRoom(lim, q, |block.text|), Pieces(lim.maxChars, block.text));
  }

  lemma {:induction false} BlocksAreAdded(lim: Limits, title: string, blocks: seq<Block>)
    ensures PiecesIn(WithBlocks(lim, title, blocks)) == DocumentPieces(lim.maxChars, blocks)
  {
    if blocks != [] {
      BlocksAreAdded(lim, title, blocks[..|blocks| - 1]);
      BlockIsAdded(lim, WithBlocks(lim, title, blocks[..|blocks| - 1]), blocks[|blocks| - 1]);
    }
  }

  function Texts(pieces: seq<Tagged>): (ts: seq<string>)
    ensures |ts| == |pieces|
    ensures forall i | 0 <= i < |pieces| :: ts[i] == pieces[i].1
  {
    seq(|pieces|, i requires 0 <= i < |pieces| => pieces[i].1)
  }

  function BlockTexts(blocks: seq<Block>): (ts: seq<string>)
    ensures |ts| == |blocks|
    ensures forall i | 0 <= i < |blocks| :: ts[i] == blocks[i].text
  {
    seq(|blocks|, i requires 0 <= i < |blocks| => blocks[i].text)
  }

  lemma TextsOfTagged(before: seq<Tagged>, heading: string, pieces: seq<string>)
    ensures Texts(before + Tag(heading, pieces)) == Texts(before) + pieces
  {
  }

  lemma BlockTextsStep(blocks: seq<Block>)
    requires blocks != []
    ensures BlockTexts(blocks) == BlockTexts(blocks[..|blocks| - 1]) + [blocks[|blocks| - 1].text]
  {
  }

  lemma {:induction false} PiecesKeepWords(max: int, blocks: seq<Block>)
    ensures WordsOfAll(Texts(DocumentPieces(max, blocks))) == WordsOfAll(BlockTexts(blocks))
  {
    if blocks == [] {
      assert Texts([]) == [] && BlockTexts([]) == [];
    } else {
      var n := |blocks| - 1;
      PiecesKeepWords(max, blocks[..n]);
      TextsOfTagged(DocumentPieces(max, blocks[..n]), blocks[n].heading, Pieces(max, blocks[n].text));
      BlockTextsStep(blocks);
      BlockKeepsWords(max, Texts(DocumentPieces(max, blocks[..n])), BlockTexts(blocks[..n]), blocks[n].text);
    }
  }

  lemma BlockKeepsWords(max: int, pieces: seq<string>, texts: seq<string>, text: string)
    requires Trimmed(text) && WordsOfAll(pieces) == WordsOfAll(texts)
    ensures WordsOfAll(pieces + Pieces(max, text)) == WordsOfAll(texts + [text])
  {
    PiecesFacts(max, text, LongestOf(Sentences(text)));
    WordsOfAllAppend(pieces, Pieces(max, text));
    WordsOfAllAppend(texts, [text]);
    WordsOfAllCons(text, []);
  }

  /**
   Chunking conserves the document: the new pieces of all chunks are exactly the
   pieces of all paragraphs, in order and under their headings, and hold exactly
   the document's words.
   */
  lemma ChunkingConserves(lim: Limits, title: string, blocks: seq<Block>)
    ensures NewPieces(Layouts(lim, title, blocks)) == DocumentPieces(lim.maxChars, blocks)
    ensures WordsOfAll(Texts(NewPieces(Layouts(lim, title, blocks)))) == WordsOfAll(BlockTexts(blocks))
  {
    BlocksAreAdded(lim, title, blocks);
    FlushKeepsPieces(lim, WithBlocks(lim, title, blocks));
    PiecesKeepWords(lim.maxChars, blocks);
  }

  // -------------------------------------------- trimmed parts, carried tails

  /** What a chunk under a heading carries over from the chunks before it. */
  function Carry(lim: Limits, done: seq<Layout>, heading: string): string {
    if done != [] && done[|done| - 1].heading == heading then OverlapTail(lim, done[|done| - 1].Body()) else ""
  }

  ghost predicate WellCarried(lim: Limits, p: Packer) {
    && PartsTrimmed(p.open)
    && p.open.carried == Carry(lim, p.done, p.open.heading)
    && forall i | 0 <= i < |p.done| ::
         && PartsTrimmed(p.done[i]) && p.done[i].Parts() != []
         && p.done[i].carried == Carry(lim, p.done[..i], p.done[i].heading)
  }

  lemma FlushCarries(lim: Limits, p: Packer)
    requires WellCarried(lim, p)
    ensures WellCarried(lim, Flushed(lim, p))
  {
    FlushKeepsTrimmed(lim, p);
    if p.open.Parts() != [] {
      PrefixesOf(p.done, p.open);
    }
  }

  lemma PrefixesOf<T>(xs: seq<T>, x: T)
    ensures forall i | 0 <= i <= |xs| :: (xs + [x])[..i] == xs[..i]
    ensures xs[..|xs|] == xs
  {
  }

  lemma PieceCarries(lim: Limits, p: Packer, piece: string)
    requires WellCarried(lim, p) && Trimmed(piece)
    ensures WellCarried(lim, WithPiece(lim, p, piece))
  {
    RoomCarries(lim, p, |piece|);
    AddedCarries(lim, MadeRoom(lim, p, |piece|), piece);
  }

  lemma RoomCarries(lim: Limits, p: Packer, extra: nat)
    requires WellCarried(lim, p)
    ensures WellCarried(lim, MadeRoom(lim, p, extra))
  {
    FlushCarries(lim, p);
  }

  lemma AddedCarries(lim: Limits, q: Packer, piece: string)
    requires WellCarried(lim, q) && Trimmed(piece)
    ensures WellCarried(lim, q.(open := q.open.(added := q.open.added + [piece])))
  {
  }

  lemma HeadingCarries(lim: Limits, p: Packer, heading: string)
    requires WellCarried(lim, p) && Started(p)
    ensures WellCarried(lim, UnderHeading(lim, p, heading))
  {
    FlushCarries(lim, p);
    if heading != p.open.heading {
      FreshSectionCarries(lim, Flushed(lim, p), heading);
    }
  }

  lemma FreshSectionCarries(lim: Limits, q: Packer, heading: string)
    requires WellCarried(lim, q) && (q.done == [] || q.done[|q.done| - 1].heading != heading)
    ensures WellCarried(lim, Packer(q.done, Layout(heading, "", [])))
  {
  }

  lemma {:induction false} PiecesCarry(lim: Limits, p: Packer, pieces: seq<string>)
    requires WellCarried(lim, p) && forall x | x in pieces :: Trimmed(x)
    ensures WellCarried(lim, WithPieces(lim, p, pieces))
    ensures pieces != [] ==> WithPieces(lim, p, pieces).open.added != []
  {
    if pieces != [] {
      var n := |pieces| - 1;
      PiecesCarry(lim, p, pieces[..n]);
      assert pieces[n] in pieces;
      PieceCarries(lim, WithPieces(lim, p, pieces[..n]), pieces[n]);
    }
  }

  /** Either nothing was packed yet, or the open chunk has a piece of its own. */
  predicate Started(p: Packer) {
    p.open.added != [] || p.done == []
  }

  lemma BlockCarries(lim: Limits, p: Packer, block: Block)
    requires WellCarried(lim, p) && Started(p)
    ensures WellCarried(lim, WithBlock(lim, p, block)) && Started(WithBlock(lim, p, block))
  {
    var q := UnderHeading(lim, p, block.heading);
    HeadingCarries(lim, p, block.heading);
    RoomCarries(lim, q, |block.text|);
    PiecesFacts(lim.maxChars, block.text, LongestOf(Sentences(block.text)));
    PiecesCarry(lim, MadeRoom(lim, q, |block.text|), Pieces(lim.maxChars, block.text));
  }

  lemma {:induction false} BlocksCarry(lim: Limits, title: string, blocks: seq<Block>)
    ensures WellCarried(lim, WithBlocks(lim, title, blocks)) && Started(WithBlocks(lim, title, blocks))
  {
    if blocks != [] {
      BlocksCarry(lim, title, blocks[..|blocks| - 1]);
      BlockCarries(lim, WithBlocks(lim, title, blocks[..|blocks| - 1]), blocks[|blocks| - 1]);
    }
  }

  /**
   Every chunk starts with exactly the overlap of the chunk before it when they
   share a heading, and with nothing carried otherwise; what is carried is the
   end of the previous body.
   */
  lemma ChunksCarryTheOverlap(lim: Limits, title: string, blocks: seq<Block>, i: nat)
    requires i < |Layouts(lim, title, blocks)|
    ensures var ls := Layouts(lim, title, blocks);
            && (if i > 0 && ls[i - 1].heading == ls[i].heading
                then ls[i].carried == OverlapTail(lim, ls[i - 1].Body()) && Suffix(ls[i].carried, ls[i - 1].Body())
                else ls[i].carried == "")
            && Trimmed(ls[i].Body())
  {
    BlocksCarry(lim, title, blocks);
    FlushCarries(lim, WithBlocks(lim, title, blocks));
    CarriedMeaning(lim, Flushed(lim, WithBlocks(lim, title, blocks)), i);
  }

  lemma CarriedMeaning(lim: Limits, p: Packer, i: nat)
    requires WellCarried(lim, p) && i < |p.done|
    ensures var ls := p.done;
            && (if i > 0 && ls[i - 1].heading == ls[i].heading
                then ls[i].carried == OverlapTail(lim, ls[i - 1].Body()) && Suffix(ls[i].carried, ls[i - 1].Body())
                else ls[i].carried == "")
            && Trimmed(ls[i].Body())
  {
    BodyTrimmed(p.done[i]);
    if i > 0 {
      assert p.done[..i][i - 1] == p.done[i - 1];
      BodyTrimmed(p.done[i - 1]);
      OverlapIsSuffix(lim, p.done[i - 1].Body());
    }
  }

  // ------------------------------------------------------ chunks of carried text

  /** From chunk n on, some chunk has no piece of its own. */
  ghost predicate SomeBare(done: seq<Layout>, n: nat) {
    exists i :: n <= i < |done| && done[i].added == []
  }

  /**
   Two flushes in a row: the paragraph does not fit into its section's open chunk,
   and the first piece does not fit after the tail that is carried over either.
   */
  predicate FlushesTwice(lim: Limits, p: Packer, block: Block) {
    var pieces, tail := Pieces(lim.maxChars, block.text), OverlapTail(lim, p.open.Body());
    && block.heading == p.open.heading && Overflows(lim, p, |block.text|)
    && tail != "" && pieces != [] && |tail| + |pieces[0]| > lim.maxChars
  }

  lemma {:induction false} LaterPiecesAreNotBare(lim: Limits, p: Packer, pieces: seq<string>)
    requires p.open.added != []
    ensures var q := WithPieces(lim, p, pieces);
            && q.open.added != [] && p.done <= q.done
            && forall i | |p.done| <= i < |q.done| :: q.done[i].added != []
  {
    if pieces != [] {
      LaterPiecesAreNotBare(lim, p, pieces[..|pieces| - 1]);
    }
  }

  /** Packing pieces from the front. */
  lemma {:induction false} PiecesFront(lim: Limits, p: Packer, pieces: seq<string>)
    requires pieces != []
    ensures WithPieces(lim, p, pieces) == WithPieces(lim, WithPiece(lim, p, pieces[0]), pieces[1..])
  {
    var n := |pieces| - 1;
    if n > 0 {
      PiecesFront(lim, p, pieces[..n]);
      FrontThenBack(pieces);
    } else {
      assert pieces[..0] == [] && pieces[1..] == [];
    }
  }

  lemma FrontThenBack<T>(xs: seq<T>)
    requires |xs| > 1
    ensures var n := |xs| - 1; xs[..n][0] == xs[0] && xs[..n][1..] == xs[1..][..n - 1] && xs[1..][n - 1] == xs[n]
  {
  }

  /** Only the first piece after a flush can close a chunk of carried text alone. */
  lemma PiecesAreBareIff(lim: Limits, q: Packer, pieces: seq<string>)
    requires pieces != []
    ensures SomeBare(WithPieces(lim, q, pieces).done, |q.done|)
            <==> q.open.added == [] && Overflows(lim, q, |pieces[0]|)
    ensures q.done <= WithPieces(lim, q, pieces).done
  {
    var first := WithPiece(lim, q, pieces[0]);
    PiecesFront(lim, q, pieces);
    LaterPiecesAreNotBare(lim, first, pieces[1..]);
    var all := WithPieces(lim, first, pieces[1..]);
    if Overflows(lim, q, |pieces[0]|) {
      assert first.done == q.done + [q.open] && all.done[|q.done|] == q.open;
    }
  }

  /** A paragraph closes a chunk of carried text alone exactly if it flushes twice. */
  lemma BareIff(lim: Limits, p: Packer, block: Block)
    requires WellCarried(lim, p) && Started(p)
    ensures SomeBare(WithBlock(lim, p, block).done, |p.done|) <==> FlushesTwice(lim, p, block)
    ensures p.done <= WithBlock(lim, p, block).done
  {
    var pieces := Pieces(lim.maxChars, block.text);
    var r := MadeRoom(lim, UnderHeading(lim, p, block.heading), |block.text|);
    PiecesFacts(lim.maxChars, block.text, LongestOf(Sentences(block.text)));
    RoomIsNotBare(lim, p, block);
    PiecesAreBareIff(lim, r, pieces);
    BareSplitsFrom(r.done, WithPieces(lim, r, pieces).done, |p.done|);
    OneLength(r.open.carried);
  }

  lemma BareSplitsFrom(p: seq<Layout>, q: seq<Layout>, n: nat)
    requires p <= q && n <= |p| && forall i | n <= i < |p| :: p[i].added != []
    ensures SomeBare(q, n) <==> SomeBare(q, |p|)
  {
  }

  /** Making room closes no bare chunk, and leaves one behind exactly for a carried tail. */
  lemma RoomIsNotBare(lim: Limits, p: Packer, block: Block)
    requires WellCarried(lim, p) && Started(p)
    ensures var r := MadeRoom(lim, UnderHeading(lim, p, block.heading), |block.text|);
            && p.done <= r.done && (forall i | |p.done| <= i < |r.done| :: r.done[i].added != [])
            && (r.open.added == [] && r.open.carried != ""
                <==> block.heading == p.open.heading && Overflows(lim, p, |block.text|)
                     && OverlapTail(lim, p.open.Body()) != "")
            && (r.open.added == [] && r.open.carried != "" ==> r.open.carried == OverlapTail(lim, p.open.Body()))
  {
  }

  /** A document has a chunk of carried text alone exactly if some paragraph flushes twice. */
  lemma {:induction false} BareChunksIff(lim: Limits, title: string, blocks: seq<Block>)
    ensures SomeBare(Layouts(lim, title, blocks), 0)
            <==> exists n :: 0 <= n < |blocks| && TwiceAt(lim, title, blocks, n)
  {
    BareSoFarIff(lim, title, blocks);
    BlocksCarry(lim, title, blocks);
    var p := WithBlocks(lim, title, blocks);
    if p.open.Parts() != [] {
      LastIsNotBare(p.done, p.open);
    }
  }

  lemma LastIsNotBare(done: seq<Layout>, open: Layout)
    requires open.added != [] || done == []
    requires open.Parts() != [] && (done == [] ==> open.carried == "")
    ensures SomeBare(done + [open], 0) <==> SomeBare(done, 0)
  {
    if i :| 0 <= i < |done| && done[i].added == [] {
      assert (done + [open])[i].added == [];
    }
    if i :| 0 <= i <= |done| && (done + [open])[i].added == [] {
      assert i < |done| && done[i].added == [];
    }
  }

  lemma TwiceInFront(lim: Limits, title: string, blocks: seq<Block>)
    requires blocks != []
    ensures forall k | 0 <= k < |blocks| - 1 ::
              TwiceAt(lim, title, blocks[..|blocks| - 1], k) == TwiceAt(lim, title, blocks, k)
  {
    forall k | 0 <= k < |blocks| - 1
      ensures TwiceAt(lim, title, blocks[..|blocks| - 1], k) == TwiceAt(lim, title, blocks, k)
    {
      assert blocks[..|blocks| - 1][..k] == blocks[..k];
    }
  }

  lemma {:induction false} BareSoFarIff(lim: Limits, title: string, blocks: seq<Block>)
    ensures SomeBare(WithBlocks(lim, title, blocks).done, 0)
            <==> exists n :: 0 <= n < |blocks| && TwiceAt(lim, title, blocks, n)
  {
    if blocks != [] {
      var n := |blocks| - 1;
      BareSoFarIff(lim, title, blocks[..n]);
      BareBack(lim, title, blocks);
      TwiceInFront(lim, title, blocks);
      hide TwiceAt, SomeBare, WithBlocks;
      OneMoreTwice(lim, title, blocks);
    }
  }

  lemma BareBack(lim: Limits, title: string, blocks: seq<Block>)
    requires blocks != []
    ensures var n := |blocks| - 1;
            SomeBare(WithBlocks(lim, title, blocks).done, 0)
            <==> SomeBare(WithBlocks(lim, title, blocks[..n]).done, 0) || TwiceAt(lim, title, blocks, n)
  {
    var n := |blocks| - 1;
    var p := WithBlocks(lim, title, blocks[..n]);
    BlocksCarry(lim, title, blocks[..n]);
    BareIff(lim, p, blocks[n]);
    BareSplits(p.done, WithBlock(lim, p, blocks[n]).done);
  }

  /** Paragraph n of a document flushes twice. */
  predicate TwiceAt(lim: Limits, title: string, blocks: seq<Block>, n: nat)
    requires n < |blocks|
  {
    FlushesTwice(lim, WithBlocks(lim, title, blocks[..n]), blocks[n])
  }

  lemma OneMoreTwice(lim: Limits, title: string, blocks: seq<Block>)
    requires blocks != []
    requires var n := |blocks| - 1;
             forall k | 0 <= k < n :: TwiceAt(lim, title, blocks[..n], k) == TwiceAt(lim, title, blocks, k)
    ensures var n := |blocks| - 1;
            (exists k :: 0 <= k < |blocks| && TwiceAt(lim, title, blocks, k))
            <==> (exists k :: 0 <= k < n && TwiceAt(lim, title, blocks[..n], k)) || TwiceAt(lim, title, blocks, n)
  {
  }

  lemma BareSplits(p: seq<Layout>, q: seq<Layout>)
    requires p <= q
    ensures SomeBare(q, 0) <==> SomeBare(p, 0) || SomeBare(q, |p|)
  {
  }

  // -------------------------------------------------------------- size bounds

  lemma {:induction false} JoinedLength(parts: seq<string>)
    requires parts != []
    ensures |Join(parts, "\n\n")| == TotalLength(parts) + 2 * (|parts| - 1)
  {
    var n := |parts| - 1;
    if n > 0 {
      JoinedLength(parts[..n]);
      JoinAppend(parts[..n], parts[n], "\n\n");
      assert parts[..n] + [parts[n]] == parts;
    }
  }

  lemma {:induction false} PartsAreShort(parts: seq<string>)
    requires forall i | 0 <= i < |parts| :: parts[i] != ""
    ensures |parts| <= TotalLength(parts)
  {
    if parts != [] {
      PartsAreShort(parts[..|parts| - 1]);
    }
  }

  lemma TotalOfTwo(parts: seq<string>, p: string)
    ensures TotalLength(parts + [p]) == TotalLength(parts) + |p|
  {
    assert (parts + [p])[..|parts|] == parts;
  }

  /** How many tails a chunk may start with. */
  function Tails(lim: Limits): nat {
    if lim.overlapChars > 0 then 1 else 0
  }

  /** A buffer is within the limit, or a forced piece after at most a carried tail. */
  ghost predicate Sized(lim: Limits, longest: int, l: Layout) {
    var total := TotalLength(l.Parts());
    || total <= lim.maxChars
    || l.Parts() == []
    || (|l.Parts()| <= Tails(lim) + 1 && total <= Max(0, lim.overlapChars) + longest)
  }

  ghost predicate AllSized(lim: Limits, longest: int, p: Packer) {
    Sized(lim, longest, p.open) && forall i | 0 <= i < |p.done| :: Sized(lim, longest, p.done[i])
  }

  lemma FlushSizes(lim: Limits, longest: int, p: Packer)
    requires AllSized(lim, longest, p) && WellCarried(lim, p)
    ensures AllSized(lim, longest, Flushed(lim, p))
    ensures p.open.Parts() != [] ==>
              var parts := Flushed(lim, p).open.Parts();
              |parts| <= Tails(lim) && TotalLength(parts) <= Max(0, lim.overlapChars)
  {
    if p.open.Parts() != [] {
      BodyTrimmed(p.open);
      OverlapIsSuffix(lim, p.open.Body());
      OneLength(Flushed(lim, p).open.carried);
    }
  }

  lemma PieceSizes(lim: Limits, longest: int, p: Packer, piece: string)
    requires AllSized(lim, longest, p) && WellCarried(lim, p) && Trimmed(piece) && |piece| <= longest
    ensures AllSized(lim, longest, WithPiece(lim, p, piece))
  {
    RoomSizes(lim, longest, p, |piece|);
    AddedSizes(lim, longest, MadeRoom(lim, p, |piece|), piece);
  }

  /** There is room for a piece if it fits, or nothing but a carried tail is in its way. */
  predicate Roomy(lim: Limits, parts: seq<string>, extra: nat) {
    || TotalLength(parts) + extra <= lim.maxChars
    || (|parts| <= Tails(lim) && TotalLength(parts) <= Max(0, lim.overlapChars))
  }

  lemma RoomSizes(lim: Limits, longest: int, p: Packer, extra: nat)
    requires AllSized(lim, longest, p) && WellCarried(lim, p)
    ensures AllSized(lim, longest, MadeRoom(lim, p, extra))
    ensures Roomy(lim, MadeRoom(lim, p, extra).open.Parts(), extra)
  {
    if Overflows(lim, p, extra) {
      FlushSizes(lim, longest, p);
    }
  }

  lemma AddedSizes(lim: Limits, longest: int, q: Packer, piece: string)
    requires AllSized(lim, longest, q) && Roomy(lim, q.open.Parts(), |piece|) && |piece| <= longest
    ensures AllSized(lim, longest, q.(open := q.open.(added := q.open.added + [piece])))
  {
    TotalOfTwo(q.open.Parts(), piece);
    PartsGrow(q.open, piece);
  }

  lemma {:induction false} PiecesSize(lim: Limits, longest: int, p: Packer, pieces: seq<string>)
    requires AllSized(lim, longest, p) && WellCarried(lim, p)
    requires forall x | x in pieces :: Trimmed(x) && |x| <= longest
    ensures AllSized(lim, longest, WithPieces(lim, p, pieces))
  {
    if pieces != [] {
      var n := |pieces| - 1;
      PiecesSize(lim, longest, p, pieces[..n]);
      PiecesCarry(lim, p, pieces[..n]);
      assert pieces[n] in pieces;
      PieceSizes(lim, longest, WithPieces(lim, p, pieces[..n]), pieces[n]);
    }
  }

  /** No piece of any paragraph is longer than this. */
  ghost predicate LongestPiece(lim: Limits, blocks: seq<Block>, longest: int) {
    forall b, x | b in blocks && x in Pieces(lim.maxChars, b.text) :: |x| <= longest
  }

  lemma BlockSizes(lim: Limits, longest: int, p: Packer, block: Block)
    requires AllSized(lim, longest, p) && WellCarried(lim, p) && Started(p)
    requires forall x | x in Pieces(lim.maxChars, block.text) :: |x| <= longest
    ensures AllSized(lim, longest, WithBlock(lim, p, block))
  {
    FlushSizes(lim, longest, p);
    FlushCarries(lim, p);
    var q := UnderHeading(lim, p, block.heading);
    FlushSizes(lim, longest, q);
    FlushCarries(lim, q);
    PiecesTrimmed(lim.maxChars, block.text);
    PiecesSize(lim, longest, MadeRoom(lim, q, |block.text|), Pieces(lim.maxChars, block.text));
  }

  lemma {:induction false} BlocksSize(lim: Limits, longest: int, title: string, blocks: seq<Block>)
    requires LongestPiece(lim, blocks, longest)
    ensures AllSized(lim, longest, WithBlocks(lim, title, blocks))
  {
    if blocks != [] {
      var n := |blocks| - 1;
      BlocksSize(lim, longest, title, blocks[..n]);
      BlocksCarry(lim, title, blocks[..n]);
      assert blocks[n] in blocks;
      BlockSizes(lim, longest, WithBlocks(lim, title, blocks[..n]), blocks[n]);
    }
  }

  /**
   The size of a chunk body, joins included: three times the limit less two, or
   the longest piece, after the overlap and one join if there is an overlap.
   */
  function BodyBound(lim: Limits, longest: int): int {
    Max(3 * lim.maxChars - 2, if lim.overlapChars > 0 then lim.overlapChars + 2 + longest else longest)
  }

  /** No body exceeds its bound, for any document. */
  lemma BodiesAreBounded(lim: Limits, title: string, blocks: seq<Block>, longest: int, i: nat)
    requires LongestPiece(lim, blocks, longest) && i < |Layouts(lim, title, blocks)|
    ensures |Layouts(lim, title, blocks)[i].Body()| <= BodyBound(lim, longest)
  {
    BlocksSize(lim, longest, title, blocks);
    BlocksCarry(lim, title, blocks);
    FlushSizes(lim, longest, WithBlocks(lim, title, blocks));
    FlushCarries(lim, WithBlocks(lim, title, blocks));
    BodyIsBounded(lim, longest, Layouts(lim, title, blocks)[i]);
  }

  lemma BodyIsBounded(lim: Limits, longest: int, l: Layout)
    requires Sized(lim, longest, l) && PartsTrimmed(l) && l.Parts() != []
    ensures |l.Body()| <= BodyBound(lim, longest)
  {
    JoinedLength(l.Parts());
    PartsAreNotEmpty(l);
    PartsAreShort(l.Parts());
    JoinsFit(lim, longest, TotalLength(l.Parts()), |l.Parts()|);
  }

  lemma JoinsFit(lim: Limits, longest: int, total: nat, n: nat)
    requires 0 < n <= total
    requires total <= lim.maxChars || (n <= Tails(lim) + 1 && total <= Max(0, lim.overlapChars) + longest)
    ensures total + 2 * (n - 1) <= BodyBound(lim, longest)
  {
  }

  lemma PartsAreNotEmpty(l: Layout)
    requires PartsTrimmed(l)
    ensures forall i | 0 <= i < |l.Parts()| :: l.Parts()[i] != ""
  {
    forall i | 0 <= i < |l.Parts()| ensures l.Parts()[i] != "" {
      if l.carried == "" || i > 0 {
        var k := if l.carried == "" then i else i - 1;
        assert l.Parts()[i] == l.added[k] && Trimmed(l.added[k]);
      }
    }
  }

  // ------------------------------------------------- documents that reach it

  /** A paragraph of one word. */
  function Letters(c: char, n: nat): (s: string)
    ensures |s| == n && forall i | 0 <= i < n :: s[i] == c
  {
    seq(n, _ => c)
  }

  /** Paragraphs without a heading. */
  function Plain(texts: seq<string>): (blocks: seq<Block>)
    requires forall t | t in texts :: Trimmed(t)
    ensures |blocks| == |texts| && forall i | 0 <= i < |texts| :: blocks[i] == RawBlock("", texts[i])
  {
    seq(|texts|, i requires 0 <= i < |texts| =>
      assert texts[i] in texts;
      RawBlock("", texts[i]))
  }

  /** Open chunks that carry nothing. */
  function Holding(done: seq<Layout>, added: seq<string>): Packer {
    Packer(done, Layout("", "", added))
  }

  lemma NothingCarried(added: seq<string>)
    ensures Layout("", "", added).Parts() == added
  {
  }

  /** A word is one piece, whatever the limit, and carried whole if it is no longer than the overlap. */
  lemma WordIsOnePiece(lim: Limits, w: string)
    requires IsWord(w)
    ensures Trimmed(w) && Pieces(lim.maxChars, w) == [w]
    ensures lim.overlapChars > 0 && |w| <= lim.overlapChars ==> OverlapTail(lim, w) == w
  {
    assert NextBoundary(w, 1) == |w| && Sentences(w) == [w];
    StripTrimmed(w);
    WordIsPacked(lim.maxChars, w);
    assert w[0..] == w;
  }

  lemma WordIsPacked(max: int, w: string)
    requires IsWord(w)
    ensures Packed(max, "", [w]) == [w]
  {
    StripOfBlank(w);
    assert [w][1..] == [] && Grown("", w) == w + " ";
    assert Packed(max, w + " ", []) == Closed(w + " ") == [w];
  }

  lemma StripOfBlank(w: string)
    requires IsWord(w)
    ensures Strip(w + " ") == w
  {
    EndsInBlank(w);
    assert !Space((w + " ")[0]) && Space(' ');
    assert StripRight(w) == w;
  }

  /** The first paragraph, whatever the title. */
  lemma FirstWord(lim: Limits, title: string, w: string)
    requires IsWord(w) && Trimmed(w)
    ensures WithBlocks(lim, title, Plain([w])) == Holding([], [w])
  {
    var start := Packer([], Layout(title, "", []));
    assert UnderHeading(lim, start, "") == Holding([], []);
    WordJoins(lim, start, [], w);
    assert Plain([w])[..0] == [] && [] + [w] == [w];
  }

  /** A word that finds the open chunk empty, or fits into it, joins it. */
  lemma WordJoins(lim: Limits, p: Packer, added: seq<string>, w: string)
    requires IsWord(w) && Trimmed(w) && UnderHeading(lim, p, "") == Holding([], added)
    requires added == [] || TotalLength(added) + |w| <= lim.maxChars
    ensures WithBlock(lim, p, RawBlock("", w)) == Holding([], added + [w])
  {
    WordIsOnePiece(lim, w);
    NothingCarried(added);
    OnePiece(lim, Holding([], added), w);
  }

  lemma OnePiece(lim: Limits, p: Packer, w: string)
    ensures WithPieces(lim, p, [w]) == WithPiece(lim, p, w)
  {
    assert [w][..0] == [];
  }

  function OneLetterWords(n: nat): (texts: seq<string>)
    ensures |texts| == n && forall i | 0 <= i < n :: texts[i] == "a"
  {
    seq(n, _ => "a")
  }

  lemma {:induction false} OneLetterWordsLength(n: nat)
    ensures TotalLength(OneLetterWords(n)) == n
  {
    if n > 0 {
      OneLetterWordsLength(n - 1);
      assert OneLetterWords(n)[..n - 1] == OneLetterWords(n - 1);
    }
  }

  lemma {:induction false} OneLetterWordsShareAChunk(lim: Limits, title: string, n: nat)
    requires 1 <= n <= lim.maxChars
    ensures WithBlocks(lim, title, Plain(OneLetterWords(n))) == Holding([], OneLetterWords(n))
  {
    hide WithBlocks, WithBlock, TotalLength;
    if n == 1 {
      assert OneLetterWords(1) == ["a"];
      FirstWord(lim, title, "a");
    } else {
      OneLetterWordsShareAChunk(lim, title, n - 1);
      OneLetterWordsLength(n - 1);
      OneMoreLetter(lim, title, OneLetterWords(n - 1), "a");
      assert OneLetterWords(n) == OneLetterWords(n - 1) + ["a"];
    }
  }

  lemma OneMoreLetter(lim: Limits, title: string, before: seq<string>, letter: string)
    requires |letter| == 1 && Trimmed(letter) && forall t | t in before :: Trimmed(t)
    requires TotalLength(before) < lim.maxChars && WithBlocks(lim, title, Plain(before)) == Holding([], before)
    ensures WithBlocks(lim, title, Plain(before + [letter])) == Holding([], before + [letter])
  {
    hide WithBlocks, WithBlock;
    WordJoins(lim, Holding([], before), before, letter);
    PlainBack(lim, title, before, letter);
  }

  lemma PlainBack(lim: Limits, title: string, texts: seq<string>, w: string)
    requires Trimmed(w) && forall t | t in texts :: Trimmed(t)
    ensures WithBlocks(lim, title, Plain(texts + [w]))
            == WithBlock(lim, WithBlocks(lim, title, Plain(texts)), RawBlock("", w))
  {
    assert Plain(texts + [w]) == Plain(texts) + [RawBlock("", w)];
    BlocksBack(lim, title, Plain(texts), RawBlock("", w));
  }

  lemma BlocksBack(lim: Limits, title: string, blocks: seq<Block>, last: Block)
    ensures WithBlocks(lim, title, blocks + [last]) == WithBlock(lim, WithBlocks(lim, title, blocks), last)
  {
    assert (blocks + [last])[..|blocks|] == blocks;
  }

  /** As many one-letter paragraphs as fit make one chunk of three times the limit less two. */
  lemma OneLetterWordsReach(lim: Limits, title: string)
    requires lim.maxChars >= 1
    ensures var ls := Layouts(lim, title, Plain(OneLetterWords(lim.maxChars)));
            |ls| == 1 && |ls[0].Body()| == 3 * lim.maxChars - 2
  {
    var n := lim.maxChars;
    OneLetterWordsShareAChunk(lim, title, n);
    OneLetterWordsLength(n);
    NothingCarried(OneLetterWords(n));
    JoinedLength(OneLetterWords(n));
  }

  /** One word makes one chunk, however long it is. */
  lemma OneWordReaches(lim: Limits, title: string, w: string)
    requires IsWord(w) && Trimmed(w)
    ensures var ls := Layouts(lim, title, Plain([w])); ls == [Layout("", "", [w])] && ls[0].Body() == w
  {
    FirstWord(lim, title, w);
    NothingCarried([w]);
  }

  /**
   A word as long as the overlap, then one that does not fit after it: the first is
   carried twice, alone into the second chunk, and before the other word into the third.
   */
  lemma TwoWordsReach(lim: Limits, title: string, v: string, w: string)
    requires IsWord(v) && IsWord(w) && Trimmed(v) && Trimmed(w)
    requires |v| == lim.overlapChars && |v| + |w| > lim.maxChars
    ensures var ls := Layouts(lim, title, Plain([v, w]));
            && ls == [Layout("", "", [v]), Layout("", v, []), Layout("", v, [w])]
            && ls[2].Body() == v + "\n\n" + w
  {
    hide WithBlock, WithBlocks, IsWord;
    FirstWord(lim, title, v);
    PlainBack(lim, title, [v], w);
    SecondWord(lim, v, w);
    assert [v] + [w] == [v, w];
    CarriedBefore(v, w);
    ThirdChunk(lim, v, w);
  }

  lemma CarriedBefore(v: string, w: string)
    requires v != ""
    ensures Layout("", v, [w]).Parts() == [v, w] && Layout("", v, [w]).Body() == v + "\n\n" + w
  {
    assert [v] + [w] == [v, w] && [v, w][1..] == [w];
    assert Join([w], "\n\n") == w;
  }

  lemma ThirdChunk(lim: Limits, v: string, w: string)
    requires v != ""
    ensures var two := [Layout("", "", [v]), Layout("", v, [])];
            Flushed(lim, Packer(two, Layout("", v, [w]))).done
            == [Layout("", "", [v]), Layout("", v, []), Layout("", v, [w])]
  {
    CarriedBefore(v, w);
  }

  lemma SecondWord(lim: Limits, v: string, w: string)
    requires IsWord(v) && IsWord(w) && Trimmed(w)
    requires |v| == lim.overlapChars && |v| + |w| > lim.maxChars
    ensures WithBlock(lim, Holding([], [v]), RawBlock("", w))
            == Packer([Layout("", "", [v]), Layout("", v, [])], Layout("", v, [w]))
  {
    WordIsOnePiece(lim, v);
    WordIsOnePiece(lim, w);
    OneLength(v);
    NothingCarried([v]);
    var once := Packer([Layout("", "", [v])], Layout("", v, []));
    assert Join([v], "\n\n") == v;
    assert MadeRoom(lim, Holding([], [v]), |w|) == once;
    assert once.open.Parts() == [v];
    OnePiece(lim, once, w);
  }

  /** Pieces exceed the limit only where a single sentence does. */
  lemma PiecesAreBounded(lim: Limits, blocks: seq<Block>, longestSentence: int)
    requires forall b | b in blocks :: SentencesWithin(b.text, longestSentence)
    ensures LongestPiece(lim, blocks, Max(lim.maxChars, longestSentence))
  {
    forall b, x | b in blocks && x in Pieces(lim.maxChars, b.text)
      ensures |x| <= Max(lim.maxChars, longestSentence)
    {
      PiecesFacts(lim.maxChars, b.text, longestSentence);
    }
  }
}
