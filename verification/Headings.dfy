/**
 Documents: a text is split into paragraphs at blank lines; the first line of a
 paragraph may be a markdown heading, which governs the paragraphs after it; the
 paragraphs under their headings are packed into chunks.
 */
module Headings {
  import opened Basics
  import opened Chunking
  import opened Paragraphs
  import opened SentenceSplitting
  import opened Text

  /** The characters `splitlines` breaks at. */
  predicate LineBreak(c: char) {
    var n := c as int;
    10 <= n <= 13 || 28 <= n <= 30 || n == 0x85 || n == 0x2028 || n == 0x2029
  }

  lemma LineBreaksAre(c: char)
    ensures LineBreak(c) <==> c in "\n\U{b}\U{c}\r\U{1c}\U{1d}\U{1e}\U{85}\U{2028}\U{2029}"
  {
  }

  function LineEnd(s: string): (n: nat)
    ensures n <= |s|
    ensures forall i | 0 <= i < n :: !LineBreak(s[i])
    ensures n < |s| ==> LineBreak(s[n])
  {
    if s == "" || LineBreak(s[0]) then 0 else 1 + LineEnd(s[1..])
  }

  /** A carriage return and a line feed are one break. */
  function NextLine(s: string, n: nat): (j: nat)
    requires n < |s| && LineBreak(s[n])
    ensures n < j <= |s| && forall i | n <= i < j :: LineBreak(s[i])
  {
    if s[n] == '\r' && n + 1 < |s| && s[n + 1] == '\n' then n + 2 else n + 1
  }

  function Lines(s: string): (lines: seq<string>)
    ensures s == "" <==> lines == []
    decreases |s|
  {
    if s == "" then []
    else
      var n := LineEnd(s);
      if n == |s| then [s] else [s[..n]] + Lines(s[NextLine(s, n)..])
  }

  function Hashes(s: string): (n: nat)
    ensures n <= |s| && forall i | 0 <= i < n :: s[i] == '#'
  {
    if s == "" || s[0] != '#' then 0 else 1 + Hashes(s[1..])
  }

  /** The text of a heading line: one to six marks, whitespace, the heading. */
  function HeadingText(line: string): Option<string> {
    var n := Hashes(line);
    if 1 <= n <= 6 && n < |line| && Space(line[n]) then Some(Strip(line[n..])) else None
  }

  datatype Outline = Outline(blocks: seq<Block>, heading: string)

  function WithParagraph(outline: Outline, raw: string): Outline {
    var block := Strip(raw);
    if block == "" then outline
    else
      StripShape(raw);
      var lines := Lines(block);
      match HeadingText(lines[0])
      case None => Outline(outline.blocks + [RawBlock(outline.heading, block)], outline.heading)
      case Some(heading) =>
        var remainder := Strip(Join(lines[1..], "\n"));
        StripShape(Join(lines[1..], "\n"));
        Outline(if remainder != "" then outline.blocks + [RawBlock(heading, remainder)] else outline.blocks, heading)
  }

  function OutlineOf(paragraphs: seq<string>): Outline {
    if paragraphs == [] then Outline([], "")
    else WithParagraph(OutlineOf(paragraphs[..|paragraphs| - 1]), paragraphs[|paragraphs| - 1])
  }

  /** The paragraphs of a text under their headings. */
  function BlocksOf(text: string): seq<Block> {
    OutlineOf(SplitAtBlanks(text)).blocks
  }

  method BlocksWithHeadings(text: string) returns (blocks: seq<Block>)
    ensures blocks == BlocksOf(text)
  {
    var paragraphs := SplitAtBlanks(text);
    blocks := [];
    var heading := "";
    for i := 0 to |paragraphs|
      invariant Outline(blocks, heading) == OutlineOf(paragraphs[..i])
    {
      assert paragraphs[..i + 1][..i] == paragraphs[..i];
      var block := Strip(paragraphs[i]);
      if block == "" {
        continue;
      }
      StripShape(paragraphs[i]);
      var lines := Lines(block);
      var found := HeadingText(lines[0]);
      if found.Some? {
        heading := found.value;
        var remainder := Strip(Join(lines[1..], "\n"));
        StripShape(Join(lines[1..], "\n"));
        if remainder != "" {
          blocks := blocks + [RawBlock(heading, remainder)];
        }
        continue;
      }
      blocks := blocks + [RawBlock(heading, block)];
    }
    assert paragraphs[..|paragraphs|] == paragraphs;
  }

  class ChunkingService {
    const limits: Limits

    constructor (limits: Limits)
      ensures this.limits == limits
    {
      this.limits := limits;
    }

    method Split(document: Document, text: string) returns (chunks: seq<Chunk>)
      ensures chunks == Chunked(limits, document, BlocksOf(text))
    {
      var blocks := BlocksWithHeadings(text);
      chunks := Pack(limits, document, blocks);
    }
  }

  // -------------------------------------------------------- words are conserved

  lemma LineBreaksAreSpace(s: string, n: nat, j: nat)
    requires n <= j <= |s| && forall i | n <= i < j :: LineBreak(s[i])
    ensures forall i | n <= i < j :: Space(s[i])
  {
  }

  lemma {:induction false} LinesKeepWords(s: string)
    ensures WordsOfAll(Lines(s)) == Words(s)
    decreases |s|
  {
    if s != "" {
      var n := LineEnd(s);
      if n == |s| {
        assert [s][1..] == [];
      } else {
        var j := NextLine(s, n);
        LineBreaksAreSpace(s, n, j);
        WordsAroundSpace(s, n, j);
        LinesKeepWords(s[j..]);
      }
    }
  }

  lemma {:induction false} WordsOfJoinedLines(lines: seq<string>)
    ensures Words(Join(lines, "\n")) == WordsOfAll(lines)
  {
    if |lines| > 1 {
      WordsOfJoinedLines(lines[1..]);
      assert lines[0] + "\n" + Join(lines[1..], "\n") == lines[0] + ("\n" + Join(lines[1..], "\n"));
      WordsAround(lines[0], "\n", Join(lines[1..], "\n"));
    } else if |lines| == 1 {
      assert lines[1..] == [];
    }
  }

  /** The words of a paragraph that do not stand in its heading line. */
  function BodyWords(raw: string): seq<string> {
    var block := Strip(raw);
    if block == "" then []
    else if HeadingText(Lines(block)[0]) == None then Words(raw)
    else WordsOfAll(Lines(block)[1..])
  }

  /** The words of a paragraph's heading line, if it has one. */
  function HeadingWords(raw: string): seq<string> {
    var block := Strip(raw);
    if block == "" || HeadingText(Lines(block)[0]) == None then [] else Words(Lines(block)[0])
  }

  function BodyWordsOfAll(paragraphs: seq<string>): seq<string> {
    Flat(BodyWords, paragraphs)
  }

  /** A paragraph is its heading line, if it has one, and its body. */
  lemma ParagraphWords(raw: string)
    ensures Words(raw) == HeadingWords(raw) + BodyWords(raw)
  {
    hide Strip, Lines, HeadingText, Space;
    WordsStrip(raw);
    LinesKeepWords(Strip(raw));
  }

  lemma BlockTextsAppend(blocks: seq<Block>, block: Block)
    ensures WordsOfAll(BlockTexts(blocks + [block])) == WordsOfAll(BlockTexts(blocks)) + Words(block.text)
  {
    assert BlockTexts(blocks + [block]) == BlockTexts(blocks) + [block.text];
    WordsOfAllAppend(BlockTexts(blocks), [block.text]);
    WordsOfAllCons(block.text, []);
  }

  lemma ParagraphKeepsWords(outline: Outline, raw: string)
    ensures WordsOfAll(BlockTexts(WithParagraph(outline, raw).blocks))
            == WordsOfAll(BlockTexts(outline.blocks)) + BodyWords(raw)
  {
    var block := Strip(raw);
    WordsStrip(raw);
    if block != "" {
      StripShape(raw);
      var lines := Lines(block);
      if HeadingText(lines[0]) == None {
        BlockTextsAppend(outline.blocks, RawBlock(outline.heading, block));
      } else {
        var joined := Join(lines[1..], "\n");
        WordsOfJoinedLines(lines[1..]);
        WordsStrip(joined);
        StripShape(joined);
        if Strip(joined) != "" {
          BlockTextsAppend(outline.blocks, RawBlock(HeadingText(lines[0]).value, Strip(joined)));
        }
      }
    }
  }

  lemma {:induction false} OutlineKeepsWords(paragraphs: seq<string>)
    ensures WordsOfAll(BlockTexts(OutlineOf(paragraphs).blocks)) == BodyWordsOfAll(paragraphs)
  {
    if paragraphs == [] {
      assert BlockTexts([]) == [];
    } else {
      var n := |paragraphs| - 1;
      FlatBack(BodyWords, paragraphs);
      OutlineKeepsWords(paragraphs[..n]);
      ParagraphKeepsWords(OutlineOf(paragraphs[..n]), paragraphs[n]);
    }
  }

  /** Paragraph by paragraph: the words of the heading line, then the others. */
  function LineByLine(paragraphs: seq<string>): seq<string> {
    Flat((p: string) => HeadingWords(p) + BodyWords(p), paragraphs)
  }

  lemma {:induction false} WordsLineByLine(paragraphs: seq<string>)
    ensures WordsOfAll(paragraphs) == LineByLine(paragraphs)
  {
    if paragraphs != [] {
      ParagraphWords(paragraphs[0]);
      WordsLineByLine(paragraphs[1..]);
    }
  }

  ghost predicate Unheaded(paragraphs: seq<string>) {
    forall p | p in paragraphs :: HeadingWords(p) == []
  }

  lemma UnheadedWords(paragraphs: seq<string>)
    requires Unheaded(paragraphs)
    ensures LineByLine(paragraphs) == BodyWordsOfAll(paragraphs)
  {
    forall p | p in paragraphs ensures HeadingWords(p) + BodyWords(p) == BodyWords(p) {
      assert HeadingWords(p) == [];
    }
    FlatAgrees((p: string) => HeadingWords(p) + BodyWords(p), BodyWords, paragraphs);
  }

  lemma {:induction false} FlatAgrees<S, T>(f: S -> seq<T>, g: S -> seq<T>, xs: seq<S>)
    requires forall x | x in xs :: f(x) == g(x)
    ensures Flat(f, xs) == Flat(g, xs)
  {
    if xs != [] {
      FlatAgrees(f, g, xs[1..]);
    }
  }

  /**
   From a text to its chunks. The words of the text are, paragraph by paragraph,
   those of heading lines and those of bodies; the new pieces of all chunks hold
   exactly those of the bodies, in order; so without headings they hold them all.
   */
  lemma DocumentWordsAreConserved(lim: Limits, title: string, text: string)
    ensures Words(text) == LineByLine(SplitAtBlanks(text))
    ensures WordsOfAll(Texts(NewPieces(Layouts(lim, title, BlocksOf(text))))) == BodyWordsOfAll(SplitAtBlanks(text))
    ensures Unheaded(SplitAtBlanks(text)) ==>
              WordsOfAll(Texts(NewPieces(Layouts(lim, title, BlocksOf(text))))) == Words(text)
  {
    var paragraphs := SplitAtBlanks(text);
    ParagraphsKeepWords(text);
    WordsLineByLine(paragraphs);
    OutlineKeepsWords(paragraphs);
    ChunkingConserves(lim, title, BlocksOf(text));
    if Unheaded(paragraphs) {
      UnheadedWords(paragraphs);
    }
  }

  /** A document has no chunks exactly if it has no words outside its heading lines. */
  lemma NoChunksIff(lim: Limits, title: string, text: string)
    ensures Layouts(lim, title, BlocksOf(text)) == [] <==> BodyWordsOfAll(SplitAtBlanks(text)) == []
  {
    var blocks := BlocksOf(text);
    DocumentWordsAreConserved(lim, title, text);
    if blocks != [] {
      OutlineKeepsWords(SplitAtBlanks(text));
      BlocksHaveWords(blocks);
    }
  }

  lemma BlocksHaveWords(blocks: seq<Block>)
    requires blocks != []
    ensures WordsOfAll(BlockTexts(blocks)) != []
  {
    assert Trimmed(BlockTexts(blocks)[0]);
    assert Words(BlockTexts(blocks)[0]) != [];
  }

  // ------------------------------------------------------ written and read back

  function Marks(n: nat): (s: string)
    ensures |s| == n && forall i | 0 <= i < n :: s[i] == '#'
  {
    seq(n, _ => '#')
  }

  lemma {:induction false} HashesOf(s: string, n: nat)
    requires n <= |s| && (forall i | 0 <= i < n :: s[i] == '#') && (n < |s| ==> s[n] != '#')
    ensures Hashes(s) == n
  {
    if n > 0 {
      HashesOf(s[1..], n - 1);
    }
  }

  /** A line is a heading exactly if it starts with one to six marks that whitespace follows. */
  lemma HeadingIff(n: nat, rest: string)
    requires rest == "" || rest[0] != '#'
    ensures HeadingText(Marks(n) + rest)
            == if 1 <= n <= 6 && rest != "" && Space(rest[0]) then Some(Strip(rest)) else None
  {
    HashesOf(Marks(n) + rest, n);
    assert (Marks(n) + rest)[n..] == rest;
  }

  /** The two ways of ending a line that files have. */
  predicate IsNewline(sep: string) {
    sep == "\n" || sep == "\r\n"
  }

  lemma LineThenRest(line: string, sep: string, rest: string)
    requires IsNewline(sep) && forall i | 0 <= i < |line| :: !LineBreak(line[i])
    ensures Lines(line + sep + rest) == [line] + Lines(rest)
  {
    var s := line + sep + rest;
    assert forall i | 0 <= i < |line| :: s[i] == line[i];
    assert s[|line|] == sep[0] && LineBreak(sep[0]);
    assert LineEnd(s) == |line| by {
      LineEndIs(s, |line|);
    }
    assert |sep| == 2 ==> s[|line| + 1] == sep[1];
    assert s[..|line|] == line && s[|line| + |sep|..] == rest;
  }

  lemma {:induction false} LineEndIs(s: string, n: nat)
    requires n <= |s| && (forall i | 0 <= i < n :: !LineBreak(s[i])) && (n < |s| ==> LineBreak(s[n]))
    ensures LineEnd(s) == n
  {
    if n > 0 {
      LineEndIs(s[1..], n - 1);
    }
  }

  /** Lines joined by either newline are read back. */
  lemma {:induction false} LinesReadBack(lines: seq<string>, sep: string)
    requires lines != [] && lines[|lines| - 1] != "" && IsNewline(sep)
    requires forall k, i | 0 <= k < |lines| && 0 <= i < |lines[k]| :: !LineBreak(lines[k][i])
    ensures Lines(Join(lines, sep)) == lines
  {
    if |lines| == 1 {
      LineEndIs(lines[0], |lines[0]|);
    } else {
      LinesReadBack(lines[1..], sep);
      LineThenRest(lines[0], sep, Join(lines[1..], sep));
    }
  }

  /** The heading line and the body lines of a section, in writing. */
  function Section(n: nat, heading: string, body: seq<string>): string {
    Join([Marks(n) + " " + heading] + body, "\n")
  }

  /** Lines of a text that starts and ends with something to read. */
  ghost predicate Readable(lines: seq<string>) {
    && lines != [] && Trimmed(Join(lines, "\n")) && lines[|lines| - 1] != ""
    && forall k, i | 0 <= k < |lines| && 0 <= i < |lines[k]| :: !LineBreak(lines[k][i])
  }

  lemma SectionLines(n: nat, heading: string, body: seq<string>)
    requires 1 <= n && Trimmed(heading) && Readable(body)
    requires forall i | 0 <= i < |heading| :: !LineBreak(heading[i])
    ensures Trimmed(Section(n, heading, body))
    ensures Lines(Section(n, heading, body)) == [Marks(n) + " " + heading] + body
  {
    var lines := [Marks(n) + " " + heading] + body;
    var text := Join(body, "\n");
    assert lines[1..] == body && !Space('#');
    assert Section(n, heading, body) == Marks(n) + " " + heading + "\n" + text;
    assert forall i | 0 <= i < |lines[0]| :: !LineBreak(lines[0][i]);
    forall k, i | 0 <= k < |lines| && 0 <= i < |lines[k]| ensures !LineBreak(lines[k][i]) {
      if k > 0 {
        assert lines[k] == body[k - 1];
      }
    }
    LinesReadBack(lines, "\n");
  }

  /** A section opens its heading, and its body lines become one paragraph under it. */
  lemma SectionReadsBack(outline: Outline, n: nat, heading: string, body: seq<string>)
    requires 1 <= n <= 6 && Trimmed(heading) && Readable(body)
    requires forall i | 0 <= i < |heading| :: !LineBreak(heading[i])
    ensures WithParagraph(outline, Section(n, heading, body))
            == Outline(outline.blocks + [RawBlock(heading, Join(body, "\n"))], heading)
  {
    hide Lines, Strip, Hashes, HeadingText;
    var section := Section(n, heading, body);
    SectionLines(n, heading, body);
    StripTrimmed(section);
    var lines := Lines(section);
    assert Marks(n) + " " + heading == Marks(n) + (" " + heading);
    HeadingIff(n, " " + heading);
    BlankThenTrimmed(heading);
    assert lines[0] == Marks(n) + (" " + heading) && lines[1..] == body;
    StripTrimmed(Join(body, "\n"));
  }

  lemma BlankThenTrimmed(s: string)
    requires Trimmed(s)
    ensures Space(' ') && Strip(" " + s) == s
  {
    assert (" " + s)[1..] == s && StripLeft(" " + s) == StripLeft(s) == s;
    StripTrimmed(s);
  }

  /** A heading by itself opens its section, and a paragraph without one stays in the section at hand. */
  lemma OtherParagraphs(outline: Outline, n: nat, heading: string, body: seq<string>)
    requires 1 <= n <= 6 && Trimmed(heading) && Readable(body) && body[0] != "" && body[0][0] != '#'
    requires forall i | 0 <= i < |heading| :: !LineBreak(heading[i])
    ensures OutlineOf([]) == Outline([], "")
    ensures WithParagraph(outline, Marks(n) + " " + heading) == Outline(outline.blocks, heading)
    ensures WithParagraph(outline, Join(body, "\n"))
            == Outline(outline.blocks + [RawBlock(outline.heading, Join(body, "\n"))], outline.heading)
  {
    var line, text := Marks(n) + " " + heading, Join(body, "\n");
    assert !Space('#') && line == Marks(n) + (" " + heading);
    StripTrimmed(line);
    assert forall i | 0 <= i < |line| :: !LineBreak(line[i]);
    LineEndIs(line, |line|);
    HeadingIff(n, " " + heading);
    BlankThenTrimmed(heading);
    assert Join(Lines(line)[1..], "\n") == "";
    LinesReadBack(body, "\n");
    StripTrimmed(text);
    HeadingIff(0, body[0]);
    assert Marks(0) + body[0] == body[0];
  }

  /** A section of a document: the level and the text of its heading, and its lines. */
  datatype SectionOf = SectionOf(level: nat, heading: string, body: seq<string>)
  {
    ghost predicate Valid() {
      && 1 <= level <= 6 && Trimmed(heading) && (forall i | 0 <= i < |heading| :: !LineBreak(heading[i]))
      && Readable(body) && IsParagraph(Text())
    }

    function Text(): string {
      Section(level, heading, body)
    }
  }

  function Written(sections: seq<SectionOf>): (texts: seq<string>)
    ensures |texts| == |sections| && forall i | 0 <= i < |texts| :: texts[i] == sections[i].Text()
  {
    seq(|sections|, i requires 0 <= i < |sections| => sections[i].Text())
  }

  /** The bodies of sections under their headings. */
  function Bodies(sections: seq<SectionOf>): (blocks: seq<RawBlock>)
    ensures |blocks| == |sections|
    ensures forall i | 0 <= i < |blocks| :: blocks[i] == RawBlock(sections[i].heading, Join(sections[i].body, "\n"))
  {
    seq(|sections|, i requires 0 <= i < |sections| => RawBlock(sections[i].heading, Join(sections[i].body, "\n")))
  }

  lemma {:induction false} SectionsReadBack(sections: seq<SectionOf>)
    requires forall s | s in sections :: s.Valid()
    ensures OutlineOf(Written(sections)).blocks == Bodies(sections)
  {
    if sections != [] {
      var n := |sections| - 1;
      assert forall s | s in sections[..n] :: s in sections;
      assert sections[n] in sections;
      hide *;
      SectionsReadBack(sections[..n]);
      OneMoreSection(sections);
      BodiesGrow(sections);
    }
  }

  lemma OneMoreSection(sections: seq<SectionOf>)
    requires sections != [] && sections[|sections| - 1].Valid()
    ensures var n := |sections| - 1;
            OutlineOf(Written(sections)).blocks
            == OutlineOf(Written(sections[..n])).blocks
               + [RawBlock(sections[n].heading, Join(sections[n].body, "\n"))]
  {
    hide WithParagraph, Section, Join;
    var n := |sections| - 1;
    assert Written(sections)[..n] == Written(sections[..n]);
    var last := sections[n];
    SectionReadsBack(OutlineOf(Written(sections[..n])), last.level, last.heading, last.body);
  }

  lemma BodiesGrow(sections: seq<SectionOf>)
    requires sections != []
    ensures var n := |sections| - 1;
            Bodies(sections) == Bodies(sections[..n]) + [RawBlock(sections[n].heading, Join(sections[n].body, "\n"))]
  {
  }

  /** A document written as sections with blank lines between them has exactly their bodies under their headings. */
  lemma DocumentReadsBack(sections: seq<SectionOf>, gap: string)
    requires sections != [] && (forall s | s in sections :: s.Valid()) && IsGap(gap)
    ensures var blocks := BlocksOf(Join(Written(sections), gap));
            && |blocks| == |sections|
            && forall i | 0 <= i < |blocks| ::
                 blocks[i].heading == sections[i].heading && blocks[i].text == Join(sections[i].body, "\n")
  {
    forall p | p in Written(sections) ensures IsParagraph(p) {
      var i :| 0 <= i < |sections| && Written(sections)[i] == p;
      assert sections[i] in sections && sections[i].Valid();
    }
    ParagraphsReadBack(Written(sections), gap);
    SectionsReadBack(sections);
  }
}
