/**
 Text to speech: both adapters stream frames annotated with the words they
 voice. The simulated adapter spends the same number of frames on every word and
 annotates the last of them; the service adapter spreads the words over the
 frames of the returned audio in proportion.
 */
module Tts {
  import opened Arithmetic
  import opened Audio
  import opened Basics
  import opened Rounding
  import opened Text

  type Rate = r: real | r != 0.0 witness 150.0

  const SERVICE_FORMAT: AudioFormat := AudioFormat(24000, 2, 1)

  datatype Adapter =
    | Simulated(wordsPerMinute: Rate, format: AudioFormat)
    | Service(audio: seq<Byte>)  // the audio the speech service returned for this text
  {
    function FramesPerWord(): (f: nat)
      requires Simulated?
      ensures f >= 1
    {
      Max(1, RoundHalfEven(60000.0 / wordsPerMinute / 20.0))
    }

    /** Number of frames streamed for a text of n words. */
    function Frames(n: nat): nat {
      if Simulated? then n * FramesPerWord()
      else Max(1, |audio| / SERVICE_FORMAT.FrameBytes())
    }

    /** How many of the n words have been voiced once k frames have played. */
    function Voiced(n: nat, k: nat): int
      requires Simulated? || Frames(n) > 0
    {
      if Simulated? then k / FramesPerWord() else n * k / Frames(n)
    }

    function FrameAt(k: nat): AudioFrame {
      if Simulated? then AudioFrame(Zeros(format.FrameBytes()), format)
      else
        var size := SERVICE_FORMAT.FrameBytes();
        var from := Min(k * size, |audio|);
        AudioFrame(audio[from..Max(from, Min(from + size, |audio|))], SERVICE_FORMAT)
    }

    /** The whole stream: frame k voices the words that frame k completes. */
    function Stream(text: string): (chunks: seq<TtsChunk>)
      ensures |chunks| == Frames(|Words(text)|)
    {
      var words := Words(text);
      seq(Frames(|words|), k requires 0 <= k < Frames(|words|) =>
        VoicedBounds(this, |words|, k);
        TtsChunk(FrameAt(k), Spoken(words[Voiced(|words|, k)..Voiced(|words|, k + 1)])))
    }

    method SynthesizeStream(text: string) returns (chunks: seq<TtsChunk>)
      ensures chunks == Stream(text)
    {
      if Simulated? {
        chunks := SynthesizeSimulated(text);
      } else {
        chunks := SynthesizeService(text);
      }
    }

    method SynthesizeSimulated(text: string) returns (chunks: seq<TtsChunk>)
      requires Simulated?
      ensures chunks == Stream(text)
    {
      chunks := [];
      var words := Words(text);
      var frames := FramesPerWord();
      var silence := Zeros(format.FrameBytes());
      ghost var stream := Stream(text);
      ghost var k: nat := 0;
      var w := 0;
      while w < |words|
        invariant w <= |words| && k == w * frames <= |stream|
        invariant chunks == stream[..k]
      {
        LastFrameOfWord(w, |words|, frames);
        var index := 0;
        while index < frames
          invariant index <= frames && k == w * frames + index <= |stream|
          invariant chunks == stream[..k]
        {
          var spoken := if index == frames - 1 then words[w] + " " else "";
          WordCut(w, index, frames);
          SimulatedFrame(this, text, k, w, index == frames - 1);
          chunks := chunks + [TtsChunk(AudioFrame(silence, format), spoken)];
          index, k := index + 1, k + 1;
        }
        w := w + 1;
      }
    }

    method SynthesizeService(text: string) returns (chunks: seq<TtsChunk>)
      requires Service?
      ensures chunks == Stream(text)
    {
      chunks := [];
      var frameBytes := SERVICE_FORMAT.FrameBytes();
      var totalFrames := Max(1, |audio| / frameBytes);
      var words := Words(text);
      for index := 0 to totalFrames
        invariant chunks == Stream(text)[..index]
      {
        ServiceFrame(this, text, index);
        var spokenUpto := |words| * (index + 1) / totalFrames;
        var spokenBefore := |words| * index / totalFrames;
        var spoken := Join(words[spokenBefore..spokenUpto], " ");
        chunks := chunks + [TtsChunk(FrameAt(index), if spoken != "" then spoken + " " else "")];
      }
    }
  }

  function Zeros(n: nat): seq<Byte> {
    seq(n, _ => 0)
  }

  lemma ServiceFrame(tts: Adapter, text: string, index: nat)
    requires tts.Service? && index < tts.Frames(|Words(text)|)
    ensures var n, total := |Words(text)|, tts.Frames(|Words(text)|);
            0 <= n * index / total <= n * (index + 1) / total <= n
    ensures var n, total := |Words(text)|, tts.Frames(|Words(text)|);
            var spoken := Join(Words(text)[n * index / total..n * (index + 1) / total], " ");
            tts.Stream(text)[index] == TtsChunk(tts.FrameAt(index), if spoken != "" then spoken + " " else "")
  {
    var n, total := |Words(text)|, tts.Frames(|Words(text)|);
    ServiceBounds(n, index, total);
    JoinedOrSilent(text, n * index / total, n * (index + 1) / total);
    StreamAt(tts, text, index, n * index / total, n * (index + 1) / total);
  }

  lemma StreamAt(tts: Adapter, text: string, k: nat, a: nat, b: nat)
    requires k < tts.Frames(|Words(text)|) && a <= b <= |Words(text)|
    requires a == tts.Voiced(|Words(text)|, k) && b == tts.Voiced(|Words(text)|, k + 1)
    ensures tts.Stream(text)[k] == TtsChunk(tts.FrameAt(k), Spoken(Words(text)[a..b]))
  {
  }

  lemma JoinedOrSilent(text: string, from: nat, upto: nat)
    requires from <= upto <= |Words(text)|
    ensures var spoken := Join(Words(text)[from..upto], " ");
            Spoken(Words(text)[from..upto]) == if spoken != "" then spoken + " " else ""
  {
    var words := Words(text)[from..upto];
    if words != [] {
      SpokenIsJoined(words);
      WordsAreWords(text);
      assert IsWord(words[0]);
    }
  }

  lemma LastFrameOfWord(w: nat, n: nat, f: nat)
    requires w < n && f >= 1
    ensures (w + 1) * f == w * f + f <= n * f
  {
    MulMonotone(w + 1, n, f);
    MulDistributes(w, 1, f);
  }

  lemma SimulatedFrame(tts: Adapter, text: string, k: nat, w: nat, last: bool)
    requires tts.Simulated? && w < |Words(text)| && k < tts.Frames(|Words(text)|)
    requires k / tts.FramesPerWord() == w
    requires (k + 1) / tts.FramesPerWord() == if last then w + 1 else w
    ensures tts.Stream(text)[k] == TtsChunk(tts.FrameAt(k), if last then Words(text)[w] + " " else "")
  {
    StreamAt(tts, text, k, w, if last then w + 1 else w);
    if last {
      OneWord(Words(text), w);
    }
  }

  lemma OneWord(words: seq<string>, w: nat)
    requires w < |words|
    ensures Spoken(words[w..w + 1]) == words[w] + " "
  {
    assert words[w..w + 1] == [words[w]] && Spoken([words[w]]) == words[w] + " " + Spoken([]);
  }

  lemma WordCut(w: nat, index: nat, f: nat)
    requires index < f
    ensures (w * f + index) / f == w
    ensures (w * f + index + 1) / f == if index == f - 1 then w + 1 else w
  {
    QuotientIs(w * f + index, f, w);
    if index == f - 1 {
      MulDistributes(w, 1, f);
      QuotientIs(w * f + index + 1, f, w + 1);
    } else {
      QuotientIs(w * f + index + 1, f, w);
    }
  }

  /** The voiced count starts at 0, never falls, and ends at all n words. */
  lemma VoicedBounds(tts: Adapter, n: nat, k: nat)
    requires k < tts.Frames(n)
    ensures 0 <= tts.Voiced(n, k) <= tts.Voiced(n, k + 1) <= n
    ensures tts.Voiced(n, 0) == 0
    ensures tts.Voiced(n, tts.Frames(n)) == n
  {
    if tts.Simulated? {
      SimulatedBounds(n, k, tts.FramesPerWord());
    } else {
      ServiceBounds(n, k, tts.Frames(n));
    }
  }

  lemma SimulatedBounds(n: nat, k: nat, f: nat)
    requires f >= 1 && k < n * f
    ensures 0 <= k / f <= (k + 1) / f <= n && n * f / f == n
  {
    QuotientIs(n * f, f, n);
    QuotientMonotone(k, k + 1, f);
    QuotientMonotone(k + 1, n * f, f);
  }

  lemma ServiceBounds(n: nat, k: nat, t: nat)
    requires k < t
    ensures 0 <= n * k / t <= n * (k + 1) / t <= n && n * t / t == n && n * 0 / t == 0
  {
    MulMonotone(k, k + 1, n);
    MulMonotone(k + 1, t, n);
    OrderedQuotients(n, n * k, n * (k + 1), n * t, t);
  }

  lemma OrderedQuotients(n: nat, x: nat, y: nat, z: nat, t: nat)
    requires x <= y <= z && t > 0 && z == n * t
    ensures x / t <= y / t <= n && z / t == n && 0 / t == 0
  {
    QuotientIs(z, t, n);
    QuotientIs(0, t, 0);
    QuotientMonotone(x, y, t);
    QuotientMonotone(y, z, t);
  }

  function Texts(chunks: seq<TtsChunk>): string {
    if chunks == [] then "" else Texts(chunks[..|chunks| - 1]) + chunks[|chunks| - 1].text
  }

  lemma TextsStep(chunks: seq<TtsChunk>, k: nat)
    requires k < |chunks|
    ensures chunks[..k + 1] == chunks[..k] + [chunks[k]]
    ensures Texts(chunks[..k + 1]) == Texts(chunks[..k]) + chunks[k].text
  {
    assert chunks[..k + 1][..k] == chunks[..k];
  }

  /**
   Word attribution: the first k frames voice exactly the first Voiced(k) words,
   each followed by one blank, and all frames together voice the whole text.
   */
  lemma {:induction false} FramesVoiceWords(tts: Adapter, text: string, k: nat)
    requires k <= tts.Frames(|Words(text)|)
    ensures tts.Simulated? || tts.Frames(|Words(text)|) > 0
    ensures 0 <= tts.Voiced(|Words(text)|, k) <= |Words(text)|
    ensures Texts(tts.Stream(text)[..k]) == Spoken(Words(text)[..tts.Voiced(|Words(text)|, k)])
    ensures k == tts.Frames(|Words(text)|) ==> tts.Voiced(|Words(text)|, k) == |Words(text)|
  {
    var words := Words(text);
    var n := |words|;
    var chunks := tts.Stream(text);
    VoicedWithin(tts, n, k);
    if k > 0 {
      FramesVoiceWords(tts, text, k - 1);
      VoicedBounds(tts, n, k - 1);
      OneMoreFrame(chunks, k - 1, words, tts.Voiced(n, k - 1), tts.Voiced(n, k));
    } else {
      assert words[..0] == [];
    }
  }

  lemma OneMoreFrame(chunks: seq<TtsChunk>, k: nat, words: seq<string>, a: nat, b: nat)
    requires k < |chunks| && a <= b <= |words|
    requires Texts(chunks[..k]) == Spoken(words[..a]) && chunks[k].text == Spoken(words[a..b])
    ensures Texts(chunks[..k + 1]) == Spoken(words[..b])
  {
    TextsStep(chunks, k);
    SpokenGrows(words, a, b);
  }

  /** Never more words than there are, none before the first frame, all after the last. */
  lemma VoicedWithin(tts: Adapter, n: nat, k: nat)
    requires k <= tts.Frames(n)
    ensures tts.Simulated? || tts.Frames(n) > 0
    ensures 0 <= tts.Voiced(n, k) <= n && tts.Voiced(n, 0) == 0
    ensures k == tts.Frames(n) ==> tts.Voiced(n, k) == n
  {
    if tts.Frames(n) > 0 {
      VoicedBounds(tts, n, if k > 0 then k - 1 else 0);
    } else {
      QuotientIs(0, tts.FramesPerWord(), 0);
    }
  }

  lemma SpokenGrows(words: seq<string>, a: nat, b: nat)
    requires a <= b <= |words|
    ensures Spoken(words[..b]) == Spoken(words[..a]) + Spoken(words[a..b])
  {
    assert words[..a] + words[a..b] == words[..b];
    SpokenAppend(words[..a], words[a..b]);
  }

  // --------------------------------------------------------- the audio of a stream

  /** The audio of the first frames, one after the other. */
  function AudioOf(chunks: seq<TtsChunk>): seq<Byte> {
    if chunks == [] then [] else AudioOf(chunks[..|chunks| - 1]) + chunks[|chunks| - 1].frame.pcm
  }

  /** The first k frames of a service stream play the first k frame lengths of its audio. */
  lemma {:induction false} FramesCarryTheAudio(tts: Adapter, text: string, k: nat)
    requires tts.Service? && k <= tts.Frames(|Words(text)|)
    ensures AudioOf(tts.Stream(text)[..k]) == tts.audio[..Min(k * SERVICE_FORMAT.FrameBytes(), |tts.audio|)]
  {
    var chunks, size := tts.Stream(text), SERVICE_FORMAT.FrameBytes();
    if k == 0 {
      assert chunks[..0] == [];
    } else {
      FramesCarryTheAudio(tts, text, k - 1);
      assert chunks[..k][..k - 1] == chunks[..k - 1] && chunks[k - 1].frame == tts.FrameAt(k - 1);
      FrameIsNextPart(tts, k - 1, size);
    }
  }

  lemma FrameIsNextPart(tts: Adapter, k: nat, size: nat)
    requires tts.Service? && size == SERVICE_FORMAT.FrameBytes()
    ensures tts.audio[..Min(k * size, |tts.audio|)] + tts.FrameAt(k).pcm
            == tts.audio[..Min((k + 1) * size, |tts.audio|)]
  {
    hide Adapter.FrameAt;
    MulDistributes(k, 1, size);
    FrameIsSlice(tts, k, k * size, size);
    NextPart(tts.audio, Min(k * size, |tts.audio|), Min((k + 1) * size, |tts.audio|));
  }

  lemma FrameIsSlice(tts: Adapter, k: nat, from: nat, size: nat)
    requires tts.Service? && size == SERVICE_FORMAT.FrameBytes() && from == k * size
    ensures tts.FrameAt(k).pcm == tts.audio[Min(from, |tts.audio|)..Min(from + size, |tts.audio|)]
  {
  }

  lemma NextPart<T>(s: seq<T>, i: nat, j: nat)
    requires i <= j <= |s|
    ensures s[..i] + s[i..j] == s[..j]
  {
  }

  /** A whole service stream plays its audio, but for what is left over after the last full frame. */
  lemma AudioIsPlayed(tts: Adapter, text: string)
    requires tts.Service?
    ensures var size, n := SERVICE_FORMAT.FrameBytes(), |tts.audio|;
            && size == 960
            && AudioOf(tts.Stream(text)) == tts.audio[..if n < size then n else n - n % size]
  {
    var chunks := tts.Stream(text);
    assert chunks[..|chunks|] == chunks;
    FramesCarryTheAudio(tts, text, |chunks|);
    FullFrames(|tts.audio|);
  }

  lemma FullFrames(n: nat)
    ensures SERVICE_FORMAT.FrameBytes() == 960
    ensures Min(Max(1, n / 960) * 960, n) == if n < 960 then n else n - n % 960
  {
  }

  /** A simulated word lasts the time its rate gives it, to within half a frame, but at least one frame. */
  lemma WordLastsItsShare(tts: Adapter)
    requires tts.Simulated?
    ensures var ms := 20.0 * tts.FramesPerWord() as real;
            var share := 60000.0 / tts.wordsPerMinute;
            if share >= 20.0 then share - 10.0 <= ms <= share + 10.0 else ms == 20.0
  {
    var share := 60000.0 / tts.wordsPerMinute;
    var n := RoundHalfEven(share / 20.0);
    assert share / 20.0 * 20.0 == share;
  }

  /** Simulated frames are silent frames of 20 milliseconds. */
  lemma SimulatedFramesAreSilent(tts: Adapter, k: nat)
    requires tts.Simulated?
    ensures tts.FrameAt(k).format == tts.format && |tts.FrameAt(k).pcm| == tts.format.FrameBytes()
    ensures forall i | 0 <= i < |tts.FrameAt(k).pcm| / 2 :: Sample(tts.FrameAt(k).pcm, i) == 0
  {
  }
}
