/**
 Voice activity detection: an edge detector debounced in both directions, and
 the history specification it refines.
 */
module Vad {
  import opened Audio

  datatype Signal = Quiet | SpeechStarted | SpeechEnded

  /** What the detector makes of one frame. */
  datatype Heard = Heard(loud: bool, ms: Duration)

  datatype Limits = Limits(minSpeechMs: real, hangoverMs: real)

  datatype VadState = VadState(inSpeech: bool, speechMs: real, silenceMs: real)

  const SILENT: VadState := VadState(false, 0.0, 0.0)

  function Hear(frame: AudioFrame, threshold: real): Heard {
    Heard(Loud(frame.pcm, threshold), frame.DurationMs())
  }

  function HearAll(frames: seq<AudioFrame>, threshold: real): (hs: seq<Heard>)
    ensures |hs| == |frames|
    ensures forall i | 0 <= i < |frames| :: hs[i] == Hear(frames[i], threshold)
  {
    seq(|frames|, i requires 0 <= i < |frames| => Hear(frames[i], threshold))
  }

  /** One frame of the edge detector: new state and emitted edge. */
  function Step(lim: Limits, st: VadState, h: Heard): (VadState, Signal) {
    if !st.inSpeech then
      if !h.loud then (st.(speechMs := 0.0), Quiet)
      else if st.speechMs + h.ms >= lim.minSpeechMs then
        (VadState(true, st.speechMs + h.ms, 0.0), SpeechStarted)
      else (st.(speechMs := st.speechMs + h.ms), Quiet)
    else if h.loud then (st.(silenceMs := 0.0), Quiet)
    else if st.silenceMs + h.ms >= lim.hangoverMs then
      (VadState(false, 0.0, st.silenceMs + h.ms), SpeechEnded)
    else (st.(silenceMs := st.silenceMs + h.ms), Quiet)
  }

  class EnergyVad {
    const thresholdRms: real
    const limits: Limits
    var inSpeech: bool
    var speechMs: real
    var silenceMs: real

    constructor (thresholdRms: real, limits: Limits)
      ensures this.thresholdRms == thresholdRms && this.limits == limits
      ensures State() == SILENT
    {
      this.thresholdRms, this.limits := thresholdRms, limits;
      inSpeech, speechMs, silenceMs := false, 0.0, 0.0;
    }

    function State(): VadState
      reads this
    {
      VadState(inSpeech, speechMs, silenceMs)
    }

    method Process(frame: AudioFrame) returns (signal: Signal)
      modifies this
      ensures (State(), signal) == Step(limits, old(State()), Hear(frame, thresholdRms))
    {
      var loud := Loud(frame.pcm, thresholdRms);
      var duration := frame.DurationMs();
      if !inSpeech {
        if loud {
          speechMs := speechMs + duration;
          if speechMs >= limits.minSpeechMs {
            inSpeech := true;
            silenceMs := 0.0;
            return SpeechStarted;
          }
        } else {
          speechMs := 0.0;
        }
        return Quiet;
      }
      if loud {
        silenceMs := 0.0;
        return Quiet;
      }
      silenceMs := silenceMs + duration;
      if silenceMs >= limits.hangoverMs {
        inSpeech := false;
        speechMs := 0.0;
        return SpeechEnded;
      }
      return Quiet;
    }

    method Reset()
      modifies this
      ensures State() == SILENT
    {
      inSpeech, speechMs, silenceMs := false, 0.0, 0.0;
    }
  }

  // ------------------------------------------------------- histories of frames

  /** The state after a whole stream, from a reset detector. */
  function After(lim: Limits, hs: seq<Heard>): VadState {
    if hs == [] then SILENT else Step(lim, After(lim, hs[..|hs| - 1]), hs[|hs| - 1]).0
  }

  function SignalAt(lim: Limits, hs: seq<Heard>, i: nat): Signal
    requires i < |hs|
  {
    Step(lim, After(lim, hs[..i]), hs[i]).1
  }

  function Total(hs: seq<Heard>): Duration {
    if hs == [] then 0.0 else Total(hs[..|hs| - 1]) + hs[|hs| - 1].ms
  }

  /** Duration of the run of frames of one loudness that ends the stream. */
  function Tail(loud: bool, hs: seq<Heard>): Duration {
    if hs == [] || hs[|hs| - 1].loud != loud then 0.0
    else Tail(loud, hs[..|hs| - 1]) + hs[|hs| - 1].ms
  }

  /** The first i frames end in a loud run of at least the minimum speech time. */
  predicate Sustained(lim: Limits, hs: seq<Heard>, i: int) {
    0 < i <= |hs| && hs[i - 1].loud && Tail(true, hs[..i]) >= lim.minSpeechMs
  }

  /** The first j frames end in a quiet run of at least the hangover time. */
  predicate Lapsed(lim: Limits, hs: seq<Heard>, j: int) {
    0 < j <= |hs| && !hs[j - 1].loud && Tail(false, hs[..j]) >= lim.hangoverMs
  }

  /** Someone is speaking: speech was sustained and has not lapsed since. */
  ghost predicate Talking(lim: Limits, hs: seq<Heard>) {
    exists i :: Sustained(lim, hs, i) && forall j | i < j <= |hs| :: !Lapsed(lim, hs, j)
  }

  /** The counters are the running tail durations; silence is never negative. */
  lemma {:induction false} CountersAreTails(lim: Limits, hs: seq<Heard>)
    ensures After(lim, hs).speechMs >= 0.0 && After(lim, hs).silenceMs >= 0.0
    ensures !After(lim, hs).inSpeech ==> After(lim, hs).speechMs == Tail(true, hs)
    ensures After(lim, hs).inSpeech ==> After(lim, hs).silenceMs == Tail(false, hs)
    ensures After(lim, hs).inSpeech ==> After(lim, hs).speechMs >= lim.minSpeechMs
    ensures !After(lim, hs).inSpeech ==> After(lim, hs).silenceMs == 0.0 || After(lim, hs).silenceMs >= lim.hangoverMs
  {
    if hs != [] {
      CountersAreTails(lim, hs[..|hs| - 1]);
    }
  }

  lemma TalkingStep(lim: Limits, hs: seq<Heard>)
    requires hs != []
    ensures Talking(lim, hs) <==>
            Sustained(lim, hs, |hs|) || (Talking(lim, hs[..|hs| - 1]) && !Lapsed(lim, hs, |hs|))
  {
    var n := |hs| - 1;
    var before := hs[..n];
    forall k | 0 <= k <= n ensures before[..k] == hs[..k] { }
    forall k | 0 <= k <= n
      ensures Sustained(lim, before, k) == Sustained(lim, hs, k)
      ensures Lapsed(lim, before, k) == Lapsed(lim, hs, k)
    { }
    if Talking(lim, before) && !Lapsed(lim, hs, |hs|) {
      var i :| Sustained(lim, before, i) && forall j | i < j <= n :: !Lapsed(lim, before, j);
      assert Sustained(lim, hs, i);
    }
    if Talking(lim, hs) && !Sustained(lim, hs, |hs|) {
      var i :| Sustained(lim, hs, i) && forall j | i < j <= |hs| :: !Lapsed(lim, hs, j);
      assert Sustained(lim, before, i);
    }
  }

  /** The flag the detector keeps means exactly what the history says. */
  lemma {:induction false} InSpeechMeansTalking(lim: Limits, hs: seq<Heard>)
    ensures After(lim, hs).inSpeech <==> Talking(lim, hs)
  {
    if hs != [] {
      var before := hs[..|hs| - 1];
      assert hs[..|hs|] == hs;
      InSpeechMeansTalking(lim, before);
      CountersAreTails(lim, before);
      TalkingStep(lim, hs);
    }
  }

  /**
   Edges in terms of history alone. A start fires on the first frame whose loud
   run reaches the minimum while nobody talks; an end fires on the first frame
   whose quiet run reaches the hangover while somebody does.
   */
  lemma SignalMeaning(lim: Limits, hs: seq<Heard>, i: nat)
    requires i < |hs|
    ensures SignalAt(lim, hs, i) == SpeechStarted <==> !Talking(lim, hs[..i]) && Sustained(lim, hs, i + 1)
    ensures SignalAt(lim, hs, i) == SpeechEnded <==> Talking(lim, hs[..i]) && Lapsed(lim, hs, i + 1)
    ensures SignalAt(lim, hs, i) == SpeechStarted <==> !Talking(lim, hs[..i]) && Talking(lim, hs[..i + 1])
    ensures SignalAt(lim, hs, i) == SpeechEnded <==> Talking(lim, hs[..i]) && !Talking(lim, hs[..i + 1])
  {
    var now := hs[..i + 1];
    assert now[..i] == hs[..i] && now[..i + 1] == now;
    InSpeechMeansTalking(lim, hs[..i]);
    InSpeechMeansTalking(lim, now);
    CountersAreTails(lim, hs[..i]);
    TalkingStep(lim, now);
  }

  /** The edges of a stream, in order. */
  function Edges(lim: Limits, hs: seq<Heard>): seq<Signal> {
    if hs == [] then []
    else
      var signal := SignalAt(lim, hs, |hs| - 1);
      Edges(lim, hs[..|hs| - 1]) + if signal == Quiet then [] else [signal]
  }

  function Starts(lim: Limits, hs: seq<Heard>): nat {
    if hs == [] then 0
    else Starts(lim, hs[..|hs| - 1]) + if SignalAt(lim, hs, |hs| - 1) == SpeechStarted then 1 else 0
  }

  /** Edges alternate, beginning with a start, for every stream. */
  lemma {:induction false} EdgesAlternate(lim: Limits, hs: seq<Heard>)
    ensures forall i | 0 <= i < |Edges(lim, hs)| ::
              Edges(lim, hs)[i] == if i % 2 == 0 then SpeechStarted else SpeechEnded
    ensures After(lim, hs).inSpeech <==> |Edges(lim, hs)| % 2 == 1
    ensures Starts(lim, hs) == (|Edges(lim, hs)| + 1) / 2
  {
    if hs != [] {
      EdgesAlternate(lim, hs[..|hs| - 1]);
    }
  }

  /** The shortest stretch from one start to the next. */
  function Cycle(lim: Limits): real {
    lim.minSpeechMs + if lim.hangoverMs > 0.0 then lim.hangoverMs else 0.0
  }

  function Repeated(n: nat, ms: real): real {
    if n == 0 then 0.0 else Repeated(n - 1, ms) + ms
  }

  /** Time accounting behind the bound: every start and every end is paid for. */
  lemma {:induction false} EdgesArePaidFor(lim: Limits, hs: seq<Heard>)
    ensures var n := Starts(lim, hs);
            var st := After(lim, hs);
            if st.inSpeech
            then n >= 1 && Repeated(n - 1, Cycle(lim)) + lim.minSpeechMs + st.silenceMs <= Total(hs)
            else Repeated(n, Cycle(lim)) + st.speechMs <= Total(hs)
  {
    if hs != [] {
      EdgesArePaidFor(lim, hs[..|hs| - 1]);
      CountersAreTails(lim, hs[..|hs| - 1]);
      assert hs[..|hs|] == hs;
    }
  }

  lemma {:induction false} RepeatedCycle(n: nat, lim: Limits)
    ensures Repeated(n, Cycle(lim)) >= n as real * lim.minSpeechMs + n as real * lim.hangoverMs
  {
    if n != 0 {
      RepeatedCycle(n - 1, lim);
      Distribute(n - 1, lim.minSpeechMs);
      Distribute(n - 1, lim.hangoverMs);
    }
  }

  lemma Distribute(n: nat, x: real)
    ensures (n + 1) as real * x == n as real * x + x
  {
  }

  lemma StartsTakeTime(lim: Limits, hs: seq<Heard>, n: nat)
    requires Starts(lim, hs) == n + 1
    ensures Repeated(n, Cycle(lim)) + lim.minSpeechMs <= Total(hs)
  {
    EdgesArePaidFor(lim, hs);
    CountersAreTails(lim, hs);
    assert Repeated(n + 1, Cycle(lim)) == Repeated(n, Cycle(lim)) + Cycle(lim);
  }

  /** n starts need n minimum speech times and n - 1 hangovers of audio. */
  lemma StartsAreRare(lim: Limits, hs: seq<Heard>, n: nat)
    requires Starts(lim, hs) == n + 1
    ensures (n + 1) as real * lim.minSpeechMs + n as real * lim.hangoverMs <= Total(hs)
  {
    StartsTakeTime(lim, hs, n);
    CyclesCost(n, lim, Total(hs));
  }

  lemma CyclesCost(n: nat, lim: Limits, total: real)
    requires Repeated(n, Cycle(lim)) + lim.minSpeechMs <= total
    ensures (n + 1) as real * lim.minSpeechMs + n as real * lim.hangoverMs <= total
  {
    RepeatedCycle(n, lim);
    Distribute(n, lim.minSpeechMs);
  }

  // ------------------------------------------------------- from samples to signals

  /** All samples of all frames stay below the threshold. */
  ghost predicate StaysBelow(frames: seq<AudioFrame>, threshold: real) {
    forall k, i | 0 <= k < |frames| && 0 <= i < |frames[k].pcm| / 2 ::
      Magnitude(Sample(frames[k].pcm, i)) as real < threshold
  }

  /** Every frame has samples, and they all reach the threshold. */
  ghost predicate StaysAbove(frames: seq<AudioFrame>, threshold: real) {
    && (forall k | 0 <= k < |frames| :: |frames[k].pcm| >= 2)
    && (forall k, i | 0 <= k < |frames| && 0 <= i < |frames[k].pcm| / 2 ::
          Magnitude(Sample(frames[k].pcm, i)) as real >= threshold)
  }

  /** Room noise below the threshold never signals anything. */
  lemma RoomNoiseIsIgnored(lim: Limits, frames: seq<AudioFrame>, threshold: real, i: nat)
    requires threshold > 0.0 && StaysBelow(frames, threshold) && i < |frames|
    ensures SignalAt(lim, HearAll(frames, threshold), i) == Quiet
  {
    var hs := HearAll(frames, threshold);
    forall k | 0 <= k < |hs| ensures !hs[k].loud {
      BelowIsQuiet(frames[k].pcm, threshold);
    }
    QuietStaysSilent(lim, hs[..i]);
  }

  lemma {:induction false} QuietStaysSilent(lim: Limits, hs: seq<Heard>)
    requires forall k | 0 <= k < |hs| :: !hs[k].loud
    ensures !After(lim, hs).inSpeech
  {
    if hs != [] {
      QuietStaysSilent(lim, hs[..|hs| - 1]);
    }
  }

  /** Speech above the threshold starts exactly with the frame that completes the minimum time. */
  lemma SpeechStartsOnTime(lim: Limits, frames: seq<AudioFrame>, threshold: real, i: nat)
    requires StaysAbove(frames, threshold) && i < |frames|
    ensures var hs := HearAll(frames, threshold);
            SignalAt(lim, hs, i) == SpeechStarted
            <==> Total(hs[..i + 1]) >= lim.minSpeechMs && (i == 0 || Total(hs[..i]) < lim.minSpeechMs)
  {
    var hs := HearAll(frames, threshold);
    forall k | 0 <= k < |hs| ensures hs[k].loud {
      AboveIsLoud(frames[k].pcm, threshold);
    }
    LoudCountsUp(lim, hs[..i]);
    assert hs[..i + 1][..i] == hs[..i];
  }

  lemma {:induction false} LoudCountsUp(lim: Limits, hs: seq<Heard>)
    requires forall k | 0 <= k < |hs| :: hs[k].loud
    ensures After(lim, hs).inSpeech <==> hs != [] && Total(hs) >= lim.minSpeechMs
    ensures !After(lim, hs).inSpeech ==> After(lim, hs).speechMs == Total(hs)
  {
    if hs != [] {
      LoudCountsUp(lim, hs[..|hs| - 1]);
    }
  }
}
