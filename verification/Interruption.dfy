/** Barge-in detection: the detector watches the microphone while a reply plays. */
module Interruption {
  import opened Audio
  import opened Vad

  /** Frames i..k are all loud and last at least the minimum speech time. */
  predicate LoudBlock(lim: Limits, hs: seq<Heard>, i: nat, k: nat) {
    i <= k < |hs| && (forall j | i <= j <= k :: hs[j].loud) && Total(hs[i..k + 1]) >= lim.minSpeechMs
  }

  /** Some contiguous block of loud frames ending at frame k is long enough. */
  ghost predicate BargesIn(lim: Limits, hs: seq<Heard>, k: nat) {
    exists i: nat :: LoudBlock(lim, hs, i, k)
  }

  class InterruptionController {
    const vad: EnergyVad
    var playing: bool
    var interruptRequested: bool

    constructor (vad: EnergyVad)
      ensures this.vad == vad && !playing && !interruptRequested
    {
      this.vad, playing, interruptRequested := vad, false, false;
    }

    method PlaybackStarted()
      modifies this, vad
      ensures playing && !interruptRequested && vad.State() == SILENT
    {
      playing, interruptRequested := true, false;
      vad.Reset();
    }

    method PlaybackFinished()
      modifies this
      ensures !playing && !interruptRequested
    {
      playing, interruptRequested := false, false;
    }

    /** Frames are ignored unless a reply plays; a speech start requests the cut. */
    method OnMicFrame(frame: AudioFrame)
      modifies this, vad
      ensures playing == old(playing)
      ensures !playing ==> vad.State() == old(vad.State()) && interruptRequested == old(interruptRequested)
      ensures playing ==>
                var (next, signal) := Step(vad.limits, old(vad.State()), Hear(frame, vad.thresholdRms));
                && vad.State() == next
                && interruptRequested == (old(interruptRequested) || signal == SpeechStarted)
    {
      if !playing {
        return;
      }
      var signal := vad.Process(frame);
      if signal == SpeechStarted {
        interruptRequested := true;
      }
    }

    predicate ShouldInterrupt()
      reads this
    {
      interruptRequested
    }
  }

  // ------------------------------------------- the loud run is the best block

  lemma {:induction false} BlockWithinTail(hs: seq<Heard>, i: nat)
    requires i <= |hs|
    requires forall j | i <= j < |hs| :: hs[j].loud
    ensures Total(hs[i..]) <= Tail(true, hs)
  {
    if i < |hs| {
      var before := hs[..|hs| - 1];
      BlockWithinTail(before, i);
      assert hs[i..][..|hs| - i - 1] == before[i..];
    }
  }

  lemma {:induction false} TailIsBlock(hs: seq<Heard>) returns (i: nat)
    requires hs != [] && hs[|hs| - 1].loud
    ensures i < |hs| && (forall j | i <= j < |hs| :: hs[j].loud) && Total(hs[i..]) == Tail(true, hs)
  {
    var n := |hs| - 1;
    var before := hs[..n];
    i := n;
    if before != [] && before[n - 1].loud {
      i := TailIsBlock(before);
    }
    assert hs[i..][..|hs| - i - 1] == before[i..];
  }

  lemma BargeIsSustained(lim: Limits, hs: seq<Heard>, k: nat)
    requires k < |hs|
    ensures BargesIn(lim, hs, k) <==> Sustained(lim, hs, k + 1)
  {
    var now := hs[..k + 1];
    if BargesIn(lim, hs, k) {
      var i: nat :| LoudBlock(lim, hs, i, k);
      BlockWithinTail(now, i);
      assert now[i..] == hs[i..k + 1];
    }
    if Sustained(lim, hs, k + 1) {
      var i := TailIsBlock(now);
      assert now[i..] == hs[i..k + 1];
      assert LoudBlock(lim, hs, i, k);
    }
  }

  /** Until somebody barges in, the detector has not seen speech; then it starts. */
  lemma FirstBargeStartsSpeech(lim: Limits, hs: seq<Heard>, k: nat)
    requires k < |hs|
    requires forall j: nat | j < k :: !BargesIn(lim, hs, j)
    ensures !After(lim, hs[..k]).inSpeech
    ensures SignalAt(lim, hs, k) == SpeechStarted <==> BargesIn(lim, hs, k)
  {
    SignalMeaning(lim, hs, k);
    BargeIsSustained(lim, hs, k);
    InSpeechMeansTalking(lim, hs[..k]);
    if Talking(lim, hs[..k]) {
      var i :| Sustained(lim, hs[..k], i);
      assert hs[..k][..i] == hs[..i];
      BargeIsSustained(lim, hs, i - 1);
      assert false;
    }
  }
}
