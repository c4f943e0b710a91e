/**
 The voice pipeline: an utterance becomes a turn, the reply is played frame by
 frame while the microphone is watched, and a barge-in cuts both the playback
 and the conversation memory at the same frame.
 */
module VoicePipeline {
  import opened Audio
  import opened Basics
  import opened Conversation
  import opened Interruption
  import opened Text
  import Tts
  import Vad

  datatype VoiceEvent =
    | UtteranceReceived(text: string)
    | ReplyStarted(agent: string)
    | ReplyInterrupted(chars: nat)
    | ReplyCompleted(chars: nat)

  datatype InterruptionEvent = InterruptionEvent(id: ConversationId, spokenChars: nat)

  class VoiceSession {
    const conversationId: ConversationId
    var events: seq<VoiceEvent>

    constructor (conversationId: ConversationId)
      ensures this.conversationId == conversationId && events == []
    {
      this.conversationId, events := conversationId, [];
    }

    method Record(event: VoiceEvent)
      modifies this
      ensures events == old(events) + [event]
    {
      events := events + [event];
    }
  }

  /**
   Playback of `total` frames against the microphone frames `mic` stops after
   `k` frames: at the first frame somebody barges in on, or at the end.
   */
  ghost predicate StopsAt(lim: Vad.Limits, mic: seq<Vad.Heard>, total: nat, k: nat) {
    && k <= total
    && (forall j: nat | j < k && j < |mic| :: !BargesIn(lim, mic, j))
    && (k < total ==> k < |mic| && BargesIn(lim, mic, k))
  }

  lemma StopsAtUnique(lim: Vad.Limits, mic: seq<Vad.Heard>, total: nat, k: nat, k': nat)
    requires StopsAt(lim, mic, total, k) && StopsAt(lim, mic, total, k')
    ensures k == k'
  {
  }

  /** What the caller has heard of a reply after k frames. */
  function HeardText(tts: Tts.Adapter, reply: string, k: nat): string
    requires k <= tts.Frames(|Words(reply)|)
  {
    Tts.FramesVoiceWords(tts, reply, k);
    Join(Words(reply)[..tts.Voiced(|Words(reply)|, k)], " ")
  }

  /** The heard words are a prefix of the reply's, and all of them at the end. */
  lemma HeardIsPrefix(tts: Tts.Adapter, reply: string, k: nat)
    requires k <= tts.Frames(|Words(reply)|)
    ensures Words(HeardText(tts, reply, k)) <= Words(reply)
    ensures k == tts.Frames(|Words(reply)|) ==> Words(HeardText(tts, reply, k)) == Words(reply)
  {
    Tts.FramesVoiceWords(tts, reply, k);
    WordsAreWords(reply);
    WordsOfJoined(Words(reply)[..tts.Voiced(|Words(reply)|, k)]);
  }

  /** Without a barge-in the reply itself is delivered exactly if it is single-blanked. */
  lemma DeliveredIsReplyIff(tts: Tts.Adapter, reply: string)
    ensures HeardText(tts, reply, tts.Frames(|Words(reply)|)) == reply <==> SingleBlanked(reply)
  {
    var words := Words(reply);
    Tts.FramesVoiceWords(tts, reply, tts.Frames(|words|));
    assert words[..|words|] == words;
    RejoinedIff(reply);
  }

  /** A line break in a reply is delivered as a blank. */
  lemma LineBreakIsLost(tts: Tts.Adapter)
    ensures HeardText(tts, "a\nb", tts.Frames(|Words("a\nb")|)) != "a\nb"
  {
    var reply := "a\nb";
    assert Space(reply[1]) && reply[1] != ' ';
    DeliveredIsReplyIff(tts, reply);
  }

  /** Trimming the texts of the first k frames gives what was heard of them. */
  lemma SpokenIsHeard(tts: Tts.Adapter, reply: string, k: nat)
    requires k <= tts.Frames(|Words(reply)|)
    ensures Strip(Tts.Texts(tts.Stream(reply)[..k])) == HeardText(tts, reply, k)
  {
    Tts.FramesVoiceWords(tts, reply, k);
    WordsAreWords(reply);
    StripSpoken(Words(reply)[..tts.Voiced(|Words(reply)|, k)]);
  }

  /** One more microphone frame, as long as nobody has barged in. */
  lemma ListenOnce(lim: Vad.Limits, heard: seq<Vad.Heard>, i: nat)
    requires i < |heard|
    requires forall j: nat | j < i :: !BargesIn(lim, heard, j)
    ensures Vad.Step(lim, Vad.After(lim, heard[..i]), heard[i]).0 == Vad.After(lim, heard[..i + 1])
    ensures Vad.Step(lim, Vad.After(lim, heard[..i]), heard[i]).1 == Vad.SpeechStarted
            <==> BargesIn(lim, heard, i)
  {
    FirstBargeStartsSpeech(lim, heard, i);
    assert heard[..i + 1][..i] == heard[..i];
  }

  class VoicePipeline {
    const interruption: InterruptionController
    const runtime: ConversationRuntime
    var published: seq<InterruptionEvent>

    constructor (interruption: InterruptionController, runtime: ConversationRuntime)
      ensures this.interruption == interruption && this.runtime == runtime && published == []
    {
      this.interruption, this.runtime, published := interruption, runtime, [];
    }

    /** The microphone frames as the controller's detector hears them. */
    function Mic(frames: seq<AudioFrame>): seq<Vad.Heard> {
      Vad.HearAll(frames, interruption.vad.thresholdRms)
    }

    /** Nobody has barged in on the frames up to i. */
    ghost predicate Undisturbed(mic: seq<AudioFrame>, i: nat)
      reads interruption, interruption.vad
    {
      var lim, heard := interruption.vad.limits, Mic(mic);
      && (forall j: nat | j < i && j < |mic| :: !BargesIn(lim, heard, j))
      && (i <= |mic| ==> interruption.vad.State() == Vad.After(lim, heard[..i]))
      && interruption.playing && !interruption.interruptRequested
    }

    /** Look at microphone frame i, if the stream has one. */
    method Listen(mic: seq<AudioFrame>, i: nat)
      requires Undisturbed(mic, i)
      modifies interruption, interruption.vad
      ensures interruption.interruptRequested
              <==> i < |mic| && BargesIn(interruption.vad.limits, Mic(mic), i)
      ensures !interruption.interruptRequested ==> Undisturbed(mic, i + 1)
    {
      if i < |mic| {
        ListenOnce(interruption.vad.limits, Mic(mic), i);
        interruption.OnMicFrame(mic[i]);
      }
    }

    /**
     Emit synthesized frames, looking at one microphone frame before each of
     them; microphone frames may run out before the reply does.
     */
    method Play(tts: Tts.Adapter, reply: string, mic: seq<AudioFrame>)
      returns (delivered: string, emitted: seq<TtsChunk>, interrupted: bool)
      modifies interruption, interruption.vad
      ensures |emitted| <= tts.Frames(|Words(reply)|) && emitted == tts.Stream(reply)[..|emitted|]
      ensures StopsAt(interruption.vad.limits, Mic(mic), tts.Frames(|Words(reply)|), |emitted|)
      ensures interrupted <==> |emitted| < tts.Frames(|Words(reply)|)
      ensures delivered == HeardText(tts, reply, |emitted|)
      ensures !interruption.playing && !interruption.interruptRequested
    {
      interruption.PlaybackStarted();
      var spokenParts: seq<string> := [];
      emitted := [];
      interrupted := false;
      var chunks := tts.SynthesizeStream(reply);
      var i := 0;
      while i < |chunks|
        invariant i <= |chunks| && emitted == chunks[..i]
        invariant Concat(spokenParts) == Tts.Texts(emitted)
        invariant !interrupted && Undisturbed(mic, i)
      {
        Listen(mic, i);
        if interruption.ShouldInterrupt() {
          interrupted := true;
          break;
        }
        hide Concat, Tts.Texts;
        if chunks[i].text != "" {
          ConcatAppend(spokenParts, chunks[i].text);
          spokenParts := spokenParts + [chunks[i].text];
        }
        Tts.TextsStep(chunks, i);
        emitted := emitted + [chunks[i]];
        i := i + 1;
      }
      interruption.PlaybackFinished();
      delivered := Strip(Concat(spokenParts));
      SpokenIsHeard(tts, reply, i);
    }

    /**
     One caller utterance end to end. A model fault is raised to the caller of
     the pipeline before anything plays; otherwise the memory holds the turn and,
     after a barge-in, the words that were heard.
     */
    method HandleUtterance(session: VoiceSession, tts: Tts.Adapter, input: TurnInput, mic: seq<AudioFrame>,
                           turnSaves: bool, cutSaves: bool)
      returns (result: Result<(string, seq<TtsChunk>), string>)
      modifies this, session, interruption, interruption.vad, runtime.store
      ensures result.Ok? <==> input.generation.Tokens?
      ensures result.Err? ==>
                && runtime.store.states == old(runtime.store.states)
                && session.events == old(session.events) + [UtteranceReceived(First80(input.userText))]
                && published == old(published)
      ensures result.Ok? ==>
                var reply := ReplyOf(input.generation);
                var total := tts.Frames(|Words(reply)|);
                var (delivered, chunks) := result.value;
                && |chunks| <= total && chunks == tts.Stream(reply)[..|chunks|]
                && StopsAt(interruption.vad.limits, Mic(mic), total, |chunks|)
                && delivered == HeardText(tts, reply, |chunks|)
                && runtime.store.states == Remembered(old(runtime.store.states), session.conversationId, input,
                     delivered, |chunks| < total, turnSaves, cutSaves)
                && session.events == old(session.events)
                     + [UtteranceReceived(First80(input.userText)), ReplyStarted(input.agent.displayName),
                        if |chunks| < total then ReplyInterrupted(|delivered|) else ReplyCompleted(|delivered|)]
                && published == old(published)
                     + if |chunks| < total then [InterruptionEvent(session.conversationId, |delivered|)] else []
    {
      ghost var heard, answered := UtteranceReceived(First80(input.userText)), ReplyStarted(input.agent.displayName);
      session.Record(UtteranceReceived(First80(input.userText)));
      var answer, _ := runtime.ProcessTurn(session.conversationId, input, turnSaves);
      if answer.Err? {
        return Err(answer.error);
      }
      session.Record(ReplyStarted(answer.value.agent.displayName));
      var delivered, chunks, interrupted := Play(tts, answer.value.reply, mic);
      if interrupted {
        session.Record(ReplyInterrupted(|delivered|));
        runtime.RegisterInterruption(session.conversationId, delivered, cutSaves);
        published := published + [InterruptionEvent(session.conversationId, |delivered|)];
      } else {
        session.Record(ReplyCompleted(|delivered|));
      }
      InARow(old(session.events), heard, answered,
             if interrupted then ReplyInterrupted(|delivered|) else ReplyCompleted(|delivered|));
      result := Ok((delivered, chunks));
    }
  }

  lemma InARow<T>(xs: seq<T>, a: T, b: T, c: T)
    ensures xs + [a] + [b] + [c] == xs + [a, b, c]
  {
  }

  function First80(text: string): (head: string)
    ensures head <= text && |head| <= 80 && (|text| <= 80 ==> head == text) && (|text| > 80 ==> |head| == 80)
  {
    text[..Min(80, |text|)]
  }

  /** The store after an utterance: the turn, then the cut if there was one. */
  function Remembered(store: Store, id: ConversationId, input: TurnInput, delivered: string,
                      interrupted: bool, turnSaves: bool, cutSaves: bool): Store
  {
    var answered := AfterTurn(store, id, input, turnSaves);
    if interrupted then AfterInterruption(answered, id, delivered, cutSaves) else answered
  }

  function TurnsOf(store: Store, id: ConversationId): seq<Turn> {
    if id in store then store[id].turns else []
  }

  /** The log an honest memory would hold after the utterance. */
  function HonestLog(before: seq<Turn>, input: TurnInput, delivered: string, interrupted: bool): seq<Turn>
    requires input.generation.Tokens?
  {
    var agent := Some(input.agent.role);
    before + [UserTurn(input.userText),
              if interrupted then Turn(Assistant, delivered, agent, true)
              else Turn(Assistant, ReplyOf(input.generation), agent, false)]
  }

  /**
   Memory reflects what was heard exactly when every write it needed worked: the
   turn's, and the cut's if the reply was interrupted. Other logs never change.
   */
  lemma MemoryIsHonestIff(store: Store, id: ConversationId, input: TurnInput, delivered: string,
                          interrupted: bool, turnSaves: bool, cutSaves: bool)
    requires input.generation.Tokens?
    ensures var after := Remembered(store, id, input, delivered, interrupted, turnSaves, cutSaves);
            && (TurnsOf(after, id) == HonestLog(TurnsOf(store, id), input, delivered, interrupted)
                <==> turnSaves && (interrupted ==> cutSaves))
            && (forall other | other != id :: other in after <==> other in store)
            && (forall other | other != id && other in store :: after[other] == store[other])
  {
    var before := TurnsOf(store, id);
    var after := Remembered(store, id, input, delivered, interrupted, turnSaves, cutSaves);
    var honest := HonestLog(before, input, delivered, interrupted);
    assert |honest| == |before| + 2;
    if turnSaves {
      assert TurnsOf(AfterTurn(store, id, input, turnSaves), id) == before + Exchange(input);
      if interrupted && !cutSaves {
        assert !TurnsOf(after, id)[|before| + 1].interrupted && honest[|before| + 1].interrupted;
      }
    } else {
      assert |TurnsOf(after, id)| == |before|;
    }
  }

  /**
   A failed write of the turn followed by a barge-in damages the previous reply:
   the cut lands on the last turn that was stored. Earlier turns survive exactly
   outside that case (or when the rewrite happens to change nothing).
   */
  lemma EarlierTurnsSurviveIff(store: Store, id: ConversationId, input: TurnInput, delivered: string,
                               interrupted: bool, turnSaves: bool, cutSaves: bool)
    requires input.generation.Tokens? && Dialogues(store)
    ensures var before := TurnsOf(store, id);
            before <= TurnsOf(Remembered(store, id, input, delivered, interrupted, turnSaves, cutSaves), id)
            <==> turnSaves || !interrupted || !cutSaves || before == []
                 || before[|before| - 1] == Cut(before[|before| - 1], delivered)
  {
    var before := TurnsOf(store, id);
    var after := TurnsOf(Remembered(store, id, input, delivered, interrupted, turnSaves, cutSaves), id);
    if turnSaves {
      assert TurnsOf(AfterTurn(store, id, input, turnSaves), id) == before + Exchange(input);
      assert |after| == |before| + 2 && after[..|before|] == before;
    } else if interrupted && cutSaves && before != [] {
      assert before[|before| - 1].role == Assistant;
      assert after == before[|before| - 1 := Cut(before[|before| - 1], delivered)];
    }
  }
}
