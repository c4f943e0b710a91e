# Paloma365 operations platform: a verified model

This Dafny project models the deterministic core of the Paloma365 AI operations
platform and proves what the platform relies on. Six cores are covered.

1. **Voice with barge-in** (`Audio`, `Vad`, `Interruption`, `Tts`, `VoicePipeline`,
   `Conversation`). A debounced detector watches the microphone while a reply
   plays, a barge-in cuts the playback, and conversation memory is rewritten to
   what was heard.
2. **Offers** (`Rounding`, `Roi`, `Offers`, `Validator`). Projection, payback, offer
   assembly and the rule firewall, down to which verdicts a machine-built offer
   can get.
3. **Retrieval-augmented generation** (`Paragraphs`, `SentenceSplitting`, `Chunking`,
   `Headings`, `PlainTexts`, `KeyedLog`, `VectorStore`, `WordStores`, `Sorting`, `Searching`,
   `Retrieval`, `Hybrid`, `ContextBuilder`, `Packages`). Chunking with overlap, replace-by-document storage, lexical
   search, rank fusion, reranking, deduplication and budgeting.
4. **The maintenance scheduler** (`Scheduler`). Due-ness and next run, two
   independent formulas, over every history of ticks.
5. **Customer sessions and dispatch** (`Sessions`, `Dispatcher`, `Conversation`).
   Many customers, rotation, binding, commands, failing turns and failing writes.
6. **CRM sync and contract extraction** (`Normalizer`, `Crm`, `JsonValues`, `Extraction`,
   `Grammar`).

Objects that change in place are classes; each of their methods is proved equal to
a function of the old state, and the theorems are about those functions over all
inputs, streams, runs or histories. `Basics`, `Text` and `Arithmetic` hold shared
vocabulary. `dafny verify dfyconfig.toml` checks everything.

## What the proofs show about the code

- A failed write of a turn followed by a barge-in damages the *previous* reply: the
  cut lands on the last turn that was stored (`VoicePipeline.EarlierTurnsSurviveIff`
  gives the exact condition).
- The registration check accepts times such as `daily@99:99` and intervals such as
  `every:99999999999h`, which no duration can hold. The job runs once, and from then on
  every tick faults before anything runs, so no other job is served either
  (`Scheduler.FaultsAreForGood`). `Scheduler.TicksAreSafeIff` and
  `Scheduler.IndependentIff` give the exact conditions.
- The projection's documentation promises a warning for a payback beyond the
  horizon. A machine-built offer can get the warnings verdict exactly when the ramp
  factors of the horizon add up to more than 999.95 months
  (`Validator.WarningsReachableIff`); below that an offer whose rounded payback is
  beyond the horizon always fails, on its negative ROI.
- No message is ever ghosted and none raises into the transport loop, the dispatcher
  says. `/restaurant`, with or without an argument, is answered by nothing when the
  restaurant directory cannot be read, and any message when its session or customer
  store fails: the fault leaves the dispatcher. An answer that cannot be recorded is
  sent, and then its fault leaves it too (`Dispatcher.MessageIsAnsweredIff` is exact, and
  `Dispatcher.NobodyIsGhosted` for whole runs).
- Per-record faults never abort a CRM sync, its documentation says. Fields of the wrong
  kind do: a restaurant id that is a number, a list where an object is due, a name that is
  no text, a negative amount, an integer amount too large for a float
  (`Normalizer.BrokenIff` is exact on the payload, `Crm.SyncCompletesIff` on the inbox).
  As the inbox is never drained, one such payload keeps everything behind it out of
  memory in this run and in all later ones (`Crm.BrokenPayloadBlocks`).
- Re-ingesting a file replaces its chunks, the pipeline says. It does unless the file has
  no words left outside heading lines; then the old chunks stay
  (`VectorStore.IngestionRefinesMap`, `VectorStore.NothingToStoreIff`).
- A chunk found by both search channels outranks every chunk found by one for all
  hit lists exactly when the candidate pool is at most 61 (`Retrieval.BothAlwaysWinIff`),
  and for the searches over ingested stores too (`Hybrid.AgreementAlwaysWinsIff`).
- An odd history window, once the dialogue is longer than it, makes the prompt's
  history start with an assistant turn; `Conversation.PromptWellFormedIff` is exact.
- The context budget is called hard, but headers and separators are not counted. It is
  hard exactly from 0 to 200, where nothing is rendered at all
  (`ContextBuilder.BudgetIsHardIff`, and `Packages.BudgetAlwaysKeptIff` for what retrieval
  finds on ingested stores); `ContextBuilder.PackageIsBounded` gives the bound that always
  holds, and one long chunk reaches it.
- What is delivered equals the full reply unless interrupted, the pipeline says. It does
  exactly for replies without whitespace other than single blanks between words
  (`VoicePipeline.DeliveredIsReplyIff`); a line break becomes a blank.
- Paragraphs are said to be packed up to `max_chars`; separators are not counted and a
  forced piece may follow a carried tail. All bodies of all texts whose pieces are at most
  so long fit into a number of characters exactly if the bound of
  `Chunking.BodiesAreBounded` does (`PlainTexts.BodyBoundIsExact`), so they keep to
  `max_chars` exactly if both lengths are 1 (`PlainTexts.BodiesKeepTheLimitIff`). A chunk
  of carried text alone arises exactly from two flushes in a row (`Chunking.BareChunksIff`).

## Model

| member | source | states |
|---|---|---|
| Vad.EnergyVad.Process | voice/vad.py:41-65 | One frame takes the detector from its old state to the next one and emits the edge, as the step function says, on the loudness that the rows on `Audio` pin; all three fields are fixed |
| Vad.EnergyVad.Reset | voice/vad.py:71-74 | After a reset the detector is in the initial silent state |
| Audio.SamplesReadBack | voice/vad.py:81-81 | Every 16-bit sample from -32768 to 32767, written as two bytes, is read back, wherever it stands in the audio |
| Audio.PeaksLoudIff | voice/vad.py:43-82 | A frame of n samples, k of which are a or -a and the others 0, is loud exactly if k times a squared reaches n times the threshold squared |
| Audio.LevelLoudIff | voice/vad.py:43-82 | A frame whose samples are all a or -a is loud at a positive threshold exactly if the magnitude of a reaches it |
| Audio.LouderStaysLoud | voice/vad.py:76-82 | Making samples larger in magnitude never makes a loud frame quiet |
| Audio.LoudnessScales | voice/vad.py:76-82 | Scaling the samples and the threshold together does not matter |
| Audio.BelowIsQuiet | voice/vad.py:43-82 | A frame whose samples all stay below the threshold is not loud |
| Audio.AboveIsLoud | voice/vad.py:43-82 | A frame whose samples all reach the threshold is loud |
| Audio.DurationCountsSamples | voice/models.py:17-31 | A frame of n samples for each channel lasts n sample times |
| Vad.RoomNoiseIsIgnored | voice/vad.py:41-65 | Over every stream of frames whose samples stay below the threshold nothing is ever signalled |
| Vad.SpeechStartsOnTime | voice/vad.py:46-52 | In a stream of frames whose samples reach the threshold, speech starts exactly with the frame that completes the minimum time |
| Vad.CountersAreTails | voice/vad.py:46-65 | Over every frame stream the speech counter is the duration of the loud run ending the stream, the silence counter that of the quiet run |
| Vad.InSpeechMeansTalking | voice/vad.py:41-69 | The in-speech flag holds exactly when some earlier loud run lasted the minimum and no quiet run after it reached the hangover |
| Vad.SignalMeaning | voice/vad.py:41-65 | A start is emitted exactly when nobody talks and the loud run reaches the minimum; an end exactly when somebody talks and the quiet run reaches the hangover |
| Vad.EdgesAlternate | voice/vad.py:41-65 | Edges alternate beginning with a start, and the flag is the parity of their number |
| Vad.StartsAreRare | voice/vad.py:3-6 | n+1 starts need at least n+1 minimum speech times and n hangovers of audio |
| Interruption.InterruptionController.PlaybackStarted | voice/interruption.py:29-32 | Playback starts without a pending interrupt and with a reset detector |
| Interruption.InterruptionController.OnMicFrame | voice/interruption.py:38-44 | Ignored unless playing; otherwise the detector steps and a start raises the interrupt flag, which stays up |
| Interruption.BargeIsSustained | voice/interruption.py:38-48 | Some contiguous block of loud frames ending at k lasts the minimum exactly when the loud run ending at k does |
| Interruption.FirstBargeStartsSpeech | voice/interruption.py:38-48 | Until someone barged in, the detector is not in speech, and it signals a start at frame k exactly when somebody barges in there |
| Tts.Adapter.SynthesizeSimulated | voice/tts.py:44-58 | The generator loops over words and frames produce the stream in which frame k voices the words it completes |
| Tts.Adapter.SynthesizeService | voice/tts.py:76-100 | Proportional distribution over the frames of the returned audio produces the same kind of stream |
| Tts.VoicedBounds | voice/tts.py:52-54 | The number of voiced words starts at 0, never falls, never exceeds the text's and reaches it with the last frame, for both adapters |
| Tts.FramesVoiceWords | voice/tts.py:92-100 | The first k frames voice exactly the first k div framesPerWord words (simulated), or n*k div T words (service), in order; all frames voice all words |
| Tts.AudioIsPlayed | voice/tts.py:83-100 | The frames of a whole service stream hold its audio byte for byte, but for what is left over after the last full frame of 960 |
| Tts.FramesCarryTheAudio | voice/tts.py:92-98 | The first k frames of a service stream hold the first k frame lengths of its audio |
| Tts.WordLastsItsShare | voice/tts.py:48-52 | A simulated word takes 60000 / rate milliseconds, to within half a frame, and one frame at least |
| Tts.SimulatedFramesAreSilent | voice/tts.py:49-56 | Simulated frames are of the frame length and silent |
| Audio.FrameLastsTwentyMs | voice/tts.py:84-84 | The frame length is the most bytes that last no more than 20 milliseconds |
| VoicePipeline.VoicePipeline.Listen | voice/pipeline.py:109-112 | After looking at microphone frame i the interrupt flag is up exactly if somebody barges in at i |
| VoicePipeline.VoicePipeline.Play | voice/pipeline.py:99-120 | Playback stops at the least frame somebody barges in on, or at the end; exactly the frames before it are emitted, and the delivered text is their words joined by blanks |
| VoicePipeline.VoicePipeline.HandleUtterance | voice/pipeline.py:53-96 | A whole utterance: delivered text, emitted frames, stored turns, session events and published event all agree on the same stopping frame; a model fault changes nothing but the first event |
| VoicePipeline.StopsAtUnique | voice/pipeline.py:108-114 | The stopping frame is determined by the microphone stream and the number of frames |
| VoicePipeline.HeardIsPrefix | voice/pipeline.py:68-71 | The words heard are a prefix of the reply's words, and all of them at the end |
| VoicePipeline.DeliveredIsReplyIff | voice/pipeline.py:68-70 | Without a barge-in the delivered text is the reply itself exactly if the reply is empty or trimmed with only single blanks between words |
| VoicePipeline.LineBreakIsLost | voice/pipeline.py:68-70 | A two-line reply is not delivered as it is |
| VoicePipeline.SpokenIsHeard | voice/pipeline.py:116-120 | Trimming the joined texts of the first k frames gives the heard words joined by single blanks |
| VoicePipeline.MemoryIsHonestIff | voice/pipeline.py:76-95 | The log ends in the user turn and what was heard (flagged if cut) exactly when every needed write worked; no other log changes |
| VoicePipeline.EarlierTurnsSurviveIff | conversation/runtime.py:139-152 | The earlier turns survive an utterance unless its own write failed and a successful cut rewrote the previous reply |
| Conversation.ConversationRuntime.ProcessTurn | conversation/runtime.py:88-137 | New store, prompt and result of one turn for every model and write outcome |
| Conversation.ConversationRuntime.RegisterInterruption | conversation/runtime.py:139-152 | Only a last turn by the assistant is replaced, by the spoken text, flagged, with its role kept |
| Conversation.ConversationRuntime.BuildMessages | conversation/runtime.py:172-193 | The loop builds: system text, window of turns, knowledge context if any, user text |
| Conversation.ReplyIsAllTokens | conversation/runtime.py:239-247 | The reply is all the streamed text, trimmed, however it was cut into tokens |
| Conversation.PromptLayout | conversation/runtime.py:172-193 | Where the system text, the last turns of the window, the knowledge context and the text of the user stand in a prompt |
| Conversation.ConversationStore.Save | conversation/memory.py:50-54 | A write replaces one conversation; a failing write leaves the store as it was |
| Conversation.LogsAreDialogues | conversation/runtime.py:97-152 | After any sequence of turns, faults, failed writes and interruptions, every log alternates user and assistant, has even length, and only assistant turns are interrupted |
| Conversation.RestaurantIsWriteOnce | conversation/runtime.py:98-102 | A conversation that has a restaurant keeps that restaurant forever |
| Conversation.RestaurantIsFirstNamed | conversation/runtime.py:98-102 | Over every sequence of turns, faults and interruptions the restaurant of a conversation is the first that a stored turn of it named, whatever is named later |
| Conversation.NoRestaurantWithoutName | conversation/runtime.py:98-102 | As long as no stored turn names one, the conversation has none; an empty identifier names none |
| Conversation.PromptWellFormedIff | conversation/models.py:40-42 | The non-system messages alternate, open with the user and close with the new text, exactly for an even window or one that shows all or none of the turns |
| Sessions.SessionManager.Resolve | communication/session.py:62-92 | New session with its two own clock stamps, idle rotation or the old session, plus late recognition of the restaurant through customer memory, and nothing else in the registry; a store that fails, in the order they are used, is raised and changes nothing |
| Sessions.SessionManager.FindRestaurant | communication/session.py:126-134 | The restaurant of the record that the phone lookup finds, if it names one; an unreadable customer store is a fault exactly if the address has digits to look up |
| Sessions.SessionManager.BindRestaurant | communication/session.py:94-99 | Only this session's restaurant changes, or nothing if the store fails |
| Sessions.SessionManager.RotateConversation | communication/session.py:102-108 | A never-used conversation id replaces the old one and the agent is cleared, or nothing if the store fails |
| Sessions.SessionManager.RecordTurn | communication/session.py:113-120 | Activity, agent and message count of this session are updated, or nothing if the store fails |
| Dispatcher.MessageDispatcher.Dispatch | communication/dispatcher.py:107-196 | New sessions and logs, what is sent and the report, for commands, faults and answers; an unknown channel or a store that fails around them is raised |
| Dispatcher.MessageDispatcher.HandleCommand | communication/dispatcher.py:199-239 | The same command, change and answer as the model of commands, whose meaning the next rows give on the words of the text; anything else is no command and changes nothing, and a fault of the directory or the session store is raised before anything changes |
| Dispatcher.ParsedByWords | communication/dispatcher.py:199-239 | For every text, by its words: which command it is, and when it is none |
| Dispatcher.CommandsAreAnswered | communication/dispatcher.py:205-239 | What is sent is the help text exactly for /help, the reset notice exactly for /reset, the unknown-command notice exactly for another first word with a slash, and for any other text the formatted reply or the fallback |
| Dispatcher.RestaurantIsAnswered | communication/dispatcher.py:217-246 | /restaurant tells a bound sender its own restaurant and name, or that there is none; with an argument it binds exactly a known one |
| Dispatcher.ReportTells | communication/dispatcher.py:107-196 | The report names the sender, the transport's id, the binding unless the turn failed, and an error exactly for a failed turn or an undelivered answer |
| Dispatcher.AnswersAreKept | communication/dispatcher.py:144-151 | A stored answer adds exactly what the sender wrote and what the model said to the log; a conversation it opens gets the channel of the message and the restaurant of the session |
| Text.CaseIsIgnored | communication/dispatcher.py:210-226 | Lowering and uppering undo case and nothing else |
| Dispatcher.MessageDispatcher.DeliverSafe | communication/dispatcher.py:248-256 | Every outbound message is attempted once; a transport fault is an empty id |
| Dispatcher.MessageHasEffect | communication/dispatcher.py:107-196 | One message changes nothing if it gets no session, else the sender's session only, replaces its conversation exactly when due and by a fresh one, and appends to its log exactly when answered and saved |
| Dispatcher.RunIsConsistent | communication/dispatcher.py:107-196 | Over every run, outages included: sessions mirror the trace, live conversation ids are distinct, no id was ever used by two customers, and logs are the saved exchanges of the trace |
| Dispatcher.TraceFollows | communication/dispatcher.py:107-111 | The trace of a run has one event for every message, in order |
| Dispatcher.CustomersAreIsolated | communication/session.py:62-92 | Messages of a run that ended up in one conversation have one sender on one channel, and its log is exactly their saved exchanges in order |
| Dispatcher.LogsBelongToMessages | conversation/runtime.py:111-115 | A non-empty log belongs to a message of the run |
| Dispatcher.ConversationChangesIff | communication/session.py:78-81 | A known customer gets a new conversation exactly if the message gets its session and its first word, lowered, is /reset and can be stored, or it comes more than the idle time after the last recorded answer (or first contact) |
| Dispatcher.RunLogsAreDialogues | conversation/runtime.py:111-115 | Every log of every run is a dialogue of whole exchanges |
| Dispatcher.SessionsEndure | communication/session.py:94-120 | Along any continuation a session keeps id, address and creation time, and a restaurant binding is never lost |
| Dispatcher.MessagesCountAnswers | communication/session.py:113-120 | The message counter is the number of recorded answers to that customer |
| Dispatcher.ActiveAgentIs | communication/session.py:78-118 | The agent a session remembers is that of the last recorded answer in its conversation; a reset or idle rotation forgets it |
| Dispatcher.MessageIsAnsweredIff | communication/dispatcher.py:9-12 | A message gets exactly one reply, addressed to its sender, unless its channel has no transport, a store it needs for its session fails, it asks the unreadable directory, or its command cannot be stored; then nothing is sent and the fault is raised. It is raised after the reply exactly if an answer cannot be recorded. The reply is the fallback exactly for a failed turn, and the report is ok exactly if the turn worked and an id came back |
| Dispatcher.EntersIff | communication/dispatcher.py:107-111 | A message gets a session exactly if its channel is known, the session store works, and so does the customer store where the sender has digits to look up and no restaurant yet |
| Dispatcher.NobodyIsGhosted | communication/dispatcher.py:9-12 | A run sends at most one reply a message, and one for every message, the i-th addressed to the i-th sender, exactly if no message of it meets an outage before its reply |
| Dispatcher.MessageBinds | communication/session.py:62-100 | Every message that gets a session leaves it bound to what its words say if they are a /restaurant command with a known argument, or else as it was bound, or else to the restaurant customer memory has for the address, in a new session and in a known one; no other session changes its binding |
| Dispatcher.BindingStays | communication/session.py:87-100 | Along any continuation of a run a binding stays the same until its customer binds another restaurant by command |
| Dispatcher.SyncedContactIsRecognised | communication/session.py:87-134 | From a CRM sync to any later point of any run: a sender without a binding, new or known, who writes from the phone number of one customer only gets the restaurant of that customer's last contact change, and keeps it unless a command binds another |
| Roi.CombinedGrowthPct | engines/roi_engine.py:112-123 | Combined growth lies between 0 and 25 percent |
| Roi.GrowthComposes | engines/roi_engine.py:112-123 | Growths of two bundles compose multiplicatively, up to the cap: ten and ten percent make twenty-one |
| Roi.OneModuleGrows | engines/roi_engine.py:118-121 | A single module composes the growth of its orders with that of its tickets |
| Roi.GrowthIgnoresOrder | engines/roi_engine.py:112-123 | Two permutations of one bundle have the same combined growth |
| Roi.GrowthNeverFalls | engines/roi_engine.py:112-123 | Inserting a module anywhere never lowers the combined growth |
| Roi.RampSumClosedForm | engines/roi_engine.py:77-78 | The ramp factors add up to H - (R-1)/2 for H >= R >= 1, to H(H+1)/(2R) for H < R, and to H without a ramp |
| Roi.PaybackMonths | engines/roi_engine.py:132-154 | The loop returns none exactly without gain, and otherwise the payback moment of the month gains |
| Roi.PaybackInverts | engines/roi_engine.py:138-154 | At the payback moment the cumulative gain equals the investment, for every ramp and investment, beyond the horizon too |
| Roi.PaybackIsUnique | engines/roi_engine.py:138-154 | No other moment has that cumulative gain |
| Roi.PaybackWithinHorizonIff | engines/roi_engine.py:147-154 | Payback fits the horizon exactly when the horizon gain covers the investment; beyond it the excess is at the steady gain |
| Roi.PaybackAgreesWithRoi | engines/roi_engine.py:80-85 | Before rounding, payback fits the horizon exactly when ROI is not negative |
| Roi.PaybackFallsWithGain | engines/roi_engine.py:132-154 | A larger steady gain never pays back later |
| Roi.PaybackRisesWithInvestment | engines/roi_engine.py:132-154 | A larger investment pays back strictly later |
| Roi.RoiEngine.Calculate | engines/roi_engine.py:47-106 | An empty bundle is refused; otherwise the projection holds the rounded figures: growth, gain and investment as the next rows pin them, and ROI and payback as relations to them |
| Roi.GainIsProportional | engines/roi_engine.py:66-72 | The steady gain is proportional to revenue, growth, margin and attribution, and is the whole revenue at a hundred percent of each |
| Roi.RevenuePerOrder | models/restaurant.py:36-39 | Monthly revenue is 0 without orders and grows with each by the average ticket |
| Roi.InvestmentIsFees | engines/roi_engine.py:74-76 | The investment is the sum of the set-up fees plus the horizon times the sum of the monthly fees |
| Roi.OneMoreMonthCosts | engines/roi_engine.py:74-76 | One more month of horizon adds exactly the sum of the monthly fees |
| Roi.InvestmentIgnoresOrder | engines/roi_engine.py:55-58 | Prices in any order make the same investment |
| Rounding.RoundToIsNearest | engines/roi_engine.py:87-95 | A rounded figure is a grid point at most half a step away, and the even one of two such |
| Offers.OfferService.BuildOffer | services/offer_service.py:84-133 | Either the assembled offer is stored under its id, a new id last in the order, and returned, or an unknown module or price or an empty bundle is reported and nothing is stored |
| Offers.OfferIsAsAsked | services/offer_service.py:84-133 | An offer is built exactly for a known, priced bundle that is not empty and a summary of at most 1500 characters; it carries the id, the restaurant and one line per code in order, with name, fees and currency; otherwise the first unknown code is named |
| Offers.OfferRepository.Save | services/offer_service.py:54-56 | The offer is stored under its id; a new id goes last in the order, a known one keeps its place |
| Offers.OfferRepository.Get | services/offer_service.py:58-62 | The offer last saved under the id in the history of saves, or none exactly if none was ever saved under it |
| Offers.OfferRepository.LatestFor | services/offer_service.py:37-68 | The restaurant's offer latest in insertion order, or none exactly when it has none; as long as no id is saved twice, that is its most recently saved offer |
| Validator.ValidatorEngine.Validate | engines/validator_engine.py:182-202 | All issues of all five rules in order, the verdict on them, the id (a fresh one if there is none) and the number of rules |
| Validator.FigureIssuesIff | engines/validator_engine.py:41-89 | The ROI rule objects exactly to a figure out of bounds and then blocks; the payback rule objects exactly to none or a late one and blocks exactly for none |
| Validator.FiniteIssuesIff | engines/validator_engine.py:144-160 | The finite-numbers rule objects exactly if some figure is infinite or no number, and then blocks |
| Validator.ValidatorEngine.CheckPrices | engines/validator_engine.py:114-136 | The issue list of the price rule |
| Validator.CloseIff | engines/validator_engine.py:119-123 | Fees count as equal exactly if they differ by at most a billionth of the larger one |
| Validator.DeviatesIff | engines/validator_engine.py:114-136 | An item deviates from the catalog exactly if one of its fees is not equal in that sense or its currency is another |
| Validator.VerdictMeaning | engines/validator_engine.py:205-210 | Any offer, also one with infinities or NaN, fails exactly for an ROI out of bounds, no payback, a figure that is not finite or an item that is not in the catalog at its price; it passes with warnings exactly if it does not fail and pays back late |
| Validator.ProjectedMeaning | engines/roi_engine.py:66-85 | The figures of a projection as relations: month gains add up to gain times ramp sum, ROI times investment is a hundred times the net gain |
| Validator.LateRoundingIff | engines/roi_engine.py:87-95 | A payback that rounds beyond the horizon goes with a rounded ROI of at most 0, and with exactly 0 only if it is late by at most 1/19999 of the ramp sum |
| Validator.BuiltOfferVerdict | engines/validator_engine.py:182-210 | The exact verdict on every offer the factory builds, against the same catalog |
| Validator.NoWarningsWithin | engines/validator_engine.py:78-88 | With a ramp sum of at most 999.95 no machine-built offer passes with warnings |
| Validator.NoWarningsUpTo999 | engines/validator_engine.py:205-210 | For a horizon of at most 999 months a machine-built offer fails exactly without gain or with a rounded ROI below 0 or above 500, and passes otherwise |
| Validator.WarningsReachableIff | engines/roi_engine.py:140-142 | Some machine-built offer passes with warnings exactly when the ramp sum exceeds 999.95 |
| Scheduler.Scheduler.Register | scheduler/scheduler.py:103-107 | A job is appended exactly if its name is new |
| Scheduler.Scheduler.Tick | scheduler/scheduler.py:113-117 | One tick is one beat of the history model: exactly the due jobs are marked and reported in order, and if evaluating one faults, nothing runs |
| Scheduler.Scheduler.RunAll | scheduler/scheduler.py:119-121 | One forced cycle is one beat of the history model: every job is marked and reported |
| Scheduler.Scheduler.RunJobs | scheduler/scheduler.py:124-156 | All selected jobs run and count as run whether or not their action raises; one summary is published if there was any |
| Scheduler.SummaryCounts | scheduler/scheduler.py:81-93 | What is published tells how many of the results worked and how many failed, and nothing is published without results |
| Scheduler.NextRunIsFirstSlotAfter | scheduler/scheduler.py:49-56 | The next daily run is the first moment after now at which the clock reads hour:minute:00 |
| Scheduler.UnitsOfTime | scheduler/scheduler.py:53-59 | Minutes, hours and days are 60, 3600 and 86400 million microseconds |
| Scheduler.SlotReads | scheduler/scheduler.py:52-67 | For a time that exists, a moment is its own day's occurrence exactly if the clock reads hour:minute:00 there, hours, minutes and the rest taken apart |
| Scheduler.SoundIff | scheduler/scheduler.py:49-70 | A schedule exists exactly if the clock reads its time at some moment, or its interval is less than a billion days |
| Scheduler.DailyDueIff | scheduler/scheduler.py:61-68 | A daily job that ran at r is due exactly from a moment after r at which the clock reads hour:minute:00 to the midnight that follows it |
| Scheduler.DailyAgreement | scheduler/scheduler.py:49-68 | After a run at r a daily job is not due before its next run, and is due from it to midnight |
| Scheduler.IntervalAgreement | scheduler/scheduler.py:57-70 | An interval job is due exactly from its next run on |
| Scheduler.JobsAreIndependent | scheduler/scheduler.py:113-139 | If all schedules exist, then over every history of ticks and forced cycles a fresh job's last run and due-ness are those it would have alone |
| Scheduler.FaultsAreForGood | scheduler/scheduler.py:113-121 | Once a job of an impossible schedule ran, every later tick faults and changes no job, while forced cycles still run them all |
| Scheduler.IndependentIff | scheduler/scheduler.py:113-121 | Fresh jobs never notice one another exactly if all their schedules exist or none does |
| Scheduler.LastRunIsLatest | scheduler/scheduler.py:136-136 | The recorded last run is at or after every run so far |
| Scheduler.DailyRunsIff | scheduler/scheduler.py:61-68 | Over every chronological history a tick after the first runs a daily job exactly when today's slot has come and nothing happened since it |
| Scheduler.SlotsAreServedInOrder | scheduler/scheduler.py:61-68 | Scheduled runs of a daily job after its first serve strictly increasing slots |
| Scheduler.SlotIsServedOnce | scheduler/scheduler.py:61-68 | Without forced runs in a slot's window, a tick in the window runs the job exactly if it is the first there |
| Scheduler.SlotIsServedExactlyOnce | scheduler/scheduler.py:61-68 | If a tick falls in the window, exactly one run serves the slot |
| Scheduler.IntervalRunsIff | scheduler/scheduler.py:69-70 | A tick runs an interval job exactly if every earlier run is at least N hours back; if N hours are no duration, exactly if there was none |
| Scheduler.UnsoundScheduleStopsTicks | scheduler/scheduler.py:42-47 | A registered job with an impossible time of day or interval makes this tick or the one after it fault, and every tick once it ran |
| Scheduler.TicksAreSafeIff | scheduler/scheduler.py:113-117 | Ticks are free of faults exactly if every schedule names a time of day or a duration that exists |
| Paragraphs.ParagraphsKeepWords | rag/chunking.py:92-92 | Splitting a text at blank lines loses nothing but whitespace |
| Paragraphs.NoBlankLeft | rag/chunking.py:92-92 | No paragraph holds a blank line |
| Paragraphs.ParagraphsReadBack | rag/chunking.py:92-95 | Paragraphs joined by blank lines, with whatever whitespace on them, are read back exactly |
| SentenceSplitting.SentencesTrimmed | rag/chunking.py:111-111 | The sentences of a trimmed text are trimmed and not empty |
| SentenceSplitting.SentencesKeepWords | rag/chunking.py:23-23 | Splitting into sentences loses nothing but whitespace |
| SentenceSplitting.SentencesReadBack | rag/chunking.py:23-23 | Sentences joined by any whitespace are read back exactly |
| Chunking.SplitOversized | rag/chunking.py:106-118 | The loop yields the greedily packed pieces of a paragraph |
| Chunking.PiecesFacts | rag/chunking.py:106-118 | Pieces are trimmed, at most the limit or one sentence long, and hold exactly the paragraph's words |
| Chunking.PiecesAreGreedy | rag/chunking.py:106-118 | A paragraph that fits is one piece; otherwise the pieces are consecutive groups of its sentences on one line each, filled as far as max_chars allows, and none could take the sentence that opens the next |
| Chunking.OverlapIsSuffix | rag/chunking.py:120-127 | What is carried over is an end of the body, at most the overlap long, trimmed or empty |
| Chunking.OverlapStartsASentence | rag/chunking.py:122-127 | If a sentence begins in the last characters of the body, the overlap is the text from the first such on |
| Chunking.OverlapInASentence | rag/chunking.py:122-127 | If none begins there, the overlap is all of these characters, trimmed |
| Chunking.Assembly.Flush | rag/chunking.py:43-54 | The closure's variables go from one packing state to its flushed successor |
| Chunking.Assembly.AppendPiece | rag/chunking.py:64-68 | One piece is packed, after a flush if it does not fit |
| Chunking.Pack | rag/chunking.py:56-69 | The loop over the paragraphs yields the packing's chunks, numbered from 0, under their headings |
| Headings.ChunkingService.Split | rag/chunking.py:35-72 | The chunks of a document's text |
| Chunking.ChunkReads | rag/chunking.py:75-85 | A chunk gives title and heading, once if they are the same, in brackets on a line and then its body, and carries its document, heading and number |
| Chunking.ChunkingConserves | rag/chunking.py:56-69 | The new pieces of all chunks in order are exactly the pieces of all paragraphs under their headings, and hold exactly the document's words |
| Chunking.ChunksCarryTheOverlap | rag/chunking.py:52-60 | Every chunk starts with the overlap of the previous one exactly if they share a heading, and that overlap is an end of the previous body |
| Chunking.BodiesAreBounded | rag/chunking.py:43-69 | No body exceeds max(3*max_chars - 2, overlap + 2 + longest piece), or without overlap max(3*max_chars - 2, longest piece), for every document |
| PlainTexts.BoundIsReached | rag/chunking.py:43-69 | For every limit, overlap and length of the longest piece there is a text whose largest body has exactly the bound's length |
| PlainTexts.BodyBoundIsExact | rag/chunking.py:43-69 | All bodies of all texts with pieces of at most a given length fit into so many characters exactly if the bound does |
| PlainTexts.BodiesKeepTheLimitIff | rag/chunking.py:1-10 | They keep to max_chars exactly if max_chars and the longest piece are 1 |
| Chunking.BareIff | rag/chunking.py:61-66 | A paragraph closes a chunk of carried text alone exactly if it overflows its section's open chunk and its first piece does not fit after the carried tail |
| Chunking.BareChunksIff | rag/chunking.py:56-69 | A document has a chunk of carried text alone exactly if some paragraph does so |
| Chunking.PiecesAreBounded | rag/chunking.py:106-118 | The longest piece is at most max(max_chars, longest sentence) |
| Headings.BlocksWithHeadings | rag/chunking.py:88-104 | The text split at blank lines, each paragraph under the heading in force |
| Headings.DocumentReadsBack | rag/chunking.py:88-104 | A document written as sections, each a heading of any level and body lines, with blank lines between them, has exactly their bodies under their headings |
| Headings.OtherParagraphs | rag/chunking.py:96-103 | A heading alone opens its section, and a paragraph without one stays in the section at hand |
| Headings.HeadingIff | rag/chunking.py:22-22 | A line is a heading exactly if it starts with one to six marks that whitespace follows; its text is trimmed |
| Headings.LinesReadBack | rag/chunking.py:96-99 | Lines joined by either newline are read back |
| Headings.LineBreaksAre | rag/chunking.py:96-99 | Lines end at exactly ten characters, listed |
| Text.SpacesAre | rag/chunking.py:92-94 | Whitespace is exactly the 29 characters that splitting and trimming agree on, listed |
| Headings.ParagraphWords | rag/chunking.py:96-103 | The words of a paragraph are those of its heading line, then those of its body |
| Headings.OutlineKeepsWords | rag/chunking.py:92-104 | All words outside heading lines are kept in order |
| Headings.DocumentWordsAreConserved | rag/chunking.py:35-72 | From a text to its chunks: the words of the text are those of heading lines and bodies, and the new pieces of all chunks hold exactly those of the bodies in order; without headings, all of them |
| KeyedLog.PutAllClosedForm | rag/vector_store.py:60-71 | Putting batches leaves the untouched keys in order, followed by what the batches alone would leave |
| KeyedLog.PutAllKeepsLast | rag/vector_store.py:60-71 | Of several batches for one key the last one stays, in the order of last occurrences |
| KeyedLog.PutAllTwice | rag/vector_store.py:13-14 | Putting a sequence of batches twice equals putting it once, order included |
| KeyedLog.PutRefinesMap | rag/vector_store.py:63-71 | Seen as a map from keys to batches, a put replaces exactly its own keys |
| VectorStore.InMemoryVectorStore.Add | rag/vector_store.py:60-74 | The aligned chunk and row lists become the old ones without the replaced documents plus the new ones; uneven lists are refused without effect |
| VectorStore.IngestionService.IngestText | rag/ingestion.py:96-105 | The document's entries are put as one batch; without chunks the store stays as it was |
| VectorStore.IngestionService.IngestFile | rag/ingestion.py:85-94 | The same for a file; an unreadable one changes nothing |
| VectorStore.IngestionService.IngestDirectory | rag/ingestion.py:52-83 | The fold over all files, with exact counts of files, chunks and skipped names |
| VectorStore.ChunksAddUp | rag/ingestion.py:62-73 | The reported chunks are counted batch by batch |
| VectorStore.SkippedAddUp | rag/ingestion.py:63-73 | The skipped files are exactly the unreadable ones, named in order |
| VectorStore.IngestionIsIdempotent | rag/ingestion.py:3-5 | Ingesting any files twice equals ingesting them once, order included |
| VectorStore.IngestionClosedForm | rag/ingestion.py:64-69 | The store after ingestion: the entries of other documents in order, then each document's last batch in order of last occurrence |
| VectorStore.ChunkIdsAreUnique | rag/chunking.py:78-82 | In every store reached by ingestion all chunk ids differ and every entry is filed under its document |
| VectorStore.VectorsAreOfTheText | rag/ingestion.py:96-105 | In every store reached by ingestion each chunk stands beside the vector of its own text |
| VectorStore.IngestionRefinesMap | rag/vector_store.py:13-14 | Ingesting one document replaces exactly that document's entries if it has words outside heading lines, and otherwise nothing, so that its old entries stay |
| VectorStore.NothingToStoreIff | rag/ingestion.py:96-101 | A file yields no chunks exactly if it cannot be read or has no words outside heading lines |
| Headings.NoChunksIff | rag/chunking.py:35-72 | A text yields no chunks exactly if its paragraphs have no words outside heading lines |
| Sorting.SortDescFacts | rag/retrieval.py:57-57 | Sorting descending is a stable sorted permutation |
| Searching.KeywordSearch | rag/vector_store.py:89-109 | The loops over counts and chunks yield the k best matches by summed rarity of the shared terms, ties in store order |
| Searching.ScoresAddUp | rag/vector_store.py:102-107 | A score is the sum of what the query terms in the chunk are worth, and there is none without one |
| Searching.RarerIsWorthMore | rag/vector_store.py:94-106 | A term that fewer chunks have is worth more, if rarity weighs |
| Searching.WorthIsOfTheShare | rag/vector_store.py:94-106 | The worth of a term depends on the share of the chunks that have it alone |
| Searching.OrderOfTermsIsIrrelevant | rag/vector_store.py:106-106 | The order in which the query's terms are summed does not matter |
| Searching.CoveringMoreScoresMore | rag/vector_store.py:102-107 | A chunk with all the query's terms of another and one more scores strictly better |
| Searching.SearchFindsTheBest | rag/vector_store.py:102-109 | Each hit occurs once with its own score, and no chunk left out scores better |
| Searching.HitsHaveUniqueIds | rag/vector_store.py:76-109 | Over chunks with unique ids neither search finds an id twice, nor more than asked for |
| Retrieval.Fuse | rag/retrieval.py:120-138 | The two loops over a table of candidates yield the fused ranking |
| Retrieval.CandidateMeaning | rag/retrieval.py:126-137 | A candidate's score is the sum of 1/(61+rank) over its occurrences, and its channels are exactly where it was found |
| Retrieval.FusionIsComplete | rag/retrieval.py:125-138 | A chunk is a candidate exactly if a channel found it |
| Retrieval.CandidatesAreDistinct | rag/retrieval.py:125-138 | Every chunk is at most one candidate |
| Retrieval.BothChannelsWin | rag/retrieval.py:120-138 | With pools of at most 61 a chunk found by both channels scores above and stands before every chunk found by one |
| Retrieval.BothAlwaysWinIff | rag/retrieval.py:28-29 | That holds for all hit lists of a pool exactly when the pool is at most 61 |
| Hybrid.AgreementWins | rag/retrieval.py:85-94 | On every ingested store, for every lexical scoring and every ranking by vectors, the same holds with nothing assumed of the hit lists |
| Hybrid.AgreementAlwaysWinsIff | rag/retrieval.py:79-95 | For the two searches over ingested stores, over every tokenizer, query and ranking, agreement always wins exactly if the pool is at most 61; above, 63 one-word documents show a tie |
| Retrieval.RerankingSorts | rag/retrieval.py:49-57 | Reranking is a stable descending permutation by the blend of fused score and query coverage |
| Retrieval.DominanceRanksFirst | rag/retrieval.py:49-57 | Higher or equal fused score and coverage, with one strict, always stands first after reranking |
| Retrieval.CoveringMoreRanksFirst | rag/retrieval.py:49-57 | A chunk whose text has every word of the query another has, and one more, with no smaller fused score, stands first |
| Retrieval.CoverageBuysScore | rag/retrieval.py:49-57 | With n words in the query, every word more makes up for less than 2/(3n) of the largest fused score |
| Retrieval.AllWordsOutweigh | rag/retrieval.py:49-57 | A chunk with all the words of the query stands before one with none while its fused score trails by less than 2/3 of the largest |
| Retrieval.AllWordsAreOutweighed | rag/retrieval.py:49-57 | Beyond 2/3 it stands behind |
| Retrieval.RerankingPermutes | rag/retrieval.py:41-57 | Reranking fused candidates neither adds nor loses one |
| Retrieval.FusedScoresPositive | rag/retrieval.py:47-47 | Fused scores are positive, so reranking never divides by zero |
| Retrieval.RetrievalService.Retrieve | rag/retrieval.py:79-117 | The result is the top-k prefix of the fusion reranked by score and query words, with the fused score rounded to four digits |
| Retrieval.ResultsAreTheBest | rag/retrieval.py:93-100 | The i-th result is the i-th candidate with its channels, and its fused score to the nearest ten-thousandth |
| ContextBuilder.CutAtSentence | rag/context_builder.py:89-94 | A cut is a prefix within the limit; if shorter, it ends a sentence past the middle |
| ContextBuilder.ShortenedIff | rag/context_builder.py:89-94 | A text is shortened exactly if a sentence ends past the middle of what fits, and then at the last such end |
| ContextBuilder.LastSentenceEndIsLast | rag/context_builder.py:91-91 | The last sentence end is a stop, exclamation or question mark before a blank, or a stop before a line feed, and none comes after it; there is none exactly if it is negative |
| ContextBuilder.Builder.Compress | rag/context_builder.py:73-86 | The parallel lists of kept items and token sets yield the greedy deduplication |
| ContextBuilder.CompressedIsSparse | rag/context_builder.py:77-86 | No kept item nearly duplicates an earlier kept one |
| ContextBuilder.NearDuplicateSymmetric | rag/context_builder.py:79-82 | Near-duplication is symmetric, so kept items are pairwise dissimilar |
| ContextBuilder.JaccardAboveIff | rag/context_builder.py:79-82 | Two token sets are near-duplicates exactly if they share more than 85 percent of what either has |
| ContextBuilder.KeptIff | rag/context_builder.py:79-85 | An item is dropped exactly if it nearly duplicates an item kept before it |
| ContextBuilder.CompressedIsSubsequence | rag/context_builder.py:75-86 | What is kept is a subsequence of what was retrieved |
| ContextBuilder.CompressingIsIdempotent | rag/context_builder.py:73-86 | Deduplicating twice equals deduplicating once |
| ContextBuilder.Builder.Build | rag/context_builder.py:34-69 | Text, chunks and sources of the package: blocks joined, the rendered prefix of the selection, sources in first-use order |
| ContextBuilder.Builder.Render | rag/context_builder.py:38-51 | The budget loop renders numbered blocks until the window is too small |
| ContextBuilder.HeaderReads | rag/context_builder.py:48-48 | A header holds the number in decimal and the source in parentheses, on a line |
| ContextBuilder.PackageIsBounded | rag/context_builder.py:41-53 | Block i is marker S(i+1), the source and a prefix of the trimmed text; the package is at most budget + last header + 2(n-1) long |
| ContextBuilder.BudgetIsHardIff | rag/context_builder.py:5-6 | No retrieval result makes the package longer than the budget exactly if the budget is between 0 and 200 |
| ContextBuilder.BoundIsReachedByOne | rag/context_builder.py:46-50 | Above 200, one chunk as long as the budget makes a package of exactly budget plus header |
| Packages.BudgetAlwaysKeptIff | rag/context_builder.py:5-6 | Over every ingested store and query, what retrieval returns makes no package longer than the budget exactly if the budget is between 0 and 200, or not negative and retrieval can find nothing |
| ContextBuilder.FirstUsesFacts | rag/context_builder.py:54-54 | The sources are those of the kept chunks, each once |
| ContextBuilder.FirstUsesInOrder | rag/context_builder.py:54-54 | The sources come in the order of their first uses |
| Crm.CustomerMemory.UpsertContact | services/customer_memory.py:43-56 | All contact fields are replaced and the deals kept; a new customer goes last |
| Crm.ContactIsRemembered | services/customer_memory.py:47-55 | A contact change leaves every field of the customer as the contact has it |
| Crm.CustomerMemory.AttachDeal | services/customer_memory.py:59-68 | The deal replaces an older version of itself and goes last; an unknown owner is created |
| Crm.StrangerIsRemembered | services/customer_memory.py:61-67 | A deal of an unknown owner makes a placeholder without phone, with the deal's restaurant, that no phone number finds |
| Crm.OwnersAre | services/customer_memory.py:61-61 | A deal is owned by its contact, and without one by an owner of its own |
| Crm.CustomerMemory.FindByPhone | services/customer_memory.py:75-87 | The record at the least place in insertion order whose phone has the same last ten digits, or none exactly if there is none |
| Crm.TailIgnoresPrefix | services/customer_memory.py:78-80 | Any prefix before ten or more digits is irrelevant to the match |
| Crm.DigitsAre | services/customer_memory.py:20-20 | The digits of a text are all of a number and nothing else |
| Crm.TailsTellApart | services/customer_memory.py:19-21 | The tail is the last ten digits, or all if there are fewer; numbers of up to ten digits match exactly if they are the same |
| Crm.FormattingIsIgnored | services/customer_memory.py:75-80 | Whatever has no digits may stand anywhere in a number |
| Crm.ContactIsFound | services/customer_memory.py:75-87 | A new contact is found by any writing of its number unless an older record answers to it |
| Normalizer.BrokenIff | crm_sync/normalizer.py:24-78 | A payload breaks normalizing exactly if its fields say so: something that is no object where one is looked into, a restaurant id that is neither text nor null, a name that is no text, an amount below zero or an integer too large for a float; of the others, those without fields or with an unknown event are refused, and the rest are changes |
| Normalizer.RejectedIff | crm_sync/normalizer.py:25-42 | A payload is refused exactly for missing or empty fields or an event of neither kind, and with which words |
| Normalizer.ContactsReadBack | crm_sync/normalizer.py:46-61 | Every contact with clean fields is read back from its payload, field by field |
| Normalizer.DealsReadBack | crm_sync/normalizer.py:64-78 | Every deal with an amount that is not negative is read back from its payload, field by field, whatever its pipeline |
| Normalizer.ContactDefaults | crm_sync/normalizer.py:46-61 | What the fields of a contact are where its payload leaves them out |
| Normalizer.DealDefaults | crm_sync/normalizer.py:69-78 | What the fields of a deal are where its payload leaves them out |
| Normalizer.AmountIs | crm_sync/normalizer.py:65-68 | What each kind of amount is read as: numbers, texts that are numbers, true as 1, anything else as 0 |
| Normalizer.NumberedContactBreaks | crm_sync/models.py:20-20 | A contact event with a numeric restaurant id breaks |
| Normalizer.ChangesAreClean | crm_sync/normalizer.py:46-78 | Contacts that get through have trimmed names and non-empty tags without commas, deals an amount not below zero and a stage without its pipeline |
| Crm.CrmSyncService.Sync | crm_sync/service.py:49-94 | The fold over the payloads up to the first that breaks the normalizer, whose fault is raised; memory and announcements are those of the processed part; the run completes exactly if no payload breaks, and then counts every payload once and lists the refusals in order |
| Crm.AnnouncedIff | crm_sync/service.py:62-79 | Exactly the changes that got through are announced, each under its kind, action and id |
| Crm.TalliesAddUp | crm_sync/service.py:52-86 | Contacts, deals and errors are counted change by change |
| Crm.SyncCompletesIff | crm_sync/service.py:50-61 | An inbox is processed to its end exactly if no payload in it has fields that break normalizing |
| Crm.BrokenPayloadBlocks | crm_sync/service.py:50-61 | However the inbox grows behind a payload that breaks, and however often it is synced, memory is for good what the payloads before it made of it |
| Crm.ProfileClosedForm | crm_sync/service.py:54-69 | A customer's fields come from the last contact event, else stay, else are the placeholder from the first deal |
| Crm.DealsClosedForm | services/customer_memory.py:65-65 | A customer's deals: the old untouched ones in order, then the inbox's in order of last occurrence |
| Crm.DealsStayDistinct | services/customer_memory.py:65-65 | Every owner holds a deal id at most once, forever |
| Crm.SyncIsIdempotent | crm_sync/service.py:49-54 | Replaying an inbox over any store changes nothing the second time, order included |
| Extraction.JsonObjects | core/structured_output.py:89-104 | The loop terminates and yields the values of the scan |
| Extraction.ScanIsGreedy | core/structured_output.py:89-104 | The scan is the one sequence of disjoint decodable objects in order that covers every decodable brace |
| Extraction.PrintedObjectsReadBack | core/structured_output.py:89-104 | Objects printed with brace-free gaps between them are read back, all and in order, for every decoder that reads single printed objects back |
| Grammar.GrammarFits | core/structured_output.py:97-104 | The JSON grammar, with a decoder and a printer of every layout and choice of escapes, meets those assumptions |
| Grammar.TextsReadBack | core/structured_output.py:89-104 | So texts of printed JSON objects are read back, in every style and with nothing assumed |
| Grammar.EscapesAreRead | core/structured_output.py:91-98 | What each escape in a string is read as |
| Grammar.HexadecimalIsRead | core/structured_output.py:91-98 | Hexadecimal digits count in either case |
| Grammar.BracketsAre | core/structured_output.py:91-98 | Objects stand in braces and arrays in brackets |
| JsonValues.PartsAreNumber | core/structured_output.py:91-98 | Sign, digits without a leading zero, fraction and exponent make a number |
| JsonValues.NumberHasParts | core/structured_output.py:91-98 | Every number has such parts |
| JsonValues.AtomIff | core/structured_output.py:91-98 | Besides strings, lists and objects, a value is one of six words or a number |
| Extraction.NoFenceLeft | core/structured_output.py:53-53 | Removing fences leaves no fence, not even one formed by the removal |
| Extraction.FenceIsRemoved | core/structured_output.py:32-32 | A fence and its language tag are removed, and nothing around them |
| Extraction.CommaIsRemovedIff | core/structured_output.py:33-33 | A comma goes, with the whitespace after it, exactly if a closing bracket follows |
| Extraction.FencedObjectIsRead | core/structured_output.py:53-54 | A fenced object between prose is the one candidate |
| Extraction.CandidatesAreRead | core/structured_output.py:53-54 | Once the fences are gone, the printed objects of a text are exactly its candidates |
| Extraction.RepairedAreRead | core/structured_output.py:55-58 | If nothing decodes, the printed objects of the text without trailing commas are |
| Extraction.PayloadVariants | core/structured_output.py:107-121 | A candidate and its inner objects, as long as each is the only member, at most two deep |
| Extraction.ChosenUnique | core/structured_output.py:61-74 | Latest candidate, shallowest valid variant: at most one payload fits |
| Extraction.LastValid | core/structured_output.py:61-74 | The nested loops find that payload, or none exactly if no variant of any candidate validates |
| Extraction.ExtractContract | core/structured_output.py:38-86 | Empty answer, the chosen payload, or the failure that counts the candidates, over the strict scan or else the repaired text |

## Left out

- HTTP transports, webhooks, the polling loop and response formatting: a send returns an id or fails, and the formatted reply is an input.
- The language model, prompts, intents and agent routing: a turn's reply or fault, its agent and its system text are inputs; the business block is part of that text.
- `PgVectorStore`, embeddings, speech recognition and file parsing: the vector, the transcript, the parsed text and the title of a document are inputs.
- Conversation.ConversationStore.Save: the store copies on write as the file-backed one does; the aliasing of the in-memory one and corrupt files are not modelled.
- Floating point: quantities are exact reals and `round` is to the nearest grid point, ties to even; only the validator's input and CRM amounts may hold infinities and NaN.
- Validator.ValidatorEngine.Validate: the wording of issues is not modelled.
- Random and hashed ids: a counter for sessions and conversations, a pair of document and index for chunks, an input for offers; collisions are not modelled.
- Turn timestamps, `last_synced`, latencies, logs and metrics: they influence no decision that is modelled.
- Vector search: its hit list is an input of fusion; cosine scores and the tie order of `argsort` are not modelled.
- The tokenizer and the logarithm: the tokens of a text and the weight of a rarity are parameters; the query's distinct tokens come in any order.
- VectorStore.InMemoryVectorStore.Add: assumes vectors of one width, so stacking the rows cannot fail.
- Unicode case mapping and digits outside ASCII: command and event names, restaurant ids and phone numbers use ASCII letters and digits.
- Names of cities and lists of restaurants in command replies: a reply is its kind and its arguments.
- The text of a schedule: a schedule starts as the two numbers of a daily time or the hours of an interval; calendar time is a count of microseconds, without the end of representable dates, which `next_run` of a very long interval can pass.
- Python's `str` of a value that is no text and `float` of a text are parameters of the CRM normalizer; texts with half a surrogate pair, which its contracts refuse, do not exist here.
- Crm.CrmSyncService.Sync: the stores are written as they are; a customer file that cannot be read or written, or read back because of an amount that is no number, is not modelled.
- Grammar.GrammarFits: escaped surrogate pairs are not read, and numbers stay as they are written.
- Extraction.ExtractContract: the JSON decoder and the validation of a contract are parameters; a decoder that gives up on deep nesting is not modelled, nor is the detail of the first validation error.
- Channel names with a colon, which could make two customers share a session key: a key is a pair.
- Synthesis faults in the middle of playback: a stream is complete when playback starts.
- VoicePipeline.VoicePipeline.HandleUtterance: an utterance that speech recognition rejects never reaches it.
- Audio formats with a zero rate, width or channel count: the original would divide by zero there.
- Recommendation rules, scoring, the tool registry, the event bus, caches and the health board: they would only add easy members.
