/**
 The message dispatcher: session, platform commands, conversation turn, delivery.
 Every message is one step over the sessions and the conversation store; what
 the clock, the directory, the model, the disk and the transport do in that step
 is its `Circumstances`.
 */
module Dispatcher {
  import opened Basics
  import opened Conversation
  import Crm
  import Normalizer
  import opened Sessions
  import opened Text

  datatype Inbound = Inbound(channel: string, sender: string, text: string, messageId: string)

  datatype Circumstances = Circumstances(
    clock: Clock,               // the clock while the session is resolved
    done: int,                  // the clock when the turn is recorded
    directory: bool,            // whether the restaurant directory can be read
    health: Health,             // which session and customer stores work
    agent: Agent, systemText: string, context: Option<string>,
    generation: Generation,
    saves: bool,                // whether the conversation write works
    rendered: string,           // the reply as formatted for the channel
    delivery: Option<string>)   // the id the transport returns, or its fault

  datatype Command =
    | Help
    | Reset
    | ShowRestaurant
    | BindRestaurant(argument: string)
    | Unknown(name: string)

  datatype Body =
    | HelpText
    | ResetDone
    | CurrentBinding(id: string, name: string)
    | NoBinding
    | BindingDone(id: string)
    | NoSuchRestaurant(argument: string)
    | UnknownCommand(name: string)
    | Fallback
    | Reply(text: string)

  datatype Outbound = Outbound(channel: string, recipient: string, body: Body, inReplyTo: string)

  datatype Report = Report(
    channel: string, sender: string, restaurantId: Option<string>, deliveryId: string, ok: bool, error: string)

  function KeyOf(inbound: Inbound): Key {
    Key(inbound.channel, inbound.sender)
  }

  /** The command a message is, if its trimmed text starts with a slash. */
  function Parsed(text: string): Option<Command> {
    var stripped := Strip(text);
    if stripped == "" || stripped[0] != '/' then None
    else
      assert !Space('/');
      var parts := Words(stripped);
      var name := Lower(parts[0]);
      if name == "/help" then Some(Help)
      else if name == "/reset" then Some(Reset)
      else if name == "/restaurant" then
        Some(if |parts| == 1 then ShowRestaurant else BindRestaurant(parts[1]))
      else Some(Unknown(name))
  }

  /** The first word of a text in small letters, which is what names a command. */
  function FirstWord(text: string): string {
    if Words(text) == [] then "" else Lower(Words(text)[0])
  }

  predicate IsCommand(text: string) {
    FirstWord(text) != "" && FirstWord(text)[0] == '/'
  }

  lemma CommandsStartWithASlash(text: string)
    ensures Strip(text) == "" <==> Words(text) == []
    ensures Strip(text) != "" ==> Words(Strip(text)) == Words(text) && Words(text)[0] != ""
    ensures Parsed(text).Some? <==> IsCommand(text)
  {
    WordsStrip(text);
    StripShape(text);
    if Strip(text) != "" {
      var first := Words(Strip(text))[0];
      assert first[0] == Strip(text)[0] && Lower(first)[0] == LowerChar(first[0]);
    }
  }

  /** Which command a text is, in terms of its words. */
  lemma ParsedByWords(text: string)
    ensures var first, words := FirstWord(text), Words(text);
            && (Parsed(text) == None <==> !IsCommand(text))
            && (Parsed(text) == Some(Help) <==> first == "/help")
            && (Parsed(text) == Some(Reset) <==> first == "/reset")
            && (Parsed(text) == Some(ShowRestaurant) <==> first == "/restaurant" && |words| == 1)
            && (forall argument :: Parsed(text) == Some(BindRestaurant(argument))
                                   <==> first == "/restaurant" && |words| > 1 && argument == words[1])
            && (forall name :: Parsed(text) == Some(Unknown(name))
                               <==> IsCommand(text) && name == first && first !in {"/help", "/reset", "/restaurant"})
  {
    hide Strip, Words, Lower;
    CommandsStartWithASlash(text);
  }

  function NameOf(venues: map<string, string>, id: string): string {
    if id in venues then venues[id] else "unknown"
  }

  /** The commands that read the restaurant directory. */
  predicate Consults(command: Command) {
    command.ShowRestaurant? || command.BindRestaurant?
  }

  /** The commands that change the session. */
  predicate Changes(command: Command, venues: map<string, string>) {
    match command
    case Reset => true
    case BindRestaurant(argument) => Upper(argument) in venues
    case _ => false
  }

  /** What keeps a command from being executed. */
  function CommandOutage(command: Command, c: Circumstances, venues: map<string, string>): Option<Outage> {
    if Consults(command) && !c.directory then Some(DirectoryOutage)
    else if Changes(command, venues) && !c.health.updates then Some(SessionOutage)
    else None
  }

  /** What keeps a message from getting a session. */
  function EntryOutage(cfg: Config, reg: Registry, inbound: Inbound, health: Health): Option<Outage> {
    if inbound.channel !in cfg.channels then Some(NoTransport)
    else ResolvingOutage(reg, KeyOf(inbound), health)
  }

  function Executed(reg: Registry, session: Session, command: Command, venues: map<string, string>)
    : (Registry, Session, Body)
  {
    match command
    case Help => (reg, session, HelpText)
    case Reset =>
      var (reg', session') := Rotated(reg, session);
      (reg', session', ResetDone)
    case ShowRestaurant =>
      (reg, session,
       if Given(session.restaurantId)
       then CurrentBinding(session.restaurantId.value, NameOf(venues, session.restaurantId.value))
       else NoBinding)
    case BindRestaurant(argument) =>
      if Upper(argument) !in venues then (reg, session, NoSuchRestaurant(argument))
      else
        var (reg', session') := Bound(reg, session, Upper(argument));
        (reg', session', BindingDone(Upper(argument)))
    case Unknown(name) => (reg, session, UnknownCommand(name))
  }

  function DeliveryId(c: Circumstances): string {
    if c.delivery.Some? then c.delivery.value else ""
  }

  datatype World = World(registry: Registry, store: Store)

  datatype Config = Config(idle: int, venues: map<string, string>, channels: set<string>)

  /** A message, what happens around it, and what customer memory holds by then. */
  datatype Step = Step(inbound: Inbound, c: Circumstances, customers: Crm.Memory)

  /** What became of a message; an outage before or in a command is raised out of the dispatcher. */
  datatype Outcome =
    | Unresolved(outage: Outage)
    | Commanded(command: Command)
    | Raised(command: Command, outage: Outage)
    | Failed
    | Answered(exchange: seq<Turn>, saved: bool, recorded: bool)

  /** A message that found no session is in no conversation. */
  datatype Event = Event(step: Step, conversation: Option<ConversationId>, outcome: Outcome)
  {
    /** An answered turn that the session remembers. */
    predicate Counts() {
      outcome.Answered? && outcome.recorded
    }

    /** The turns it leaves in its conversation's log. */
    function Kept(): seq<Turn> {
      if outcome.Answered? && outcome.saved then outcome.exchange else []
    }
  }

  datatype Dispatched = Dispatched(
    world: World, conversation: Option<ConversationId>, outcome: Outcome, sent: seq<Outbound>,
    report: Result<Report, Outage>)

  function InputOf(inbound: Inbound, c: Circumstances, session: Session): TurnInput {
    TurnInput(inbound.text, inbound.channel, session.restaurantId,
              c.agent, c.systemText, c.context, c.generation)
  }

  /** One message, start to finish. */
  function Handled(cfg: Config, world: World, step: Step): Dispatched {
    HandledAs(cfg, world, step, Parsed(step.inbound.text))
  }

  /** One message, once it is known which command it is, if any. */
  function HandledAs(cfg: Config, world: World, step: Step, parsed: Option<Command>): Dispatched {
    var Step(inbound, c, customers) := step;
    var outage := EntryOutage(cfg, world.registry, inbound, c.health);
    if outage.Some? then Dispatched(world, None, Unresolved(outage.value), [], Err(outage.value))
    else
      var (reg, session) := Resolved(world.registry, cfg.idle, KeyOf(inbound), c.clock, customers);
      if parsed.Some? then CommandHandled(cfg, world.store, inbound, c, reg, session, parsed.value)
      else TurnHandled(world.store, inbound, c, reg, session)
  }

  function CommandHandled(cfg: Config, store: Store, inbound: Inbound, c: Circumstances, reg: Registry,
                          session: Session, command: Command): Dispatched
  {
    var outage, id := CommandOutage(command, c, cfg.venues), DeliveryId(c);
    if outage.Some? then
      Dispatched(World(reg, store), Some(session.conversationId), Raised(command, outage.value), [],
                 Err(outage.value))
    else
      var (reg', session', body) := Executed(reg, session, command, cfg.venues);
      Dispatched(World(reg', store),
                 Some(session'.conversationId), Commanded(command),
                 [Outbound(inbound.channel, inbound.sender, body, inbound.messageId)],
                 Ok(Report(inbound.channel, inbound.sender, session'.restaurantId, id, id != "", "")))
  }

  function TurnHandled(store: Store, inbound: Inbound, c: Circumstances, reg: Registry, session: Session)
    : Dispatched
  {
    var id := DeliveryId(c);
    if c.generation.Fault? then
      Dispatched(World(reg, store),
                 Some(session.conversationId), Failed,
                 [Outbound(inbound.channel, inbound.sender, Fallback, inbound.messageId)],
                 Ok(Report(inbound.channel, inbound.sender, None, id, false, c.generation.message)))
    else
      var input := InputOf(inbound, c, session);
      var records := c.health.records;
      var reg' := if records then Recorded(reg, session, c.done, c.agent.displayName).0 else reg;
      Dispatched(World(reg', AfterTurn(store, session.conversationId, input, c.saves)),
                 Some(session.conversationId), Answered(Exchange(input), c.saves, records),
                 [Outbound(inbound.channel, inbound.sender, Reply(c.rendered), inbound.messageId)],
                 if records
                 then Ok(Report(inbound.channel, inbound.sender, session.restaurantId, id, id != "",
                                if id != "" then "" else "delivery failed — see logs"))
                 else Err(SessionOutage))
  }

  class MessageDispatcher {
    const sessions: SessionManager
    const runtime: ConversationRuntime
    const venues: map<string, string>
    const channels: set<string>
    var outbox: seq<Outbound>  // every send that was attempted

    constructor (sessions: SessionManager, runtime: ConversationRuntime, venues: map<string, string>,
                 channels: set<string>)
      ensures this.sessions == sessions && this.runtime == runtime && this.venues == venues
      ensures this.channels == channels && outbox == []
    {
      this.sessions, this.runtime, this.venues, this.channels := sessions, runtime, venues, channels;
      outbox := [];
    }

    function State(): World
      reads sessions, runtime.store
    {
      World.World(sessions.State(), runtime.store.states)
    }

    /** Resolve the session, then command or turn, then one reply; an outage around them is raised. */
    method Dispatch(inbound: Inbound, c: Circumstances) returns (report: Result<Report, Outage>)
      modifies this, sessions, runtime.store
      ensures var step := Step(inbound, c, sessions.customerMemory.State());
              var d := Handled(Config(sessions.idle, venues, channels), old(State()), step);
              State() == d.world && outbox == old(outbox) + d.sent && report == d.report
    {
      hide Parsed, Executed, Fetched;
      if inbound.channel !in channels {
        return Err(NoTransport);
      }
      var resolved := sessions.Resolve(KeyOf(inbound), c.clock, c.health);
      if resolved.Err? {
        return Err(resolved.error);
      }
      var session := resolved.value;
      var body: Result<Option<Body>, Outage>;
      session, body := HandleCommand(inbound, session, c);
      if body.Err? {
        return Err(body.error);
      }
      if body.value.Some? {
        var id := DeliverSafe(Outbound(inbound.channel, inbound.sender, body.value.value, inbound.messageId), c);
        return Ok(Report(inbound.channel, inbound.sender, session.restaurantId, id, id != "", ""));
      }
      var result, _ := runtime.ProcessTurn(session.conversationId, InputOf(inbound, c, session), c.saves);
      if result.Err? {
        var id := DeliverSafe(Outbound(inbound.channel, inbound.sender, Fallback, inbound.messageId), c);
        return Ok(Report(inbound.channel, inbound.sender, None, id, false, result.error));
      }
      var outbound := Outbound(inbound.channel, inbound.sender, Reply(c.rendered), inbound.messageId);
      var id := DeliverSafe(outbound, c);
      var recorded := sessions.RecordTurn(session, c.done, result.value.agent.displayName, c.health.records);
      if recorded == None {
        return Err(SessionOutage);
      }
      report := Ok(Report(inbound.channel, inbound.sender, session.restaurantId, id, id != "",
                          if id != "" then "" else "delivery failed — see logs"));
    }

    /** Execute a command; no body if it is none, and an error if an outage prevents it. */
    method HandleCommand(inbound: Inbound, session: Session, c: Circumstances)
      returns (after: Session, body: Result<Option<Body>, Outage>)
      modifies sessions
      ensures var parsed := Parsed(inbound.text);
              if parsed == None || CommandOutage(parsed.value, c, venues).Some?
              then && after == session && sessions.State() == old(sessions.State())
                   && body == if parsed == None then Ok(None) else Err(CommandOutage(parsed.value, c, venues).value)
              else var (reg, session', b) := Executed(old(sessions.State()), session, parsed.value, venues);
                   body == Ok(Some(b)) && after == session' && sessions.State() == reg
    {
      after := session;
      var text := Strip(inbound.text);
      if text == "" || text[0] != '/' {
        return session, Ok(None);
      }
      assert !Space('/');
      var parts := Words(text);
      var command := Lower(parts[0]);
      if command == "/help" {
        return session, Ok(Some(HelpText));
      }
      if command == "/reset" {
        var rotated := sessions.RotateConversation(session, c.health.updates);
        if rotated == None {
          return session, Err(SessionOutage);
        }
        return rotated.value, Ok(Some(ResetDone));
      }
      if command == "/restaurant" {
        if !c.directory {
          return session, Err(DirectoryOutage);
        }
        if |parts| == 1 {
          if Given(session.restaurantId) {
            var id := session.restaurantId.value;
            return session, Ok(Some(CurrentBinding(id, NameOf(venues, id))));
          }
          return session, Ok(Some(NoBinding));
        }
        var restaurantId := Upper(parts[1]);
        if restaurantId !in venues {
          return session, Ok(Some(NoSuchRestaurant(parts[1])));
        }
        var bound := sessions.BindRestaurant(session, restaurantId, c.health.updates);
        if bound == None {
          return session, Err(SessionOutage);
        }
        return bound.value, Ok(Some(BindingDone(restaurantId)));
      }
      return session, Ok(Some(UnknownCommand(command)));
    }

    /** A transport fault becomes an empty delivery id. */
    method DeliverSafe(outbound: Outbound, c: Circumstances) returns (id: string)
      modifies this`outbox
      ensures outbox == old(outbox) + [outbound] && id == DeliveryId(c)
    {
      outbox := outbox + [outbound];
      id := DeliveryId(c);
    }
  }

  // ------------------------------------------------------------- whole runs

  const EMPTY_WORLD: World := World.World(NO_SESSIONS, map[])

  function Run(cfg: Config, steps: seq<Step>): World {
    if steps == [] then EMPTY_WORLD
    else Handled(cfg, Run(cfg, steps[..|steps| - 1]), steps[|steps| - 1]).world
  }

  function EventOf(step: Step, d: Dispatched): Event {
    Event(step, d.conversation, d.outcome)
  }

  function Trace(cfg: Config, steps: seq<Step>): seq<Event> {
    if steps == [] then []
    else
      var before := steps[..|steps| - 1];
      Trace(cfg, before) + [EventOf(steps[|steps| - 1], Handled(cfg, Run(cfg, before), steps[|steps| - 1]))]
  }

  /** The trace has one event for every step. */
  lemma {:induction false} TraceFollows(cfg: Config, steps: seq<Step>)
    ensures |Trace(cfg, steps)| == |steps|
    ensures forall i | 0 <= i < |steps| :: Trace(cfg, steps)[i].step == steps[i]
  {
    if steps != [] {
      var before := steps[..|steps| - 1];
      TraceFollows(cfg, before);
      var e := TraceGrows(cfg, steps);
      Follows(Trace(cfg, before), steps, e);
    }
  }

  lemma TraceGrows(cfg: Config, steps: seq<Step>) returns (e: Event)
    requires steps != []
    ensures e.step == steps[|steps| - 1]
    ensures Trace(cfg, steps) == Trace(cfg, steps[..|steps| - 1]) + [e]
  {
    e := EventOf(steps[|steps| - 1], Handled(cfg, Run(cfg, steps[..|steps| - 1]), steps[|steps| - 1]));
  }

  lemma Follows(before: seq<Event>, steps: seq<Step>, e: Event)
    requires |before| + 1 == |steps| && e.step == steps[|before|]
    requires forall i | 0 <= i < |before| :: before[i].step == steps[..|before|][i]
    ensures forall i | 0 <= i < |steps| :: (before + [e])[i].step == steps[i]
  {
  }

  function EventKey(e: Event): Key {
    KeyOf(e.step.inbound)
  }

  /** What the trace says a conversation log should hold. */
  function Exchanges(trace: seq<Event>, id: ConversationId): seq<Turn> {
    if trace == [] then []
    else
      var e := trace[|trace| - 1];
      Exchanges(trace[..|trace| - 1], id) + if e.conversation == Some(id) then e.Kept() else []
  }

  function AnsweredCount(trace: seq<Event>, key: Key): nat {
    if trace == [] then 0
    else
      var e := trace[|trace| - 1];
      AnsweredCount(trace[..|trace| - 1], key) + if EventKey(e) == key && e.Counts() then 1 else 0
  }

  /** When the customer's last answer was recorded, or else the session created. */
  function LastAnswered(trace: seq<Event>, key: Key): Option<int> {
    if trace == [] then None
    else
      var e := trace[|trace| - 1];
      var before := LastAnswered(trace[..|trace| - 1], key);
      if EventKey(e) != key || e.outcome.Unresolved? then before
      else if e.Counts() then Some(e.step.c.done)
      else if before == None then Some(e.step.c.clock.active)
      else before
  }

  /** Sessions agree with the trace, and nobody shares a conversation. */
  ghost predicate SessionsMatch(reg: Registry, trace: seq<Event>) {
    && (forall k | k in reg.sessions ::
          && reg.sessions[k].key == k
          && reg.sessions[k].conversationId < reg.nextId
          && reg.sessions[k].messages == AnsweredCount(trace, k))
    && (forall k :: LastAnswered(trace, k) ==
          if k in reg.sessions then Some(reg.sessions[k].lastActivity) else None)
    && (forall k, k' | k in reg.sessions && k' in reg.sessions && k != k' ::
          reg.sessions[k].conversationId != reg.sessions[k'].conversationId)
  }

  ghost predicate ConversationsPrivate(reg: Registry, trace: seq<Event>) {
    && (forall e | e in trace && e.conversation.Some? :: e.conversation.value < reg.nextId)
    && (forall e, k | e in trace && k in reg.sessions && e.conversation == Some(reg.sessions[k].conversationId) ::
          k == EventKey(e))
    && (forall e, e' | e in trace && e' in trace && e.conversation.Some? && e.conversation == e'.conversation ::
          EventKey(e) == EventKey(e'))
  }

  ghost predicate LogsMatch(store: Store, trace: seq<Event>) {
    forall id: ConversationId ::
      Exchanges(trace, id) == if id in store then store[id].turns else []
  }

  // ------------------------------------------------- what one message changes

  /** The session a message finds: its key's, or the one created for it. */
  function Before(reg: Registry, step: Step): Session {
    var key := KeyOf(step.inbound);
    if key in reg.sessions then reg.sessions[key]
    else Session(reg.nextId, key, reg.nextId + 1, None, None, step.c.clock.created, step.c.clock.active, 0)
  }

  function IdleFor(session: Session, step: Step): int {
    step.c.clock.now - session.lastActivity
  }

  /** The message finds or creates its sender's session. */
  predicate Enters(cfg: Config, reg: Registry, step: Step) {
    EntryOutage(cfg, reg, step.inbound, step.c.health) == None
  }

  /** A message gets a session exactly if its channel is known and the stores work that it needs. */
  lemma EntersIff(cfg: Config, reg: Registry, step: Step)
    ensures var key, health := KeyOf(step.inbound), step.c.health;
            Enters(cfg, reg, step)
            <==> && step.inbound.channel in cfg.channels && health.loads && health.stores
                 && (health.customers || Crm.Digits(key.address) == ""
                     || (key in reg.sessions && reg.sessions[key].restaurantId.Some?))
  {
  }

  predicate Resets(step: Step) {
    FirstWord(step.inbound.text) == "/reset" && step.c.health.updates
  }

  predicate Answers(step: Step) {
    !IsCommand(step.inbound.text) && step.c.generation.Tokens?
  }

  /** What resolving the sender's session may have done. */
  predicate ResolvedTo(cfg: Config, reg: Registry, step: Step, reg': Registry, s': Session) {
    var key := KeyOf(step.inbound);
    var s := Before(reg, step);
    && reg'.nextId >= reg.nextId && reg'.sessions == reg.sessions[key := s']
    && s'.key == s.key && s'.id == s.id && s'.createdAt == s.createdAt
    && s'.messages == s.messages && s'.lastActivity == s.lastActivity
    && (s.restaurantId.Some? ==> s'.restaurantId.Some?)
    && if key !in reg.sessions || IdleFor(s, step) > cfg.idle
       then reg.nextId <= s'.conversationId < reg'.nextId
       else s'.conversationId == s.conversationId
  }

  /** What one message may change: nothing if it got no session. */
  predicate Effect(cfg: Config, world: World, world': World, e: Event) {
    if e.outcome.Unresolved? then world' == world && e.conversation == None
    else SessionEffect(cfg, world, world', e)
  }

  /**
   What a message with a session may change. Only the sender's session changes and
   its identity stays; the conversation is replaced exactly for a new customer, on a
   reset, or after more than the idle time, and then by one never used before; a
   binding is never dropped; only a recorded answer counts and marks activity, and
   only a saved one is kept.
   */
  predicate SessionEffect(cfg: Config, world: World, world': World, e: Event) {
    var key := EventKey(e);
    var reg, reg' := world.registry, world'.registry;
    var s := Before(reg, e.step);
    && reg'.nextId >= reg.nextId
    && key in reg'.sessions && reg'.sessions == reg.sessions[key := reg'.sessions[key]]
    && var s' := reg'.sessions[key];
       && s'.key == s.key && s'.id == s.id && s'.createdAt == s.createdAt
       && s'.messages == s.messages + (if e.Counts() then 1 else 0)
       && s'.lastActivity == (if e.Counts() then e.step.c.done else s.lastActivity)
       && (s.restaurantId.Some? ==> s'.restaurantId.Some?)
       && (if key !in reg.sessions || e.outcome == Commanded(Reset) || IdleFor(s, e.step) > cfg.idle
           then reg.nextId <= s'.conversationId < reg'.nextId
           else s'.conversationId == s.conversationId)
       && e.conversation == Some(s'.conversationId)
       && StoreEffect(world.store, world'.store, e, s'.conversationId)
  }

  predicate StoreEffect(store: Store, store': Store, e: Event, id: ConversationId) {
    if e.Kept() == [] then store' == store
    else
      && id in store'
      && store' == store[id := store'[id]]
      && store'[id].turns == (if id in store then store[id].turns else []) + e.Kept()
  }

  ghost predicate KeysMatch(reg: Registry) {
    forall k | k in reg.sessions :: reg.sessions[k].key == k
  }

  lemma ResolvingHasEffect(cfg: Config, reg: Registry, step: Step)
    requires KeysMatch(reg)
    ensures var (reg', s') := Resolved(reg, cfg.idle, KeyOf(step.inbound), step.c.clock, step.customers);
            ResolvedTo(cfg, reg, step, reg', s')
  {
  }

  lemma CommandHasEffect(cfg: Config, world: World, step: Step, reg: Registry, s: Session, command: Command)
    requires KeysMatch(world.registry) && ResolvedTo(cfg, world.registry, step, reg, s)
    ensures var (reg', s', _) := Executed(reg, s, command, cfg.venues);
            SessionEffect(cfg, world, World.World(reg', world.store),
                          Event(step, Some(s'.conversationId), Commanded(command)))
  {
  }

  lemma AnswerHasEffect(cfg: Config, world: World, step: Step, reg: Registry, s: Session)
    requires KeysMatch(world.registry) && ResolvedTo(cfg, world.registry, step, reg, s)
    requires step.c.generation.Tokens?
    ensures var input := InputOf(step.inbound, step.c, s);
            var records := step.c.health.records;
            var reg' := if records then Recorded(reg, s, step.c.done, step.c.agent.displayName).0 else reg;
            SessionEffect(cfg, world, World.World(reg', AfterTurn(world.store, s.conversationId, input, step.c.saves)),
                          Event(step, Some(s.conversationId), Answered(Exchange(input), step.c.saves, records)))
  {
  }

  lemma CommandHandledHasEffect(cfg: Config, world: World, step: Step, reg: Registry, s: Session, command: Command)
    requires KeysMatch(world.registry) && ResolvedTo(cfg, world.registry, step, reg, s)
    ensures var d := CommandHandled(cfg, world.store, step.inbound, step.c, reg, s, command);
            && SessionEffect(cfg, world, d.world, EventOf(step, d))
            && if CommandOutage(command, step.c, cfg.venues) == None then d.outcome == Commanded(command)
               else d.outcome.Raised?
  {
    if CommandOutage(command, step.c, cfg.venues) == None {
      CommandHasEffect(cfg, world, step, reg, s, command);
    }
  }

  lemma TurnHandledHasEffect(cfg: Config, world: World, step: Step, reg: Registry, s: Session)
    requires KeysMatch(world.registry) && ResolvedTo(cfg, world.registry, step, reg, s)
    ensures var d := TurnHandled(world.store, step.inbound, step.c, reg, s);
            && SessionEffect(cfg, world, d.world, EventOf(step, d))
            && if step.c.generation.Tokens? then d.outcome.Answered? else d.outcome.Failed?
  {
    if step.c.generation.Tokens? {
      AnswerHasEffect(cfg, world, step, reg, s);
    }
  }

  lemma MessageHasEffect(cfg: Config, world: World, step: Step)
    requires KeysMatch(world.registry)
    ensures var d := Handled(cfg, world, step);
            && Effect(cfg, world, d.world, EventOf(step, d))
            && (d.outcome.Unresolved? <==> !Enters(cfg, world.registry, step))
            && (d.outcome == Commanded(Reset) <==> Enters(cfg, world.registry, step) && Resets(step))
            && (d.outcome.Answered? <==> Enters(cfg, world.registry, step) && Answers(step))
  {
    ParsedByWords(step.inbound.text);
    MessageHasEffectAs(cfg, world, step, Parsed(step.inbound.text));
  }

  lemma MessageHasEffectAs(cfg: Config, world: World, step: Step, parsed: Option<Command>)
    requires KeysMatch(world.registry)
    ensures var d := HandledAs(cfg, world, step, parsed);
            && Effect(cfg, world, d.world, EventOf(step, d))
            && (d.outcome.Unresolved? <==> !Enters(cfg, world.registry, step))
            && (d.outcome == Commanded(Reset)
                <==> Enters(cfg, world.registry, step) && parsed == Some(Reset) && step.c.health.updates)
            && (d.outcome.Answered?
                <==> Enters(cfg, world.registry, step) && parsed == None && step.c.generation.Tokens?)
  {
    var (reg, s) := Resolved(world.registry, cfg.idle, KeyOf(step.inbound), step.c.clock, step.customers);
    ResolvingHasEffect(cfg, world.registry, step);
    if parsed.Some? {
      CommandHandledHasEffect(cfg, world, step, reg, s, parsed.value);
    } else {
      TurnHandledHasEffect(cfg, world, step, reg, s);
    }
  }

  lemma SessionsMatchStep(cfg: Config, world: World, world': World, trace: seq<Event>, e: Event)
    requires SessionsMatch(world.registry, trace) && Effect(cfg, world, world', e)
    ensures SessionsMatch(world'.registry, trace + [e])
  {
    assert (trace + [e])[..|trace|] == trace;
    if EventKey(e) !in world.registry.sessions {
      assert LastAnswered(trace, EventKey(e)) == None;
      NeverSeen(trace, EventKey(e));
    }
  }

  lemma {:induction false} NeverSeen(trace: seq<Event>, key: Key)
    requires LastAnswered(trace, key) == None
    ensures AnsweredCount(trace, key) == 0
  {
    if trace != [] {
      NeverSeen(trace[..|trace| - 1], key);
    }
  }

  /** One customer's session now holds this conversation: its own, or a new one. */
  predicate Holds(reg: Registry, reg': Registry, key: Key, id: ConversationId) {
    && reg.nextId <= reg'.nextId
    && key in reg'.sessions && reg'.sessions == reg.sessions[key := reg'.sessions[key]]
    && reg'.sessions[key].conversationId == id
    && (reg.nextId <= id < reg'.nextId || (key in reg.sessions && reg.sessions[key].conversationId == id))
  }

  ghost predicate Separate(reg: Registry) {
    && (forall k | k in reg.sessions :: reg.sessions[k].conversationId < reg.nextId)
    && (forall k, k' | k in reg.sessions && k' in reg.sessions && k != k' ::
          reg.sessions[k].conversationId != reg.sessions[k'].conversationId)
  }

  lemma ConversationsPrivateStep(reg: Registry, reg': Registry, trace: seq<Event>, e: Event)
    requires Separate(reg) && ConversationsPrivate(reg, trace)
    requires e.conversation.Some? ==> Holds(reg, reg', EventKey(e), e.conversation.value)
    requires e.conversation == None ==> reg' == reg
    ensures ConversationsPrivate(reg', trace + [e])
  {
  }

  lemma LogsMatchStep(world: World, world': World, trace: seq<Event>, e: Event)
    requires LogsMatch(world.store, trace)
    requires if e.conversation.Some? then StoreEffect(world.store, world'.store, e, e.conversation.value)
             else world'.store == world.store
    ensures LogsMatch(world'.store, trace + [e])
  {
    assert (trace + [e])[..|trace|] == trace;
    if e.conversation.Some? {
      var id := e.conversation.value;
      assert Exchanges(trace, id) == if id in world.store then world.store[id].turns else [];
    }
  }

  lemma RunStep(cfg: Config, steps: seq<Step>, step: Step)
    ensures var d := Handled(cfg, Run(cfg, steps), step);
            && Run(cfg, steps + [step]) == d.world
            && Trace(cfg, steps + [step]) == Trace(cfg, steps) + [EventOf(step, d)]
  {
    assert (steps + [step])[..|steps|] == steps;
  }

  ghost predicate Consistent(world: World, trace: seq<Event>) {
    && SessionsMatch(world.registry, trace)
    && ConversationsPrivate(world.registry, trace)
    && LogsMatch(world.store, trace)
  }

  lemma ConsistentStep(cfg: Config, world: World, world': World, trace: seq<Event>, e: Event)
    requires Consistent(world, trace) && Effect(cfg, world, world', e)
    ensures Consistent(world', trace + [e])
  {
    SessionsMatchStep(cfg, world, world', trace, e);
    ConversationsPrivateStep(world.registry, world'.registry, trace, e);
    LogsMatchStep(world, world', trace, e);
  }

  lemma {:induction false} RunIsConsistent(cfg: Config, steps: seq<Step>)
    ensures Consistent(Run(cfg, steps), Trace(cfg, steps))
  {
    if steps != [] {
      var before, step := steps[..|steps| - 1], steps[|steps| - 1];
      assert before + [step] == steps;
      RunIsConsistent(cfg, before);
      RunStep(cfg, before, step);
      MessageHasEffect(cfg, Run(cfg, before), step);
      var d := Handled(cfg, Run(cfg, before), step);
      ConsistentStep(cfg, Run(cfg, before), d.world, Trace(cfg, before), EventOf(step, d));
    }
  }

  // ------------------------------------------------------------ main theorems

  /**
   Customer isolation, for every run: messages that ended up in one conversation
   came from one customer, and its log is exactly that customer's saved
   exchanges, in order.
   */
  lemma CustomersAreIsolated(cfg: Config, steps: seq<Step>, i: nat)
    requires i < |steps| && ConversationOf(cfg, steps, i).Some?
    ensures var id := ConversationOf(cfg, steps, i).value;
            && (forall j | 0 <= j < |steps| && ConversationOf(cfg, steps, j) == Some(id) ::
                  KeyOf(steps[j].inbound) == KeyOf(steps[i].inbound))
            && Exchanges(Trace(cfg, steps), id)
               == if id in Run(cfg, steps).store then Run(cfg, steps).store[id].turns else []
  {
    RunIsConsistent(cfg, steps);
    TraceFollows(cfg, steps);
    PrivateAt(Run(cfg, steps).registry, Trace(cfg, steps), i);
  }

  /** The conversation message i of a run ended up in, if it got a session. */
  function ConversationOf(cfg: Config, steps: seq<Step>, i: nat): Option<ConversationId>
    requires i < |steps|
  {
    TraceFollows(cfg, steps);
    Trace(cfg, steps)[i].conversation
  }

  lemma PrivateAt(reg: Registry, trace: seq<Event>, i: nat)
    requires ConversationsPrivate(reg, trace) && i < |trace| && trace[i].conversation.Some?
    ensures forall j | 0 <= j < |trace| && trace[j].conversation == trace[i].conversation ::
              EventKey(trace[j]) == EventKey(trace[i])
  {
    assert trace[i] in trace;
  }

  /** No log exists that no message of the run ended up in. */
  lemma LogsBelongToMessages(cfg: Config, steps: seq<Step>, id: ConversationId) returns (i: nat)
    requires id in Run(cfg, steps).store && Run(cfg, steps).store[id].turns != []
    ensures i < |steps| && ConversationOf(cfg, steps, i) == Some(id)
  {
    RunIsConsistent(cfg, steps);
    TraceFollows(cfg, steps);
    i := ExchangesNeedEvent(Trace(cfg, steps), id);
  }

  lemma {:induction false} ExchangesNeedEvent(trace: seq<Event>, id: ConversationId) returns (i: nat)
    requires Exchanges(trace, id) != []
    ensures i < |trace| && trace[i].conversation == Some(id)
  {
    i := |trace| - 1;
    if trace[i].conversation != Some(id) {
      i := ExchangesNeedEvent(trace[..i], id);
    }
  }

  /**
   For a customer with a session, the next message that gets to it starts a new
   conversation exactly when it is a /reset that can be stored, or comes more than
   the idle time after the last recorded answer (after the first contact, if there
   is none); a message that gets no session never does.
   */
  lemma ConversationChangesIff(cfg: Config, steps: seq<Step>, step: Step)
    requires KeyOf(step.inbound) in Run(cfg, steps).registry.sessions
    ensures var key := KeyOf(step.inbound);
            var now, next := Run(cfg, steps), Run(cfg, steps + [step]);
            && LastAnswered(Trace(cfg, steps), key).Some?
            && key in next.registry.sessions
            && (next.registry.sessions[key].conversationId != now.registry.sessions[key].conversationId
                <==> && Enters(cfg, now.registry, step)
                     && (|| Resets(step)
                         || step.c.clock.now - LastAnswered(Trace(cfg, steps), key).value > cfg.idle))
  {
    RunIsConsistent(cfg, steps);
    RunStep(cfg, steps, step);
    MessageHasEffect(cfg, Run(cfg, steps), step);
  }

  /** Every conversation log of every run is a dialogue of whole exchanges. */
  lemma {:induction false} RunLogsAreDialogues(cfg: Config, steps: seq<Step>)
    ensures Dialogues(Run(cfg, steps).store)
  {
    if steps != [] {
      var before, step := steps[..|steps| - 1], steps[|steps| - 1];
      assert before + [step] == steps;
      RunLogsAreDialogues(cfg, before);
      RunStep(cfg, before, step);
      HandledKeepsDialogues(cfg, Run(cfg, before), step, Parsed(step.inbound.text));
    }
  }

  lemma HandledKeepsDialogues(cfg: Config, world: World, step: Step, parsed: Option<Command>)
    requires Dialogues(world.store)
    ensures Dialogues(HandledAs(cfg, world, step, parsed).world.store)
  {
    var session := Resolved(world.registry, cfg.idle, KeyOf(step.inbound), step.c.clock, step.customers).1;
    var input := InputOf(step.inbound, step.c, session);
    ApplyKeepsDialogues(world.store, TurnOperation(session.conversationId, input, step.c.saves));
  }

  /** The same customer, not losing its restaurant. */
  predicate Endures(s: Session, s': Session) {
    && s'.id == s.id && s'.key == s.key && s'.createdAt == s.createdAt
    && (s.restaurantId.Some? ==> s'.restaurantId.Some?)
  }

  /**
   Along any continuation of a run, a customer keeps its session identity, and
   a restaurant binding is never lost.
   */
  lemma SessionsEndure(cfg: Config, steps: seq<Step>, more: seq<Step>, key: Key)
    requires key in Run(cfg, steps).registry.sessions
    ensures EnduresIn(Run(cfg, steps).registry, Run(cfg, steps + more).registry, key)
  {
    forall before: seq<Step>, step: Step
      ensures EnduresIn(Run(cfg, before).registry, Run(cfg, before + [step]).registry, key)
    {
      SessionsEndureStep(cfg, before, step, key);
    }
    EnduresAlong((s: seq<Step>) => Run(cfg, s).registry, steps, more, key);
  }

  /** A session of the first registry endures in the second. */
  predicate EnduresIn(reg: Registry, reg': Registry, key: Key) {
    key in reg.sessions ==> key in reg'.sessions && Endures(reg.sessions[key], reg'.sessions[key])
  }

  lemma {:induction false} EnduresAlong(run: seq<Step> -> Registry, steps: seq<Step>, more: seq<Step>, key: Key)
    requires forall before, step :: EnduresIn(run(before), run(before + [step]), key)
    ensures EnduresIn(run(steps), run(steps + more), key)
  {
    if more == [] {
      assert steps + more == steps;
    } else {
      var before, last := steps + more[..|more| - 1], more[|more| - 1];
      assert steps + more == before + [last];
      EnduresAlong(run, steps, more[..|more| - 1], key);
      assert EnduresIn(run(before), run(before + [last]), key);
    }
  }

  lemma SessionsEndureStep(cfg: Config, steps: seq<Step>, step: Step, key: Key)
    ensures EnduresIn(Run(cfg, steps).registry, Run(cfg, steps + [step]).registry, key)
  {
    RunIsConsistent(cfg, steps);
    RunStep(cfg, steps, step);
    MessageHasEffect(cfg, Run(cfg, steps), step);
  }

  /** The message counter of a session counts its customer's recorded answers. */
  lemma MessagesCountAnswers(cfg: Config, steps: seq<Step>, key: Key)
    requires key in Run(cfg, steps).registry.sessions
    ensures Run(cfg, steps).registry.sessions[key].messages == AnsweredCount(Trace(cfg, steps), key)
  {
    RunIsConsistent(cfg, steps);
  }

  /** Whether a text asks the restaurant directory. */
  predicate AsksDirectory(text: string) {
    FirstWord(text) == "/restaurant"
  }

  /** The known restaurant a text names after /restaurant. */
  function NamedVenue(text: string, venues: map<string, string>): Option<string> {
    if AsksDirectory(text) && |Words(text)| > 1 && Upper(Words(text)[1]) in venues
    then Some(Upper(Words(text)[1])) else None
  }

  /** Whether a text would change a session: a reset, or the binding of a known restaurant. */
  predicate WouldChange(text: string, venues: map<string, string>) {
    FirstWord(text) == "/reset" || NamedVenue(text, venues).Some?
  }

  lemma OutagesByWords(text: string, c: Circumstances, venues: map<string, string>)
    ensures Parsed(text).Some? ==>
              && (CommandOutage(Parsed(text).value, c, venues) == None
                  <==> (AsksDirectory(text) ==> c.directory) && (WouldChange(text, venues) ==> c.health.updates))
    ensures Parsed(text) == None ==> !AsksDirectory(text) && !WouldChange(text, venues)
  {
    ParsedByWords(text);
    hide Words, Lower, Upper;
    match Parsed(text)
    case Some(BindRestaurant(argument)) => assert argument == Words(text)[1];
    case Some(Unknown(name)) => assert name == FirstWord(text);
    case _ =>
  }

  predicate AnswersTo(sent: Outbound, inbound: Inbound) {
    sent.channel == inbound.channel && sent.recipient == inbound.sender && sent.inReplyTo == inbound.messageId
  }

  /** Nothing a message needs before its reply is out of order. */
  predicate Replied(cfg: Config, reg: Registry, step: Step) {
    && Enters(cfg, reg, step)
    && (AsksDirectory(step.inbound.text) ==> step.c.directory)
    && (WouldChange(step.inbound.text, cfg.venues) ==> step.c.health.updates)
  }

  /**
   A message gets exactly one reply, addressed to its sender, unless it has no
   transport or session, asks the directory while that cannot be read, or is a
   command that cannot be stored: then nothing is sent and the fault leaves the
   dispatcher. It also leaves it, after the reply, if an answer cannot be recorded.
   The reply is the fallback exactly for a failed turn.
   */
  lemma MessageIsAnsweredIff(cfg: Config, world: World, step: Step)
    ensures var d := Handled(cfg, world, step);
            var replied := Replied(cfg, world.registry, step);
            && (if replied then |d.sent| == 1 && AnswersTo(d.sent[0], step.inbound) else d.sent == [])
            && (d.report.Ok? <==> replied && (Answers(step) ==> step.c.health.records))
            && (d.outcome == Failed <==>
                  replied && !IsCommand(step.inbound.text) && step.c.generation.Fault?)
            && (replied ==> (d.sent[0].body == Fallback <==> d.outcome == Failed))
            && (d.report.Ok? ==>
                  (d.report.value.ok <==> d.outcome != Failed && step.c.delivery.Some? && step.c.delivery.value != ""))
  {
    hide Parsed, IsCommand, AsksDirectory, WouldChange, CommandOutage, RestaurantFor, ResolvingOutage;
    ParsedByWords(step.inbound.text);
    OutagesByWords(step.inbound.text, step.c, cfg.venues);
  }

  /** What a command is answered with, word by word; anything else gets the formatted reply or the fallback. */
  lemma CommandsAreAnswered(cfg: Config, world: World, step: Step)
    requires Replied(cfg, world.registry, step)
    ensures |Handled(cfg, world, step).sent| == 1
    ensures var body := Handled(cfg, world, step).sent[0].body;
            var first, words := FirstWord(step.inbound.text), Words(step.inbound.text);
            && (body == HelpText <==> first == "/help")
            && (body == ResetDone <==> first == "/reset")
            && (forall name :: body == UnknownCommand(name)
                  <==> IsCommand(step.inbound.text) && name == first && first !in {"/help", "/reset", "/restaurant"})
            && (!IsCommand(step.inbound.text) ==>
                  body == if step.c.generation.Tokens? then Reply(step.c.rendered) else Fallback)
  {
    hide Parsed, IsCommand, AsksDirectory, WouldChange, CommandOutage, RestaurantFor, ResolvingOutage;
    ParsedByWords(step.inbound.text);
    OutagesByWords(step.inbound.text, step.c, cfg.venues);
  }

  /**
   An answer is kept as what the sender wrote and what the model said. A conversation it
   opens gets the message's channel and the sender's restaurant.
   */
  lemma AnswersAreKept(cfg: Config, world: World, step: Step)
    requires KeysMatch(world.registry) && Handled(cfg, world, step).outcome.Answered?
    ensures Handled(cfg, world, step).conversation.Some? && step.c.generation.Tokens?
    ensures var d := Handled(cfg, world, step);
            var id, reply := d.conversation.value, ReplyOf(step.c.generation);
            var turns := if id in world.store then world.store[id].turns else [];
            if !step.c.saves then d.world.store == world.store
            else
              && id in d.world.store
              && d.world.store[id].turns
                 == turns + [Turn(User, step.inbound.text, None, false),
                             Turn(Assistant, reply, Some(step.c.agent.role), false)]
              && (id !in world.store ==>
                    && d.world.store[id].channel == step.inbound.channel
                    && d.world.store[id].restaurantId == BindingOf(d.world, KeyOf(step.inbound)))
  {
    hide Parsed, CommandOutage, EntryOutage, Fetched, ReplyOf;
  }

  /** The agent a session remembers: who answered last in its conversation, if anybody did. */
  lemma ActiveAgentIs(cfg: Config, world: World, step: Step)
    requires KeysMatch(world.registry) && Enters(cfg, world.registry, step)
    ensures KeyOf(step.inbound) in Handled(cfg, world, step).world.registry.sessions
    ensures var key, sessions, d := KeyOf(step.inbound), world.registry.sessions, Handled(cfg, world, step);
            d.world.registry.sessions[key].activeAgent
            == if d.outcome.Answered? && d.outcome.recorded then Some(step.c.agent.displayName)
               else if key !in sessions || d.outcome == Commanded(Reset) || IdleFor(sessions[key], step) > cfg.idle
               then None
               else sessions[key].activeAgent
  {
    hide Parsed, CommandOutage, EntryOutage, AfterTurn, Exchange, RestaurantFor, DeliveryId, InputOf, NameOf, Upper;
  }

  /** A report names the sender, the transport's id, the binding unless the turn failed, and what went wrong. */
  predicate Told(step: Step, d: Dispatched) {
    d.report.Ok? ==>
      var r := d.report.value;
      && KeyOf(step.inbound) == Key(r.channel, r.sender)
      && (step.c.delivery == Some(r.deliveryId) || (step.c.delivery == None && r.deliveryId == ""))
      && r.restaurantId == (if d.outcome == Failed then None else BindingOf(d.world, KeyOf(step.inbound)))
      && (d.outcome.Commanded? ==> r.error == "")
      && (d.outcome.Answered? ==> (r.error == "" <==> r.deliveryId != ""))
      && (d.outcome == Failed ==> step.c.generation == Fault(r.error))
  }

  lemma CommandTold(cfg: Config, store: Store, step: Step, reg: Registry, s: Session, command: Command)
    requires KeyOf(step.inbound) in reg.sessions && reg.sessions[KeyOf(step.inbound)] == s
    requires s.key == KeyOf(step.inbound)
    ensures Told(step, CommandHandled(cfg, store, step.inbound, step.c, reg, s, command))
  {
    hide CommandOutage, Upper;
  }

  lemma TurnTold(store: Store, step: Step, reg: Registry, s: Session)
    requires KeyOf(step.inbound) in reg.sessions && reg.sessions[KeyOf(step.inbound)] == s
    requires s.key == KeyOf(step.inbound)
    ensures Told(step, TurnHandled(store, step.inbound, step.c, reg, s))
  {
    hide AfterTurn, Exchange;
  }

  /** What the transport loop is told about any message is true. */
  lemma ReportTells(cfg: Config, world: World, step: Step)
    requires KeysMatch(world.registry)
    ensures Told(step, Handled(cfg, world, step))
  {
    hide Told, Parsed, CommandHandled, TurnHandled, EntryOutage;
    var (reg, s) := Resolved(world.registry, cfg.idle, KeyOf(step.inbound), step.c.clock, step.customers);
    ResolvedIsKept(cfg, world.registry, step);
    var parsed := Parsed(step.inbound.text);
    if parsed.Some? {
      CommandTold(cfg, world.store, step, reg, s, parsed.value);
    } else {
      TurnTold(world.store, step, reg, s);
    }
    if EntryOutage(cfg, world.registry, step.inbound, step.c.health).Some? {
      NobodyTold(step, Handled(cfg, world, step));
    }
  }

  lemma NobodyTold(step: Step, d: Dispatched)
    requires d.report.Err?
    ensures Told(step, d)
  {
  }

  lemma ResolvedIsKept(cfg: Config, reg: Registry, step: Step)
    requires KeysMatch(reg)
    ensures var key := KeyOf(step.inbound);
            var (reg', s) := Resolved(reg, cfg.idle, key, step.c.clock, step.customers);
            key in reg'.sessions && reg'.sessions[key] == s && s.key == key
  {
    hide RestaurantFor;
  }

  /** Asked for the restaurant, a bound sender gets its own binding; asked to bind one, only a known one is bound. */
  lemma RestaurantIsAnswered(cfg: Config, world: World, step: Step)
    requires Replied(cfg, world.registry, step) && AsksDirectory(step.inbound.text) && KeysMatch(world.registry)
    ensures |Handled(cfg, world, step).sent| == 1
    ensures var d, words := Handled(cfg, world, step), Words(step.inbound.text);
            var bound := BindingOf(d.world, KeyOf(step.inbound));
            d.sent[0].body
            == if |words| == 1 then
                 if !Given(bound) then NoBinding
                 else if bound.value in cfg.venues then CurrentBinding(bound.value, cfg.venues[bound.value])
                 else CurrentBinding(bound.value, "unknown")
               else if Upper(words[1]) in cfg.venues then BindingDone(Upper(words[1]))
               else NoSuchRestaurant(words[1])
  {
    hide Parsed, IsCommand, WouldChange, CommandOutage, Upper, RestaurantFor, DeliveryId, ResolvingOutage, Given;
    ParsedByWords(step.inbound.text);
    OutagesByWords(step.inbound.text, step.c, cfg.venues);
  }

  /** Everything sent over a run. */
  function Sent(cfg: Config, steps: seq<Step>): seq<Outbound> {
    if steps == [] then []
    else
      var before := steps[..|steps| - 1];
      Sent(cfg, before) + Handled(cfg, Run(cfg, before), steps[|steps| - 1]).sent
  }

  /** Message i of a run meets no outage before its reply. */
  predicate RepliedAt(cfg: Config, steps: seq<Step>, i: nat)
    requires i < |steps|
  {
    Replied(cfg, Run(cfg, steps[..i]).registry, steps[i])
  }

  /** A run sends at most one reply a message, and one for every message exactly if none meets an outage. */
  lemma {:induction false} NobodyIsGhosted(cfg: Config, steps: seq<Step>)
    ensures |Sent(cfg, steps)| <= |steps|
    ensures |Sent(cfg, steps)| == |steps| <==> forall i | 0 <= i < |steps| :: RepliedAt(cfg, steps, i)
    ensures |Sent(cfg, steps)| == |steps| ==>
              forall i | 0 <= i < |steps| :: AnswersTo(Sent(cfg, steps)[i], steps[i].inbound)
  {
    if steps != [] {
      var n := |steps| - 1;
      NobodyIsGhosted(cfg, steps[..n]);
      MessageIsAnsweredIff(cfg, Run(cfg, steps[..n]), steps[n]);
      RepliedSoFar(cfg, steps);
      var before, last := Sent(cfg, steps[..n]), Handled(cfg, Run(cfg, steps[..n]), steps[n]).sent;
      if |before + last| == |steps| {
        OneMoreReply(before, last, steps);
      }
    }
  }

  lemma RepliedSoFar(cfg: Config, steps: seq<Step>)
    requires steps != []
    ensures var n := |steps| - 1;
            (forall i | 0 <= i < |steps| :: RepliedAt(cfg, steps, i))
            <==> (forall i | 0 <= i < n :: RepliedAt(cfg, steps[..n], i)) && RepliedAt(cfg, steps, n)
  {
    var n := |steps| - 1;
    forall i | 0 <= i < n ensures RepliedAt(cfg, steps[..n], i) == RepliedAt(cfg, steps, i) {
      assert steps[..n][..i] == steps[..i];
    }
  }

  lemma OneMoreReply(before: seq<Outbound>, last: seq<Outbound>, steps: seq<Step>)
    requires |steps| == |before| + 1 && |last| == 1 && AnswersTo(last[0], steps[|before|].inbound)
    requires forall i | 0 <= i < |before| :: AnswersTo(before[i], steps[..|before|][i].inbound)
    ensures forall i | 0 <= i < |steps| :: AnswersTo((before + last)[i], steps[i].inbound)
  {
  }

  // ------------------------------------------------- from CRM to conversation

  /** Only customer `id` has a phone that ends in the digits. */
  ghost predicate SoleAnswer(m: Crm.Memory, needle: string, id: string) {
    && id in m.order && id in m.records && Crm.Answers(m.records[id], needle)
    && forall k: nat | k < |m.order| && Crm.AnswersAt(m, k, needle) :: m.order[k] == id
  }

  /** The restaurant a message binds its session to by command, if it does. */
  function CommandedBinding(cfg: Config, step: Step): Option<string> {
    if step.c.directory && step.c.health.updates then NamedVenue(step.inbound.text, cfg.venues) else None
  }

  /** The restaurant a customer's session is bound to. */
  function BindingOf(world: World, key: Key): Option<string> {
    if key in world.registry.sessions then world.registry.sessions[key].restaurantId else None
  }

  /**
   What a message that gets a session leaves it bound to: what its command says, or
   else the restaurant it was bound to, or else the one customer memory has.
   */
  function BindingAfter(cfg: Config, world: World, step: Step): Option<string> {
    var commanded, known := CommandedBinding(cfg, step), BindingOf(world, KeyOf(step.inbound));
    if commanded.Some? then commanded
    else if known.Some? then known
    else RestaurantFor(step.customers, step.inbound.sender)
  }

  /** Every message, of a new customer or a known one, binds the sender's session so, and no other. */
  lemma MessageBinds(cfg: Config, world: World, step: Step, key: Key)
    requires KeysMatch(world.registry)
    ensures BindingOf(Handled(cfg, world, step).world, key)
            == if key == KeyOf(step.inbound) && Enters(cfg, world.registry, step)
               then BindingAfter(cfg, world, step)
               else BindingOf(world, key)
  {
    if key == KeyOf(step.inbound) {
      MessageBindsAs(cfg, world, step, Parsed(step.inbound.text));
      BoundByWords(cfg, step);
    } else {
      MessageHasEffect(cfg, world, step);
    }
  }

  /** The same for a message that was recognised as a command. */
  function BoundBy(cfg: Config, step: Step, parsed: Option<Command>): Option<string> {
    match parsed
    case Some(BindRestaurant(argument)) =>
      if step.c.directory && step.c.health.updates && Upper(argument) in cfg.venues then Some(Upper(argument))
      else None
    case _ => None
  }

  lemma BoundByWords(cfg: Config, step: Step)
    ensures BoundBy(cfg, step, Parsed(step.inbound.text)) == CommandedBinding(cfg, step)
  {
    hide Parsed, Upper, Words;
    ParsedByWords(step.inbound.text);
    match Parsed(step.inbound.text)
    case Some(BindRestaurant(argument)) => assert argument == Words(step.inbound.text)[1];
    case _ =>
  }

  lemma MessageBindsAs(cfg: Config, world: World, step: Step, parsed: Option<Command>)
    requires KeysMatch(world.registry)
    ensures var key, bound := KeyOf(step.inbound), BoundBy(cfg, step, parsed);
            BindingOf(HandledAs(cfg, world, step, parsed).world, key)
            == if !Enters(cfg, world.registry, step) then BindingOf(world, key)
               else if bound.Some? then bound
               else if BindingOf(world, key).Some? then BindingOf(world, key)
               else RestaurantFor(step.customers, step.inbound.sender)
  {
    var key, c := KeyOf(step.inbound), step.c;
    var (reg, s) := Resolved(world.registry, cfg.idle, key, c.clock, step.customers);
    assert reg.sessions[key] == s && s.key == key;
    assert s.restaurantId == if BindingOf(world, key).Some? then BindingOf(world, key)
                             else RestaurantFor(step.customers, step.inbound.sender);
    if parsed.Some? {
      CommandBinds(cfg, world.store, step, reg, s, parsed.value);
    }
  }

  lemma CommandBinds(cfg: Config, store: Store, step: Step, reg: Registry, s: Session, command: Command)
    requires s.key in reg.sessions && reg.sessions[s.key] == s
    ensures var d := CommandHandled(cfg, store, step.inbound, step.c, reg, s, command);
            var bound := BoundBy(cfg, step, Some(command));
            BindingOf(d.world, s.key) == if bound.Some? then bound else s.restaurantId
  {
  }

  /** The customer binds its session by command. */
  predicate Rebinds(cfg: Config, step: Step, key: Key) {
    KeyOf(step.inbound) == key && CommandedBinding(cfg, step).Some?
  }

  /** A session once bound stays bound to that restaurant until its customer binds it by command. */
  lemma {:induction false} BindingStays(cfg: Config, steps: seq<Step>, more: seq<Step>, key: Key)
    requires BindingOf(Run(cfg, steps), key).Some?
    requires forall step | step in more :: !Rebinds(cfg, step, key)
    ensures BindingOf(Run(cfg, steps + more), key) == BindingOf(Run(cfg, steps), key)
  {
    if more == [] {
      assert steps + more == steps;
    } else {
      var n := |more| - 1;
      var before := steps + more[..n];
      assert steps + more == before + [more[n]];
      BindingStays(cfg, steps, more[..n], key);
      RunBinds(cfg, before, more[n], key);
      assert !Rebinds(cfg, more[n], key);
    }
  }

  lemma RunBinds(cfg: Config, steps: seq<Step>, step: Step, key: Key)
    ensures var world := Run(cfg, steps);
            BindingOf(Run(cfg, steps + [step]), key)
            == if key == KeyOf(step.inbound) && Enters(cfg, world.registry, step)
               then BindingAfter(cfg, world, step)
               else BindingOf(world, key)
  {
    RunIsConsistent(cfg, steps);
    RunStep(cfg, steps, step);
    MessageBinds(cfg, Run(cfg, steps), step, key);
  }

  lemma SyncedContactIsFound(m: Crm.Memory, inbox: seq<Normalizer.Change>, address: string, id: string)
    requires SoleAnswer(Crm.Synced(m, inbox), Crm.DigitsTail(address), id)
    requires Crm.LastContact(id, inbox).Some? && Given(Crm.LastContact(id, inbox).value.restaurantId)
    ensures RestaurantFor(Crm.Synced(m, inbox), address) == Crm.LastContact(id, inbox).value.restaurantId
  {
    var after, needle := Crm.Synced(m, inbox), Crm.DigitsTail(address);
    var k: nat :| k < |after.order| && after.order[k] == id;
    assert Crm.AnswersAt(after, k, needle);
    Crm.FoundFromIsFirst(after, needle, 0);
    Crm.SyncedProfile(m, inbox, id);
    Crm.ProfileClosedForm(id, Crm.ProfileIn(m, id), inbox);
  }

  /**
   From a CRM sync to a conversation, in every run: if the last contact change of a
   customer names a restaurant, and a sender without a binding writes from the phone
   number of that customer only, then its session, new or known, is bound to that
   restaurant, and stays so, unless the sender binds it by command.
   */
  lemma SyncedContactIsRecognised(cfg: Config, steps: seq<Step>, step: Step, more: seq<Step>, m: Crm.Memory,
                                  inbox: seq<Normalizer.Change>, id: string)
    requires var key := KeyOf(step.inbound);
             && BindingOf(Run(cfg, steps), key) == None && Enters(cfg, Run(cfg, steps).registry, step)
             && forall s | s in [step] + more :: !Rebinds(cfg, s, key)
    requires step.customers == Crm.Synced(m, inbox)
    requires SoleAnswer(step.customers, Crm.DigitsTail(step.inbound.sender), id)
    requires Crm.LastContact(id, inbox).Some? && Given(Crm.LastContact(id, inbox).value.restaurantId)
    ensures BindingOf(Run(cfg, steps + [step] + more), KeyOf(step.inbound))
            == Crm.LastContact(id, inbox).value.restaurantId
  {
    var key := KeyOf(step.inbound);
    assert ([step] + more)[0] == step;
    assert !Rebinds(cfg, step, key);
    SyncedContactIsFound(m, inbox, step.inbound.sender, id);
    RunBinds(cfg, steps, step, key);
    BindingStays(cfg, steps + [step], more, key);
  }
}
