/**
 Conversation runtime and its store. One turn loads the log, asks the language
 model, and appends the exchange; a barge-in rewrites the last assistant turn.
 The model's answer, grounding and storage faults are inputs of each operation.
 */
module Conversation {
  import opened Basics
  import opened Text

  /** Conversation ids; only their distinctness matters. */
  type ConversationId = nat

  datatype Role = System | User | Assistant

  datatype Turn = Turn(role: Role, content: string, agentRole: Option<string>, interrupted: bool)

  datatype ConversationState = ConversationState(
    channel: string, restaurantId: Option<string>, turns: seq<Turn>)

  type Store = map<ConversationId, ConversationState>

  datatype Message = Message(role: Role, content: string)

  datatype Agent = Agent(role: string, displayName: string)

  /** The token stream of the language model, or the fault that ended it. */
  datatype Generation = Tokens(tokens: seq<string>) | Fault(message: string)

  /** One call of the turn processor, with what its collaborators answer. */
  datatype TurnInput = TurnInput(
    userText: string, channel: string, restaurantId: Option<string>,
    agent: Agent, systemText: string, context: Option<string>, generation: Generation)

  datatype TurnResult = TurnResult(reply: string, agent: Agent)

  predicate Given(text: Option<string>) {
    text.Some? && text.value != ""
  }

  function UserTurn(text: string): Turn {
    Turn(User, text, None, false)
  }

  /** The log a turn works on: loaded or fresh, its restaurant filled in once. */
  function Opened(store: Store, id: ConversationId, input: TurnInput): ConversationState {
    var state := if id in store then store[id]
                 else ConversationState(input.channel, input.restaurantId, []);
    if Given(input.restaurantId) && !Given(state.restaurantId)
    then state.(restaurantId := input.restaurantId)
    else state
  }

  function ReplyOf(generation: Generation): string
    requires generation.Tokens?
  {
    Strip(Concat(generation.tokens))
  }

  function Exchange(input: TurnInput): seq<Turn>
    requires input.generation.Tokens?
  {
    [UserTurn(input.userText), Turn(Assistant, ReplyOf(input.generation), Some(input.agent.role), false)]
  }

  /** The store after one turn: untouched when the model or the write fails. */
  function AfterTurn(store: Store, id: ConversationId, input: TurnInput, saved: bool): Store {
    if input.generation.Fault? || !saved then store
    else
      var state := Opened(store, id, input);
      store[id := state.(turns := state.turns + Exchange(input))]
  }

  function Cut(turn: Turn, spoken: string): Turn {
    Turn(Assistant, spoken, turn.agentRole, true)
  }

  function AfterInterruption(store: Store, id: ConversationId, spoken: string, saved: bool): Store {
    if id !in store || !saved then store
    else
      var turns := store[id].turns;
      if turns == [] || turns[|turns| - 1].role != Assistant then store
      else store[id := store[id].(turns := turns[|turns| - 1 := Cut(turns[|turns| - 1], spoken)])]
  }

  /** Python's `turns[-window:]`, for every integer window. */
  function WindowStart(window: int, count: nat): (start: nat)
    ensures start <= count
  {
    if window > 0 then Max(0, count - window) else Min(-window, count)
  }

  function Window(turns: seq<Turn>, window: int): seq<Turn> {
    turns[WindowStart(window, |turns|)..]
  }

  function Rendered(turns: seq<Turn>): (ms: seq<Message>)
    ensures |ms| == |turns|
    ensures forall i | 0 <= i < |turns| :: ms[i] == Message(turns[i].role, turns[i].content)
  {
    seq(|turns|, i requires 0 <= i < |turns| => Message(turns[i].role, turns[i].content))
  }

  function Prompt(state: ConversationState, input: TurnInput, window: int): seq<Message> {
    [Message(System, input.systemText)]
    + Rendered(Window(state.turns, window))
    + (if input.context.Some? then [Message(System, "Knowledge base context:\n\n" + input.context.value)] else [])
    + [Message(User, input.userText)]
  }

  class ConversationStore {
    var states: Store

    constructor ()
      ensures states == map[]
    {
      states := map[];
    }

    method Load(id: ConversationId) returns (state: Option<ConversationState>)
      ensures state == if id in states then Some(states[id]) else None
    {
      state := if id in states then Some(states[id]) else None;
    }

    /** A write that faults leaves the stored map as it was. */
    method Save(id: ConversationId, state: ConversationState, works: bool)
      modifies this
      ensures states == if works then old(states)[id := state] else old(states)
    {
      if works {
        states := states[id := state];
      }
    }
  }

  lemma ExchangeInTwo(turns: seq<Turn>, input: TurnInput)
    requires input.generation.Tokens?
    ensures var answer := Turn(Assistant, ReplyOf(input.generation), Some(input.agent.role), false);
            turns + [UserTurn(input.userText)] + [answer] == turns + Exchange(input)
  {
  }

  class ConversationRuntime {
    const store: ConversationStore
    const historyWindow: int

    constructor (store: ConversationStore, historyWindow: int)
      ensures this.store == store && this.historyWindow == historyWindow
    {
      this.store, this.historyWindow := store, historyWindow;
    }

    method ProcessTurn(id: ConversationId, input: TurnInput, saveWorks: bool)
      returns (result: Result<TurnResult, string>, prompt: seq<Message>)
      modifies store
      ensures store.states == AfterTurn(old(store.states), id, input, saveWorks)
      ensures prompt == Prompt(Opened(old(store.states), id, input), input, historyWindow)
      ensures result == match input.generation
                        case Fault(message) => Err(message)
                        case Tokens(_) => Ok(TurnResult(ReplyOf(input.generation), input.agent))
    {
      var loaded := store.Load(id);
      var state := if loaded.Some? then loaded.value
                   else ConversationState(input.channel, input.restaurantId, []);
      if Given(input.restaurantId) && !Given(state.restaurantId) {
        state := state.(restaurantId := input.restaurantId);
      }
      prompt := BuildMessages(state, input);
      if input.generation.Fault? {
        return Err(input.generation.message), prompt;
      }
      var reply := StreamReply(input.generation.tokens);
      ExchangeInTwo(state.turns, input);
      state := state.(turns := state.turns + [UserTurn(input.userText)]);
      state := state.(turns := state.turns + [Turn(Assistant, reply, Some(input.agent.role), false)]);
      store.Save(id, state, saveWorks);
      result := Ok(TurnResult(reply, input.agent));
    }

    method RegisterInterruption(id: ConversationId, spokenText: string, saveWorks: bool)
      modifies store
      ensures store.states == AfterInterruption(old(store.states), id, spokenText, saveWorks)
    {
      var loaded := store.Load(id);
      if loaded == None || loaded.value.turns == [] {
        return;
      }
      var turns := loaded.value.turns;
      var last := turns[|turns| - 1];
      if last.role != Assistant {
        return;
      }
      turns := turns[|turns| - 1 := Turn(Assistant, spokenText, last.agentRole, true)];
      store.Save(id, loaded.value.(turns := turns), saveWorks);
    }

    method BuildMessages(state: ConversationState, input: TurnInput) returns (messages: seq<Message>)
      ensures messages == Prompt(state, input, historyWindow)
    {
      messages := [Message(System, input.systemText)];
      var recent := Window(state.turns, historyWindow);
      for i := 0 to |recent|
        invariant messages == [Message(System, input.systemText)] + Rendered(recent)[..i]
      {
        messages := messages + [Message(recent[i].role, recent[i].content)];
      }
      if input.context.Some? {
        messages := messages + [Message(System, "Knowledge base context:\n\n" + input.context.value)];
      }
      messages := messages + [Message(User, input.userText)];
    }

    method StreamReply(tokens: seq<string>) returns (reply: string)
      ensures reply == Strip(Concat(tokens))
    {
      var collected := "";
      for i := 0 to |tokens|
        invariant collected == Concat(tokens[..i])
      {
        assert tokens[..i + 1] == tokens[..i] + [tokens[i]];
        ConcatAppend(tokens[..i], tokens[i]);
        collected := collected + tokens[i];
      }
      assert tokens[..|tokens|] == tokens;
      reply := Strip(collected);
    }
  }

  // ------------------------------------------------- the shape of every log

  /** Whole exchanges: user and assistant alternate, only replies are cut. */
  predicate Dialogue(turns: seq<Turn>) {
    && |turns| % 2 == 0
    && forall i | 0 <= i < |turns| ::
         && turns[i].role == (if i % 2 == 0 then User else Assistant)
         && (turns[i].interrupted ==> turns[i].role == Assistant)
  }

  ghost predicate Dialogues(store: Store) {
    forall id | id in store :: Dialogue(store[id].turns)
  }

  /** Anything that can happen to the store. */
  datatype Operation =
    | TurnOperation(id: ConversationId, input: TurnInput, saved: bool)
    | InterruptionOperation(id: ConversationId, spoken: string, saved: bool)

  function Apply(store: Store, op: Operation): Store {
    match op
    case TurnOperation(id, input, saved) => AfterTurn(store, id, input, saved)
    case InterruptionOperation(id, spoken, saved) => AfterInterruption(store, id, spoken, saved)
  }

  function ApplyAll(store: Store, ops: seq<Operation>): Store {
    if ops == [] then store else Apply(ApplyAll(store, ops[..|ops| - 1]), ops[|ops| - 1])
  }

  lemma ExchangeKeepsDialogue(turns: seq<Turn>, input: TurnInput)
    requires Dialogue(turns) && input.generation.Tokens?
    ensures Dialogue(turns + Exchange(input))
  {
  }

  lemma CutKeepsDialogue(turns: seq<Turn>, spoken: string)
    requires Dialogue(turns) && turns != []
    ensures Dialogue(turns[|turns| - 1 := Cut(turns[|turns| - 1], spoken)])
  {
  }

  lemma ApplyKeepsDialogues(store: Store, op: Operation)
    requires Dialogues(store)
    ensures Dialogues(Apply(store, op))
  {
    match op
    case TurnOperation(id, input, saved) =>
      if input.generation.Tokens? && saved {
        ExchangeKeepsDialogue(Opened(store, id, input).turns, input);
      }
    case InterruptionOperation(id, spoken, saved) =>
      if id in store && store[id].turns != [] {
        CutKeepsDialogue(store[id].turns, spoken);
      }
  }

  /**
   In every reachable store every log is a dialogue, whatever turns, model
   faults, failed writes and interruptions happened, in whatever order.
   */
  lemma {:induction false} LogsAreDialogues(ops: seq<Operation>)
    ensures Dialogues(ApplyAll(map[], ops))
  {
    if ops != [] {
      LogsAreDialogues(ops[..|ops| - 1]);
      ApplyKeepsDialogues(ApplyAll(map[], ops[..|ops| - 1]), ops[|ops| - 1]);
    }
  }

  /** No restaurant, or one whose identifier has no characters. */
  predicate Nameless(restaurantId: Option<string>) {
    restaurantId.Some? ==> |restaurantId.value| == 0
  }

  /** A stored turn of a conversation whose caller names no restaurant, or one without an identifier. */
  predicate NamesNone(op: Operation, id: ConversationId) {
    op.TurnOperation? && op.id == id && op.saved ==>
      op.input.generation.Fault? || Nameless(op.input.restaurantId)
  }

  /** As long as no stored turn of it names a restaurant, a conversation has none. */
  lemma {:induction false} NoRestaurantWithoutName(ops: seq<Operation>, id: ConversationId)
    requires forall i | 0 <= i < |ops| :: NamesNone(ops[i], id)
    ensures id in ApplyAll(map[], ops) ==> Nameless(ApplyAll(map[], ops)[id].restaurantId)
  {
    if ops != [] {
      assert NamesNone(ops[|ops| - 1], id);
      NoRestaurantWithoutName(ops[..|ops| - 1], id);
    }
  }

  /** The restaurant of a conversation is the first that one of its stored turns named, whatever came after. */
  lemma RestaurantIsFirstNamed(before: seq<Operation>, op: Operation, after: seq<Operation>)
    requires op.TurnOperation? && !NamesNone(op, op.id)
    requires forall i | 0 <= i < |before| :: NamesNone(before[i], op.id)
    ensures var store := ApplyAll(ApplyAll(map[], before + [op]), after);
            op.id in store && store[op.id].restaurantId == op.input.restaurantId
  {
    NoRestaurantWithoutName(before, op.id);
    assert (before + [op])[..|before|] == before;
    assert ApplyAll(map[], before + [op]) == Apply(ApplyAll(map[], before), op);
    assert Given(op.input.restaurantId) && Given(ApplyAll(map[], before + [op])[op.id].restaurantId);
    RestaurantIsWriteOnce(ApplyAll(map[], before + [op]), after, op.id);
  }

  /** A restaurant, once a conversation has one, is never replaced or lost. */
  lemma {:induction false} RestaurantIsWriteOnce(store: Store, ops: seq<Operation>, id: ConversationId)
    requires id in store && Given(store[id].restaurantId)
    ensures id in ApplyAll(store, ops)
    ensures ApplyAll(store, ops)[id].restaurantId == store[id].restaurantId
  {
    if ops != [] {
      RestaurantIsWriteOnce(store, ops[..|ops| - 1], id);
    }
  }

  // ----------------------------------------------------- the shape of prompts

  function Conversing(messages: seq<Message>): seq<Message> {
    if messages == [] then []
    else (if messages[0].role == System then [] else [messages[0]]) + Conversing(messages[1..])
  }

  /** Alternating, opened and closed by the user, closed with the new text. */
  predicate WellFormedPrompt(messages: seq<Message>, userText: string) {
    && |messages| % 2 == 1
    && messages[|messages| - 1] == Message(User, userText)
    && forall i | 0 <= i < |messages| :: messages[i].role == if i % 2 == 0 then User else Assistant
  }

  lemma {:induction false} ConversingAppend(a: seq<Message>, b: seq<Message>)
    ensures Conversing(a + b) == Conversing(a) + Conversing(b)
  {
    if a == [] {
      assert a + b == b;
    } else {
      assert (a + b)[1..] == a[1..] + b;
      ConversingAppend(a[1..], b);
      Regroup(if a[0].role == System then [] else [a[0]], Conversing(a[1..]), Conversing(b));
    }
  }

  lemma ConversingOfFour(a: seq<Message>, b: seq<Message>, c: seq<Message>, d: seq<Message>)
    ensures Conversing(a + b + c + d) == Conversing(a) + Conversing(b) + Conversing(c) + Conversing(d)
  {
    ConversingAppend(a + b + c, d);
    ConversingAppend(a + b, c);
    ConversingAppend(a, b);
  }

  lemma {:induction false} ConversingAll(messages: seq<Message>)
    requires forall m | m in messages :: m.role != System
    ensures Conversing(messages) == messages
  {
    if messages != [] {
      ConversingAll(messages[1..]);
    }
  }

  lemma PromptDialogue(state: ConversationState, input: TurnInput, window: int)
    requires Dialogue(state.turns)
    ensures Conversing(Prompt(state, input, window))
            == Rendered(Window(state.turns, window)) + [Message(User, input.userText)]
  {
    var system := [Message(System, input.systemText)];
    var history := Rendered(Window(state.turns, window));
    var context := if input.context.Some?
                   then [Message(System, "Knowledge base context:\n\n" + input.context.value)] else [];
    var asked := [Message(User, input.userText)];
    ConversingAll(history);
    ConversingOfFour(system, history, context, asked);
    assert Conversing(system) == [] && Conversing(context) == [];
  }

  /**
   For every log reachable above, the model sees a well-formed dialogue exactly
   when the window cannot start in the middle of an exchange: it is even, or
   (positive) the whole log fits in it, or (negative) it drops the whole log.
   */
  lemma PromptWellFormedIff(state: ConversationState, input: TurnInput, window: int)
    requires Dialogue(state.turns)
    ensures WellFormedPrompt(Conversing(Prompt(state, input, window)), input.userText)
            <==> window % 2 == 0 || |state.turns| <= window || |state.turns| <= -window
  {
    PromptDialogue(state, input, window);
    SuffixWellFormedIff(state.turns, WindowStart(window, |state.turns|), input.userText);
  }

  lemma SuffixWellFormedIff(turns: seq<Turn>, start: nat, userText: string)
    requires Dialogue(turns) && start <= |turns|
    ensures WellFormedPrompt(Rendered(turns[start..]) + [Message(User, userText)], userText) <==> start % 2 == 0
  {
    var seen := Rendered(turns[start..]) + [Message(User, userText)];
    forall i | 0 <= i < |seen| - 1 ensures seen[i].role == turns[start + i].role { }
  }

  // ------------------------------------------------------- replies and prompts

  lemma {:induction false} ConcatTwo(a: seq<string>, b: seq<string>)
    ensures Concat(a + b) == Concat(a) + Concat(b)
  {
    if a == [] {
      assert a + b == b;
    } else {
      assert (a + b)[1..] == a[1..] + b;
      ConcatTwo(a[1..], b);
    }
  }

  /**
   A reply is all its tokens, however the text was cut into them, trimmed: a trimmed text
   streamed in one token is the reply, and cutting a token in two does not matter.
   */
  lemma ReplyIsAllTokens(before: seq<string>, x: string, y: string, after: seq<string>)
    ensures ReplyOf(Tokens(before + [x, y] + after)) == ReplyOf(Tokens(before + [x + y] + after))
    ensures Trimmed(x) ==> ReplyOf(Tokens([x])) == x
    ensures Words(ReplyOf(Tokens([x]))) == Words(x)
    ensures ReplyOf(Tokens([x])) == "" || Trimmed(ReplyOf(Tokens([x])))
  {
    ConcatTwo(before + [x, y], after);
    ConcatTwo(before + [x + y], after);
    ConcatTwo(before, [x, y]);
    ConcatTwo(before, [x + y]);
    assert [x, y][1..] == [y] && [y][1..] == [] && [x + y][1..] == [] && [x][1..] == [];
    assert Concat([x, y]) == x + y == Concat([x + y]) && Concat([x]) == x;
    WordsStrip(x);
    StripShape(x);
    if Trimmed(x) {
      StripTrimmed(x);
    }
  }

  /**
   What the model is asked: the system text first, the last turns of the window in order
   (without a window all of them, and those after the first few for a negative one),
   the knowledge context if there is one, and the user's text last.
   */
  lemma PromptLayout(state: ConversationState, input: TurnInput, window: int)
    ensures var p, n := Prompt(state, input, window), |state.turns|;
            var kept := if window > 0 then Min(window, n) else Max(0, n + window);
            && |p| == (if input.context.Some? then kept + 3 else kept + 2)
            && p[0] == Message(System, input.systemText) && p[|p| - 1] == Message(User, input.userText)
            && (forall i | 1 <= i <= kept ::
                  var turn := state.turns[|state.turns| - kept + i - 1];
                  p[i].role == turn.role && p[i].content == turn.content)
            && (input.context.Some? ==>
                  p[kept + 1] == Message(System, "Knowledge base context:\n\n" + input.context.value))
  {
  }
}
