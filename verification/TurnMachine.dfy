/** One turn of the half-duplex agent: take in the user's message or the tool results, trim the
    conversation, ask the brain for an action, answer with text or with one tool call. The regular
    expressions and summarisers that read tool output are parameters; the bookkeeping around them is here. */
module TurnMachine {
  import opened Conversation
  import opened Text
  import opened Trim

  const MAX_KB_SEARCH_CALLS: nat := 14
  const MAX_HINT_TURNS: nat := 6

  // ---- What comes in, what the brain sees and says ----

  datatype Result = Result(id: string, content: string, error: bool)
  datatype Incoming = FromUser(text: string) | FromTools(results: seq<Result>)

  datatype Perception = Perception(step: nat, messages: seq<Message>, finalOnly: bool, directives: seq<Hint>)
  datatype Action = Action(name: string, args: string, answer: string, message: string, text: string)
  type Brain = Perception -> Action

  /** Everything the adapter reads out of opaque text. */
  datatype Config = Config(
    registry: set<string>,
    store: (string, Result) -> string,
    userSideTool: string -> Option<string>,
    agentSideTool: string -> Option<string>,
    notGiven: string -> Option<string>,
    notUnlocked: string -> Option<string>,
    looksLikeCall: string -> bool,
    synthesize: seq<Message> -> string,
    normalizeArgs: (string, string) -> string)

  // ---- Session state ----

  datatype Source = UserSide | AgentSide | NotGiven | NotUnlocked
  datatype Hint = Hint(tool: string, source: Source, turns: nat)

  datatype Session = Session(
    messages: seq<Message>,
    step: nat,
    forceFinal: bool,
    kbSearchCount: nat,
    kbExhausted: bool,
    hints: seq<Hint>,
    prompted: set<string>,
    callNames: map<string, string>)

  /** What a turn did, seen from outside. */
  datatype TurnLog = TurnLog(handed: seq<Message>, queued: seq<string>, injected: seq<string>, reply: Message)

  // ---- Tool names and calls ----

  predicate IsKbSearch(name: string) {
    "KB_search" <= name
  }

  function NameIn(id: string, calls: seq<Call>): Option<string> {
    if calls == [] then None
    else if calls[0].id == id then Some(calls[0].name)
    else NameIn(id, calls[1..])
  }

  function NameInHistory(id: string, ms: seq<Message>): string {
    if ms == [] then ""
    else
      match NameIn(id, CallsOf(ms[|ms| - 1]))
      case Some(name) => name
      case None => NameInHistory(id, ms[..|ms| - 1])
  }

  function NameForId(id: string, names: map<string, string>, ms: seq<Message>): string {
    if id == "" then "" else if id in names then names[id] else NameInHistory(id, ms)
  }

  predicate SearchesKb(m: Message) {
    exists c :: c in CallsOf(m) && IsKbSearch(c.name)
  }

  function KbCalls(ms: seq<Message>): nat {
    if ms == [] then 0 else KbCalls(ms[..|ms| - 1]) + if SearchesKb(ms[|ms| - 1]) then 1 else 0
  }

  predicate Hands(c: Call, tool: string) {
    && (c.name == "give_discoverable_user_tool" || c.name == "unlock_discoverable_agent_tool")
    && Contains(c.args, tool)
  }

  /** A give or unlock call naming the tool is in the history. */
  predicate HintSatisfied(tool: string, ms: seq<Message>) {
    exists m :: m in ms && exists c :: c in CallsOf(m) && Hands(c, tool)
  }

  function CallId(step: nat): string {
    "call_" + Decimal(step)
  }

  // ---- Taking the incoming message in ----

  function Stored(results: seq<Result>, names: map<string, string>, ms: seq<Message>, cfg: Config): seq<Message> {
    if results == [] then []
    else [ToolResult(results[0].id, cfg.store(NameForId(results[0].id, names, ms), results[0]))]
         + Stored(results[1..], names, ms, cfg)
  }

  function Converted(m: Incoming, names: map<string, string>, ms: seq<Message>, cfg: Config): seq<Message> {
    match m
    case FromUser(text) => [User(text)]
    case FromTools(results) => Stored(results, names, ms, cfg)
  }

  function QueueHint(s: Session, found: Option<string>, source: Source): Session {
    if found.None? || found.value in s.prompted then s
    else s.(prompted := s.prompted + {found.value}, hints := s.hints + [Hint(found.value, source, 0)])
  }

  function QueueErrors(s: Session, results: seq<Result>, cfg: Config): Session
    decreases results
  {
    if results == [] then s
    else
      var s1 := QueueHint(s, cfg.notGiven(results[0].content), NotGiven);
      var s2 := QueueHint(s1, cfg.notUnlocked(results[0].content), NotUnlocked);
      QueueErrors(s2, results[1..], cfg)
  }

  function QueueProtocol(s: Session, content: string, cfg: Config): Session {
    QueueHint(QueueHint(s, cfg.userSideTool(content), UserSide), cfg.agentSideTool(content), AgentSide)
  }

  function LastToolContent(ms: seq<Message>): string {
    if ms == [] then ""
    else if ms[|ms| - 1].ToolResult? then ms[|ms| - 1].content
    else LastToolContent(ms[..|ms| - 1])
  }

  predicate BringsKbResult(m: Incoming, s: Session) {
    m.FromTools? && exists r :: r in m.results && IsKbSearch(NameForId(r.id, s.callNames, s.messages))
  }

  function NoteKbResult(s: Session, cfg: Config): Session {
    var content := LastToolContent(s.messages);
    var s1 := s.(kbSearchCount := s.kbSearchCount + 1);
    var s2 := if content != "" then QueueProtocol(s1, content, cfg) else s1;
    if s2.kbSearchCount >= MAX_KB_SEARCH_CALLS then s2.(kbExhausted := true) else s2
  }

  function Received(s: Session, m: Incoming, cfg: Config): Session {
    var s1 := s.(step := s.step + 1, messages := s.messages + Converted(m, s.callNames, s.messages, cfg));
    var s2 := if m.FromTools? then QueueErrors(s1, m.results, cfg) else s1;
    var s3 := if BringsKbResult(m, s2) then NoteKbResult(s2, cfg) else s2;
    if s3.kbExhausted then s3.(forceFinal := true) else s3
  }

  // ---- Deciding ----

  function Pending(hints: seq<Hint>, ms: seq<Message>): seq<Hint> {
    if hints == [] then []
    else if HintSatisfied(hints[0].tool, ms) || hints[0].turns >= MAX_HINT_TURNS then Pending(hints[1..], ms)
    else [hints[0].(turns := hints[0].turns + 1)] + Pending(hints[1..], ms)
  }

  lemma PendingEnds(hints: seq<Hint>, ms: seq<Message>)
    ensures hints[0..] == hints && Pending(hints[|hints|..], ms) == []
  {
  }

  lemma PendingStep(hints: seq<Hint>, i: nat, ms: seq<Message>)
    requires i < |hints|
    ensures var h := hints[i];
            Pending(hints[i..], ms) ==
              (if HintSatisfied(h.tool, ms) || h.turns >= MAX_HINT_TURNS then [] else [h.(turns := h.turns + 1)])
              + Pending(hints[i + 1..], ms)
  {
    assert hints[i..][1..] == hints[i + 1..];
  }

  function Tools(hints: seq<Hint>): seq<string> {
    seq(|hints|, i requires 0 <= i < |hints| => hints[i].tool)
  }

  predicate MustFinish(s: Session) {
    s.forceFinal || KbCalls(s.messages) >= MAX_KB_SEARCH_CALLS
  }

  predicate IsMeta(name: string) {
    name == "" || name == "done" || name == "final_answer" || name == "echo"
  }

  /** Under a forced finish anything that is not an answer is replaced by a synthesised one. */
  function Enforced(a: Action, mustFinish: bool, ms: seq<Message>, cfg: Config): Action {
    if mustFinish && ((a.name != "final_answer" && a.name != "done") || cfg.looksLikeCall(a.answer))
    then Action("final_answer", "", cfg.synthesize(ms), "", "")
    else a
  }

  function OrDone(text: string): string {
    if text == "" then "Done." else text
  }

  function Reply(a: Action, step: nat, cfg: Config): Message {
    if !IsMeta(a.name) && a.name !in cfg.registry then
      Assistant("'" + a.name + "' is not an available tool.", [])
    else if !IsMeta(a.name) then
      Assistant("", [Call(CallId(step), a.name, cfg.normalizeArgs(a.name, a.args))])
    else if a.name == "final_answer" then Assistant(OrDone(a.answer), [])
    else if a.name == "echo" then Assistant(OrDone(a.message), [])
    else Assistant(OrDone(a.text), [])
  }

  function Registered(names: map<string, string>, reply: Message): map<string, string> {
    if |CallsOf(reply)| == 1 then names[CallsOf(reply)[0].id := CallsOf(reply)[0].name] else names
  }

  function Decided(s: Session, brain: Brain, cfg: Config): (Session, TurnLog) {
    var handed := Trimmed(s.messages);
    var pending := Pending(s.hints, s.messages);
    var a := brain(Perception(s.step, handed, MustFinish(s), pending));
    var reply := Reply(Enforced(a, MustFinish(s), s.messages, cfg), s.step, cfg);
    (s.(messages := s.messages + [reply], hints := pending, forceFinal := false,
        callNames := Registered(s.callNames, reply)),
     TurnLog(handed, [], Tools(pending), reply))
  }

  function NewTools(before: seq<Hint>, after: seq<Hint>): seq<string> {
    if |before| <= |after| then Tools(after[|before|..]) else []
  }

  function Turn(s: Session, m: Incoming, brain: Brain, cfg: Config): (Session, TurnLog) {
    var received := Received(s, m, cfg);
    var (after, log) := Decided(received, brain, cfg);
    (after, log.(queued := NewTools(s.hints, received.hints)))
  }

  // ---- The agent and its mutable session ----

  class HalfDuplexAgent {
    const cfg: Config
    var toolCallNames: map<string, string>
    var messages: seq<Message>
    var step: nat
    var forceFinal: bool
    var kbSearchCount: nat
    var kbExhausted: bool
    var protocolHints: seq<Hint>
    var promptedTools: set<string>

    function View(): Session
      reads this
    {
      Session(messages, step, forceFinal, kbSearchCount, kbExhausted, protocolHints, promptedTools, toolCallNames)
    }

    constructor (cfg: Config, history: seq<Message>)
      ensures this.cfg == cfg
      ensures View() == Session(history, 0, false, 0, false, [], {}, map[])
    {
      this.cfg := cfg;
      toolCallNames, messages, step := map[], history, 0;
      forceFinal, kbSearchCount, kbExhausted := false, 0, false;
      protocolHints, promptedTools := [], {};
    }

    method Queue(found: Option<string>, source: Source)
      modifies this`promptedTools, this`protocolHints
      ensures View() == QueueHint(old(View()), found, source)
    {
      if found.Some? && found.value !in promptedTools {
        promptedTools := promptedTools + {found.value};
        protocolHints := protocolHints + [Hint(found.value, source, 0)];
      }
    }

    method QueueErrorDirectives(results: seq<Result>)
      modifies this`promptedTools, this`protocolHints
      ensures View() == QueueErrors(old(View()), results, cfg)
    {
      var i := 0;
      while i < |results|
        invariant 0 <= i <= |results|
        invariant QueueErrors(old(View()), results, cfg) == QueueErrors(View(), results[i..], cfg)
      {
        Queue(cfg.notGiven(results[i].content), NotGiven);
        Queue(cfg.notUnlocked(results[i].content), NotUnlocked);
        assert results[i..][1..] == results[i + 1..];
        i := i + 1;
      }
    }

    method TakeIn(m: Incoming)
      modifies this
      ensures View() == Received(old(View()), m, cfg)
    {
      hide Converted, QueueErrors, NoteKbResult, BringsKbResult;
      step := step + 1;
      messages := messages + Converted(m, toolCallNames, messages, cfg);
      if m.FromTools? {
        QueueErrorDirectives(m.results);
      }
      if BringsKbResult(m, View()) {
        CountKbResult();
      }
      if kbExhausted {
        forceFinal := true;
      }
    }

    method CountKbResult()
      modifies this
      ensures View() == NoteKbResult(old(View()), cfg)
    {
      hide QueueHint, LastToolContent;
      kbSearchCount := kbSearchCount + 1;
      var content := LastToolContent(messages);
      if content != "" {
        Queue(cfg.userSideTool(content), UserSide);
        Queue(cfg.agentSideTool(content), AgentSide);
      }
      if kbSearchCount >= MAX_KB_SEARCH_CALLS {
        kbExhausted := true;
      }
    }

    method RefreshHints()
      modifies this`protocolHints
      ensures protocolHints == Pending(old(protocolHints), messages)
    {
      hide Pending, HintSatisfied;
      PendingEnds(protocolHints, messages);
      var stillPending: seq<Hint> := [];
      var i := 0;
      while i < |protocolHints|
        invariant 0 <= i <= |protocolHints| && protocolHints == old(protocolHints)
        invariant Pending(protocolHints, messages) == stillPending + Pending(protocolHints[i..], messages)
      {
        var hint := protocolHints[i];
        PendingStep(protocolHints, i, messages);
        if !HintSatisfied(hint.tool, messages) && hint.turns < MAX_HINT_TURNS {
          stillPending := stillPending + [hint.(turns := hint.turns + 1)];
        }
        i := i + 1;
      }
      protocolHints := stillPending;
    }

    method GenerateNextMessage(m: Incoming, brain: Brain) returns (reply: Message, handed: seq<Message>)
      modifies this
      ensures var (after, log) := Turn(old(View()), m, brain, cfg);
              View() == after && reply == log.reply && handed == log.handed
    {
      hide Received, Trimmed, Pending, Enforced, Reply, Registered, KbCalls;
      TakeIn(m);
      handed := TrimMessagesForContext(messages);
      var kbCalls := KbCalls(messages);
      RefreshHints();
      if !forceFinal && kbCalls >= MAX_KB_SEARCH_CALLS {
        forceFinal := true;
      }
      var action := brain(Perception(step, handed, forceFinal, protocolHints));
      action := Enforced(action, forceFinal, messages, cfg);
      reply := Reply(action, step, cfg);
      messages := messages + [reply];
      toolCallNames := Registered(toolCallNames, reply);
      forceFinal := false;
    }
  }
}
