/** Properties of whole conversations: every run of turns keeps the protocol, the call ids distinct,
    the search cap and the directive bookkeeping. */
module TurnTheorems {
  import opened Conversation
  import opened Text
  import opened Trim
  import opened TrimTheorems
  import opened TurnMachine

  // ---- Runs ----

  type Step = (Incoming, Brain)

  ghost function Run(s: Session, steps: seq<Step>, cfg: Config): (Session, seq<TurnLog>) {
    if steps == [] then (s, [])
    else
      var n := |steps| - 1;
      var (before, logs) := Run(s, steps[..n], cfg);
      var (after, log) := Turn(before, steps[n].0, steps[n].1, cfg);
      (after, logs + [log])
  }

  ghost function PendingCalls(ms: seq<Message>): seq<Call> {
    if ms == [] then [] else CallsOf(ms[|ms| - 1])
  }

  function ResultIds(results: seq<Result>): seq<string> {
    seq(|results|, i requires 0 <= i < |results| => results[i].id)
  }

  /** Tool results come in exactly when calls are pending, and answer exactly those. */
  ghost predicate Accepts(ms: seq<Message>, m: Incoming) {
    if PendingCalls(ms) == [] then m.FromUser?
    else m.FromTools? && |m.results| == |PendingCalls(ms)|
         && multiset(ResultIds(m.results)) == multiset(CallIds(PendingCalls(ms)))
  }

  ghost predicate LegalRun(s: Session, steps: seq<Step>, cfg: Config) {
    steps == [] ||
    (var n := |steps| - 1;
     LegalRun(s, steps[..n], cfg) && Accepts(Run(s, steps[..n], cfg).0.messages, steps[n].0))
  }

  /** Between turns: nothing yet, only a greeting, a complete history, or one with its last calls unanswered. */
  ghost predicate Ready(ms: seq<Message>) {
    || ms == []
    || (|ms| == 1 && Plain(ms[0]))
    || History(ms)
    || (|ms| > 1 && CallsOf(ms[|ms| - 1]) != [] && History(ms[..|ms| - 1]))
  }

  // ---- Protocol validity ----

  lemma {:induction false} StoredShape(results: seq<Result>, names: map<string, string>, ms: seq<Message>, cfg: Config)
    ensures var out := Stored(results, names, ms, cfg);
            && |out| == |results|
            && (forall i :: 0 <= i < |out| ==> out[i].ToolResult? && out[i].callId == results[i].id)
            && AnsweredIds(out) == ResultIds(results)
  {
    if results != [] {
      StoredShape(results[1..], names, ms, cfg);
    }
  }

  lemma QueueKeepsConversation(s: Session, found: Option<string>, source: Source)
    ensures var q := QueueHint(s, found, source);
            q.messages == s.messages && q.step == s.step && q.callNames == s.callNames && q.kbExhausted == s.kbExhausted
  {
  }

  lemma {:induction false} QueueErrorsKeepsConversation(s: Session, results: seq<Result>, cfg: Config)
    ensures var q := QueueErrors(s, results, cfg);
            q.messages == s.messages && q.step == s.step && q.callNames == s.callNames && q.kbExhausted == s.kbExhausted
    decreases results
  {
    if results != [] {
      var s1 := QueueHint(s, cfg.notGiven(results[0].content), NotGiven);
      var s2 := QueueHint(s1, cfg.notUnlocked(results[0].content), NotUnlocked);
      QueueErrorsKeepsConversation(s2, results[1..], cfg);
    }
  }

  lemma ReceivedConversation(s: Session, m: Incoming, cfg: Config)
    ensures var r := Received(s, m, cfg);
            && r.messages == s.messages + Converted(m, s.callNames, s.messages, cfg)
            && r.step == s.step + 1 && r.callNames == s.callNames
            && (s.kbExhausted ==> r.kbExhausted)
            && (r.kbExhausted ==> r.forceFinal)
  {
    hide Converted, BringsKbResult, QueueErrors, NoteKbResult;
    var s1 := s.(step := s.step + 1, messages := s.messages + Converted(m, s.callNames, s.messages, cfg));
    if m.FromTools? { QueueErrorsKeepsConversation(s1, m.results, cfg); }
    NoteKeepsConversation(if m.FromTools? then QueueErrors(s1, m.results, cfg) else s1, cfg);
  }

  lemma NoteKeepsConversation(s: Session, cfg: Config)
    ensures var q := NoteKbResult(s, cfg);
            && q.messages == s.messages && q.step == s.step && q.callNames == s.callNames
            && (s.kbExhausted ==> q.kbExhausted)
  {
    hide LastToolContent, QueueHint;
    var content := LastToolContent(s.messages);
    var s1 := s.(kbSearchCount := s.kbSearchCount + 1);
    QueueKeepsConversation(s1, cfg.userSideTool(content), UserSide);
    QueueKeepsConversation(QueueHint(s1, cfg.userSideTool(content), UserSide), cfg.agentSideTool(content), AgentSide);
  }

  lemma ConvertedHasNoCalls(m: Incoming, names: map<string, string>, ms: seq<Message>, cfg: Config)
    ensures forall x :: x in Converted(m, names, ms, cfg) ==> !x.Assistant?
  {
    if m.FromTools? {
      StoredShape(m.results, names, ms, cfg);
    }
  }

  lemma {:induction false} HistoryEndsAnswered(ms: seq<Message>)
    requires Blocks(ms)
    ensures PendingCalls(ms) == []
    decreases |ms|
  {
    if ms != [] {
      var k := BlockSize(ms[0]);
      if k < |ms| {
        HistoryEndsAnswered(ms[k..]);
      } else if k > 1 {
        BlockInterior(ms, k - 1);
      }
    }
  }

  lemma OneMessageBlock(m: Message)
    requires m.User? || Plain(m)
    ensures Blocks([m])
  {
    assert [m][1..1] == [] && [m][1..] == [];
  }

  lemma AnsweredCallBlock(call: Message, results: seq<Message>)
    requires call.Assistant? && Answers(results, call.calls)
    ensures Blocks([call] + results)
  {
    var b := [call] + results;
    assert b[1..] == results && b[1..BlockSize(call)] == results && b[BlockSize(call)..] == [];
  }

  /** Taking in an accepted message completes the conversation into a well-formed history. */
  lemma ReceivedIsHistory(s: Session, m: Incoming, cfg: Config)
    requires Ready(s.messages) && Accepts(s.messages, m)
    ensures History(Received(s, m, cfg).messages)
  {
    hide Received, Blocks;
    ReceivedConversation(s, m, cfg);
    var ms, more := s.messages, Converted(m, s.callNames, s.messages, cfg);
    if ms == [] || |ms| == 1 {
      if ms != [] && History(ms) { HistoryEndsAnswered(ms); OneMessageBlock(ms[0]); }
      if ms != [] { OneMessageBlock(ms[0]); assert ms == [ms[0]]; }
      OneMessageBlock(more[0]);
      assert more == [more[0]];
      BlocksConcat(ms, more);
    } else if History(ms) {
      HistoryEndsAnswered(ms);
      OneMessageBlock(more[0]);
      BlocksConcat(ms, more);
    } else {
      AnswersPending(s, m, cfg);
    }
  }

  lemma AnswersPending(s: Session, m: Incoming, cfg: Config)
    requires |s.messages| > 1 && PendingCalls(s.messages) != [] && Accepts(s.messages, m)
    requires History(s.messages[..|s.messages| - 1])
    ensures History(s.messages + Converted(m, s.callNames, s.messages, cfg))
  {
    hide Blocks;
    var ms, more := s.messages, Converted(m, s.callNames, s.messages, cfg);
    var h, call := ms[..|ms| - 1], ms[|ms| - 1];
    StoredShape(m.results, s.callNames, s.messages, cfg);
    AnsweredCallBlock(call, more);
    BlocksConcat(h, [call] + more);
    assert ms + more == h + ([call] + more);
  }

  lemma ReplyShape(a: Action, step: nat, cfg: Config)
    ensures var r := Reply(a, step, cfg); r.Assistant? && |r.calls| <= 1
    ensures IsMeta(a.name) ==> Plain(Reply(a, step, cfg))
    ensures Reply(a, step, cfg).calls != [] ==> Reply(a, step, cfg).calls[0].id == CallId(step)
  {
  }

  lemma TurnMessages(s: Session, m: Incoming, brain: Brain, cfg: Config)
    ensures var r := Received(s, m, cfg); var (t, log) := Turn(s, m, brain, cfg);
            && t.messages == r.messages + [log.reply]
            && t.step == r.step && t.prompted == r.prompted && t.kbExhausted == r.kbExhausted
            && log.handed == Trimmed(r.messages)
            && log.reply.Assistant? && |log.reply.calls| <= 1
            && (log.reply.calls != [] ==> log.reply.calls[0].id == CallId(r.step))
            && (MustFinish(r) ==> Plain(log.reply))
  {
    hide Received, Trimmed, Pending, Reply, MustFinish, CallId;
    var r := Received(s, m, cfg);
    var a := brain(Perception(r.step, Trimmed(r.messages), MustFinish(r), Pending(r.hints, r.messages)));
    ReplyShape(Enforced(a, MustFinish(r), r.messages, cfg), r.step, cfg);
  }

  lemma ReplyKeepsReady(ms: seq<Message>, reply: Message)
    requires History(ms) && reply.Assistant?
    ensures Ready(ms + [reply])
  {
    hide Blocks;
    var out := ms + [reply];
    if reply.calls == [] {
      OneMessageBlock(reply);
      BlocksConcat(ms, [reply]);
    } else {
      assert out[..|out| - 1] == ms;
    }
  }

  lemma TurnKeepsProtocol(s: Session, m: Incoming, brain: Brain, cfg: Config)
    requires Ready(s.messages) && Accepts(s.messages, m)
    ensures var (t, log) := Turn(s, m, brain, cfg);
            && Ready(t.messages) && History(log.handed)
            && (|t.messages| > 61 ==> NoAdjacentAssistants(log.handed))
  {
    hide Turn, Received, Ready, Trimmed, History;
    TurnMessages(s, m, brain, cfg);
    ReceivedIsHistory(s, m, cfg);
    TrimKeepsHistory(Received(s, m, cfg).messages);
    ReplyKeepsReady(Received(s, m, cfg).messages, Turn(s, m, brain, cfg).1.reply);
  }

  /** Over every legal run the conversation stays well formed between turns and every message list
      handed to the brain satisfies the protocol. */
  lemma {:induction false} RunKeepsProtocol(s: Session, steps: seq<Step>, cfg: Config)
    requires Ready(s.messages) && LegalRun(s, steps, cfg)
    ensures var (t, logs) := Run(s, steps, cfg);
            Ready(t.messages) && |logs| == |steps| && forall i :: 0 <= i < |logs| ==> History(logs[i].handed)
    decreases |steps|
  {
    hide Ready, Turn, Accepts, History;
    if steps != [] {
      var n := |steps| - 1;
      RunKeepsProtocol(s, steps[..n], cfg);
      TurnKeepsProtocol(Run(s, steps[..n], cfg).0, steps[n].0, steps[n].1, cfg);
    }
  }

  // ---- What the agent answers ----

  /** What the brain decides on this turn, from the trimmed messages and the directives that still hold. */
  function Decision(s: Session, m: Incoming, brain: Brain, cfg: Config): Action {
    var (t, log) := Turn(s, m, brain, cfg);
    var r := Received(s, m, cfg);
    brain(Perception(t.step, log.handed, r.forceFinal || KbCalls(r.messages) >= 14, t.hints))
  }

  /** Says `text`, or "Done." if there is none, and calls no tool. */
  predicate Says(reply: Message, text: string) {
    reply.Assistant? && reply.calls == [] && reply.content == if text == "" then "Done." else text
  }

  /** On a turn that need not be the last the user gets what the brain put where its kind of action holds the
      text, or one call of the tool it named. */
  lemma FreeTurnReplies(s: Session, m: Incoming, brain: Brain, cfg: Config)
    requires !Received(s, m, cfg).forceFinal && KbCalls(Received(s, m, cfg).messages) < 14
    ensures var a := Decision(s, m, brain, cfg); var (t, log) := Turn(s, m, brain, cfg);
            && t.messages == Received(s, m, cfg).messages + [log.reply]
            && match a.name
               case "final_answer" => Says(log.reply, a.answer)
               case "echo" => Says(log.reply, a.message)
               case "done" => Says(log.reply, a.text)
               case "" => Says(log.reply, a.text)
               case _ =>
                 if a.name in cfg.registry then
                   && log.reply.Assistant? && log.reply.content == ""
                   && log.reply.calls
                        == [Call("call_" + Decimal(s.step + 1), a.name, cfg.normalizeArgs(a.name, a.args))]
                 else log.reply.Assistant? && log.reply.calls == [] && Contains(log.reply.content, a.name)
  {
    hide Received, Trimmed, Pending, KbCalls, Decimal, Contains;
    ReceivedConversation(s, m, cfg);
    var a := Decision(s, m, brain, cfg);
    NameInText(a.name, "' is not an available tool.");
  }

  lemma NameInText(name: string, rest: string)
    ensures Contains("'" + name + rest, name)
  {
    var text := "'" + name + rest;
    assert text[1..1 + |name|] == name;
    assert OccursAt(text, name, 1);
  }

  /** On a turn that must be the last, an answer of the brain's own goes out as it is, and what wants a tool,
      by its name or by its text, is replaced by the answer made up from the conversation. */
  lemma ForcedTurnReplies(s: Session, m: Incoming, brain: Brain, cfg: Config)
    requires Received(s, m, cfg).forceFinal || KbCalls(Received(s, m, cfg).messages) >= 14
    ensures var a, r := Decision(s, m, brain, cfg), Received(s, m, cfg); var (t, log) := Turn(s, m, brain, cfg);
            && t.messages == r.messages + [log.reply]
            && (if (a.name != "final_answer" && a.name != "done") || cfg.looksLikeCall(a.answer) then
                  Says(log.reply, cfg.synthesize(r.messages))
                else Says(log.reply, if a.name == "final_answer" then a.answer else a.text))
  {
    hide Received, Trimmed, Pending, KbCalls, Decimal;
    ReceivedConversation(s, m, cfg);
  }

  // ---- Call ids ----

  ghost function AllIds(ms: seq<Message>): seq<string> {
    if ms == [] then [] else AllIds(ms[..|ms| - 1]) + CallIds(CallsOf(ms[|ms| - 1]))
  }

  lemma {:induction false} AllIdsWithoutCalls(ms: seq<Message>, more: seq<Message>)
    requires forall m :: m in more ==> !m.Assistant?
    ensures AllIds(ms + more) == AllIds(ms)
    decreases |more|
  {
    if more == [] {
      assert ms + more == ms;
    } else {
      var n := |more| - 1;
      assert (ms + more)[..|ms + more| - 1] == ms + more[..n];
      AllIdsWithoutCalls(ms, more[..n]);
      assert more[n] in more;
    }
  }

  /** Ids used so far are distinct and none is one that a later turn will generate. */
  ghost predicate FreshIds(s: Session) {
    Distinct(AllIds(s.messages)) && forall k: nat :: k > s.step ==> CallId(k) !in AllIds(s.messages)
  }

  lemma CallIdInjective(j: nat, k: nat)
    requires CallId(j) == CallId(k)
    ensures j == k
  {
    assert Decimal(j) == CallId(j)[5..] && Decimal(k) == CallId(k)[5..];
    DecimalInjective(j, k);
  }

  lemma LastReply(ms: seq<Message>, reply: Message)
    ensures AllIds(ms + [reply]) == AllIds(ms) + CallIds(CallsOf(reply))
    ensures Plain(reply) ==> KbCalls(ms + [reply]) == KbCalls(ms)
    ensures PendingCalls(ms + [reply]) == CallsOf(reply)
  {
    assert (ms + [reply])[..|ms + [reply]| - 1] == ms;
  }

  lemma TurnKeepsIdsFresh(s: Session, m: Incoming, brain: Brain, cfg: Config)
    requires FreshIds(s)
    ensures FreshIds(Turn(s, m, brain, cfg).0)
  {
    hide Turn, Received, CallId, AllIds, Converted, KbCalls;
    TurnMessages(s, m, brain, cfg);
    ReceivedConversation(s, m, cfg);
    ConvertedHasNoCalls(m, s.callNames, s.messages, cfg);
    AllIdsWithoutCalls(s.messages, Converted(m, s.callNames, s.messages, cfg));
    var (t, log) := Turn(s, m, brain, cfg);
    var ids, added := AllIds(s.messages), CallIds(log.reply.calls);
    LastReply(Received(s, m, cfg).messages, log.reply);
    assert AllIds(t.messages) == ids + added;
    assert added == [] || added == [CallId(t.step)];
    DistinctAppend(ids, added);
    forall k: nat | k > t.step ensures CallId(k) !in ids + added {
      if CallId(k) == CallId(t.step) { CallIdInjective(k, t.step); }
    }
  }

  /** Whatever comes in, generated call ids never repeat over a run. */
  lemma {:induction false} RunKeepsIdsDistinct(s: Session, steps: seq<Step>, cfg: Config)
    requires FreshIds(s)
    ensures FreshIds(Run(s, steps, cfg).0)
    decreases |steps|
  {
    hide FreshIds, Turn;
    if steps != [] {
      var n := |steps| - 1;
      RunKeepsIdsDistinct(s, steps[..n], cfg);
      TurnKeepsIdsFresh(Run(s, steps[..n], cfg).0, steps[n].0, steps[n].1, cfg);
    }
  }

  /** The agent may call a tool on the turn that takes in `m`: it is accepted, and need not be the last. */
  ghost predicate MayCall(s: Session, m: Incoming, cfg: Config) {
    Accepts(s.messages, m) && !MustFinish(Received(s, m, cfg))
  }

  /** A turn on which the brain decides for `a`. */
  function Deciding(m: Incoming, a: Action): Step {
    (m, (p: Perception) => a)
  }

  function Remark(): Action {
    Action("echo", "", "", "", "")
  }

  lemma DecidingTurn(s: Session, m: Incoming, a: Action, cfg: Config)
    requires MayCall(s, m, cfg)
    ensures var t := Turn(s, m, Deciding(m, a).1, cfg).0; var reply := Reply(a, s.step + 1, cfg);
            && t.step == s.step + 1
            && AllIds(t.messages) == AllIds(s.messages) + CallIds(CallsOf(reply))
            && (Plain(reply) ==> MayCall(t, FromUser(""), cfg))
  {
    hide Received, Pending, Trimmed, Reply, KbCalls, AllIds, Converted, Accepts;
    var r, reply := Received(s, m, cfg), Reply(a, s.step + 1, cfg);
    var more := Converted(m, s.callNames, s.messages, cfg);
    ReceivedConversation(s, m, cfg);
    ConvertedHasNoCalls(m, s.callNames, s.messages, cfg);
    AllIdsWithoutCalls(s.messages, more);
    LastReply(r.messages, reply);
    if Plain(reply) { TalkGoesOn(Turn(s, m, Deciding(m, a).1, cfg).0, cfg); }
  }

  lemma TalkGoesOn(s: Session, cfg: Config)
    requires PendingCalls(s.messages) == [] && !s.forceFinal && !s.kbExhausted
    requires KbCalls(s.messages) < MAX_KB_SEARCH_CALLS
    ensures MayCall(s, FromUser(""), cfg)
  {
    hide KbCalls;
    KbCallsWithoutCalls(s.messages, [User("")]);
  }

  /** `n` turns of talk, the first one after `m`. */
  function Talk(m: Incoming, n: nat): seq<Step> {
    seq(n, i => Deciding(Next(m, i), Remark()))
  }

  function Next(m: Incoming, i: int): Incoming {
    if i == 0 then m else FromUser("")
  }

  lemma {:induction false} TalkKeepsIds(s: Session, m: Incoming, n: nat, cfg: Config)
    requires MayCall(s, m, cfg)
    ensures var t := Run(s, Talk(m, n), cfg).0;
            && LegalRun(s, Talk(m, n), cfg) && MayCall(t, Next(m, n), cfg)
            && t.step == s.step + n && AllIds(t.messages) == AllIds(s.messages)
    decreases n
  {
    hide Turn, AllIds, MustFinish, Received, Accepts;
    if n > 0 {
      TalkKeepsIds(s, m, n - 1, cfg);
      var mid := Run(s, Talk(m, n - 1), cfg).0;
      assert Talk(m, n)[..n - 1] == Talk(m, n - 1);
      DecidingTurn(mid, Next(m, n - 1), Remark(), cfg);
    }
  }

  /** From a session that may call some tool on its next turn, the ids stay distinct over every legal run
      exactly when those used so far are distinct and none is one that a later turn generates. */
  lemma IdsStayDistinctIff(s: Session, m: Incoming, tool: string, cfg: Config)
    requires MayCall(s, m, cfg) && tool in cfg.registry && !IsMeta(tool)
    ensures (forall steps :: LegalRun(s, steps, cfg) ==> Distinct(AllIds(Run(s, steps, cfg).0.messages)))
            <==> FreshIds(s)
  {
    hide Turn, AllIds, MayCall, Distinct, Run, CallId;
    if FreshIds(s) {
      forall steps | LegalRun(s, steps, cfg) ensures Distinct(AllIds(Run(s, steps, cfg).0.messages)) {
        RunKeepsIdsDistinct(s, steps, cfg);
      }
    } else {
      var steps := [];
      if k: nat :| k > s.step && CallId(k) in AllIds(s.messages) {
        steps := CollidingRun(s, m, tool, k, cfg);
      } else {
        steps := Talk(m, 0);
        TalkKeepsIds(s, m, 0, cfg);
      }
      assert LegalRun(s, steps, cfg) && !Distinct(AllIds(Run(s, steps, cfg).0.messages));
    }
  }

  /** Talk until step `k`, then a call: its id is the one already used. */
  lemma CollidingRun(s: Session, m: Incoming, tool: string, k: nat, cfg: Config) returns (steps: seq<Step>)
    requires MayCall(s, m, cfg) && tool in cfg.registry && !IsMeta(tool)
    requires k > s.step && CallId(k) in AllIds(s.messages)
    ensures LegalRun(s, steps, cfg) && !Distinct(AllIds(Run(s, steps, cfg).0.messages))
  {
    hide Turn, AllIds, CallId, Received, MustFinish, Accepts;
    var a, n := Action(tool, "", "", "", ""), k - s.step - 1;
    var last := Deciding(Next(m, n), a);
    steps := Talk(m, n) + [last];
    assert steps[..|steps| - 1] == Talk(m, n);
    TalkKeepsIds(s, m, n, cfg);
    var mid := Run(s, Talk(m, n), cfg).0;
    DecidingTurn(mid, Next(m, n), a, cfg);
    var ids, reply := AllIds(mid.messages), Reply(a, k, cfg);
    assert CallIds(CallsOf(reply)) == [CallId(k)];
    assert Run(s, steps, cfg).0 == Turn(mid, last.0, last.1, cfg).0;
    var i :| 0 <= i < |ids| && ids[i] == CallId(k);
    assert (ids + [CallId(k)])[i] == (ids + [CallId(k)])[|ids|];
  }

  // ---- The knowledge-base search cap ----

  lemma {:induction false} KbCallsWithoutCalls(ms: seq<Message>, more: seq<Message>)
    requires forall m :: m in more ==> !m.Assistant?
    ensures KbCalls(ms + more) == KbCalls(ms)
    decreases |more|
  {
    if more == [] {
      assert ms + more == ms;
    } else {
      var n := |more| - 1;
      assert (ms + more)[..|ms + more| - 1] == ms + more[..n];
      KbCallsWithoutCalls(ms, more[..n]);
      assert more[n] in more;
    }
  }

  ghost predicate Capped(s: Session) {
    s.kbExhausted || KbCalls(s.messages) >= MAX_KB_SEARCH_CALLS
  }

  lemma TurnRespectsCap(s: Session, m: Incoming, brain: Brain, cfg: Config)
    ensures var (t, log) := Turn(s, m, brain, cfg);
            && KbCalls(s.messages) <= KbCalls(t.messages)
            && (KbCalls(s.messages) <= MAX_KB_SEARCH_CALLS ==> KbCalls(t.messages) <= MAX_KB_SEARCH_CALLS)
            && (Capped(s) ==> Capped(t) && CallsOf(log.reply) == [])
  {
    hide Turn, Received;
    TurnMessages(s, m, brain, cfg);
    ReceivedConversation(s, m, cfg);
    var more := Converted(m, s.callNames, s.messages, cfg);
    ConvertedHasNoCalls(m, s.callNames, s.messages, cfg);
    KbCallsWithoutCalls(s.messages, more);
    var (t, log) := Turn(s, m, brain, cfg);
    assert t.messages[..|t.messages| - 1] == s.messages + more;
  }

  /** At most 14 assistant messages ever carry a search (if the opening history keeps to it), and
      from a capped session on no turn emits a tool call of any kind. */
  lemma {:induction false} RunRespectsCap(s: Session, steps: seq<Step>, cfg: Config)
    ensures var (t, logs) := Run(s, steps, cfg);
            && |logs| == |steps|
            && (KbCalls(s.messages) <= MAX_KB_SEARCH_CALLS ==> KbCalls(t.messages) <= MAX_KB_SEARCH_CALLS)
            && (Capped(s) ==> Capped(t) && forall log :: log in logs ==> CallsOf(log.reply) == [])
    decreases |steps|
  {
    hide Turn, Capped, KbCalls;
    if steps != [] {
      var n := |steps| - 1;
      RunRespectsCap(s, steps[..n], cfg);
      TurnRespectsCap(Run(s, steps[..n], cfg).0, steps[n].0, steps[n].1, cfg);
    }
  }

  lemma {:induction false} RunConcat(s: Session, a: seq<Step>, b: seq<Step>, cfg: Config)
    ensures var mid := Run(s, a, cfg); var end := Run(mid.0, b, cfg);
            Run(s, a + b, cfg) == (end.0, mid.1 + end.1)
    decreases |b|
  {
    hide Turn;
    if b == [] {
      assert a + b == a && Run(s, a, cfg).1 + [] == Run(s, a, cfg).1;
    } else {
      var n := |b| - 1;
      assert (a + b)[..|a + b| - 1] == a + b[..n] && (a + b)[|a + b| - 1] == b[n];
      RunConcat(s, a, b[..n], cfg);
      var mid := Run(s, a, cfg);
      var end := Run(mid.0, b[..n], cfg);
      var (t, log) := Turn(end.0, b[n].0, b[n].1, cfg);
      assert mid.1 + (end.1 + [log]) == (mid.1 + end.1) + [log];
    }
  }

  /** The cap may be reached in the middle of a run: every turn from there on answers in text. */
  lemma NoCallsOnceCapped(s: Session, steps: seq<Step>, i: nat, cfg: Config)
    requires i <= |steps| && Capped(Run(s, steps[..i], cfg).0)
    ensures var (t, logs) := Run(s, steps, cfg);
            Capped(t) && |logs| == |steps| && forall j :: i <= j < |logs| ==> CallsOf(logs[j].reply) == []
  {
    hide Run, Capped;
    var mid := Run(s, steps[..i], cfg);
    assert steps == steps[..i] + steps[i..];
    RunConcat(s, steps[..i], steps[i..], cfg);
    RunRespectsCap(s, steps[..i], cfg);
    RunRespectsCap(mid.0, steps[i..], cfg);
    var logs := Run(s, steps, cfg).1;
    forall j | i <= j < |logs| ensures CallsOf(logs[j].reply) == [] {
      assert logs[j] == Run(mid.0, steps[i..], cfg).1[j - i];
    }
  }

  // ---- Protocol directives ----

  ghost predicate Queues(s: Session, r: Session) {
    && |s.hints| <= |r.hints| && r.hints[..|s.hints|] == s.hints
    && Distinct(NewTools(s.hints, r.hints))
    && (forall h :: h in r.hints[|s.hints|..] ==> h.turns == 0 && h.tool !in s.prompted)
    && r.prompted == s.prompted + (set t | t in NewTools(s.hints, r.hints))
  }

  lemma ToolsConcat(a: seq<Hint>, b: seq<Hint>)
    ensures Tools(a + b) == Tools(a) + Tools(b)
  {
  }

  lemma ToolsMember(hints: seq<Hint>, t: string)
    ensures t in Tools(hints) <==> exists h :: h in hints && h.tool == t
  {
    if t in Tools(hints) {
      var i :| 0 <= i < |hints| && Tools(hints)[i] == t;
      assert hints[i] in hints;
    }
    if h :| h in hints && h.tool == t {
      var i :| 0 <= i < |hints| && hints[i] == h;
      assert Tools(hints)[i] == t;
    }
  }

  lemma QueuesTrans(a: Session, b: Session, c: Session)
    requires Queues(a, b) && Queues(b, c)
    ensures Queues(a, c)
  {
    var x, y, z := b.hints[|a.hints|..], c.hints[|b.hints|..], c.hints[|a.hints|..];
    assert c.hints == c.hints[..|b.hints|] + y;
    assert z == x + y;
    ToolsConcat(x, y);
    forall t | t in Tools(y) ensures t !in Tools(x) && t !in a.prompted {
      ToolsMember(y, t);
      ToolsMember(x, t);
    }
    DistinctAppend(Tools(x), Tools(y));
    assert c.hints[..|a.hints|] == b.hints[..|a.hints|];
    forall h | h in z ensures h.turns == 0 && h.tool !in a.prompted { assert h in x || h in y; }
    assert c.prompted == a.prompted + ((set t | t in Tools(x)) + (set t | t in Tools(y)));
  }

  lemma QueueHintQueues(s: Session, found: Option<string>, source: Source)
    ensures Queues(s, QueueHint(s, found, source))
  {
    var r := QueueHint(s, found, source);
    if r != s {
      assert r.hints[|s.hints|..] == [Hint(found.value, source, 0)];
      assert NewTools(s.hints, r.hints) == [found.value];
    } else {
      assert s.hints[|s.hints|..] == [];
    }
  }

  lemma {:induction false} QueueErrorsQueues(s: Session, results: seq<Result>, cfg: Config)
    ensures Queues(s, QueueErrors(s, results, cfg))
    decreases results
  {
    hide Queues, QueueHint;
    QueueHintQueues(s, None, NotGiven);
    NothingQueued(s);
    if results != [] {
      var s1 := QueueHint(s, cfg.notGiven(results[0].content), NotGiven);
      var s2 := QueueHint(s1, cfg.notUnlocked(results[0].content), NotUnlocked);
      QueueHintQueues(s, cfg.notGiven(results[0].content), NotGiven);
      QueueHintQueues(s1, cfg.notUnlocked(results[0].content), NotUnlocked);
      QueuesTrans(s, s1, s2);
      QueueErrorsQueues(s2, results[1..], cfg);
      QueuesTrans(s, s2, QueueErrors(s2, results[1..], cfg));
    }
  }

  lemma NothingQueued(s: Session)
    ensures QueueHint(s, None, NotGiven) == s
  {
  }

  lemma QueueProtocolQueues(s: Session, content: string, cfg: Config)
    ensures Queues(s, QueueProtocol(s, content, cfg))
  {
    hide Queues, QueueHint;
    var s1 := QueueHint(s, cfg.userSideTool(content), UserSide);
    QueueHintQueues(s, cfg.userSideTool(content), UserSide);
    QueueHintQueues(s1, cfg.agentSideTool(content), AgentSide);
    QueuesTrans(s, s1, QueueProtocol(s, content, cfg));
  }

  lemma ReceivedQueues(s: Session, m: Incoming, cfg: Config)
    ensures Queues(s, Received(s, m, cfg))
  {
    hide QueueErrors, QueueProtocol, Converted, BringsKbResult, LastToolContent;
    var s1 := s.(step := s.step + 1, messages := s.messages + Converted(m, s.callNames, s.messages, cfg));
    var s2 := if m.FromTools? then QueueErrors(s1, m.results, cfg) else s1;
    assert s1.hints[|s1.hints|..] == [];
    if m.FromTools? { QueueErrorsQueues(s1, m.results, cfg); }
    assert Queues(s, s2);
    if BringsKbResult(m, s2) {
      NoteQueues(s2, cfg);
      QueuesTrans(s, s2, NoteKbResult(s2, cfg));
    }
  }

  lemma NoteQueues(s: Session, cfg: Config)
    ensures Queues(s, NoteKbResult(s, cfg))
  {
    hide QueueProtocol, LastToolContent;
    var s1 := s.(kbSearchCount := s.kbSearchCount + 1);
    QueueProtocolQueues(s1, LastToolContent(s.messages), cfg);
    assert s.hints[|s.hints|..] == [];
  }

  /** What survives a refresh: unsatisfied hints under the cap, one turn older, in order. */
  lemma {:induction false} PendingShape(hints: seq<Hint>, ms: seq<Message>)
    requires Distinct(Tools(hints))
    ensures Distinct(Tools(Pending(hints, ms)))
    ensures forall p :: p in Pending(hints, ms) ==>
      !HintSatisfied(p.tool, ms) && 1 <= p.turns <= MAX_HINT_TURNS && p.(turns := p.turns - 1) in hints
  {
    hide HintSatisfied, Distinct, Tools;
    if hints == [] {
    } else {
      var tail, rest := hints[1..], Pending(hints[1..], ms);
      TailDistinct(hints);
      PendingShape(tail, ms);
      assert hints == [hints[0]] + tail;
      if !HintSatisfied(hints[0].tool, ms) && hints[0].turns < MAX_HINT_TURNS {
        PrependDistinct(hints, rest);
      }
    }
  }

  lemma TailDistinct(hints: seq<Hint>)
    requires hints != [] && Distinct(Tools(hints))
    ensures Distinct(Tools(hints[1..]))
  {
    assert Tools(hints)[1..] == Tools(hints[1..]);
  }

  lemma PrependDistinct(hints: seq<Hint>, rest: seq<Hint>)
    requires hints != [] && Distinct(Tools(hints)) && Distinct(Tools(rest))
    requires forall p :: p in rest ==> p.turns >= 1 && p.(turns := p.turns - 1) in hints[1..]
    ensures Distinct(Tools([hints[0].(turns := hints[0].turns + 1)] + rest))
  {
    hide Tools;
    var p := [hints[0].(turns := hints[0].turns + 1)];
    forall t | t in Tools(rest) ensures t != hints[0].tool { RestAvoidsHead(hints, rest, t); }
    ToolsConcat(p, rest);
    ToolsOne(p[0]);
    DistinctAppend(Tools(p), Tools(rest));
  }

  lemma ToolsOne(h: Hint)
    ensures Tools([h]) == [h.tool]
  {
  }

  lemma RestAvoidsHead(hints: seq<Hint>, rest: seq<Hint>, t: string)
    requires hints != [] && Distinct(Tools(hints)) && t in Tools(rest)
    requires forall p :: p in rest ==> p.turns >= 1 && p.(turns := p.turns - 1) in hints[1..]
    ensures t != hints[0].tool
  {
    ToolsMember(rest, t);
    var p :| p in rest && p.tool == t;
    var i :| 0 <= i < |hints[1..]| && hints[1..][i] == p.(turns := p.turns - 1);
    assert hints[i + 1].tool == t;
    assert Tools(hints)[0] != Tools(hints)[i + 1];
  }

  ghost function Injections(t: string, logs: seq<TurnLog>): nat {
    if logs == [] then 0 else Injections(t, logs[..|logs| - 1]) + if t in logs[|logs| - 1].injected then 1 else 0
  }

  ghost function Queuings(t: string, logs: seq<TurnLog>): nat {
    if logs == [] then 0 else Queuings(t, logs[..|logs| - 1]) + multiset(logs[|logs| - 1].queued)[t]
  }

  /** The books of the directives agree with what the turns did. */
  ghost predicate HintBooks(s: Session, logs: seq<TurnLog>) {
    && Distinct(Tools(s.hints))
    && (forall h :: h in s.hints ==> h.tool in s.prompted && h.turns == Injections(h.tool, logs))
    && (forall t :: Injections(t, logs) <= MAX_HINT_TURNS)
    && (forall t :: t !in s.prompted ==> Injections(t, logs) == 0)
    && (forall t :: Queuings(t, logs) == if t in s.prompted then 1 else 0)
  }

  lemma DistinctCounts<T>(s: seq<T>)
    requires Distinct(s)
    ensures forall x :: multiset(s)[x] == if x in s then 1 else 0
  {
    if s != [] {
      var n := |s| - 1;
      DistinctCounts(s[..n]);
      assert s == s[..n] + [s[n]];
      assert s[n] !in s[..n];
    }
  }

  lemma TurnDirectives(s: Session, m: Incoming, brain: Brain, cfg: Config)
    ensures var r := Received(s, m, cfg); var (t, log) := Turn(s, m, brain, cfg);
            && t.hints == Pending(r.hints, r.messages) && t.prompted == r.prompted
            && log.injected == Tools(t.hints) && log.queued == NewTools(s.hints, r.hints)
  {
  }

  /** The hints held after taking in a message keep the books of the turns so far. */
  lemma ReceivedHints(s: Session, r: Session, logs: seq<TurnLog>)
    requires HintBooks(s, logs) && Queues(s, r)
    ensures Distinct(Tools(r.hints))
    ensures forall h :: h in r.hints ==> h.tool in r.prompted && h.turns == Injections(h.tool, logs)
  {
    var added := r.hints[|s.hints|..];
    assert r.hints == s.hints + added;
    ToolsConcat(s.hints, added);
    forall t | t in Tools(added) ensures t !in Tools(s.hints) {
      ToolsMember(added, t);
      ToolsMember(s.hints, t);
    }
    DistinctAppend(Tools(s.hints), Tools(added));
    forall h | h in r.hints ensures h.tool in r.prompted && h.turns == Injections(h.tool, logs) {
      if h in added { ToolsMember(added, h.tool); }
    }
  }

  lemma TurnKeepsBooks(s: Session, logs: seq<TurnLog>, m: Incoming, brain: Brain, cfg: Config)
    requires HintBooks(s, logs)
    ensures var (t, log) := Turn(s, m, brain, cfg); HintBooks(t, logs + [log])
  {
    hide Turn, Received, Pending, HintSatisfied;
    var r := Received(s, m, cfg);
    var (t, log) := Turn(s, m, brain, cfg);
    ReceivedQueues(s, m, cfg);
    TurnDirectives(s, m, brain, cfg);
    ReceivedHints(s, r, logs);
    PendingShape(r.hints, r.messages);
    BooksStep(s, r, t, log, logs);
  }

  lemma BooksStep(s: Session, r: Session, t: Session, log: TurnLog, logs: seq<TurnLog>)
    requires HintBooks(s, logs) && Queues(s, r)
    requires forall h :: h in r.hints ==> h.tool in r.prompted && h.turns == Injections(h.tool, logs)
    requires t.prompted == r.prompted && log.injected == Tools(t.hints) && log.queued == NewTools(s.hints, r.hints)
    requires Distinct(Tools(t.hints))
    requires forall p :: p in t.hints ==> 1 <= p.turns <= MAX_HINT_TURNS && p.(turns := p.turns - 1) in r.hints
    ensures HintBooks(t, logs + [log])
  {
    var after := logs + [log];
    assert after[..|after| - 1] == logs;
    DistinctCounts(log.queued);
    forall x ensures Queuings(x, after) == if x in t.prompted then 1 else 0 {
      if x in log.queued { ToolsMember(r.hints[|s.hints|..], x); }
    }
    forall x
      ensures Injections(x, after) <= MAX_HINT_TURNS
      ensures x !in t.prompted ==> Injections(x, after) == 0
    {
      if x in log.injected {
        ToolsMember(t.hints, x);
        var p :| p in t.hints && p.tool == x;
        assert p.(turns := p.turns - 1) in r.hints;
      }
    }
    forall p | p in t.hints ensures p.tool in t.prompted && p.turns == Injections(p.tool, after) {
      assert p.(turns := p.turns - 1) in r.hints;
      ToolsMember(t.hints, p.tool);
    }
  }

  /** Each discoverable tool is queued at most once and its directive injected on at most six turns. */
  lemma {:induction false} RunKeepsBooks(s: Session, steps: seq<Step>, cfg: Config)
    requires s.hints == [] && s.prompted == {}
    ensures var (t, logs) := Run(s, steps, cfg); HintBooks(t, logs)
    decreases |steps|
  {
    hide Turn, HintBooks;
    if steps == [] {
      NoBooksYet(s);
    } else {
      var n := |steps| - 1;
      var (before, logs) := Run(s, steps[..n], cfg);
      RunKeepsBooks(s, steps[..n], cfg);
      TurnKeepsBooks(before, logs, steps[n].0, steps[n].1, cfg);
    }
  }

  lemma NoBooksYet(s: Session)
    requires s.hints == [] && s.prompted == {}
    ensures HintBooks(s, [])
  {
  }

  /** A directive is never injected once a give or unlock call naming its tool is in the history, be it of
      the opening history or of an earlier turn. */
  lemma {:induction false} NoInjectionOnceHanded(s: Session, steps: seq<Step>, cfg: Config)
    requires s.hints == [] && s.prompted == {}
    ensures var (t, logs) := Run(s, steps, cfg);
            && |logs| == |steps|
            && (forall k :: 0 <= k < |logs| ==> logs[k].reply in t.messages)
            && (forall k, i, c, x :: 0 <= k < i < |logs| && c in CallsOf(logs[k].reply) && Hands(c, x)
                                     ==> x !in logs[i].injected)
            && (forall i, x :: 0 <= i < |logs| && x in logs[i].injected ==>
                  !HintSatisfied(x, Run(s, steps[..i], cfg).0.messages))
    decreases |steps|
  {
    hide Turn, Hands, HintSatisfied;
    if steps != [] {
      var n := |steps| - 1;
      var (before, logs) := Run(s, steps[..n], cfg);
      var (t, log) := Turn(before, steps[n].0, steps[n].1, cfg);
      NoInjectionOnceHanded(s, steps[..n], cfg);
      RunKeepsBooks(s, steps[..n], cfg);
      InjectedUnsatisfied(before, logs, steps[n].0, steps[n].1, cfg);
      forall k, c, x | 0 <= k < n && c in CallsOf(logs[k].reply) && Hands(c, x) ensures x !in log.injected {
        HandedIsSatisfied(before.messages, logs[k].reply, c, x);
      }
      forall i, x | 0 <= i < |steps| && x in (logs + [log])[i].injected
        ensures !HintSatisfied(x, Run(s, steps[..i], cfg).0.messages)
      {
        if i < n { assert steps[..n][..i] == steps[..i]; }
      }
    }
  }

  lemma HandedIsSatisfied(ms: seq<Message>, m: Message, c: Call, tool: string)
    requires m in ms && c in CallsOf(m) && Hands(c, tool)
    ensures HintSatisfied(tool, ms)
  {
  }

  lemma InjectedUnsatisfied(s: Session, logs: seq<TurnLog>, m: Incoming, brain: Brain, cfg: Config)
    requires HintBooks(s, logs)
    ensures var (t, log) := Turn(s, m, brain, cfg);
            && (forall x :: x in log.injected ==> !HintSatisfied(x, s.messages))
            && log.reply in t.messages && (forall y :: y in s.messages ==> y in t.messages)
  {
    hide Turn, Received, Pending, Hands;
    var r := Received(s, m, cfg);
    var (t, log) := Turn(s, m, brain, cfg);
    ReceivedQueues(s, m, cfg);
    TurnDirectives(s, m, brain, cfg);
    TurnMessages(s, m, brain, cfg);
    ReceivedConversation(s, m, cfg);
    ReceivedHints(s, r, logs);
    PendingShape(r.hints, r.messages);
    forall x | x in log.injected ensures !HintSatisfied(x, s.messages) {
      ToolsMember(t.hints, x);
    }
  }
}
