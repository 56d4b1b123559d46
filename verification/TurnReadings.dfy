/** What the bookkeeping of a conversation amounts to, read off its messages: which results answer searches and how
    many have, what text of a result is kept, which directives are queued, and on which turns each is injected. */
module TurnReadings {
  import opened Conversation
  import opened Text
  import opened Trim
  import opened TurnMachine
  import opened TurnTheorems

  // ---- Searches in the messages ----

  predicate IsSearch(name: string) {
    |name| >= 9 && name[..9] == "KB_search"
  }

  predicate HoldsSearch(m: Message) {
    m.Assistant? && exists i :: 0 <= i < |m.calls| && IsSearch(m.calls[i].name)
  }

  ghost function SearchesIn(ms: seq<Message>): set<nat> {
    set i: nat | i < |ms| && HoldsSearch(ms[i])
  }

  lemma HoldsIs(m: Message)
    ensures HoldsSearch(m) <==> SearchesKb(m)
  {
    if m.Assistant? {
      forall i | 0 <= i < |m.calls| ensures m.calls[i] in m.calls {}
    }
  }

  lemma {:induction false} KbCallsAreSearches(ms: seq<Message>)
    ensures KbCalls(ms) == |SearchesIn(ms)|
    decreases |ms|
  {
    hide HoldsSearch, SearchesKb;
    if ms != [] {
      var n := |ms| - 1;
      KbCallsAreSearches(ms[..n]);
      HoldsIs(ms[n]);
      assert SearchesIn(ms) == SearchesIn(ms[..n]) + if HoldsSearch(ms[n]) then {n} else {};
    } else {
      assert SearchesIn(ms) == {};
    }
  }

  // ---- The name of a call ----

  ghost predicate Named(ms: seq<Message>, id: string, name: string) {
    exists m, c :: m in ms && c in CallsOf(m) && c.id == id && c.name == name
  }

  /** Every remembered name is that of a call in the messages. */
  ghost predicate NamesKept(s: Session) {
    forall id :: id in s.callNames ==> Named(s.messages, id, s.callNames[id])
  }

  lemma {:induction false} CallHasId(ms: seq<Message>, m: Message, c: Call)
    requires m in ms && c in CallsOf(m)
    ensures c.id in AllIds(ms)
    decreases |ms|
  {
    var n := |ms| - 1;
    IdsOf(CallsOf(m));
    if m != ms[n] {
      assert ms == ms[..n] + [ms[n]];
      CallHasId(ms[..n], m, c);
    }
  }

  lemma IdsOf(calls: seq<Call>)
    ensures forall c :: c in calls ==> c.id in CallIds(calls)
  {
    forall c | c in calls ensures c.id in CallIds(calls) {
      var i :| 0 <= i < |calls| && calls[i] == c;
      assert CallIds(calls)[i] == c.id;
    }
  }

  lemma {:induction false} OneCallPerId(ms: seq<Message>, m: Message, c: Call, k: Message, d: Call)
    requires Distinct(AllIds(ms)) && m in ms && c in CallsOf(m) && k in ms && d in CallsOf(k) && c.id == d.id
    ensures c == d
    decreases |ms|
  {
    var n := |ms| - 1;
    var before, last := AllIds(ms[..n]), CallIds(CallsOf(ms[n]));
    assert ms == ms[..n] + [ms[n]];
    DistinctParts(before, last);
    if c in CallsOf(ms[n]) && d in CallsOf(ms[n]) {
      var i :| 0 <= i < |CallsOf(ms[n])| && CallsOf(ms[n])[i] == c;
      var j :| 0 <= j < |CallsOf(ms[n])| && CallsOf(ms[n])[j] == d;
      assert last[i] == last[j];
    } else {
      IdsOf(CallsOf(ms[n]));
      if c !in CallsOf(ms[n]) { CallHasId(ms[..n], m, c); }
      if d !in CallsOf(ms[n]) { CallHasId(ms[..n], k, d); }
      if c !in CallsOf(ms[n]) && d !in CallsOf(ms[n]) { OneCallPerId(ms[..n], m, c, k, d); }
    }
  }

  lemma DistinctParts<T>(a: seq<T>, b: seq<T>)
    requires Distinct(a + b)
    ensures Distinct(a) && Distinct(b) && forall x :: x in a ==> x !in b
  {
    forall i, j | 0 <= i < j < |a| ensures a[i] != a[j] { assert (a + b)[i] != (a + b)[j]; }
    forall i, j | 0 <= i < j < |b| ensures b[i] != b[j] { assert (a + b)[|a| + i] != (a + b)[|a| + j]; }
    forall i, j | 0 <= i < |a| && 0 <= j < |b| ensures a[i] != b[j] { assert (a + b)[i] != (a + b)[|a| + j]; }
  }

  lemma {:induction false} NameInCalls(id: string, calls: seq<Call>)
    ensures match NameIn(id, calls)
            case Some(name) => exists c :: c in calls && c.id == id && c.name == name
            case None => forall c :: c in calls ==> c.id != id
  {
    if calls != [] {
      NameInCalls(id, calls[1..]);
      assert calls == [calls[0]] + calls[1..];
    }
  }

  lemma {:induction false} NameInMessages(id: string, ms: seq<Message>)
    ensures forall name :: Named(ms, id, name) ==> Named(ms, id, NameInHistory(id, ms))
    ensures (forall name :: !Named(ms, id, name)) ==> NameInHistory(id, ms) == ""
    decreases |ms|
  {
    if ms != [] {
      var n := |ms| - 1;
      var calls := CallsOf(ms[n]);
      NameInMessages(id, ms[..n]);
      NameInCalls(id, calls);
      assert ms == ms[..n] + [ms[n]];
      match NameIn(id, calls)
      case Some(name) => assert Named(ms, id, name);
      case None =>
        forall name ensures Named(ms, id, name) <==> Named(ms[..n], id, name) {
          assert forall m :: m in ms <==> m in ms[..n] || m == ms[n];
        }
    }
  }

  /** The name under which a result comes in is that of the one call it answers. */
  lemma NameOfCall(s: Session, m: Message, c: Call, more: seq<Message>)
    requires NamesKept(s) && Distinct(AllIds(s.messages)) && m in s.messages && c in CallsOf(m) && c.id != ""
    requires forall x :: x in more ==> !x.Assistant?
    ensures NameForId(c.id, s.callNames, s.messages + more) == c.name
  {
    var ms := s.messages + more;
    var name := NameForId(c.id, s.callNames, ms);
    assert Named(ms, c.id, c.name);
    NameInMessages(c.id, ms);
    assert Named(ms, c.id, name);
    var k, d :| k in ms && d in CallsOf(k) && d.id == c.id && d.name == name;
    assert k in s.messages;
    OneCallPerId(s.messages, m, c, k, d);
  }

  // ---- What comes in ----

  /** Between the turns of a run: nothing is forced, ids are distinct and known, and the cap is on the count. */
  ghost predicate InOrder(s: Session) {
    && Ready(s.messages) && FreshIds(s) && "" !in AllIds(s.messages) && NamesKept(s)
    && !s.forceFinal && (s.kbExhausted <==> s.kbSearchCount >= 14)
  }

  /** The user's text is kept as it is, and of each result what `store` makes of it under the name of its call. */
  lemma WhatComesInIsKept(s: Session, m: Incoming, cfg: Config)
    requires InOrder(s) && Accepts(s.messages, m)
    ensures var r := Received(s, m, cfg);
            var n := |s.messages|;
            && |r.messages| >= n && r.messages[..n] == s.messages
            && match m
               case FromUser(text) => r.messages[n..] == [User(text)]
               case FromTools(results) =>
                 && |r.messages| == n + |results|
                 && forall i :: 0 <= i < |results| ==>
                      exists c :: && c in PendingCalls(s.messages) && c.id == results[i].id
                                  && r.messages[n + i] == ToolResult(c.id, cfg.store(c.name, results[i]))
  {
    hide Received, Distinct, AllIds, Ready, Accepts, Named;
    ReceivedConversation(s, m, cfg);
    var n, more := |s.messages|, Converted(m, s.callNames, s.messages, cfg);
    if m.FromTools? {
      StoredShape(m.results, s.callNames, s.messages, cfg);
      forall i | 0 <= i < |m.results|
        ensures exists c :: && c in PendingCalls(s.messages) && c.id == m.results[i].id
                            && more[i] == ToolResult(c.id, cfg.store(c.name, m.results[i]))
      {
        var c := AnswersCall(s, m, i);
        StoredAt(m.results, s.callNames, s.messages, cfg, i);
        assert s.messages + [] == s.messages;
        NameOfCall(s, s.messages[n - 1], c, []);
      }
    }
  }

  lemma AnswersCall(s: Session, m: Incoming, i: nat) returns (c: Call)
    requires Accepts(s.messages, m) && m.FromTools? && i < |m.results| && "" !in AllIds(s.messages)
    ensures s.messages != [] && c in PendingCalls(s.messages) && c.id == m.results[i].id && c.id != ""
  {
    var ids, calls := ResultIds(m.results), PendingCalls(s.messages);
    assert ids[i] in multiset(ids);
    assert ids[i] in CallIds(calls);
    var j :| 0 <= j < |calls| && CallIds(calls)[j] == ids[i];
    c := calls[j];
    CallHasId(s.messages, s.messages[|s.messages| - 1], c);
  }

  lemma {:induction false} StoredAt(
    results: seq<Result>, names: map<string, string>, ms: seq<Message>, cfg: Config, i: nat)
    requires i < |results|
    ensures var out := Stored(results, names, ms, cfg);
            && |out| == |results|
            && out[i] == ToolResult(results[i].id, cfg.store(NameForId(results[i].id, names, ms), results[i]))
    decreases results
  {
    hide NameForId;
    StoredShape(results, names, ms, cfg);
    if i > 0 { StoredAt(results[1..], names, ms, cfg, i - 1); }
  }

  // ---- How many searches were answered ----

  /** Some result answers a search, a pending call whose name says so. */
  ghost predicate AnswersSearch(ms: seq<Message>, m: Incoming) {
    m.FromTools? && exists r, c :: r in m.results && c in PendingCalls(ms) && c.id == r.id && IsSearch(c.name)
  }

  ghost function SearchAnswers(s: Session, steps: seq<Step>, cfg: Config): nat {
    if steps == [] then 0
    else
      var n := |steps| - 1;
      SearchAnswers(s, steps[..n], cfg)
      + if AnswersSearch(Run(s, steps[..n], cfg).0.messages, steps[n].0) then 1 else 0
  }

  lemma BringsIs(s: Session, m: Incoming, more: seq<Message>, t: Session)
    requires InOrder(s) && Accepts(s.messages, m) && (forall x :: x in more ==> !x.Assistant?)
    requires t.callNames == s.callNames && t.messages == s.messages + more
    ensures BringsKbResult(m, t) <==> AnswersSearch(s.messages, m)
  {
    hide Ready, Distinct, AllIds, NamesKept, Accepts, NameForId;
    if m.FromTools? {
      forall r | r in m.results
        ensures IsKbSearch(NameForId(r.id, t.callNames, t.messages))
                <==> exists c :: c in PendingCalls(s.messages) && c.id == r.id && IsSearch(c.name)
      {
        var i :| 0 <= i < |m.results| && m.results[i] == r;
        var c := AnswersCall(s, m, i);
        var last := s.messages[|s.messages| - 1];
        NameOfCall(s, last, c, more);
        forall d | d in PendingCalls(s.messages) && d.id == r.id ensures d == c {
          OneCallPerId(s.messages, last, c, last, d);
        }
        assert IsKbSearch(c.name) <==> IsSearch(c.name);
      }
    }
  }

  lemma {:induction false} ErrorsKeepCount(s: Session, results: seq<Result>, cfg: Config)
    ensures var q := QueueErrors(s, results, cfg);
            q.kbSearchCount == s.kbSearchCount && q.forceFinal == s.forceFinal
    decreases results
  {
    if results != [] {
      var s1 := QueueHint(s, cfg.notGiven(results[0].content), NotGiven);
      ErrorsKeepCount(QueueHint(s1, cfg.notUnlocked(results[0].content), NotUnlocked), results[1..], cfg);
    }
  }

  lemma NoteGives(s: Session, cfg: Config)
    ensures var q := NoteKbResult(s, cfg);
            && q.kbSearchCount == s.kbSearchCount + 1 && q.forceFinal == s.forceFinal
            && (q.kbExhausted <==> s.kbExhausted || s.kbSearchCount + 1 >= 14)
  {
    hide LastToolContent;
  }

  /** Taking in a message counts one search if it answers any, and forces the last answer from the fourteenth on. */
  lemma ReceivedCounts(s: Session, m: Incoming, cfg: Config)
    requires InOrder(s) && Accepts(s.messages, m)
    ensures var r := Received(s, m, cfg);
            && r.kbSearchCount == s.kbSearchCount + (if AnswersSearch(s.messages, m) then 1 else 0)
            && (r.kbExhausted <==> r.kbSearchCount >= 14)
            && (r.forceFinal <==> r.kbSearchCount >= 14)
  {
    hide Ready, FreshIds, AllIds, NamesKept, Accepts, Converted, QueueErrors, BringsKbResult, NoteKbResult,
         AnswersSearch;
    var more := Converted(m, s.callNames, s.messages, cfg);
    var s1 := s.(step := s.step + 1, messages := s.messages + more);
    var s2 := if m.FromTools? then QueueErrors(s1, m.results, cfg) else s1;
    if m.FromTools? {
      QueueErrorsKeepsConversation(s1, m.results, cfg);
      ErrorsKeepCount(s1, m.results, cfg);
    }
    ConvertedHasNoCalls(m, s.callNames, s.messages, cfg);
    BringsIs(s, m, more, s2);
    NoteGives(s2, cfg);
  }

  // ---- Every turn keeps the order ----

  lemma NamedGrows(ms: seq<Message>, more: seq<Message>, id: string, name: string)
    requires Named(ms, id, name)
    ensures Named(ms + more, id, name)
  {
    var m, c :| m in ms && c in CallsOf(m) && c.id == id && c.name == name;
    assert m in ms + more;
  }

  lemma NamesGrow(s: Session, t: Session, reply: Message, r: seq<Message>)
    requires NamesKept(s) && t.messages == s.messages + r + [reply] && t.callNames == Registered(s.callNames, reply)
    ensures NamesKept(t)
  {
    forall id | id in t.callNames ensures Named(t.messages, id, t.callNames[id]) {
      if |CallsOf(reply)| == 1 && id == CallsOf(reply)[0].id {
        assert reply in t.messages && CallsOf(reply)[0] in CallsOf(reply);
      } else {
        NamedGrows(s.messages, r + [reply], id, s.callNames[id]);
        assert s.messages + r + [reply] == s.messages + (r + [reply]);
      }
    }
  }

  lemma TurnGives(s: Session, m: Incoming, brain: Brain, cfg: Config)
    ensures var r := Received(s, m, cfg); var (t, log) := Turn(s, m, brain, cfg);
            && t.kbSearchCount == r.kbSearchCount && t.kbExhausted == r.kbExhausted && !t.forceFinal
            && t.callNames == Registered(r.callNames, log.reply)
  {
    hide Received, Trimmed, Pending, KbCalls, Reply, Enforced;
  }

  lemma TurnKeepsOrder(s: Session, m: Incoming, brain: Brain, cfg: Config)
    requires InOrder(s) && Accepts(s.messages, m)
    ensures InOrder(Turn(s, m, brain, cfg).0)
  {
    hide Turn, Received, Ready, FreshIds, AllIds, NamesKept, Accepts, Converted, KbCalls, Registered, Decimal,
         AnswersSearch;
    var more, r := Converted(m, s.callNames, s.messages, cfg), Received(s, m, cfg);
    var (t, log) := Turn(s, m, brain, cfg);
    TurnKeepsProtocol(s, m, brain, cfg);
    TurnKeepsIdsFresh(s, m, brain, cfg);
    TurnMessages(s, m, brain, cfg);
    TurnGives(s, m, brain, cfg);
    ReceivedConversation(s, m, cfg);
    ReceivedCounts(s, m, cfg);
    ConvertedHasNoCalls(m, s.callNames, s.messages, cfg);
    AllIdsWithoutCalls(s.messages, more);
    LastReply(r.messages, log.reply);
    NamesGrow(s, t, log.reply, more);
    assert "" !in CallIds(CallsOf(log.reply));
  }

  /** Over every legal run the search count is the number of turns that brought the answer of a search, and a turn
      must be the last exactly when fourteen have, or fourteen messages hold searches, by then. */
  lemma {:induction false} SearchesAreCounted(s: Session, steps: seq<Step>, cfg: Config)
    requires InOrder(s) && s.kbSearchCount == 0 && LegalRun(s, steps, cfg)
    ensures InOrder(Run(s, steps, cfg).0)
    ensures Run(s, steps, cfg).0.kbSearchCount == SearchAnswers(s, steps, cfg)
    ensures steps != [] ==>
              var n := |steps| - 1;
              var r := Received(Run(s, steps[..n], cfg).0, steps[n].0, cfg);
              (r.forceFinal <==> SearchAnswers(s, steps, cfg) >= 14)
              && (MustFinish(r) <==> SearchAnswers(s, steps, cfg) >= 14 || |SearchesIn(r.messages)| >= 14)
    decreases |steps|
  {
    hide InOrder, Turn, Received, Accepts, KbCalls, SearchesIn, AnswersSearch;
    if steps != [] {
      var n := |steps| - 1;
      SearchesAreCounted(s, steps[..n], cfg);
      var before := Run(s, steps[..n], cfg).0;
      TurnKeepsOrder(before, steps[n].0, steps[n].1, cfg);
      TurnGives(before, steps[n].0, steps[n].1, cfg);
      ReceivedCounts(before, steps[n].0, cfg);
      KbCallsAreSearches(Received(before, steps[n].0, cfg).messages);
    }
  }

  /** Every new session over a well-formed opening whose ids are distinct, not empty and not of the generated form
      is in order. */
  lemma NewSessionIsInOrder(history: seq<Message>)
    requires Ready(history) && Distinct(AllIds(history)) && "" !in AllIds(history)
    requires forall k: nat :: k > 0 ==> "call_" + Decimal(k) !in AllIds(history)
    ensures InOrder(Session(history, 0, false, 0, false, [], {}, map[]))
  {
    hide Ready, AllIds, Distinct, Decimal;
  }

  lemma {:induction false} TurnAt(s: Session, steps: seq<Step>, i: nat, cfg: Config)
    requires i < |steps|
    ensures var (t, logs) := Run(s, steps, cfg);
            |logs| == |steps| && logs[i] == Turn(Run(s, steps[..i], cfg).0, steps[i].0, steps[i].1, cfg).1
    decreases |steps|
  {
    hide Turn;
    var n := |steps| - 1;
    if i < n {
      TurnAt(s, steps[..n], i, cfg);
      assert steps[..n][..i] == steps[..i];
    } else if n > 0 {
      TurnAt(s, steps[..n], 0, cfg);
    }
  }

  lemma {:induction false} LegalPrefix(s: Session, steps: seq<Step>, i: nat, cfg: Config)
    requires LegalRun(s, steps, cfg) && i <= |steps|
    ensures LegalRun(s, steps[..i], cfg)
    decreases |steps|
  {
    hide Run, Accepts;
    if i == |steps| {
      assert steps[..i] == steps;
    } else {
      LegalPrefix(s, steps[..|steps| - 1], i, cfg);
      assert steps[..|steps| - 1][..i] == steps[..i];
    }
  }

  /** From the turn on that brings the fourteenth answer of a search, or that has fourteen searches behind it, no
      reply calls a tool, and no conversation gets beyond fourteen messages with searches. */
  lemma AtMostFourteenSearches(s: Session, steps: seq<Step>, cfg: Config)
    requires InOrder(s) && s.kbSearchCount == 0 && LegalRun(s, steps, cfg)
    ensures var (t, logs) := Run(s, steps, cfg);
            && |logs| == |steps|
            && (|SearchesIn(s.messages)| <= 14 ==> |SearchesIn(t.messages)| <= 14)
            && forall i :: 0 <= i < |steps|
                           && (SearchAnswers(s, steps[..i + 1], cfg) >= 14
                               || |SearchesIn(Run(s, steps[..i], cfg).0.messages)| >= 14) ==>
                 logs[i].reply.Assistant? && logs[i].reply.calls == []
  {
    hide InOrder, Turn, Received, Accepts, KbCalls, SearchesIn, MustFinish, Run, LegalRun, SearchAnswers, Converted;
    RunRespectsCap(s, steps, cfg);
    KbCallsAreSearches(s.messages);
    KbCallsAreSearches(Run(s, steps, cfg).0.messages);
    forall i | 0 <= i < |steps|
               && (SearchAnswers(s, steps[..i + 1], cfg) >= 14
                   || |SearchesIn(Run(s, steps[..i], cfg).0.messages)| >= 14)
      ensures var reply := Run(s, steps, cfg).1[i].reply; reply.Assistant? && reply.calls == []
    {
      var prefix, before := steps[..i + 1], Run(s, steps[..i], cfg).0;
      assert prefix[..i] == steps[..i] && prefix[i] == steps[i];
      LegalPrefix(s, steps, i + 1, cfg);
      SearchesAreCounted(s, prefix, cfg);
      SameSearches(before, steps[i].0, cfg);
      TurnMessages(before, steps[i].0, steps[i].1, cfg);
      TurnAt(s, steps, i, cfg);
    }
  }

  lemma SameSearches(s: Session, m: Incoming, cfg: Config)
    ensures |SearchesIn(Received(s, m, cfg).messages)| == |SearchesIn(s.messages)|
  {
    hide Received, KbCalls, SearchesIn, Converted;
    var more := Converted(m, s.callNames, s.messages, cfg);
    ReceivedConversation(s, m, cfg);
    ConvertedHasNoCalls(m, s.callNames, s.messages, cfg);
    KbCallsWithoutCalls(s.messages, more);
    KbCallsAreSearches(s.messages);
    KbCallsAreSearches(s.messages + more);
  }

  // ---- Which directives are queued ----

  function Wanted(found: Option<string>, source: Source): seq<Hint> {
    if found.None? then [] else [Hint(found.value, source, 0)]
  }

  /** Each tool once, in order, and only if it was not asked for before. */
  function NotSeen(wanted: seq<Hint>, seen: set<string>): seq<Hint> {
    if wanted == [] then []
    else if wanted[0].tool in seen then NotSeen(wanted[1..], seen)
    else [wanted[0]] + NotSeen(wanted[1..], seen + {wanted[0].tool})
  }

  /** What the results say went wrong: for each a tool not given, then a tool not unlocked. */
  function ErrorsIn(results: seq<Result>, cfg: Config): seq<Hint>
    decreases results
  {
    if results == [] then []
    else
      var n := |results| - 1;
      ErrorsIn(results[..n], cfg) + Wanted(cfg.notGiven(results[n].content), NotGiven)
      + Wanted(cfg.notUnlocked(results[n].content), NotUnlocked)
  }

  /** What a document found tells to hand over: a tool for the user, then one for the agent. */
  function ProtocolIn(content: string, cfg: Config): seq<Hint> {
    if content == "" then []
    else Wanted(cfg.userSideTool(content), UserSide) + Wanted(cfg.agentSideTool(content), AgentSide)
  }

  function ToolsOf(hints: seq<Hint>): set<string> {
    set h | h in hints :: h.tool
  }

  /** `t` is `s` after these were asked for. */
  predicate Asked(s: Session, t: Session, wanted: seq<Hint>) {
    t == s.(hints := s.hints + NotSeen(wanted, s.prompted), prompted := s.prompted + ToolsOf(wanted))
  }

  lemma HintAsked(s: Session, found: Option<string>, source: Source)
    ensures Asked(s, QueueHint(s, found, source), Wanted(found, source))
  {
    var wanted := Wanted(found, source);
    if found.Some? {
      assert wanted[1..] == [];
      assert ToolsOf(wanted) == {found.value};
    } else {
      assert ToolsOf(wanted) == {};
      assert s.hints + [] == s.hints;
    }
  }

  lemma ToolsOfConcat(a: seq<Hint>, b: seq<Hint>)
    ensures ToolsOf(a + b) == ToolsOf(a) + ToolsOf(b)
  {
  }

  lemma {:induction false} NotSeenConcat(a: seq<Hint>, b: seq<Hint>, seen: set<string>)
    ensures NotSeen(a + b, seen) == NotSeen(a, seen) + NotSeen(b, seen + ToolsOf(a))
  {
    if a == [] {
      assert a + b == b && seen + ToolsOf(a) == seen;
    } else {
      var more := if a[0].tool in seen then seen else seen + {a[0].tool};
      assert (a + b)[1..] == a[1..] + b;
      NotSeenConcat(a[1..], b, more);
      assert a == [a[0]] + a[1..];
      ToolsOfConcat([a[0]], a[1..]);
      assert more + ToolsOf(a[1..]) == seen + ToolsOf(a);
    }
  }

  lemma AskedTwice(s: Session, t: Session, u: Session, a: seq<Hint>, b: seq<Hint>)
    requires Asked(s, t, a) && Asked(t, u, b)
    ensures Asked(s, u, a + b)
  {
    hide NotSeen, ToolsOf;
    NotSeenConcat(a, b, s.prompted);
    ToolsOfConcat(a, b);
  }

  lemma NothingAsked(s: Session)
    ensures Asked(s, s, [])
  {
    var none: seq<Hint> := [];
    assert ToolsOf(none) == {} && s.hints + none == s.hints;
  }

  lemma {:induction false} ErrorsAsked(
    s: Session, results: seq<Result>, rest: seq<Result>, before: Session, cfg: Config)
    requires Asked(before, s, ErrorsIn(results, cfg))
    ensures Asked(before, QueueErrors(s, rest, cfg), ErrorsIn(results + rest, cfg))
    decreases rest
  {
    hide Asked, QueueHint, Wanted;
    if rest == [] {
      assert results + rest == results;
    } else {
      var r, all := rest[0], results + [rest[0]];
      var s1 := QueueHint(s, cfg.notGiven(r.content), NotGiven);
      var s2 := QueueHint(s1, cfg.notUnlocked(r.content), NotUnlocked);
      HintAsked(s, cfg.notGiven(r.content), NotGiven);
      HintAsked(s1, cfg.notUnlocked(r.content), NotUnlocked);
      AskedTwice(before, s, s1, ErrorsIn(results, cfg), Wanted(cfg.notGiven(r.content), NotGiven));
      AskedTwice(before, s1, s2, ErrorsIn(results, cfg) + Wanted(cfg.notGiven(r.content), NotGiven),
                 Wanted(cfg.notUnlocked(r.content), NotUnlocked));
      assert all[..|all| - 1] == results;
      ErrorsAsked(s2, all, rest[1..], before, cfg);
      assert all + rest[1..] == results + rest;
    }
  }

  lemma ProtocolAsked(s: Session, content: string, cfg: Config)
    ensures Asked(s, if content != "" then QueueProtocol(s, content, cfg) else s, ProtocolIn(content, cfg))
  {
    hide Asked, QueueHint, Wanted;
    NothingAsked(s);
    var s1 := QueueHint(s, cfg.userSideTool(content), UserSide);
    HintAsked(s, cfg.userSideTool(content), UserSide);
    HintAsked(s1, cfg.agentSideTool(content), AgentSide);
    AskedTwice(s, s1, QueueHint(s1, cfg.agentSideTool(content), AgentSide),
               Wanted(cfg.userSideTool(content), UserSide), Wanted(cfg.agentSideTool(content), AgentSide));
  }

  function LastText(ms: seq<Message>): string {
    if ms == [] then "" else ms[|ms| - 1].content
  }

  /** The directives a message adds are those its results ask for by their errors, and then, if one of them answers a
      search, those the text kept of the last result asks for; each tool once in a conversation. */
  lemma WhatIsQueued(s: Session, m: Incoming, cfg: Config)
    requires InOrder(s) && Accepts(s.messages, m)
    ensures var r := Received(s, m, cfg);
            var wanted :=
              (if m.FromTools? then ErrorsIn(m.results, cfg) else [])
              + (if AnswersSearch(s.messages, m) then ProtocolIn(LastText(r.messages), cfg) else []);
            r.hints == s.hints + NotSeen(wanted, s.prompted)
            && r.prompted == s.prompted + ToolsOf(wanted)
  {
    hide InOrder, Accepts, Converted, QueueErrors, BringsKbResult, NoteKbResult, AnswersSearch, ErrorsIn,
         ProtocolIn, NotSeen;
    var more := Converted(m, s.callNames, s.messages, cfg);
    var s1 := s.(step := s.step + 1, messages := s.messages + more);
    var s2 := if m.FromTools? then QueueErrors(s1, m.results, cfg) else s1;
    var errors := if m.FromTools? then ErrorsIn(m.results, cfg) else [];
    NothingAsked(s1);
    if m.FromTools? {
      NoErrors(cfg);
      ErrorsAsked(s1, [], m.results, s1, cfg);
      assert [] + m.results == m.results;
    }
    ConvertedHasNoCalls(m, s.callNames, s.messages, cfg);
    BringsIs(s, m, more, s2);
    LastIsLast(s, m, s2, cfg);
    NoteAsks(s2, cfg);
    assert errors + [] == errors;
    if AnswersSearch(s.messages, m) {
      AsksMore(s1, s2, NoteKbResult(s2, cfg), errors, ProtocolIn(LastToolContent(s2.messages), cfg));
    }
  }

  lemma NoErrors(cfg: Config)
    ensures ErrorsIn([], cfg) == []
  {
  }

  lemma NoteAsks(s: Session, cfg: Config)
    ensures var q, wanted := NoteKbResult(s, cfg), ProtocolIn(LastToolContent(s.messages), cfg);
            && q.hints == s.hints + NotSeen(wanted, s.prompted)
            && q.prompted == s.prompted + ToolsOf(wanted)
            && q.messages == s.messages
  {
    hide QueueProtocol, ProtocolIn, NotSeen, LastToolContent;
    ProtocolAsked(s.(kbSearchCount := s.kbSearchCount + 1), LastToolContent(s.messages), cfg);
  }

  lemma AsksMore(s: Session, t: Session, u: Session, a: seq<Hint>, b: seq<Hint>)
    requires Asked(s, t, a)
    requires u.hints == t.hints + NotSeen(b, t.prompted) && u.prompted == t.prompted + ToolsOf(b)
    ensures u.hints == s.hints + NotSeen(a + b, s.prompted)
    ensures u.prompted == s.prompted + ToolsOf(a + b)
  {
    AskedTwice(s, t, t.(hints := u.hints, prompted := u.prompted), a, b);
  }

  lemma LastIsLast(s: Session, m: Incoming, t: Session, cfg: Config)
    requires t.messages == s.messages + Converted(m, s.callNames, s.messages, cfg)
    ensures AnswersSearch(s.messages, m) ==>
              LastToolContent(t.messages) == LastText(t.messages)
  {
    if m.FromTools? { StoredShape(m.results, s.callNames, s.messages, cfg); }
  }

  // ---- On which turns a directive is injected ----

  /** Some call in the messages gives the user this tool, or unlocks it for the agent. */
  predicate Handed(ms: seq<Message>, tool: string) {
    exists m, c :: && m in ms && c in CallsOf(m)
                   && (c.name == "give_discoverable_user_tool" || c.name == "unlock_discoverable_agent_tool")
                   && Contains(c.args, tool)
  }

  lemma HandedIs(ms: seq<Message>, tool: string)
    ensures HintSatisfied(tool, ms) <==> Handed(ms, tool)
  {
    hide Contains;
    if Handed(ms, tool) {
      var m, c :| && m in ms && c in CallsOf(m)
                  && (c.name == "give_discoverable_user_tool" || c.name == "unlock_discoverable_agent_tool")
                  && Contains(c.args, tool);
      assert Hands(c, tool);
    }
  }

  lemma HandedWithoutCalls(ms: seq<Message>, more: seq<Message>, tool: string)
    requires forall m :: m in more ==> !m.Assistant?
    ensures Handed(ms + more, tool) <==> Handed(ms, tool)
  {
    hide Contains;
    assert forall m :: m in ms + more <==> m in ms || m in more;
  }

  lemma HandedGrows(ms: seq<Message>, more: seq<Message>, tool: string)
    ensures Handed(ms, tool) ==> Handed(ms + more, tool)
  {
    hide Contains;
    assert forall m :: m in ms ==> m in ms + more;
  }

  /** A tool asked for whose directive is gone was injected six times or handed. */
  ghost predicate Dropped(s: Session, logs: seq<TurnLog>) {
    forall x :: x in s.prompted && x !in Tools(s.hints) ==> Injections(x, logs) >= 6 || Handed(s.messages, x)
  }

  lemma {:induction false} PendingHas(hints: seq<Hint>, ms: seq<Message>, h: Hint)
    requires h in hints && !HintSatisfied(h.tool, ms) && h.turns < 6
    ensures h.(turns := h.turns + 1) in Pending(hints, ms)
  {
    hide HintSatisfied;
    assert hints == [hints[0]] + hints[1..];
    if h != hints[0] { PendingHas(hints[1..], ms, h); }
  }

  /** A hint held after taking in a message is injected unless its time or its use is up. */
  lemma InjectedNow(r: Session, logs: seq<TurnLog>, x: string)
    requires Distinct(Tools(r.hints))
    requires forall h :: h in r.hints ==> h.tool in r.prompted && h.turns == Injections(h.tool, logs)
    ensures x in Tools(Pending(r.hints, r.messages))
            <==> x in Tools(r.hints) && Injections(x, logs) < 6 && !Handed(r.messages, x)
  {
    hide Pending, Tools, Handed, HintSatisfied, Injections;
    var after := Pending(r.hints, r.messages);
    HandedIs(r.messages, x);
    PendingShape(r.hints, r.messages);
    ToolsMember(after, x);
    ToolsMember(r.hints, x);
    if x in Tools(r.hints) && Injections(x, logs) < 6 && !Handed(r.messages, x) {
      var h :| h in r.hints && h.tool == x;
      PendingHas(r.hints, r.messages, h);
    }
  }

  lemma HeldOrDropped(s: Session, r: Session, logs: seq<TurnLog>, x: string)
    requires Queues(s, r) && Dropped(s, logs) && s.messages <= r.messages
    ensures x in r.prompted && x !in Tools(r.hints) ==> Injections(x, logs) >= 6 || Handed(r.messages, x)
  {
    hide Handed, Injections;
    var more := r.hints[|s.hints|..];
    assert r.hints == s.hints + more;
    ToolsConcat(s.hints, more);
    HandedGrows(s.messages, r.messages[|s.messages|..], x);
    assert r.messages == s.messages + r.messages[|s.messages|..];
  }

  lemma TurnInjects(s: Session, logs: seq<TurnLog>, m: Incoming, brain: Brain, cfg: Config)
    requires HintBooks(s, logs) && Dropped(s, logs)
    ensures var (t, log) := Turn(s, m, brain, cfg);
            && Dropped(t, logs + [log])
            && forall x :: x in log.injected <==>
                           Queuings(x, logs + [log]) > 0 && Injections(x, logs) < 6 && !Handed(s.messages, x)
  {
    hide Turn, Received, Pending, Handed, Converted, Registered, Reply, Trimmed, KbCalls, Tools;
    var r := Received(s, m, cfg);
    var (t, log) := Turn(s, m, brain, cfg);
    var more := Converted(m, s.callNames, s.messages, cfg);
    ReceivedQueues(s, m, cfg);
    ReceivedConversation(s, m, cfg);
    ConvertedHasNoCalls(m, s.callNames, s.messages, cfg);
    TurnDirectives(s, m, brain, cfg);
    TurnMessages(s, m, brain, cfg);
    ReceivedHints(s, r, logs);
    TurnKeepsBooks(s, logs, m, brain, cfg);
    assert (logs + [log])[..|logs + [log]| - 1] == logs;
    forall x
      ensures x in log.injected <==> x in t.prompted && Injections(x, logs) < 6 && !Handed(s.messages, x)
      ensures x in t.prompted && x !in Tools(t.hints) ==> Injections(x, logs) >= 6 || Handed(t.messages, x)
    {
      InjectedNow(r, logs, x);
      HeldOrDropped(s, r, logs, x);
      HandedWithoutCalls(s.messages, more, x);
      HandedGrows(r.messages, [log.reply], x);
      ToolsPrompted(r, x);
    }
  }

  lemma ToolsPrompted(r: Session, x: string)
    requires forall h :: h in r.hints ==> h.tool in r.prompted
    ensures x in Tools(r.hints) ==> x in r.prompted
  {
    ToolsMember(r.hints, x);
  }

  lemma {:induction false} RunDrops(s: Session, steps: seq<Step>, cfg: Config)
    requires s.hints == [] && s.prompted == {}
    ensures var (t, logs) := Run(s, steps, cfg); Dropped(t, logs)
    decreases |steps|
  {
    hide Turn, HintBooks, Handed, Injections;
    if steps != [] {
      var n := |steps| - 1;
      var (before, logs) := Run(s, steps[..n], cfg);
      RunKeepsBooks(s, steps[..n], cfg);
      RunDrops(s, steps[..n], cfg);
      TurnInjects(before, logs, steps[n].0, steps[n].1, cfg);
    }
  }

  /** A directive is injected on a turn exactly when its tool was queued on that turn or before, it was injected on
      fewer than six turns before, and no call so far hands the tool over. */
  lemma InjectedIff(s: Session, steps: seq<Step>, i: nat, x: string, cfg: Config)
    requires s.hints == [] && s.prompted == {} && i < |steps|
    ensures var logs := Run(s, steps, cfg).1;
            && |logs| == |steps|
            && (x in logs[i].injected <==> && Queuings(x, logs[..i + 1]) > 0 && Injections(x, logs[..i]) < 6
                                           && !Handed(Run(s, steps[..i], cfg).0.messages, x))
  {
    hide Turn, HintBooks, Handed, Injections, Queuings, Dropped, Run;
    var (before, logs) := Run(s, steps[..i], cfg);
    RunKeepsBooks(s, steps[..i], cfg);
    RunDrops(s, steps[..i], cfg);
    TurnInjects(before, logs, steps[i].0, steps[i].1, cfg);
    TurnAt(s, steps, i, cfg);
    LogsPrefix(s, steps, i, cfg);
    LogsPrefix(s, steps, i + 1, cfg);
    var all := Run(s, steps, cfg).1;
    assert all[..i + 1] == all[..i] + [all[i]];
  }

  lemma {:induction false} LogsPrefix(s: Session, steps: seq<Step>, i: nat, cfg: Config)
    requires i <= |steps|
    ensures var logs := Run(s, steps, cfg).1; |logs| == |steps| && logs[..i] == Run(s, steps[..i], cfg).1
    decreases |steps|
  {
    hide Turn;
    if i == |steps| {
      assert steps[..i] == steps;
      RunLength(s, steps, cfg);
      assert Run(s, steps, cfg).1[..i] == Run(s, steps, cfg).1;
    } else {
      LogsPrefix(s, steps[..|steps| - 1], i, cfg);
      assert steps[..|steps| - 1][..i] == steps[..i];
    }
  }

  lemma {:induction false} RunLength(s: Session, steps: seq<Step>, cfg: Config)
    ensures |Run(s, steps, cfg).1| == |steps|
    decreases |steps|
  {
    if steps != [] { RunLength(s, steps[..|steps| - 1], cfg); }
  }
}
