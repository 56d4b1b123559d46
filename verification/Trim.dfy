/** Context trimming: the anchors, the longest affordable window of the newest messages, then two
    repairs (orphan tool results, adjacent assistant messages). */
module Trim {
  import opened Conversation

  const MAX_CONTEXT_CHARS: int := 60_000
  const MAX_CONTEXT_MESSAGES: int := 60

  // ---- Cost of messages ----

  function ArgChars(calls: seq<Call>): nat {
    if calls == [] then 0 else |calls[0].args| + ArgChars(calls[1..])
  }

  function Chars(m: Message): nat {
    |m.content| + ArgChars(CallsOf(m))
  }

  function TotalChars(ms: seq<Message>): nat {
    if ms == [] then 0 else Chars(ms[0]) + TotalChars(ms[1..])
  }

  // ---- The specification, stage by stage ----

  predicate AnchorKind(m: Message) {
    m.User? || Plain(m)
  }

  /** Position `i` holds one of the first two user or plain assistant messages among the first three. */
  predicate IsAnchor(ms: seq<Message>, i: nat)
    requires i < |ms|
  {
    i < 3 && AnchorKind(ms[i]) && !(i == 2 && AnchorKind(ms[0]) && AnchorKind(ms[1]))
  }

  function AnchorsFrom(ms: seq<Message>, i: nat): seq<Message>
    requires i <= |ms|
    decreases |ms| - i
  {
    if i == |ms| then [] else (if IsAnchor(ms, i) then [ms[i]] else []) + AnchorsFrom(ms, i + 1)
  }

  function RestFrom(ms: seq<Message>, i: nat): seq<Message>
    requires i <= |ms|
    decreases |ms| - i
  {
    if i == |ms| then [] else (if IsAnchor(ms, i) then [] else [ms[i]]) + RestFrom(ms, i + 1)
  }

  function Budget(ms: seq<Message>): int {
    MAX_CONTEXT_CHARS - TotalChars(AnchorsFrom(ms, 0))
  }

  /** Where the window over `rest` starts once messages from `s` on are taken and `budget` is left. */
  function WindowFrom(rest: seq<Message>, s: nat, budget: int): (r: nat)
    requires s <= |rest|
    ensures r <= s
  {
    if s == 0 || (Chars(rest[s - 1]) > budget && s < |rest|) then s
    else WindowFrom(rest, s - 1, budget - Chars(rest[s - 1]))
  }

  function Window(ms: seq<Message>): seq<Message> {
    var rest := RestFrom(ms, 0);
    rest[WindowFrom(rest, |rest|, Budget(ms))..]
  }

  function DropOrphans(ms: seq<Message>): seq<Message> {
    if ms != [] && ms[0].ToolResult? then DropOrphans(ms[1..]) else ms
  }

  /** Drops every plain assistant message that another assistant message follows. */
  function Settle(ms: seq<Message>): seq<Message> {
    if |ms| < 2 then ms
    else if Plain(ms[0]) && ms[1].Assistant? then Settle(ms[1..])
    else [ms[0]] + Settle(ms[1..])
  }

  function Trimmed(ms: seq<Message>): seq<Message> {
    if |ms| <= MAX_CONTEXT_MESSAGES then ms
    else Settle(AnchorsFrom(ms, 0) + DropOrphans(Window(ms)))
  }

  // ---- The code's loops ----

  method CollectAnchors(ms: seq<Message>) returns (anchors: seq<Message>, anchorIdx: set<nat>)
    ensures anchors == AnchorsFrom(ms, 0)
    ensures forall i :: 0 <= i < |ms| ==> (i in anchorIdx <==> IsAnchor(ms, i))
  {
    anchors, anchorIdx := [], {};
    var idx := 0;
    while idx < |ms| && idx < 3
      invariant 0 <= idx <= |ms| && idx <= 3
      invariant AnchorsFrom(ms, 0) == anchors + AnchorsFrom(ms, idx)
      invariant forall i :: 0 <= i < |ms| ==> (i in anchorIdx <==> i < idx && IsAnchor(ms, i))
      invariant |anchors| < 2 && KindCount(ms[..idx]) == |anchors|
    {
      KindCountStep(ms, idx);
      if AnchorKind(ms[idx]) {
        anchors := anchors + [ms[idx]];
        anchorIdx := anchorIdx + {idx};
      }
      idx := idx + 1;
      if |anchors| >= 2 {
        break;
      }
    }
    NoAnchorsFrom(ms, idx);
    assert anchors + [] == anchors;
  }

  ghost function KindCount(ms: seq<Message>): nat {
    if ms == [] then 0 else KindCount(ms[..|ms| - 1]) + if AnchorKind(ms[|ms| - 1]) then 1 else 0
  }

  /** Once two anchors are in, no later message is one; until then the kind alone decides. */
  lemma KindCountStep(ms: seq<Message>, i: nat)
    requires i < |ms| && i < 3 && KindCount(ms[..i]) < 2
    ensures IsAnchor(ms, i) <==> AnchorKind(ms[i])
    ensures KindCount(ms[..i + 1]) == KindCount(ms[..i]) + if AnchorKind(ms[i]) then 1 else 0
    ensures KindCount(ms[..i + 1]) == 2 ==> forall j :: i < j < |ms| ==> !IsAnchor(ms, j)
  {
    assert ms[..i + 1][..i] == ms[..i];
    if i > 0 {
      assert ms[..i][..i - 1] == ms[..i - 1];
      if i > 1 {
        assert ms[..1][..0] == [];
      }
    }
  }

  lemma {:induction false} NoAnchorsFrom(ms: seq<Message>, i: nat)
    requires i <= |ms|
    requires forall j :: i <= j < |ms| ==> !IsAnchor(ms, j)
    ensures AnchorsFrom(ms, i) == []
    decreases |ms| - i
  {
    if i < |ms| {
      NoAnchorsFrom(ms, i + 1);
    }
  }

  /** Walks back from the newest message; the code collects the window newest first and reverses it. */
  method CollectRecent(ms: seq<Message>, anchorIdx: set<nat>, initialBudget: int)
    returns (recent: seq<Message>)
    requires forall i :: 0 <= i < |ms| ==> (i in anchorIdx <==> IsAnchor(ms, i))
    ensures var rest := RestFrom(ms, 0); recent == rest[WindowFrom(rest, |rest|, initialBudget)..]
  {
    hide RestFrom, IsAnchor, Chars, AnchorKind;
    recent := [];
    var budget := initialBudget;
    assert RestFrom(ms, |ms|) == [] by { RestFromEnd(ms); }
    ghost var rest := RestFrom(ms, 0);
    ghost var s := |rest|;
    var idx := |ms|;
    while idx > 0
      invariant 0 <= idx <= |ms| && 0 <= s <= |rest|
      invariant recent == RestFrom(ms, idx) == rest[s..]
      invariant WindowFrom(rest, |rest|, initialBudget) == WindowFrom(rest, s, budget)
    {
      idx := idx - 1;
      RestFromStep(ms, idx, s);
      if idx in anchorIdx {
        continue;
      }
      var cost := Chars(ms[idx]);
      if cost > budget && recent != [] {
        return;
      }
      recent := [ms[idx]] + recent;
      budget := budget - cost;
      s := s - 1;
    }
  }

  lemma RestFromEnd(ms: seq<Message>)
    ensures RestFrom(ms, |ms|) == []
  {
  }

  lemma RestFromStep(ms: seq<Message>, i: nat, s: nat)
    requires i < |ms|
    requires s <= |RestFrom(ms, 0)| && RestFrom(ms, i + 1) == RestFrom(ms, 0)[s..]
    ensures IsAnchor(ms, i) ==> RestFrom(ms, i) == RestFrom(ms, i + 1)
    ensures !IsAnchor(ms, i) ==> s > 0 && RestFrom(ms, 0)[s - 1] == ms[i]
    ensures !IsAnchor(ms, i) ==> RestFrom(ms, i) == [ms[i]] + RestFrom(ms, i + 1) == RestFrom(ms, 0)[s - 1..]
  {
    RestFromSuffix(ms, i);
    var all, tail := RestFrom(ms, 0), RestFrom(ms, i);
    if !IsAnchor(ms, i) {
      assert |tail| == |all| - s + 1;
      assert all[s - 1..][0] == all[s - 1];
    }
  }

  lemma {:induction false} RestFromSuffix(ms: seq<Message>, i: nat)
    requires i <= |ms|
    ensures var all, tail := RestFrom(ms, 0), RestFrom(ms, i);
            |tail| <= |all| && all[|all| - |tail|..] == tail
    decreases i
  {
    if i > 0 {
      RestFromSuffix(ms, i - 1);
    }
  }

  method DropOrphanResults(window: seq<Message>) returns (recent: seq<Message>)
    ensures recent == DropOrphans(window)
  {
    recent := window;
    while recent != [] && recent[0].ToolResult?
      invariant DropOrphans(recent) == DropOrphans(window)
    {
      recent := recent[1..];
    }
  }

  method DropSuperseded(trimmed: seq<Message>) returns (out: seq<Message>)
    ensures out == Settle(trimmed)
  {
    hide Settle;
    out := [];
    var i := 0;
    while i < |trimmed|
      invariant 0 <= i <= |trimmed|
      invariant i == 0 ==> out == []
      invariant i > 0 ==> out != [] && out[|out| - 1] == trimmed[i - 1]
      invariant i > 0 ==> Settle(trimmed) == out[..|out| - 1] + Settle(trimmed[i - 1..])
    {
      var msg := trimmed[i];
      ghost var before := out;
      if msg.Assistant? && out != [] && Plain(out[|out| - 1]) {
        out := out[..|out| - 1];
      }
      ghost var kept := out;
      out := out + [msg];
      assert out[..|out| - 1] == kept;
      SettleStep(trimmed, i);
      assert i > 0 && kept == before ==>
        before == before[..|before| - 1] + [trimmed[i - 1]];
      i := i + 1;
    }
    SettleEnd(trimmed);
    assert i > 0 ==> out == out[..|out| - 1] + [trimmed[i - 1]];
  }

  lemma SettleStep(ms: seq<Message>, i: nat)
    requires i < |ms|
    ensures i == 0 ==> ms[i..] == ms
    ensures i > 0 ==>
      Settle(ms[i - 1..]) == (if Plain(ms[i - 1]) && ms[i].Assistant? then [] else [ms[i - 1]]) + Settle(ms[i..])
  {
    if i > 0 {
      assert ms[i - 1..][1..] == ms[i..];
    }
  }

  lemma SettleEnd(ms: seq<Message>)
    ensures ms == [] ==> Settle(ms) == []
    ensures ms != [] ==> Settle(ms[|ms| - 1..]) == [ms[|ms| - 1]]
  {
  }

  method TrimMessagesForContext(messages: seq<Message>) returns (out: seq<Message>)
    ensures out == Trimmed(messages)
  {
    hide AnchorsFrom, RestFrom, WindowFrom, Settle, DropOrphans, TotalChars;
    if |messages| <= MAX_CONTEXT_MESSAGES {
      return messages;
    }
    var anchors, anchorIdx := CollectAnchors(messages);
    var budget := MAX_CONTEXT_CHARS - TotalChars(anchors);
    var recent := CollectRecent(messages, anchorIdx, budget);
    recent := DropOrphanResults(recent);
    out := DropSuperseded(anchors + recent);
  }
}
