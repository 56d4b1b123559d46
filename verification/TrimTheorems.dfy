/** What trimming guarantees: protocol validity, what may be lost, size, maximality, idempotence. */
module TrimTheorems {
  import opened Conversation
  import opened Trim

  // ---- Sizes ----

  lemma {:induction false} TotalCharsConcat(a: seq<Message>, b: seq<Message>)
    ensures TotalChars(a + b) == TotalChars(a) + TotalChars(b)
  {
    if a == [] {
      assert a + b == b;
    } else {
      assert (a + b)[1..] == a[1..] + b;
      TotalCharsConcat(a[1..], b);
    }
  }

  lemma {:induction false} TotalCharsSuffix(ms: seq<Message>, i: nat, j: nat)
    requires i <= j <= |ms|
    ensures TotalChars(ms[j..]) <= TotalChars(ms[i..])
    ensures i < j ==> TotalChars(ms[j..]) + Chars(ms[j - 1]) <= TotalChars(ms[i..])
    decreases j - i
  {
    if i < j {
      assert ms[i..][1..] == ms[i + 1..];
      TotalCharsSuffix(ms, i + 1, j);
    }
  }

  lemma TotalCharsStep(ms: seq<Message>, i: nat)
    requires i < |ms|
    ensures TotalChars(ms[i..]) == Chars(ms[i]) + TotalChars(ms[i + 1..])
  {
    assert ms[i..][1..] == ms[i + 1..];
  }

  // ---- The text that messages carry ----

  function ArgsText(calls: seq<Call>): string {
    if calls == [] then "" else calls[0].args + ArgsText(calls[1..])
  }

  /** Everything a list of messages makes the model read: contents and the arguments of all calls. */
  function Text(ms: seq<Message>): string {
    if ms == [] then "" else ms[0].content + ArgsText(CallsOf(ms[0])) + Text(ms[1..])
  }

  lemma {:induction false} ArgCharsCountText(calls: seq<Call>)
    ensures ArgChars(calls) == |ArgsText(calls)|
  {
    if calls != [] { ArgCharsCountText(calls[1..]); }
  }

  /** The cost is the length of the text. */
  lemma {:induction false} TotalCharsCountText(ms: seq<Message>)
    ensures TotalChars(ms) == |Text(ms)|
  {
    if ms != [] {
      ArgCharsCountText(CallsOf(ms[0]));
      TotalCharsCountText(ms[1..]);
    }
  }

  lemma TextOfBoth(a: seq<Message>, b: seq<Message>)
    ensures |Text(a + b)| == |Text(a)| + |Text(b)|
  {
    TotalCharsConcat(a, b);
    TotalCharsCountText(a);
    TotalCharsCountText(b);
    TotalCharsCountText(a + b);
  }

  // ---- The window ----

  lemma {:induction false} WindowFromMaximal(rest: seq<Message>, s: nat, left: int, budget: int)
    requires s <= |rest|
    requires left == budget - TotalChars(rest[s..])
    requires s < |rest| - 1 ==> left >= 0
    ensures var w := WindowFrom(rest, s, left);
            && (rest != [] ==> w < |rest|)
            && (w < |rest| - 1 ==> TotalChars(rest[w..]) <= budget)
            && (forall t :: 0 <= t < w ==> TotalChars(rest[t..]) > budget)
    decreases s
  {
    hide Chars, TotalChars;
    var w := WindowFrom(rest, s, left);
    if s > 0 {
      TotalCharsStep(rest, s - 1);
      if Chars(rest[s - 1]) > left && s < |rest| {
        forall t | 0 <= t < w ensures TotalChars(rest[t..]) > budget {
          TotalCharsSuffix(rest, t, s);
        }
      } else {
        WindowFromMaximal(rest, s - 1, left - Chars(rest[s - 1]), budget);
      }
    }
  }

  /** The window taken is the longest suffix of the messages outside the anchors that together with the
      anchors carries at most 60,000 characters; the newest message is always taken, fitting or not. */
  lemma WindowIsMaximal(ms: seq<Message>)
    ensures var anchors, rest, w := AnchorsFrom(ms, 0), RestFrom(ms, 0), Window(ms);
            && |w| <= |rest| && w == rest[|rest| - |w|..]
            && (rest != [] ==> w != [])
            && (|w| > 1 ==> |Text(anchors + w)| <= 60_000)
            && (forall t :: 0 <= t < |rest| - |w| ==> |Text(anchors + rest[t..])| > 60_000)
  {
    hide RestFrom, AnchorsFrom, Chars, TotalChars, WindowFrom, Text;
    var anchors, rest := AnchorsFrom(ms, 0), RestFrom(ms, 0);
    NothingCosts(rest);
    WindowFromMaximal(rest, |rest|, Budget(ms), Budget(ms));
    TotalCharsCountText(anchors);
    forall t | 0 <= t <= |rest| ensures |Text(anchors + rest[t..])| == TotalChars(anchors) + TotalChars(rest[t..]) {
      TextOfBoth(anchors, rest[t..]);
      TotalCharsCountText(rest[t..]);
    }
  }

  // ---- Anchors of a well-formed history are its opening ----

  ghost function OpeningSize(ms: seq<Message>): nat
    requires Opens(ms)
  {
    if |ms| > 1 && AnchorKind(ms[0]) && AnchorKind(ms[1]) then 2 else 1
  }

  lemma BlockInterior(ms: seq<Message>, j: nat)
    requires LeadingBlock(ms) && 1 <= j < BlockSize(ms[0])
    ensures ms[j].ToolResult?
  {
    assert ms[1..BlockSize(ms[0])][j - 1] == ms[j];
  }

  lemma OpeningIsAnchored(ms: seq<Message>, i: nat)
    requires History(ms) && i < |ms|
    ensures IsAnchor(ms, i) <==> i < OpeningSize(ms)
  {
    if i == 2 && OpeningSize(ms) == 1 {
      assert Blocks(ms[1..]);
      assert HasCallsAt(ms[1..]);
      BlockInterior(ms[1..], 1);
    }
  }

  ghost predicate HasCallsAt(ms: seq<Message>) {
    ms != [] && BlockSize(ms[0]) > 1
  }

  lemma AnchorsSplit(ms: seq<Message>, i: nat)
    requires History(ms) && i <= |ms|
    ensures var a := OpeningSize(ms);
            && AnchorsFrom(ms, i) == (if i < a then ms[i..a] else [])
            && RestFrom(ms, i) == (if i < a then ms[a..] else ms[i..])
  {
    hide Blocks, IsAnchor, AnchorsFrom, RestFrom;
    forall j | 0 <= j < |ms| ensures IsAnchor(ms, j) <==> j < OpeningSize(ms) { OpeningIsAnchored(ms, j); }
    SplitAt(ms, OpeningSize(ms), i);
  }

  lemma {:induction false} SplitAt(ms: seq<Message>, a: nat, i: nat)
    requires i <= |ms| && a <= |ms|
    requires forall j :: 0 <= j < |ms| ==> (IsAnchor(ms, j) <==> j < a)
    ensures AnchorsFrom(ms, i) == if i < a then ms[i..a] else []
    ensures RestFrom(ms, i) == if i < a then ms[a..] else ms[i..]
    decreases |ms| - i
  {
    hide IsAnchor;
    if i < |ms| {
      SplitAt(ms, a, i + 1);
      assert ms[i..] == [ms[i]] + ms[i + 1..];
      assert i < a ==> ms[i..a] == [ms[i]] + ms[i + 1..a];
    }
  }

  lemma OpeningBlocks(ms: seq<Message>)
    requires History(ms)
    ensures var a := OpeningSize(ms);
            && Blocks(ms[..a]) && Blocks(ms[a..]) && Opens(ms[..a])
  {
    var a := OpeningSize(ms);
    SingleBlock(ms);
    if a == 2 {
      SingleBlock(ms[1..]);
      assert ms[1..][1..] == ms[2..];
      assert ms[..2] == ms[..1] + ms[1..][..1];
      BlocksConcat(ms[..1], ms[1..][..1]);
    }
  }

  lemma SingleBlock(ms: seq<Message>)
    requires Blocks(ms) && ms != [] && AnchorKind(ms[0])
    ensures Blocks(ms[..1]) && Blocks(ms[1..])
  {
    assert ms[..1][1..1] == [] && ms[..1][1..] == [];
  }

  // ---- Dropping orphans lands on a block boundary ----

  lemma SplitLeadingBlock(ms: seq<Message>)
    requires Blocks(ms) && ms != []
    ensures !ms[0].ToolResult? && 1 <= BlockSize(ms[0]) <= |ms| && Blocks(ms[BlockSize(ms[0])..])
    ensures forall j :: 1 <= j < BlockSize(ms[0]) ==> ms[j].ToolResult?
    ensures BlockSize(ms[0]) < |ms| ==> !ms[BlockSize(ms[0])].ToolResult?
  {
    forall j | 1 <= j < BlockSize(ms[0]) ensures ms[j].ToolResult? { BlockInterior(ms, j); }
  }

  lemma {:induction false} NextBoundary(ms: seq<Message>, c: nat) returns (d: nat)
    requires Blocks(ms) && c <= |ms|
    ensures c <= d <= |ms| && Blocks(ms[d..])
    ensures forall j :: c <= j < d ==> ms[j].ToolResult?
    ensures d < |ms| ==> !ms[d].ToolResult?
    decreases |ms|
  {
    hide Blocks, BlockSize;
    if c == 0 || ms == [] {
      assert ms[0..] == ms;
      if ms != [] { SplitLeadingBlock(ms); }
      d := c;
    } else {
      SplitLeadingBlock(ms);
      var k := BlockSize(ms[0]);
      if c < k {
        d := k;
      } else {
        var d' := NextBoundary(ms[k..], c - k);
        d := d' + k;
        assert ms[k..][d'..] == ms[d..];
        forall j | c <= j < d ensures ms[j].ToolResult? { assert ms[j] == ms[k..][j - k]; }
      }
    }
  }

  lemma DropOrphansLands(ms: seq<Message>, c: nat) returns (d: nat)
    requires Blocks(ms) && c <= |ms|
    ensures c <= d <= |ms|
    ensures DropOrphans(ms[c..]) == ms[d..] && Blocks(ms[d..])
    ensures forall j :: c <= j < d ==> ms[j].ToolResult?
  {
    hide Blocks;
    d := NextBoundary(ms, c);
    DropOrphansSkips(ms, c, d);
  }

  lemma {:induction false} DropOrphansSkips(ms: seq<Message>, c: nat, d: nat)
    requires c <= d <= |ms|
    requires forall j :: c <= j < d ==> ms[j].ToolResult?
    requires d < |ms| ==> !ms[d].ToolResult?
    ensures DropOrphans(ms[c..]) == ms[d..]
    decreases d - c
  {
    if c < d {
      assert ms[c..][1..] == ms[c + 1..];
      DropOrphansSkips(ms, c + 1, d);
    }
  }

  // ---- Removing superseded plain assistant messages ----

  function WithoutPlain(ms: seq<Message>): seq<Message> {
    if ms == [] then [] else (if Plain(ms[0]) then [] else [ms[0]]) + WithoutPlain(ms[1..])
  }

  lemma {:induction false} SettleHead(ms: seq<Message>)
    requires ms != []
    ensures Settle(ms) != []
    ensures !(Plain(ms[0]) && |ms| > 1 && ms[1].Assistant?) ==> Settle(ms) == [ms[0]] + Settle(ms[1..])
    ensures ms[0].Assistant? <==> Settle(ms)[0].Assistant?
    ensures !Plain(ms[0]) ==> Settle(ms)[0] == ms[0]
  {
    if |ms| >= 2 && Plain(ms[0]) && ms[1].Assistant? {
      SettleHead(ms[1..]);
    }
  }

  /** Only plain assistant messages go, and what remains keeps its order. */
  lemma {:induction false} SettleLosesOnlyPlain(ms: seq<Message>)
    ensures Subsequence(Settle(ms), ms)
    ensures WithoutPlain(Settle(ms)) == WithoutPlain(ms)
    ensures TotalChars(Settle(ms)) <= TotalChars(ms)
  {
    if |ms| < 2 {
      SubsequenceRefl(ms);
    } else {
      SettleLosesOnlyPlain(ms[1..]);
      if Plain(ms[0]) && ms[1].Assistant? {
      } else {
        assert Settle(ms)[1..] == Settle(ms[1..]);
      }
    }
  }

  lemma {:induction false} SettleKeepsPrefix(p: seq<Message>, ms: seq<Message>)
    requires forall m :: m in p ==> !Plain(m)
    ensures Settle(p + ms) == p + Settle(ms)
  {
    hide Settle;
    if p == [] {
      assert p + ms == ms;
    } else {
      SettleHead(p + ms);
      assert (p + ms)[1..] == p[1..] + ms;
      SettleKeepsPrefix(p[1..], ms);
    }
  }

  lemma {:induction false} SettleKeepsBlocks(ms: seq<Message>)
    requires Blocks(ms)
    ensures Blocks(Settle(ms)) && NoAdjacentAssistants(Settle(ms))
    decreases |ms|
  {
    if ms == [] {
    } else if AnchorKind(ms[0]) {
      SettleKeepsBlocks(ms[1..]);
      SettleSingle(ms);
    } else {
      var k := BlockSize(ms[0]);
      SettleKeepsBlocks(ms[k..]);
      SettleCallBlock(ms);
    }
  }

  lemma SettleSingle(ms: seq<Message>)
    requires Blocks(ms) && ms != [] && AnchorKind(ms[0])
    requires Blocks(Settle(ms[1..])) && NoAdjacentAssistants(Settle(ms[1..]))
    ensures Blocks(Settle(ms)) && NoAdjacentAssistants(Settle(ms))
  {
    hide Blocks;
    SettleHead(ms);
    if Plain(ms[0]) && |ms| > 1 && ms[1].Assistant? {
    } else {
      SingleBlock(ms);
      var rest := Settle(ms[1..]);
      BlocksConcat(ms[..1], rest);
      assert ms[..1] == [ms[0]];
      if |ms| > 1 { SettleHead(ms[1..]); } else { assert ms[1..] == []; SettleNothing(); }
    }
  }

  lemma SettleNothing()
    ensures Settle([]) == []
  {
  }

  lemma SettleCallBlock(ms: seq<Message>)
    requires Blocks(ms) && ms != [] && !AnchorKind(ms[0])
    requires var rest := Settle(ms[BlockSize(ms[0])..]); Blocks(rest) && NoAdjacentAssistants(rest)
    ensures Blocks(Settle(ms)) && NoAdjacentAssistants(Settle(ms))
  {
    hide Settle, NoAdjacentAssistants, Blocks, BlockSize, Plain, AnchorKind;
    CallBlockShape(ms);
    var k := BlockSize(ms[0]);
    var block, rest := ms[..k], Settle(ms[k..]);
    assert ms == block + ms[k..];
    SettleKeepsPrefix(block, ms[k..]);
    BlocksConcat(block, rest);
    ResultsBetween(block, rest);
  }

  lemma CallBlockShape(ms: seq<Message>)
    requires Blocks(ms) && ms != [] && !AnchorKind(ms[0])
    ensures var k := BlockSize(ms[0]);
            && 1 < k <= |ms| && Blocks(ms[..k])
            && (forall j :: 1 <= j < k ==> ms[j].ToolResult?)
            && (forall m :: m in ms[..k] ==> !Plain(m))
  {
    SplitLeadingBlock(ms);
    CallBlockAlone(ms);
    hide Blocks;
    var k := BlockSize(ms[0]);
    forall m | m in ms[..k] ensures !Plain(m) {
      var j :| 0 <= j < k && ms[..k][j] == m;
      assert m == ms[j];
    }
  }

  lemma ResultsBetween(block: seq<Message>, rest: seq<Message>)
    requires |block| > 1 && (forall j :: 1 <= j < |block| ==> block[j].ToolResult?) && NoAdjacentAssistants(rest)
    ensures NoAdjacentAssistants(block + rest)
  {
    var all := block + rest;
    forall i | 0 <= i < |all| - 1 ensures !(all[i].Assistant? && all[i + 1].Assistant?) {
      if i >= |block| { assert !(rest[i - |block|].Assistant? && rest[i - |block| + 1].Assistant?); }
    }
  }

  lemma CallBlockAlone(ms: seq<Message>)
    requires LeadingBlock(ms)
    ensures Blocks(ms[..BlockSize(ms[0])])
  {
    var k := BlockSize(ms[0]);
    assert ms[..k][1..k] == ms[1..k];
    assert ms[..k][k..] == [];
  }

  lemma {:induction false} SettleFixed(ms: seq<Message>)
    requires NoAdjacentAssistants(ms)
    ensures Settle(ms) == ms
  {
    if |ms| >= 2 {
      assert !(ms[0].Assistant? && ms[0 + 1].Assistant?);
      forall i | 0 <= i < |ms[1..]| - 1 ensures !(ms[1..][i].Assistant? && ms[1..][i + 1].Assistant?) {
        assert !(ms[i + 1].Assistant? && ms[i + 1 + 1].Assistant?);
      }
      SettleFixed(ms[1..]);
    }
  }

  lemma SettleOpens(ms: seq<Message>)
    requires Opens(ms)
    ensures Opens(Settle(ms))
  {
    SettleHead(ms);
    if !ms[0].User? { SettleHead(ms[1..]); }
  }

  // ---- The main theorems ----

  /** On a well-formed history the window is a suffix that starts after the opening. */
  lemma WindowOfHistory(ms: seq<Message>) returns (c: nat)
    requires History(ms)
    ensures Opens(ms) && OpeningSize(ms) <= c <= |ms| && Window(ms) == ms[c..]
    ensures OpeningSize(ms) < |ms| ==> c < |ms|
    ensures c < |ms| - 1 ==> |Text(ms[..OpeningSize(ms)] + ms[c..])| <= 60_000
    ensures forall t :: OpeningSize(ms) <= t < c ==> |Text(ms[..OpeningSize(ms)] + ms[t..])| > 60_000
  {
    hide TotalChars, Text, Window, Opens, OpeningSize, Blocks;
    c := WindowInChars(ms);
    var a := OpeningSize(ms);
    TotalCharsCountText(ms[..a]);
    forall t | a <= t <= |ms| ensures |Text(ms[..a] + ms[t..])| == TotalChars(ms[..a]) + TotalChars(ms[t..]) {
      TextOfBoth(ms[..a], ms[t..]);
      TotalCharsCountText(ms[t..]);
    }
  }

  lemma WindowInChars(ms: seq<Message>) returns (c: nat)
    requires History(ms)
    ensures Opens(ms) && OpeningSize(ms) <= c <= |ms| && OpeningSize(ms) <= |ms| && Window(ms) == ms[c..]
    ensures Budget(ms) == MAX_CONTEXT_CHARS - TotalChars(ms[..OpeningSize(ms)])
    ensures OpeningSize(ms) < |ms| ==> c < |ms|
    ensures c < |ms| - 1 ==> TotalChars(ms[c..]) <= Budget(ms)
    ensures forall t :: OpeningSize(ms) <= t < c ==> TotalChars(ms[t..]) > Budget(ms)
  {
    hide *;
    OpeningIsShort(ms);
    var a := OpeningSize(ms);
    var w := WindowFromRest(ms);
    var rest, budget := ms[a..], Budget(ms);
    NothingCosts(rest);
    WindowFromMaximal(rest, |rest|, budget, budget);
    c := a + w;
    DropDrop(ms, a, w);
    forall t | a <= t < c ensures TotalChars(ms[t..]) > budget { DropDrop(ms, a, t - a); }
  }

  lemma DropDrop<T>(s: seq<T>, i: nat, j: nat)
    requires i + j <= |s|
    ensures s[i..][j..] == s[i + j..]
  {
  }

  lemma NothingCosts(ms: seq<Message>)
    ensures TotalChars(ms[|ms|..]) == 0
  {
  }

  lemma WindowFromRest(ms: seq<Message>) returns (w: nat)
    requires History(ms)
    ensures var a := OpeningSize(ms);
            && a <= |ms|
            && w == WindowFrom(ms[a..], |ms| - a, Budget(ms)) <= |ms| - a
            && Window(ms) == ms[a..][w..]
            && Budget(ms) == MAX_CONTEXT_CHARS - TotalChars(ms[..a])
  {
    OpeningIsShort(ms);
    AnchorsSplit(ms, 0);
    w := WindowFrom(ms[OpeningSize(ms)..], |ms| - OpeningSize(ms), Budget(ms));
  }

  /** Where trimming cuts a well-formed history: the opening ms[..a] stays, ms[a..d] goes (an older
      stretch ending at a block boundary), and from what is left only superseded plain assistant messages go. */
  lemma TrimShape(ms: seq<Message>) returns (a: nat, c: nat, d: nat)
    requires History(ms) && |ms| > MAX_CONTEXT_MESSAGES
    ensures a == OpeningSize(ms) && a <= c <= d <= |ms| && Window(ms) == ms[c..]
    ensures Blocks(ms[..a]) && Blocks(ms[d..]) && Opens(ms[..a])
    ensures Trimmed(ms) == Settle(ms[..a] + ms[d..])
    ensures forall j :: c <= j < d ==> ms[j].ToolResult?
  {
    hide Blocks, Opens, AnchorsFrom, RestFrom, Settle, DropOrphans, Window, OpeningSize;
    a := OpeningSize(ms);
    OpeningIsShort(ms);
    c := WindowOfHistory(ms);
    OpeningBlocks(ms);
    d := OrphansDropped(ms, a, c);
    AnchorsSplit(ms, 0);
    assert ms[0..a] == ms[..a];
  }

  lemma OrphansDropped(ms: seq<Message>, a: nat, c: nat) returns (d: nat)
    requires a <= c <= |ms| && Blocks(ms[a..])
    ensures c <= d <= |ms| && DropOrphans(ms[c..]) == ms[d..] && Blocks(ms[d..])
    ensures forall j :: c <= j < d ==> ms[j].ToolResult?
  {
    hide Blocks, DropOrphans;
    var tail := ms[a..];
    var d' := DropOrphansLands(tail, c - a);
    d := a + d';
    DropDrop(ms, a, c - a);
    DropDrop(ms, a, d');
    forall j | c <= j < d ensures ms[j].ToolResult? { assert tail[j - a] == ms[j]; }
  }

  /** Trimming a well-formed history gives a well-formed history that is a subsequence of it: every
      kept result has its call and every kept call all its results. When it trims, no two assistant
      messages are adjacent and, beyond the older stretch, only plain assistant messages are lost. */
  lemma TrimKeepsHistory(ms: seq<Message>)
    requires History(ms)
    ensures History(Trimmed(ms)) && Subsequence(Trimmed(ms), ms)
    ensures |ms| > 60 ==> NoAdjacentAssistants(Trimmed(ms))
    ensures |ms| > 60 ==>
      exists d :: OpeningSize(ms) <= d <= |ms| && Blocks(ms[d..])
        && WithoutPlain(Trimmed(ms)) == WithoutPlain(ms[..OpeningSize(ms)] + ms[d..])
  {
    hide Blocks, Settle, AnchorsFrom, DropOrphans, Window, OpeningSize, Subsequence, WithoutPlain;
    SubsequenceRefl(ms);
    if |ms| > MAX_CONTEXT_MESSAGES {
      var a, c, d := TrimShape(ms);
      var kept := ms[..a] + ms[d..];
      BlocksConcat(ms[..a], ms[d..]);
      SettleKeepsBlocks(kept);
      SettleOpens(kept);
      SettleLosesOnlyPlain(kept);
      MiddleCut(ms, a, d);
      SubsequenceTrans(Trimmed(ms), kept, ms);
    }
  }

  lemma MiddleCut<T>(s: seq<T>, i: nat, j: nat)
    requires i <= j <= |s|
    ensures Subsequence(s[..i] + s[j..], s)
  {
    hide Subsequence;
    SubsequenceRefl(s[j..]);
    SubsequenceSkip(s[j..], s[i..j], s[j..]);
    SubsequenceKeep(s[..i], s[j..], s[i..j] + s[j..]);
    assert s[..i] + (s[i..j] + s[j..]) == s;
  }

  /** What is handed on carries at most 60,000 characters, unless the opening and the newest message alone carry
      more. */
  lemma TrimBoundsSize(ms: seq<Message>)
    requires History(ms) && |ms| > 60
    ensures var floor := |Text(ms[..OpeningSize(ms)] + [ms[|ms| - 1]])|;
            |Text(Trimmed(ms))| <= if floor > 60_000 then floor else 60_000
    ensures |Trimmed(ms)| > 3 ==> |Text(Trimmed(ms))| <= 60_000
  {
    hide TotalChars, Text, Trimmed, OpeningSize, Opens, Blocks, Chars;
    OpeningIsShort(ms);
    TrimBoundsChars(ms);
    TotalCharsCountText(Trimmed(ms));
    var opening, newest := ms[..OpeningSize(ms)], [ms[|ms| - 1]];
    TextOfBoth(opening, newest);
    TotalCharsCountText(opening);
    TotalCharsCountText(newest);
    SingleChars(ms[|ms| - 1]);
  }

  lemma TrimBoundsChars(ms: seq<Message>)
    requires History(ms) && |ms| > MAX_CONTEXT_MESSAGES
    ensures var floor := TotalChars(ms[..OpeningSize(ms)]) + Chars(ms[|ms| - 1]);
            TotalChars(Trimmed(ms)) <= if floor > MAX_CONTEXT_CHARS then floor else MAX_CONTEXT_CHARS
    ensures |Trimmed(ms)| > 3 ==> TotalChars(Trimmed(ms)) <= MAX_CONTEXT_CHARS
  {
    hide Blocks, Settle, AnchorsFrom, DropOrphans, Window, OpeningSize, Subsequence, TotalChars, WithoutPlain,
        Trimmed, Chars;
    var a, c, d := TrimShape(ms);
    var c' := WindowInChars(ms);
    assert |ms[c..]| == |ms[c'..]|;
    TotalCharsSuffix(ms, c, d);
    TotalCharsConcat(ms[..a], ms[d..]);
    SettleLosesOnlyPlain(ms[..a] + ms[d..]);
    SubsequenceShorter(Trimmed(ms), ms[..a] + ms[d..]);
    OpeningIsShort(ms);
    if c == |ms| - 1 {
      assert ms[c..] == [ms[c]];
      SingleChars(ms[c]);
    }
  }

  lemma OpeningIsShort(ms: seq<Message>)
    requires History(ms)
    ensures Opens(ms) && 1 <= OpeningSize(ms) <= 2 && OpeningSize(ms) <= |ms|
  {
  }

  lemma SingleChars(m: Message)
    ensures TotalChars([m]) == Chars(m)
  {
  }

  lemma {:induction false} SubsequenceShorter<T>(a: seq<T>, b: seq<T>)
    requires Subsequence(a, b)
    ensures |a| <= |b|
    decreases |b|
  {
    if a != [] {
      if a[0] == b[0] && Subsequence(a[1..], b[1..]) {
        SubsequenceShorter(a[1..], b[1..]);
      } else {
        SubsequenceShorter(a, b[1..]);
      }
    }
  }

  lemma TrimFixed(ms: seq<Message>)
    requires History(ms) && (|ms| <= 60 || (NoAdjacentAssistants(ms) && |Text(ms)| <= 60_000))
    ensures Trimmed(ms) == ms
  {
    TotalCharsCountText(ms);
    hide Text, Blocks, Settle, AnchorsFrom, RestFrom, DropOrphans, Window, OpeningSize, TotalChars;
    if |ms| > MAX_CONTEXT_MESSAGES {
      var a, c, d := TrimShape(ms);
      var c' := WindowInChars(ms);
      assert |ms[c..]| == |ms[c'..]|;
      assert ms[..a] + ms[a..] == ms;
      TotalCharsConcat(ms[..a], ms[a..]);
      OpeningBlocks(ms);
      BlocksStart(ms[a..]);
      assert c == a == d;
      SettleFixed(ms);
    }
  }

  lemma BlocksStart(ms: seq<Message>)
    requires Blocks(ms)
    ensures ms != [] ==> !ms[0].ToolResult?
  {
  }

  lemma TrimIdempotent(ms: seq<Message>)
    requires History(ms)
    ensures Trimmed(Trimmed(ms)) == Trimmed(ms)
  {
    if |ms| > MAX_CONTEXT_MESSAGES && |Trimmed(ms)| > MAX_CONTEXT_MESSAGES {
      TrimKeepsHistory(ms);
      TrimBoundsSize(ms);
      TrimFixed(Trimmed(ms));
    }
  }

  /** The opening: one message, or two if the first two are from the user or plain text. */
  function Opening(ms: seq<Message>): nat {
    if |ms| > 1 && !ms[0].ToolResult? && CallsOf(ms[0]) == [] && !ms[1].ToolResult? && CallsOf(ms[1]) == [] then 2
    else 1
  }

  /** What a long history is cut to. From `c` on everything is kept but tool results whose call is older, and
      plain assistant messages that another assistant message follows; the next older message does not fit
      beside the opening into 60,000 characters, and all from `c` on does, or is the newest message alone. */
  lemma TrimIsMaximal(ms: seq<Message>) returns (c: nat, d: nat)
    requires History(ms) && |ms| > 60
    ensures Opening(ms) <= c <= d <= |ms| && c < |ms|
    ensures c > Opening(ms) ==> |Text(ms[..Opening(ms)] + ms[c - 1..])| > 60_000
    ensures c < |ms| - 1 ==> |Text(ms[..Opening(ms)] + ms[c..])| <= 60_000
    ensures forall j :: c <= j < d ==> ms[j].ToolResult?
    ensures d < |ms| ==> !ms[d].ToolResult?
    ensures var kept := ms[..Opening(ms)] + ms[d..];
            Subsequence(Trimmed(ms), kept) && WithoutPlain(Trimmed(ms)) == WithoutPlain(kept)
  {
    hide Text, Trimmed, Settle, Subsequence, WithoutPlain, Window;
    var a, c', d' := TrimShape(ms);
    d := d';
    c := WindowOfHistory(ms);
    assert |ms[c..]| == |ms[c'..]|;
    OpeningIsShort(ms);
    OpeningAgrees(ms);
    SettleLosesOnlyPlain(ms[..a] + ms[d..]);
    BlocksStart(ms[d..]);
  }

  lemma OpeningAgrees(ms: seq<Message>)
    requires History(ms)
    ensures Opening(ms) == OpeningSize(ms)
  {
  }
}
