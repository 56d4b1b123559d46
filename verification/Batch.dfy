/** Batches of tool calls: calls that must run alone do, neighbours that are concurrency-safe run
    in threads whose atomic steps interleave in any order. */
module Batch {
  import opened Text

  datatype Tool = Tool(exclusive: bool, concurrencySafe: bool)

  datatype Action = Action(name: string, args: string)

  datatype Outcome = Value(text: string) | Raised(error: string)

  datatype Answer = Results(values: seq<string>) | Failed(error: string)

  /** What the tools do. A call starts in a local state and takes atomic steps on the shared world;
      `left` bounds the steps still to come, and the call has returned when it is 0. */
  datatype Bodies<!S, !L> = Bodies(
    start: Action -> L,
    step: (S, L) -> (S, L),
    left: L -> nat,
    outcome: L -> Outcome,
    tool: L -> string)

  type Registry = map<string, Tool>

  /** Every call returns, and stays a call of its tool until then. */
  ghost predicate Sound<S(!new), L(!new)>(b: Bodies<S, L>) {
    && (forall a :: b.tool(b.start(a)) == a.name)
    && (forall s, l :: b.left(l) > 0 ==> b.left(b.step(s, l).1) < b.left(l) && b.tool(b.step(s, l).1) == b.tool(l))
  }

  ghost predicate StepsCommute<S, L>(b: Bodies<S, L>, s: S, l: L, m: L) {
    var (s1, l1) := b.step(s, l);
    var (s2, m2) := b.step(s1, m);
    var (t1, m1) := b.step(s, m);
    var (t2, l2) := b.step(t1, l);
    s2 == t2 && l1 == l2 && m1 == m2
  }

  predicate Known(reg: Registry, a: Action) {
    a.name != "" && a.name in reg
  }

  /** A call of this tool may not overlap any other call. */
  predicate Alone(reg: Registry, name: string) {
    name in reg && (reg[name].exclusive || !reg[name].concurrencySafe)
  }

  predicate Safe(reg: Registry, name: string) {
    name in reg && !Alone(reg, name)
  }

  /** The state of a call after steps on these worlds. */
  ghost function StateAfter<S, L>(b: Bodies<S, L>, l: L, worlds: seq<S>): L {
    if worlds == [] then l else b.step(worlds[|worlds| - 1], StateAfter(b, l, worlds[..|worlds| - 1])).1
  }

  /** A state that a call of some action of the batch can come to, whatever the others do to the world. */
  ghost predicate Reachable<S(!new), L>(b: Bodies<S, L>, actions: seq<Action>, l: L) {
    exists a, worlds :: a in actions && l == StateAfter(b, b.start(a), worlds)
  }

  lemma StartIsReachable<S(!new), L>(b: Bodies<S, L>, actions: seq<Action>, a: Action)
    requires a in actions
    ensures Reachable(b, actions, b.start(a))
  {
    assert StateAfter(b, b.start(a), []) == b.start(a);
  }

  lemma StepIsReachable<S(!new), L>(b: Bodies<S, L>, actions: seq<Action>, s: S, l: L)
    requires Reachable(b, actions, l)
    ensures Reachable(b, actions, b.step(s, l).1)
  {
    var a, worlds :| a in actions && l == StateAfter(b, b.start(a), worlds);
    assert (worlds + [s])[..|worlds|] == worlds;
    assert b.step(s, l).1 == StateAfter(b, b.start(a), worlds + [s]);
  }

  /** What the flag `concurrency_safe` promises of the calls in a batch. */
  ghost predicate SafeToolsCommute<S(!new), L(!new)>(b: Bodies<S, L>, reg: Registry, actions: seq<Action>) {
    forall s, l, m ::
      (&& Reachable(b, actions, l) && Reachable(b, actions, m)
       && Safe(reg, b.tool(l)) && Safe(reg, b.tool(m)) && b.left(l) > 0 && b.left(m) > 0)
      ==> StepsCommute(b, s, l, m)
  }

  // ---- Left-to-right execution ----

  ghost function RunAlone<S(!new), L(!new)>(b: Bodies<S, L>, s: S, l: L): (r: (S, L))
    requires Sound(b)
    ensures b.left(r.1) == 0 && b.tool(r.1) == b.tool(l)
    decreases b.left(l)
  {
    if b.left(l) == 0 then (s, l)
    else
      var (t, m) := b.step(s, l);
      assert (t, m) == b.step(s, l);
      RunAlone(b, t, m)
  }

  ghost function LeftToRight<S(!new), L(!new)>(b: Bodies<S, L>, s: S, ls: seq<L>): (r: (S, seq<L>))
    requires Sound(b)
    ensures |r.1| == |ls|
  {
    if ls == [] then (s, [])
    else
      var (t, l) := RunAlone(b, s, ls[0]);
      var (u, rest) := LeftToRight(b, t, ls[1..]);
      (u, [l] + rest)
  }

  function Starts<S, L>(b: Bodies<S, L>, actions: seq<Action>): seq<L> {
    seq(|actions|, i requires 0 <= i < |actions| => b.start(actions[i]))
  }

  /** Calls of safe tools, in states that the batch's actions can bring about. */
  ghost predicate AllSafe<S(!new), L>(b: Bodies<S, L>, reg: Registry, actions: seq<Action>, ls: seq<L>) {
    forall i :: 0 <= i < |ls| ==> Safe(reg, b.tool(ls[i])) && Reachable(b, actions, ls[i])
  }

  // ---- Any interleaving is the left-to-right run ----

  /** A thread's step may move past everything another thread still has to do. */
  lemma {:induction false} StepPastRun<S(!new), L(!new)>(
    b: Bodies<S, L>, reg: Registry, actions: seq<Action>, s: S, l: L, m: L)
    requires Sound(b) && SafeToolsCommute(b, reg, actions) && Reachable(b, actions, l) && Reachable(b, actions, m)
    requires Safe(reg, b.tool(l)) && Safe(reg, b.tool(m)) && b.left(m) > 0
    ensures var (t, l') := RunAlone(b, s, l);
            && RunAlone(b, b.step(s, m).0, l) == (b.step(t, m).0, l')
            && b.step(t, m).1 == b.step(s, m).1
    decreases b.left(l)
  {
    hide Safe, Reachable;
    if b.left(l) > 0 {
      assert StepsCommute(b, s, l, m);
      var (s1, l1) := b.step(s, l);
      assert (s1, l1) == b.step(s, l);
      StepIsReachable(b, actions, s, l);
      StepPastRun(b, reg, actions, s1, l1, m);
    }
  }

  /** One step of any thread leaves the left-to-right result as it is. */
  lemma {:induction false} StepAbsorbed<S(!new), L(!new)>(
    b: Bodies<S, L>, reg: Registry, actions: seq<Action>, s: S, ls: seq<L>, k: nat)
    requires Sound(b) && SafeToolsCommute(b, reg, actions) && AllSafe(b, reg, actions, ls)
    requires k < |ls| && b.left(ls[k]) > 0
    ensures var (t, m) := b.step(s, ls[k]); LeftToRight(b, t, ls[k := m]) == LeftToRight(b, s, ls)
    decreases k
  {
    hide Safe, SafeToolsCommute, Reachable;
    var (t, m) := b.step(s, ls[k]);
    if k == 0 {
      assert ls[0 := m][1..] == ls[1..];
    } else {
      StepPastRun(b, reg, actions, s, ls[0], ls[k]);
      var (u, l) := RunAlone(b, s, ls[0]);
      StepAbsorbed(b, reg, actions, u, ls[1..], k - 1);
      assert ls[k := m][1..] == ls[1..][k - 1 := m];
    }
  }

  ghost predicate AllDone<S, L>(b: Bodies<S, L>, ls: seq<L>) {
    forall l :: l in ls ==> b.left(l) == 0
  }

  lemma {:induction false} NothingLeft<S(!new), L(!new)>(b: Bodies<S, L>, s: S, ls: seq<L>)
    requires Sound(b) && AllDone(b, ls)
    ensures LeftToRight(b, s, ls) == (s, ls)
  {
    if ls != [] {
      assert b.left(ls[0]) == 0;
      NothingLeft(b, s, ls[1..]);
      assert ls == [ls[0]] + ls[1..];
    }
  }

  /** `schedule` names the thread that takes each atomic step. */
  ghost predicate Legal<S(!new), L(!new)>(b: Bodies<S, L>, s: S, ls: seq<L>, schedule: seq<nat>)
    decreases schedule
  {
    schedule == [] ||
    (var k := schedule[0];
     && k < |ls| && b.left(ls[k]) > 0
     && Legal(b, b.step(s, ls[k]).0, ls[k := b.step(s, ls[k]).1], schedule[1..]))
  }

  ghost function Run<S(!new), L(!new)>(b: Bodies<S, L>, s: S, ls: seq<L>, schedule: seq<nat>): (S, seq<L>)
    requires Legal(b, s, ls, schedule)
    decreases schedule
  {
    if schedule == [] then (s, ls)
    else
      var k := schedule[0];
      Run(b, b.step(s, ls[k]).0, ls[k := b.step(s, ls[k]).1], schedule[1..])
  }

  /** However the threads of safe calls interleave, once all have returned the world and every
      call's own result are those of running the calls one after another. */
  lemma {:induction false} EveryScheduleAgrees<S(!new), L(!new)>(
    b: Bodies<S, L>, reg: Registry, actions: seq<Action>, s: S, ls: seq<L>, schedule: seq<nat>)
    requires Sound(b) && SafeToolsCommute(b, reg, actions) && AllSafe(b, reg, actions, ls)
    requires Legal(b, s, ls, schedule)
    requires AllDone(b, Run(b, s, ls, schedule).1)
    ensures Run(b, s, ls, schedule) == LeftToRight(b, s, ls)
    decreases schedule
  {
    hide Safe, SafeToolsCommute, LeftToRight, AllDone, Reachable;
    if schedule == [] {
      NothingLeft(b, s, ls);
    } else {
      var k := schedule[0];
      StepAbsorbed(b, reg, actions, s, ls, k);
      StepIsReachable(b, actions, s, ls[k]);
      EveryScheduleAgrees(b, reg, actions, b.step(s, ls[k]).0, ls[k := b.step(s, ls[k]).1], schedule[1..]);
    }
  }

  // ---- What a batch answers ----

  function Complaint(a: Action): string {
    if a.name == "" then "action is missing a tool name" else "Unknown tool: " + a.name
  }

  /** How many leading actions form one concurrent group. */
  function GroupLength(reg: Registry, actions: seq<Action>): (n: nat)
    ensures n <= |actions| && forall i :: 0 <= i < n ==> Safe(reg, actions[i].name) && Known(reg, actions[i])
    ensures n < |actions| ==> !Known(reg, actions[n]) || Alone(reg, actions[n].name)
  {
    if actions == [] || !Known(reg, actions[0]) || Alone(reg, actions[0].name) then 0
    else 1 + GroupLength(reg, actions[1..])
  }

  /** A group is as long as it can be: it takes every neighbour that is registered, not exclusive and safe. */
  lemma {:induction false} GroupIsLongest(reg: Registry, actions: seq<Action>, n: nat)
    requires n <= |actions|
    ensures n <= GroupLength(reg, actions) <==>
            forall i :: 0 <= i < n ==>
              var name := actions[i].name;
              name != "" && name in reg && !reg[name].exclusive && reg[name].concurrencySafe
  {
    if n > 0 {
      GroupIsLongest(reg, actions[1..], n - 1);
      assert forall i :: 0 < i < n ==> actions[i] == actions[1..][i - 1];
      assert forall i :: 0 <= i < n - 1 ==> actions[1..][i] == actions[i + 1];
    }
  }

  ghost function FirstRaised<S, L>(b: Bodies<S, L>, ls: seq<L>): Option<string> {
    if ls == [] then None
    else if b.outcome(ls[0]).Raised? then Some(b.outcome(ls[0]).error)
    else FirstRaised(b, ls[1..])
  }

  ghost function Values<S, L>(b: Bodies<S, L>, ls: seq<L>): (vs: seq<string>)
    requires FirstRaised(b, ls) == None
    ensures |vs| == |ls|
  {
    if ls == [] then [] else [b.outcome(ls[0]).text] + Values(b, ls[1..])
  }

  function Prepend(vs: seq<string>, answer: Answer): Answer {
    if answer.Results? then Results(vs + answer.values) else answer
  }

  ghost function Outcomes<S, L>(b: Bodies<S, L>, ls: seq<L>): Answer {
    if FirstRaised(b, ls).Some? then Failed(FirstRaised(b, ls).value) else Results(Values(b, ls))
  }

  /** The world after a batch, and its answer. */
  ghost function BatchFrom<S(!new), L(!new)>(b: Bodies<S, L>, reg: Registry, s: S, actions: seq<Action>): (S, Answer)
    requires Sound(b)
    decreases |actions|
  {
    if actions == [] then (s, Results([]))
    else if !Known(reg, actions[0]) then (s, Failed(Complaint(actions[0])))
    else
      var n := if Alone(reg, actions[0].name) then 1 else GroupLength(reg, actions);
      if !Alone(reg, actions[0].name) && n < |actions| && !Known(reg, actions[n]) then
        (s, Failed(Complaint(actions[n])))
      else
        var (t, ls) := LeftToRight(b, s, Starts(b, actions[..n]));
        if Outcomes(b, ls).Failed? then (t, Outcomes(b, ls))
        else
          var (u, answer) := BatchFrom(b, reg, t, actions[n..]);
          (u, Prepend(Outcomes(b, ls).values, answer))
  }

  // ---- A batch of known tools is left-to-right execution ----

  lemma {:induction false} LeftToRightSplit<S(!new), L(!new)>(b: Bodies<S, L>, s: S, k: seq<L>, l: seq<L>)
    requires Sound(b)
    ensures var (t, before) := LeftToRight(b, s, k);
            var (u, after) := LeftToRight(b, t, l);
            LeftToRight(b, s, k + l) == (u, before + after)
  {
    if k == [] {
      assert k + l == l;
      var (u, after) := LeftToRight(b, s, l);
      assert [] + after == after;
    } else {
      assert (k + l)[1..] == k[1..] + l;
      var (t, first) := RunAlone(b, s, k[0]);
      var (u, rest) := LeftToRight(b, t, k[1..]);
      LeftToRightSplit(b, t, k[1..], l);
      var (w, after) := LeftToRight(b, u, l);
      assert [first] + (rest + after) == ([first] + rest) + after;
    }
  }

  lemma {:induction false} OutcomesSplit<S, L>(b: Bodies<S, L>, k: seq<L>, l: seq<L>)
    ensures Outcomes(b, k + l) ==
            if Outcomes(b, k).Failed? then Outcomes(b, k) else Prepend(Outcomes(b, k).values, Outcomes(b, l))
  {
    if k == [] {
      assert k + l == l;
      assert Outcomes(b, l).Results? ==> [] + Outcomes(b, l).values == Outcomes(b, l).values;
    } else {
      assert (k + l)[1..] == k[1..] + l;
      OutcomesSplit(b, k[1..], l);
    }
  }

  ghost predicate AllKnown(reg: Registry, actions: seq<Action>) {
    forall i :: 0 <= i < |actions| ==> Known(reg, actions[i])
  }

  /** When every name is known, a batch answers with each action's own left-to-right result, or
      with the first error in action order. When nothing raises, the world agrees too. */
  lemma {:induction false} BatchIsLeftToRight<S(!new), L(!new)>(
    b: Bodies<S, L>, reg: Registry, s: S, actions: seq<Action>)
    requires Sound(b) && AllKnown(reg, actions)
    ensures var (t, ls) := LeftToRight(b, s, Starts(b, actions));
            && BatchFrom(b, reg, s, actions).1 == Outcomes(b, ls)
            && (Outcomes(b, ls).Results? ==> BatchFrom(b, reg, s, actions).0 == t)
    decreases |actions|
  {
    hide LeftToRight, Outcomes, Alone;
    if actions == [] {
      EmptyBatch(b, s);
    } else {
      var n := if Alone(reg, actions[0].name) then 1 else GroupLength(reg, actions);
      var head, tail := Starts(b, actions[..n]), Starts(b, actions[n..]);
      assert Starts(b, actions) == head + tail;
      LeftToRightSplit(b, s, head, tail);
      var (t, before) := LeftToRight(b, s, head);
      var (u, after) := LeftToRight(b, t, tail);
      OutcomesSplit(b, before, after);
      BatchIsLeftToRight(b, reg, t, actions[n..]);
    }
  }

  lemma EmptyBatch<S(!new), L(!new)>(b: Bodies<S, L>, s: S)
    requires Sound(b)
    ensures var (t, ls) := LeftToRight(b, s, Starts(b, [])); t == s && Outcomes(b, ls) == Results([])
  {
    assert Starts(b, []) == [];
  }

  function ChunkLength(reg: Registry, actions: seq<Action>): nat
    requires actions != []
  {
    if Alone(reg, actions[0].name) then 1 else GroupLength(reg, actions)
  }

  lemma ChunkRuns<S(!new), L(!new)>(b: Bodies<S, L>, reg: Registry, s: S, actions: seq<Action>)
    requires Sound(b) && actions != [] && Known(reg, actions[0])
    ensures var n := ChunkLength(reg, actions);
            && 0 < n <= |actions|
            && (Alone(reg, actions[0].name) || n == |actions| || Known(reg, actions[n]) ==>
                var (t, ls) := LeftToRight(b, s, Starts(b, actions[..n]));
                Outcomes(b, ls).Results? ==>
                  var (u, answer) := BatchFrom(b, reg, t, actions[n..]);
                  BatchFrom(b, reg, s, actions) == (u, Prepend(Outcomes(b, ls).values, answer)))
  {
    hide LeftToRight, Outcomes, Alone, Starts;
  }

  /** An unknown name at `j` stops the batch before the whole concurrent group in front of it: the
      actions before that group ran, those from `r` on did not. */
  lemma {:induction false} UnknownStopsItsGroup<S(!new), L(!new)>(
    b: Bodies<S, L>, reg: Registry, s: S, actions: seq<Action>, r: nat, j: nat)
    requires Sound(b) && r <= j < |actions| && !Known(reg, actions[j]) && AllKnown(reg, actions[..j])
    requires forall i :: r <= i < j ==> !Alone(reg, actions[i].name)
    requires r > 0 ==> Alone(reg, actions[r - 1].name)
    requires Outcomes(b, LeftToRight(b, s, Starts(b, actions[..r])).1).Results?
    ensures BatchFrom(b, reg, s, actions) ==
            (LeftToRight(b, s, Starts(b, actions[..r])).0,
             Failed(if actions[j].name == "" then "action is missing a tool name"
                    else "Unknown tool: " + actions[j].name))
    decreases |actions|
  {
    hide AllKnown, Alone, Known, Outcomes, LeftToRight, Starts, ChunkLength, BatchFrom;
    if r == 0 {
      UnknownInFirstGroup(b, reg, s, actions, j);
    } else {
      var n := ChunkLength(reg, actions);
      KnownPrefix(reg, actions, n, r, j);
      ChunkRuns(b, reg, s, actions);
      var (t, before) := LeftToRight(b, s, Starts(b, actions[..n]));
      SplitRuns(b, s, actions, n, r);
      assert actions[n..][..r - n] == actions[n..r];
      UnknownStopsItsGroup(b, reg, t, actions[n..], r - n, j - n);
    }
  }

  lemma UnknownInFirstGroup<S(!new), L(!new)>(b: Bodies<S, L>, reg: Registry, s: S, actions: seq<Action>, j: nat)
    requires Sound(b) && j < |actions| && !Known(reg, actions[j]) && AllKnown(reg, actions[..j])
    requires forall i :: 0 <= i < j ==> !Alone(reg, actions[i].name)
    ensures BatchFrom(b, reg, s, actions) ==
            (LeftToRight(b, s, Starts(b, actions[..0])).0, Failed(Complaint(actions[j])))
  {
    hide LeftToRight, Starts, Outcomes, Alone;
    assert forall i :: 0 <= i < j ==> actions[..j][i] == actions[i];
    assert actions[..0] == [];
    EmptyBatch(b, s);
  }

  lemma KnownPrefix(reg: Registry, actions: seq<Action>, n: nat, r: nat, j: nat)
    requires 0 < r <= j < |actions| && AllKnown(reg, actions[..j]) && Alone(reg, actions[r - 1].name)
    requires n == ChunkLength(reg, actions)
    ensures Known(reg, actions[0]) && n <= r && (Alone(reg, actions[0].name) || Known(reg, actions[n]))
    ensures AllKnown(reg, actions[n..][..j - n])
  {
    hide Known, Alone;
    assert forall i :: 0 <= i < j ==> actions[..j][i] == actions[i];
  }

  lemma SplitRuns<S(!new), L(!new)>(b: Bodies<S, L>, s: S, actions: seq<Action>, n: nat, r: nat)
    requires Sound(b) && n <= r <= |actions|
    requires Outcomes(b, LeftToRight(b, s, Starts(b, actions[..r])).1).Results?
    ensures var (t, before) := LeftToRight(b, s, Starts(b, actions[..n]));
            var (u, after) := LeftToRight(b, t, Starts(b, actions[n..r]));
            && Outcomes(b, before).Results? && Outcomes(b, after).Results?
            && u == LeftToRight(b, s, Starts(b, actions[..r])).0
  {
    hide LeftToRight, Outcomes;
    var head, tail := Starts(b, actions[..n]), Starts(b, actions[n..r]);
    assert Starts(b, actions[..r]) == head + tail;
    LeftToRightSplit(b, s, head, tail);
    var (t, before) := LeftToRight(b, s, head);
    OutcomesSplit(b, before, LeftToRight(b, t, tail).1);
  }

  // ---- Who overlaps whom ----

  datatype Event = Began(index: nat) | Ended(index: nat)

  /** Some action from `i` to `j` runs alone. */
  ghost predicate Separated(reg: Registry, actions: seq<Action>, i: nat, j: nat) {
    exists k :: i <= k <= j < |actions| && Alone(reg, actions[k].name)
  }

  ghost predicate Lawful(reg: Registry, actions: seq<Action>, before: seq<Event>, e: Event) {
    match e
    case Began(j) => forall i: nat :: i < j && Separated(reg, actions, i, j) ==> Ended(i) in before
    case Ended(j) => Began(j) in before
  }

  /** The first `ran` actions each began once and ended once, no other action did, and an action
      begins only after every earlier one it may not overlap has ended. */
  ghost predicate Orderly(reg: Registry, actions: seq<Action>, trace: seq<Event>) {
    && Distinct(trace)
    && forall p :: 0 <= p < |trace| ==> Lawful(reg, actions, trace[..p], trace[p])
  }

  ghost predicate Covers(trace: seq<Event>, ran: nat) {
    forall e: Event :: e in trace <==> e.index < ran
  }

  lemma OrderlyAppend(reg: Registry, actions: seq<Action>, trace: seq<Event>, e: Event)
    requires Orderly(reg, actions, trace) && e !in trace && Lawful(reg, actions, trace, e)
    ensures Orderly(reg, actions, trace + [e])
  {
    hide Lawful;
    DistinctAppend(trace, [e]);
    forall p | 0 <= p < |trace + [e]| ensures Lawful(reg, actions, (trace + [e])[..p], (trace + [e])[p]) {
      assert (trace + [e])[..p] == trace[..p];
      if p == |trace| { assert trace[..p] == trace; }
    }
  }

  /** In an orderly trace a call of an exclusive tool, or of one not safe to run beside others, overlaps none. */
  lemma AloneNeverOverlaps(reg: Registry, actions: seq<Action>, trace: seq<Event>, i: nat, j: nat, p: nat, q: nat)
    requires Orderly(reg, actions, trace) && i < |actions| && j < |actions| && i != j
    requires actions[i].name in reg && actions[j].name in reg
    requires var a, b := reg[actions[i].name], reg[actions[j].name];
             a.exclusive || !a.concurrencySafe || b.exclusive || !b.concurrencySafe
    requires p < |trace| && trace[p] == Began(i) && q < |trace| && trace[q] == Began(j)
    ensures if i < j then Ended(i) in trace[..q] else Ended(j) in trace[..p]
  {
    assert Separated(reg, actions, if i < j then i else j, if i < j then j else i) by {
      var k := if Alone(reg, actions[i].name) then i else j;
      assert Alone(reg, actions[k].name);
    }
    assert Lawful(reg, actions, trace[..p], trace[p]) && Lawful(reg, actions, trace[..q], trace[q]);
  }
}
