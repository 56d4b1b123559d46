/** The registry that executes batches: threads of one group interleave as the pool pleases. */
module ToolBatch {
  import opened Batch
  import opened Text

  datatype Thread<L> = Thread(local: L, begun: bool, ended: bool)

  function Locals<L>(threads: seq<Thread<L>>): seq<L> {
    seq(|threads|, i requires 0 <= i < |threads| => threads[i].local)
  }

  function Weight<S, L>(b: Bodies<S, L>, t: Thread<L>): nat {
    b.left(t.local) + (if t.begun then 0 else 1) + (if t.ended then 0 else 1)
  }

  /** What a group still has to do: steps, begins and ends. */
  function Work<S, L>(b: Bodies<S, L>, threads: seq<Thread<L>>): nat {
    if threads == [] then 0 else Weight(b, threads[0]) + Work(b, threads[1..])
  }

  lemma {:induction false} WorkFalls<S, L>(b: Bodies<S, L>, threads: seq<Thread<L>>, k: nat, t: Thread<L>)
    requires k < |threads| && Weight(b, t) < Weight(b, threads[k])
    ensures Work(b, threads[k := t]) < Work(b, threads)
  {
    hide Weight;
    if k == 0 {
      assert threads[0 := t][1..] == threads[1..];
    } else {
      assert threads[k := t][1..] == threads[1..][k - 1 := t];
      WorkFalls(b, threads[1..], k - 1, t);
    }
  }

  /** The events so far: all of the actions before `first`, and what the group's threads have done. */
  ghost predicate GroupCovers<L>(trace: seq<Event>, first: nat, threads: seq<Thread<L>>) {
    forall e: Event :: e in trace <==>
      e.index < first ||
      (e.index < first + |threads| &&
       match e case Began(i) => threads[i - first].begun case Ended(i) => threads[i - first].ended)
  }

  ghost predicate Consistent<S, L>(b: Bodies<S, L>, threads: seq<Thread<L>>) {
    forall i :: 0 <= i < |threads| ==> threads[i].ended ==> threads[i].begun && b.left(threads[i].local) == 0
  }

  ghost predicate GroupAt(reg: Registry, actions: seq<Action>, first: nat, n: nat) {
    first + n <= |actions| && forall i :: first <= i < first + n ==> Safe(reg, actions[i].name)
  }

  lemma BeginIsLawful<L>(reg: Registry, actions: seq<Action>, trace: seq<Event>, first: nat, threads: seq<Thread<L>>,
        k: nat)
    requires GroupAt(reg, actions, first, |threads|) && GroupCovers(trace, first, threads) && k < |threads|
    ensures Lawful(reg, actions, trace, Began(first + k))
  {
    hide Safe, Alone;
    forall i: nat | i < first + k && Separated(reg, actions, i, first + k) ensures Ended(i) in trace {
      var m :| i <= m <= first + k && m < |actions| && Alone(reg, actions[m].name);
      SafeIsNotAlone(reg, actions[m].name);
      assert m < first;
    }
  }

  lemma SafeIsNotAlone(reg: Registry, name: string)
    ensures Safe(reg, name) ==> !Alone(reg, name)
  {
  }

  class ToolRegistry<S(!new), L(!new)> {
    const bodies: Bodies<S, L>
    var tools: Registry
    var world: S

    constructor (bodies: Bodies<S, L>, tools: Registry, world: S)
      ensures this.bodies == bodies && this.tools == tools && this.world == world
    {
      this.bodies, this.tools, this.world := bodies, tools, world;
    }

    method Execute(a: Action) returns (local: L)
      requires Sound(bodies)
      modifies this`world
      ensures (world, local) == RunAlone(bodies, old(world), bodies.start(a))
    {
      local := bodies.start(a);
      while bodies.left(local) > 0
        invariant RunAlone(bodies, world, local) == RunAlone(bodies, old(world), bodies.start(a))
        decreases bodies.left(local)
      {
        var next := bodies.step(world, local);
        world, local := next.0, next.1;
      }
    }

    /** Runs the threads of one group, at each turn letting any of them go on. */
    method RunGroup(actions: seq<Action>, first: nat, n: nat, before: seq<Event>)
      returns (done: seq<L>, trace: seq<Event>)
      requires Sound(bodies) && SafeToolsCommute(bodies, tools, actions)
      requires first + n <= |actions| && GroupAt(tools, actions, first, n)
      requires Orderly(tools, actions, before) && Covers(before, first)
      modifies this`world
      ensures (world, done) == LeftToRight(bodies, old(world), Starts(bodies, actions[first..first + n]))
      ensures Orderly(tools, actions, trace) && Covers(trace, first + n)
    {
      hide LeftToRight, SafeToolsCommute, GroupCovers, Orderly, GroupAt, Work, Weight, Consistent, Covers, AllSafe;
      var group := actions[first..first + n];
      var threads := seq(n, i requires 0 <= i < n => Thread(bodies.start(group[i]), false, false));
      trace := before;
      GroupBegins(tools, actions, first, group, threads, trace);
      assert Locals(threads) == Starts(bodies, group);
      while exists k :: 0 <= k < |threads| && !threads[k].ended
        invariant |threads| == n
        invariant Consistent(bodies, threads) && AllSafe(bodies, tools, actions, Locals(threads))
        invariant LeftToRight(bodies, world, Locals(threads)) == LeftToRight(bodies, old(world), Starts(bodies, group))
        invariant Orderly(tools, actions, trace) && GroupCovers(trace, first, threads)
        decreases Work(bodies, threads)
      {
        var k :| 0 <= k < |threads| && !threads[k].ended;
        var t := threads[k];
        if !t.begun {
          BeginThread(tools, actions, trace, first, threads, k);
          trace := trace + [Began(first + k)];
          threads := threads[k := t.(begun := true)];
        } else if bodies.left(t.local) > 0 {
          StepThread(tools, actions, world, threads, k);
          var next := bodies.step(world, t.local);
          KeepsCover(trace, first, threads, k, next.1);
          world, threads := next.0, threads[k := t.(local := next.1)];
        } else {
          EndThread(tools, actions, trace, first, threads, k);
          trace := trace + [Ended(first + k)];
          threads := threads[k := t.(ended := true)];
        }
      }
      done := Locals(threads);
      GroupOver(world, first, threads, trace);
    }

    lemma GroupBegins(reg: Registry, actions: seq<Action>, first: nat, group: seq<Action>, threads: seq<Thread<L>>,
          trace: seq<Event>)
      requires Sound(bodies) && |threads| == |group| && GroupAt(reg, actions, first, |threads|)
      requires group == actions[first..first + |group|]
      requires forall i :: 0 <= i < |threads| ==> threads[i] == Thread(bodies.start(group[i]), false, false)
      requires Covers(trace, first)
      ensures Consistent(bodies, threads) && AllSafe(bodies, reg, actions, Locals(threads))
      ensures GroupCovers(trace, first, threads)
    {
      hide Safe, Reachable;
      forall i | 0 <= i < |group| ensures Reachable(bodies, actions, bodies.start(group[i])) {
        assert group[i] in actions;
        StartIsReachable(bodies, actions, group[i]);
      }
    }

    lemma BeginThread(reg: Registry, actions: seq<Action>, trace: seq<Event>, first: nat, threads: seq<Thread<L>>,
          k: nat)
      requires GroupAt(reg, actions, first, |threads|) && Consistent(bodies, threads) && k < |threads|
               && !threads[k].begun
      requires Orderly(reg, actions, trace) && GroupCovers(trace, first, threads)
      ensures var after := threads[k := threads[k].(begun := true)];
              && Orderly(reg, actions, trace + [Began(first + k)])
              && GroupCovers(trace + [Began(first + k)], first, after)
              && Consistent(bodies, after) && Locals(after) == Locals(threads)
              && Work(bodies, after) < Work(bodies, threads)
    {
      hide Orderly, GroupAt, Lawful;
      BeginIsLawful(reg, actions, trace, first, threads, k);
      OrderlyAppend(reg, actions, trace, Began(first + k));
      WorkFalls(bodies, threads, k, threads[k].(begun := true));
    }

    lemma EndThread(reg: Registry, actions: seq<Action>, trace: seq<Event>, first: nat, threads: seq<Thread<L>>, k: nat)
      requires Consistent(bodies, threads) && k < |threads| && threads[k].begun && !threads[k].ended
      requires bodies.left(threads[k].local) == 0
      requires Orderly(reg, actions, trace) && GroupCovers(trace, first, threads)
      ensures var after := threads[k := threads[k].(ended := true)];
              && Orderly(reg, actions, trace + [Ended(first + k)])
              && GroupCovers(trace + [Ended(first + k)], first, after)
              && Consistent(bodies, after) && Locals(after) == Locals(threads)
              && Work(bodies, after) < Work(bodies, threads)
    {
      hide Orderly;
      assert Began(first + k) in trace;
      OrderlyAppend(reg, actions, trace, Ended(first + k));
      WorkFalls(bodies, threads, k, threads[k].(ended := true));
    }

    lemma StepThread(reg: Registry, actions: seq<Action>, s: S, threads: seq<Thread<L>>, k: nat)
      requires Sound(bodies) && SafeToolsCommute(bodies, reg, actions)
      requires AllSafe(bodies, reg, actions, Locals(threads))
      requires Consistent(bodies, threads) && k < |threads| && bodies.left(threads[k].local) > 0
      ensures var (t, m) := bodies.step(s, threads[k].local);
              var after := threads[k := threads[k].(local := m)];
              && LeftToRight(bodies, t, Locals(after)) == LeftToRight(bodies, s, Locals(threads))
              && Consistent(bodies, after) && AllSafe(bodies, reg, actions, Locals(after))
              && Work(bodies, after) < Work(bodies, threads)
    {
      hide LeftToRight, SafeToolsCommute, Safe, Reachable;
      StepAbsorbed(bodies, reg, actions, s, Locals(threads), k);
      StepIsReachable(bodies, actions, s, threads[k].local);
      var m := bodies.step(s, threads[k].local).1;
      assert Locals(threads[k := threads[k].(local := m)]) == Locals(threads)[k := m];
      WorkFalls(bodies, threads, k, threads[k].(local := m));
    }

    lemma KeepsCover(trace: seq<Event>, first: nat, threads: seq<Thread<L>>, k: nat, m: L)
      requires k < |threads| && GroupCovers(trace, first, threads)
      ensures GroupCovers(trace, first, threads[k := threads[k].(local := m)])
    {
    }

    lemma GroupOver(s: S, first: nat, threads: seq<Thread<L>>, trace: seq<Event>)
      requires Sound(bodies) && Consistent(bodies, threads) && GroupCovers(trace, first, threads)
      requires forall k :: 0 <= k < |threads| ==> threads[k].ended
      ensures LeftToRight(bodies, s, Locals(threads)) == (s, Locals(threads))
      ensures Covers(trace, first + |threads|)
    {
      hide LeftToRight;
      NothingLeft(bodies, s, Locals(threads));
    }

    /** The end of the concurrent group that starts at `first`. */
    method GatherGroup(actions: seq<Action>, first: nat) returns (end: nat)
      requires first <= |actions|
      ensures end <= |actions| && end - first == GroupLength(tools, actions[first..])
      ensures first <= end && GroupAt(tools, actions, first, end - first)
    {
      hide GroupLength, Known, Alone;
      end := first;
      while end < |actions| && Known(tools, actions[end]) && !Alone(tools, actions[end].name)
        invariant first <= end <= |actions|
        invariant GroupLength(tools, actions[first..]) == end - first + GroupLength(tools, actions[end..])
      {
        end := end + 1;
      }
    }

    /** Runs a group to its end, and only then stores the results up to the first error. */
    method ExecuteGroup(actions: seq<Action>, first: nat, end: nat, before: seq<Event>, results: array<string>)
      returns (answer: Answer, trace: seq<Event>)
      requires Sound(bodies) && SafeToolsCommute(bodies, tools, actions)
      requires first <= end <= |actions| == results.Length && GroupAt(tools, actions, first, end - first)
      requires Orderly(tools, actions, before) && Covers(before, first)
      modifies this`world, results
      ensures var (t, locals) := LeftToRight(bodies, old(world), Starts(bodies, actions[first..end]));
              world == t && answer == Outcomes(bodies, locals)
      ensures answer.Results? ==> results[..end] == old(results[..first]) + answer.values
      ensures Orderly(tools, actions, trace) && Covers(trace, end)
    {
      hide Sound, SafeToolsCommute, LeftToRight, Outcomes, Orderly, Covers, GroupAt;
      var locals;
      locals, trace := RunGroup(actions, first, end - first, before);
      ghost var after := world;
      var k := 0;
      while k < |locals|
        invariant 0 <= k <= |locals| == end - first && world == after
        invariant forall m :: 0 <= m < k ==> bodies.outcome(locals[m]) == Value(results[first + m])
        invariant results[..first] == old(results[..first])
      {
        var outcome := bodies.outcome(locals[k]);
        if outcome.Raised? {
          RaisedAt(bodies, locals, k);
          return Failed(outcome.error), trace;
        }
        results[first + k] := outcome.text;
        k := k + 1;
      }
      AllReturned(bodies, locals, results[first..end]);
      assert results[..end] == results[..first] + results[first..end];
      return Results(results[first..end]), trace;
    }

    /** Runs one action with nothing beside it. */
    method ExecuteAlone(actions: seq<Action>, i: nat, before: seq<Event>, results: array<string>)
      returns (answer: Answer, trace: seq<Event>)
      requires Sound(bodies) && i < |actions| == results.Length
      requires Orderly(tools, actions, before) && Covers(before, i)
      modifies this`world, results
      ensures var (t, locals) := LeftToRight(bodies, old(world), Starts(bodies, actions[i..i + 1]));
              world == t && answer == Outcomes(bodies, locals)
      ensures answer.Results? ==> results[..i + 1] == old(results[..i]) + answer.values
      ensures Orderly(tools, actions, trace) && Covers(trace, i + 1)
    {
      hide Sound, LeftToRight, Outcomes, Orderly, Covers, RunAlone;
      RunOne(world, actions, i);
      var local := Execute(actions[i]);
      OneOutcome(local);
      OneRan(tools, actions, before, i);
      trace := before + [Began(i)] + [Ended(i)];
      if bodies.outcome(local).Raised? {
        return Failed(bodies.outcome(local).error), trace;
      }
      results[i] := bodies.outcome(local).text;
      answer := Results([results[i]]);
    }

    /** Answers a batch. `trace` holds the begin and end of every action that ran, `ran` of them. */
    method ExecuteBatch(actions: seq<Action>) returns (answer: Answer, trace: seq<Event>, ran: nat)
      requires Sound(bodies) && SafeToolsCommute(bodies, tools, actions)
      modifies this`world
      ensures (world, answer) == BatchFrom(bodies, tools, old(world), actions)
      ensures Orderly(tools, actions, trace) && Covers(trace, ran) && ran <= |actions|
      ensures answer.Results? ==> ran == |actions|
    {
      hide Sound, SafeToolsCommute, Pending, BatchFrom, LeftToRight, Outcomes, Orderly, Covers, Known, Alone,
        GroupLength, Starts, GroupAt, Complaint, RunAlone;
      ghost var final := BatchFrom(bodies, tools, world, actions);
      var results := new string[|actions|](_ => "");
      var i := 0;
      trace, ran := [], 0;
      NothingYet(bodies, tools, world, actions);
      while i < |actions|
        invariant 0 <= i <= |actions| && ran == i
        invariant Pending(bodies, tools, world, actions[i..], results[..i], final)
        invariant Orderly(tools, actions, trace) && Covers(trace, i)
      {
        ghost var s, done := world, results[..i];
        UnknownEnds(bodies, tools, s, actions, i, done, final);
        if !Known(tools, actions[i]) {
          return Failed(Complaint(actions[i])), trace, ran;
        }
        var end := i + 1;
        if Alone(tools, actions[i].name) {
          ChunkRan(bodies, tools, s, actions, i, end, done, final);
          answer, trace := ExecuteAlone(actions, i, trace, results);
        } else {
          end := GatherGroup(actions, i);
          if end < |actions| && !Known(tools, actions[end]) {
            return Failed(Complaint(actions[end])), trace, ran;
          }
          ChunkRan(bodies, tools, s, actions, i, end, done, final);
          answer, trace := ExecuteGroup(actions, i, end, trace, results);
        }
        ran := end;
        if answer.Failed? {
          return;
        }
        i := end;
      }
      assert results[..i] == results[..];
      AllAnswered(bodies, tools, world, actions, results[..], final);
      return Results(results[..]), trace, ran;
    }

    lemma RunOne(s: S, actions: seq<Action>, i: nat)
      requires Sound(bodies) && i < |actions|
      ensures var (t, local) := RunAlone(bodies, s, bodies.start(actions[i]));
              LeftToRight(bodies, s, Starts(bodies, actions[i..i + 1])) == (t, [local])
    {
      hide RunAlone;
      assert Starts(bodies, actions[i..i + 1]) == [bodies.start(actions[i])];
      var one := [bodies.start(actions[i])];
      var none: seq<L> := [];
      assert one[1..] == none;
      var (t, local) := RunAlone(bodies, s, one[0]);
      assert LeftToRight(bodies, t, none) == (t, none);
      assert [local] + none == [local];
    }

    lemma OneOutcome(local: L)
      ensures Outcomes(bodies, [local]) ==
              match bodies.outcome(local) case Raised(e) => Failed(e) case Value(v) => Results([v])
    {
      var one, none: seq<L> := [local], [];
      assert one[1..] == none;
      assert FirstRaised(bodies, none) == None;
    }
  }

  /** The batch still to run, with the results so far in front, gives `final`. */
  ghost predicate Pending<S(!new), L(!new)>(
    b: Bodies<S, L>, reg: Registry, s: S, rest: seq<Action>, done: seq<string>, final: (S, Answer))
    requires Sound(b)
  {
    var (u, answer) := BatchFrom(b, reg, s, rest);
    final == (u, Prepend(done, answer))
  }

  lemma NothingYet<S(!new), L(!new)>(b: Bodies<S, L>, reg: Registry, s: S, actions: seq<Action>)
    requires Sound(b)
    ensures Pending(b, reg, s, actions[0..], [], BatchFrom(b, reg, s, actions))
    ensures Orderly(reg, actions, []) && Covers([], 0)
  {
    hide BatchFrom;
    assert actions[0..] == actions;
    var answer := BatchFrom(b, reg, s, actions).1;
    assert answer.Results? ==> [] + answer.values == answer.values;
  }

  lemma UnknownEnds<S(!new), L(!new)>(
    b: Bodies<S, L>, reg: Registry, s: S, actions: seq<Action>, i: nat, done: seq<string>, final: (S, Answer))
    requires Sound(b) && i < |actions| && Pending(b, reg, s, actions[i..], done, final)
    ensures !Known(reg, actions[i]) ==> final == (s, Failed(Complaint(actions[i])))
    ensures var end := i + GroupLength(reg, actions[i..]);
            Known(reg, actions[i]) && !Alone(reg, actions[i].name) && end < |actions| && !Known(reg, actions[end]) ==>
              final == (s, Failed(Complaint(actions[end])))
  {
    hide LeftToRight, Outcomes, Alone, Known;
    assert forall k :: 0 <= k < |actions[i..]| ==> actions[i..][k] == actions[i + k];
  }

  /** What is left to do once the actions from `i` to `end` have run. */
  lemma ChunkRan<S(!new), L(!new)>(
    b: Bodies<S, L>, reg: Registry, s: S, actions: seq<Action>, i: nat, end: nat, done: seq<string>, final: (S, Answer))
    requires Sound(b) && i < |actions| && Pending(b, reg, s, actions[i..], done, final) && Known(reg, actions[i])
    requires end == i + ChunkLength(reg, actions[i..]) && end <= |actions|
    requires Alone(reg, actions[i].name) || end == |actions| || Known(reg, actions[end])
    ensures i < end
    ensures var (t, ls) := LeftToRight(b, s, Starts(b, actions[i..end]));
            match Outcomes(b, ls)
            case Failed(e) => final == (t, Failed(e))
            case Results(vs) => Pending(b, reg, t, actions[end..], done + vs, final)
  {
    hide LeftToRight, Outcomes, Alone, Known;
    var rest, n := actions[i..], end - i;
    assert rest[..n] == actions[i..end] && rest[n..] == actions[end..];
    assert n < |rest| ==> rest[n] == actions[end];
    var (t, ls) := LeftToRight(b, s, Starts(b, rest[..n]));
    var chunk, answer := Outcomes(b, ls), BatchFrom(b, reg, t, rest[n..]).1;
    if chunk.Results? && answer.Results? {
      assert done + (chunk.values + answer.values) == (done + chunk.values) + answer.values;
    }
  }

  lemma OneRan(reg: Registry, actions: seq<Action>, trace: seq<Event>, i: nat)
    requires Orderly(reg, actions, trace) && Covers(trace, i) && i < |actions|
    ensures var after := trace + [Began(i)] + [Ended(i)]; Orderly(reg, actions, after) && Covers(after, i + 1)
  {
    hide Orderly, Separated;
    OrderlyAppend(reg, actions, trace, Began(i));
    OrderlyAppend(reg, actions, trace + [Began(i)], Ended(i));
  }

  lemma {:induction false} RaisedAt<S, L>(b: Bodies<S, L>, ls: seq<L>, k: nat)
    requires k < |ls| && b.outcome(ls[k]).Raised?
    requires forall m :: 0 <= m < k ==> !b.outcome(ls[m]).Raised?
    ensures Outcomes(b, ls) == Failed(b.outcome(ls[k]).error)
  {
    if k > 0 { RaisedAt(b, ls[1..], k - 1); }
  }

  lemma {:induction false} AllReturned<S, L>(b: Bodies<S, L>, ls: seq<L>, vs: seq<string>)
    requires |vs| == |ls| && forall m :: 0 <= m < |ls| ==> b.outcome(ls[m]) == Value(vs[m])
    ensures Outcomes(b, ls) == Results(vs)
  {
    if ls != [] { AllReturned(b, ls[1..], vs[1..]); }
  }

  lemma AllAnswered<S(!new), L(!new)>(
    b: Bodies<S, L>, reg: Registry, s: S, actions: seq<Action>, done: seq<string>, final: (S, Answer))
    requires Sound(b) && Pending(b, reg, s, actions[|actions|..], done, final)
    ensures final == (s, Results(done))
  {
    assert done + [] == done;
  }
}
