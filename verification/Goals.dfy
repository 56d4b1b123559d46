/** Long goals: a coordinator and a worker that share one stored goal, saving whole copies of it. */
module Goals {

  datatype Status = Pending | InProgress | Done | Failed

  datatype GoalState = NotStarted | Planning | Running | BetweenSubtasks | GoalDone | GoalFailed

  datatype Subtask = Subtask(id: string, description: string, status: Status, result: string)

  datatype Goal = Goal(id: string, description: string, state: GoalState, subtasks: seq<Subtask>)

  /** What the agent made of one subtask: an error in its history or its last result, or neither. */
  datatype Outcome = Outcome(ok: bool, result: string)

  predicate IsOpen(t: Subtask) {
    t.status == Pending || t.status == Failed
  }

  function Settled(t: Subtask, o: Outcome): Subtask {
    t.(status := if o.ok then Done else Failed, result := o.result)
  }

  function Mark(g: Goal, i: nat): Goal
    requires i < |g.subtasks|
  {
    g.(state := Running, subtasks := g.subtasks[i := g.subtasks[i].(status := InProgress)])
  }

  function Record(g: Goal, i: nat, o: Outcome): Goal
    requires i < |g.subtasks|
  {
    g.(subtasks := g.subtasks[i := Settled(g.subtasks[i], o)])
  }

  function Conclude(g: Goal): Goal {
    g.(state := if exists i :: 0 <= i < |g.subtasks| && g.subtasks[i].status == Failed then GoalFailed else GoalDone)
  }

  predicate IdsDistinct(g: Goal) {
    forall i, j :: 0 <= i < j < |g.subtasks| ==> g.subtasks[i].id != g.subtasks[j].id
  }

  // ---- What one walk over the subtasks does ----

  datatype Trip = Trip(goal: Goal, saves: seq<Goal>, executed: seq<nat>)

  function Executed(g: Goal, i: nat, o: Outcome): Goal
    requires i < |g.subtasks|
  {
    Record(Mark(g, i), i, o).(state := BetweenSubtasks)
  }

  /** Executes the open subtasks from `i` on. */
  function Walk(g: Goal, i: nat, outcomes: nat -> Outcome): Trip
    requires i <= |g.subtasks|
    decreases |g.subtasks| - i
  {
    if i == |g.subtasks| then Trip(g, [], [])
    else if !IsOpen(g.subtasks[i]) then Walk(g, i + 1, outcomes)
    else
      var marked := Mark(g, i);
      var recorded := Record(marked, i, outcomes(i));
      var after := Executed(g, i, outcomes(i));
      var rest := Walk(after, i + 1, outcomes);
      Trip(rest.goal, [marked, recorded, after] + rest.saves, [i] + rest.executed)
  }

  function Reset(t: Subtask): Subtask {
    if t.status == Failed then t.(status := Pending, result := "") else t
  }

  function ResetFailed(g: Goal): Goal {
    g.(subtasks := seq(|g.subtasks|, i requires 0 <= i < |g.subtasks| => Reset(g.subtasks[i])))
  }

  function Steps(plan: seq<string>, description: string): seq<string> {
    if plan == [] then [description] else plan
  }

  function Planned(id: string, description: string, steps: seq<string>, ids: nat -> string): Goal {
    Goal(id, description, Planning, seq(|steps|, i requires 0 <= i < |steps| => Subtask(ids(i), steps[i], Pending, "")))
  }

  /** The copies saved before the first subtask of a fresh goal runs. */
  function FirstSaves(id: string, description: string, plan: seq<string>, ids: nat -> string): (saves: seq<Goal>)
    ensures |saves| == 4
  {
    var planned := Planned(id, description, Steps(plan, description), ids);
    [planned.(state := NotStarted, subtasks := []), planned.(subtasks := []), planned, planned.(state := Running)]
  }

  // ---- Theorems ----

  /** A walk settles each open subtask with its own outcome and leaves every other one as it was. */
  lemma {:induction false} WalkSettles(g: Goal, i: nat, outcomes: nat -> Outcome)
    requires i <= |g.subtasks|
    ensures var h := Walk(g, i, outcomes).goal;
            && |h.subtasks| == |g.subtasks| && h.id == g.id && h.description == g.description
            && forall k :: 0 <= k < |g.subtasks| ==>
                 var t := g.subtasks[k];
                 h.subtasks[k] ==
                 if k >= i && (t.status == Pending || t.status == Failed) then
                   t.(status := if outcomes(k).ok then Done else Failed, result := outcomes(k).result)
                 else t
    decreases |g.subtasks| - i
  {
    if i < |g.subtasks| {
      if IsOpen(g.subtasks[i]) {
        WalkSettles(Executed(g, i, outcomes(i)), i + 1, outcomes);
      } else {
        WalkSettles(g, i + 1, outcomes);
      }
    }
  }

  /** It executes exactly the open subtasks, each once, in order. */
  lemma {:induction false} WalkExecutes(g: Goal, i: nat, outcomes: nat -> Outcome)
    requires i <= |g.subtasks|
    ensures var ex := Walk(g, i, outcomes).executed;
            && (forall k: nat :: k in ex <==>
                  i <= k < |g.subtasks| && (g.subtasks[k].status == Pending || g.subtasks[k].status == Failed))
            && (forall a, b :: 0 <= a < b < |ex| ==> ex[a] < ex[b])
    decreases |g.subtasks| - i
  {
    if i < |g.subtasks| {
      if IsOpen(g.subtasks[i]) {
        var after := Executed(g, i, outcomes(i));
        WalkExecutes(after, i + 1, outcomes);
        var rest := Walk(after, i + 1, outcomes).executed;
        assert forall k: nat :: k in [i] + rest <==> k == i || k in rest;
        assert forall b :: 0 <= b < |rest| ==> rest[b] in rest;
      } else {
        WalkExecutes(g, i + 1, outcomes);
      }
    }
  }

  /** These three copies show subtask `k` under way, then what came of it, and then the goal between subtasks. */
  ghost predicate ShowsRun(under: Goal, over: Goal, between: Goal, k: nat, o: Outcome) {
    && k < |under.subtasks| && k < |over.subtasks|
    && under.state == Running && under.subtasks[k].status == InProgress
    && over.state == Running && over.subtasks[k].status == (if o.ok then Done else Failed)
    && over.subtasks[k].result == o.result
    && between == over.(state := BetweenSubtasks)
  }

  /** Each execution is saved as it begins, as it ends, and once more before the next. */
  lemma {:induction false} EachRunIsSaved(g: Goal, i: nat, outcomes: nat -> Outcome)
    requires i <= |g.subtasks|
    ensures var trip := Walk(g, i, outcomes); var n := |trip.executed|;
            && |trip.saves| == 3 * n
            && forall j :: 0 <= j < n ==>
                 ShowsRun(trip.saves[3 * j], trip.saves[3 * j + 1], trip.saves[3 * j + 2],
                          trip.executed[j], outcomes(trip.executed[j]))
    decreases |g.subtasks| - i
  {
    if i < |g.subtasks| {
      if IsOpen(g.subtasks[i]) {
        var after := Executed(g, i, outcomes(i));
        EachRunIsSaved(after, i + 1, outcomes);
        var trip, rest := Walk(g, i, outcomes), Walk(after, i + 1, outcomes);
        assert ShowsRun(trip.saves[0], trip.saves[1], trip.saves[2], i, outcomes(i));
        forall j | 0 < j < |trip.executed|
          ensures ShowsRun(trip.saves[3 * j], trip.saves[3 * j + 1], trip.saves[3 * j + 2],
                           trip.executed[j], outcomes(trip.executed[j]))
        {
          assert trip.saves[3 * j] == rest.saves[3 * (j - 1)] && trip.executed[j] == rest.executed[j - 1];
        }
      } else {
        EachRunIsSaved(g, i + 1, outcomes);
      }
    }
  }

  /** Everything before `p` is over, everything after it has not begun. */
  ghost predicate OneAtATime(g: Goal, p: nat) {
    && p <= |g.subtasks|
    && (forall k :: 0 <= k < p ==> g.subtasks[k].status == Done || g.subtasks[k].status == Failed)
    && (forall k :: p < k < |g.subtasks| ==> g.subtasks[k].status == Pending)
  }

  ghost predicate Orderly(g: Goal) {
    exists p: nat :: OneAtATime(g, p)
  }

  ghost predicate AllPendingFrom(g: Goal, i: nat) {
    forall k :: i <= k < |g.subtasks| ==> g.subtasks[k].status == Pending
  }

  /** On a fresh goal every saved copy has at most one subtask in progress, finished ones before it
      and untouched ones after it. */
  lemma {:induction false} FreshSavesAreOrderly(g: Goal, i: nat, outcomes: nat -> Outcome)
    requires i <= |g.subtasks| && AllPendingFrom(g, i) && OneAtATime(g, i)
    ensures forall s :: s in Walk(g, i, outcomes).saves ==> Orderly(s)
    decreases |g.subtasks| - i
  {
    if i < |g.subtasks| {
      var after := Executed(g, i, outcomes(i));
      assert OneAtATime(Mark(g, i), i) && OneAtATime(Record(Mark(g, i), i, outcomes(i)), i);
      assert OneAtATime(after, i + 1);
      FreshSavesAreOrderly(after, i + 1, outcomes);
    }
  }

  ghost predicate OneChange(a: Goal, b: Goal) {
    && |a.subtasks| == |b.subtasks| && a.id == b.id && a.description == b.description
    && exists p: nat :: ChangesOnly(a, b, p)
  }

  ghost predicate ChangesOnly(a: Goal, b: Goal, p: nat) {
    forall k :: 0 <= k < |a.subtasks| && k < |b.subtasks| && k != p ==> a.subtasks[k] == b.subtasks[k]
  }

  ghost predicate NoLostUpdate(first: Goal, saves: seq<Goal>) {
    forall k :: 0 <= k < |saves| ==> OneChange(Previous(first, saves, k), saves[k])
  }

  /** What is stored when the `k`-th save comes. */
  function Previous(first: Goal, saves: seq<Goal>, k: nat): Goal
    requires k < |saves|
  {
    if k == 0 then first else saves[k - 1]
  }

  /** Coordinator and worker save by turns, and each save carries over everything stored so far
      but the one subtask it is about. */
  lemma {:induction false} SavesLoseNothing(g: Goal, i: nat, outcomes: nat -> Outcome)
    requires i <= |g.subtasks|
    ensures NoLostUpdate(g, Walk(g, i, outcomes).saves)
    decreases |g.subtasks| - i
  {
    if i < |g.subtasks| {
      if IsOpen(g.subtasks[i]) {
        var marked := Mark(g, i);
        var recorded := Record(marked, i, outcomes(i));
        var after := Executed(g, i, outcomes(i));
        assert ChangesOnly(g, marked, i) && ChangesOnly(marked, recorded, i) && ChangesOnly(recorded, after, i);
        SavesLoseNothing(after, i + 1, outcomes);
        var rest := Walk(after, i + 1, outcomes).saves;
        var all := [marked, recorded, after] + rest;
        forall k | 0 <= k < |all| ensures OneChange(Previous(g, all, k), all[k]) {
          if k >= 3 {
            assert OneChange(Previous(after, rest, k - 3), rest[k - 3]);
          }
        }
      } else {
        SavesLoseNothing(g, i + 1, outcomes);
      }
    }
  }

  ghost predicate AllDone(g: Goal) {
    forall k :: 0 <= k < |g.subtasks| ==> g.subtasks[k].status == Done
  }

  ghost predicate NoneInProgress(g: Goal) {
    forall k :: 0 <= k < |g.subtasks| ==> g.subtasks[k].status != InProgress
  }

  /** A fresh run ends "done" exactly when every subtask is done, and "failed" otherwise. */
  lemma FreshDoneIffAllDone(g: Goal, outcomes: nat -> Outcome)
    requires AllPendingFrom(g, 0)
    ensures var h := Conclude(Walk(g, 0, outcomes).goal);
            && (h.state == GoalDone <==> AllDone(h))
            && (h.state == GoalFailed <==> !AllDone(h))
  {
    WalkSettles(g, 0, outcomes);
  }

  ghost predicate DoneMeansAllDone(g: Goal) {
    forall outcomes :: Conclude(Walk(g, 0, outcomes).goal).state == GoalDone ==> AllDone(Walk(g, 0, outcomes).goal)
  }

  function Succeed(k: nat): Outcome {
    Outcome(true, "")
  }

  /** A resumed goal that ends "done" has all its subtasks done, whatever the agent does, exactly
      when none had been left in progress: such a subtask is neither run again nor a failure. */
  lemma ResumeDoneIff(g: Goal)
    ensures DoneMeansAllDone(g) <==> NoneInProgress(g)
  {
    if NoneInProgress(g) {
      forall outcomes | Conclude(Walk(g, 0, outcomes).goal).state == GoalDone
        ensures AllDone(Walk(g, 0, outcomes).goal)
      {
        WalkSettles(g, 0, outcomes);
      }
    } else {
      WalkSettles(g, 0, Succeed);
      var k :| 0 <= k < |g.subtasks| && g.subtasks[k].status == InProgress;
      assert Walk(g, 0, Succeed).goal.subtasks[k].status == InProgress;
    }
  }

  /** A retry never runs a done subtask again and never changes its result; every failed or
      pending one gets exactly one new outcome. */
  lemma RetryKeepsDone(g: Goal, outcomes: nat -> Outcome, k: nat)
    requires k < |g.subtasks|
    ensures var trip := Walk(ResetFailed(g), 0, outcomes);
            && |trip.goal.subtasks| == |g.subtasks|
            && (g.subtasks[k].status == Done ==> trip.goal.subtasks[k] == g.subtasks[k] && k !in trip.executed)
            && (g.subtasks[k].status == Pending || g.subtasks[k].status == Failed ==>
                  && k in trip.executed
                  && trip.goal.subtasks[k] == g.subtasks[k].(status := if outcomes(k).ok then Done else Failed,
                                                             result := outcomes(k).result))
  {
    WalkSettles(ResetFailed(g), 0, outcomes);
    WalkExecutes(ResetFailed(g), 0, outcomes);
  }

  /** Retrying a goal whose subtasks are all done runs nothing and changes nothing. */
  lemma RetryOfDoneRunsNothing(g: Goal, outcomes: nat -> Outcome)
    requires AllDone(g)
    ensures Walk(ResetFailed(g), 0, outcomes) == Trip(g, [], [])
  {
    assert ResetFailed(g).subtasks == g.subtasks;
    NothingOpen(g, 0, outcomes);
  }

  lemma {:induction false} NothingOpen(g: Goal, i: nat, outcomes: nat -> Outcome)
    requires AllDone(g) && i <= |g.subtasks|
    ensures Walk(g, i, outcomes) == Trip(g, [], [])
    decreases |g.subtasks| - i
  {
    if i < |g.subtasks| { NothingOpen(g, i + 1, outcomes); }
  }
}
