/** The coordinator object: it walks over a goal's subtasks, one worker at a time. */
module Coordinator {
  import opened Goals
  import opened Text

  /** The stored goals other than `id` are untouched. */
  ghost predicate SameOthers(before: map<string, Goal>, after: map<string, Goal>, id: string) {
    forall other :: other != id ==>
      (other in after <==> other in before) && (other in before ==> after[other] == before[other])
  }

  class GoalCoordinator {
    var stored: map<string, Goal>
    var saves: seq<Goal>      // every copy saved, oldest first
    var executed: seq<nat>    // subtasks an agent ran for, oldest first

    constructor ()
      ensures stored == map[] && saves == [] && executed == []
    {
      stored, saves, executed := map[], [], [];
    }

    method Save(goal: Goal)
      modifies this`stored, this`saves
      ensures stored == old(stored)[goal.id := goal] && saves == old(saves) + [goal]
    {
      stored, saves := stored[goal.id := goal], saves + [goal];
    }

    /** The worker: it loads its own copy of the goal, and saves that copy with its result in it. Loading a
        goal that is not stored raises. */
    method SubtaskJob(goalId: string, subtaskId: string, outcomes: nat -> Outcome) returns (report: Option<Outcome>)
      requires goalId in stored ==> stored[goalId].id == goalId && IdsDistinct(stored[goalId])
      modifies this
      ensures goalId in old(stored) ==>
        forall i :: 0 <= i < |old(stored)[goalId].subtasks| && old(stored)[goalId].subtasks[i].id == subtaskId ==>
          && report == Some(outcomes(i))
          && stored == old(stored)[goalId := Record(old(stored)[goalId], i, outcomes(i))]
          && saves == old(saves) + [Record(old(stored)[goalId], i, outcomes(i))]
          && executed == old(executed) + [i]
      ensures (&& goalId in old(stored)
               && forall i :: 0 <= i < |old(stored)[goalId].subtasks| ==>
                    old(stored)[goalId].subtasks[i].id != subtaskId) ==>
        && report == Some(Outcome(false, "subtask not found"))
        && stored == old(stored) && saves == old(saves) && executed == old(executed)
      ensures goalId !in old(stored) ==>
        report == None && stored == old(stored) && saves == old(saves) && executed == old(executed)
    {
      if goalId !in stored {
        return None;
      }
      var goal := stored[goalId];
      var i := 0;
      while i < |goal.subtasks| && goal.subtasks[i].id != subtaskId
        invariant 0 <= i <= |goal.subtasks|
        invariant forall k :: 0 <= k < i ==> goal.subtasks[k].id != subtaskId
      {
        i := i + 1;
      }
      if i == |goal.subtasks| {
        return Some(Outcome(false, "subtask not found"));
      }
      report := Some(outcomes(i));
      executed := executed + [i];
      Save(Record(goal, i, outcomes(i)));
    }

    method ExecuteSubtask(goal: Goal, i: nat, outcomes: nat -> Outcome) returns (after: Goal)
      requires i < |goal.subtasks| && IdsDistinct(goal)
      modifies this
      ensures after == Executed(goal, i, outcomes(i)) && IdsDistinct(after)
      ensures stored == old(stored)[goal.id := after]
      ensures saves == old(saves) + [Mark(goal, i), Record(Mark(goal, i), i, outcomes(i)), after]
      ensures executed == old(executed) + [i]
    {
      var marked := Mark(goal, i);
      Save(marked);
      var report := SubtaskJob(goal.id, marked.subtasks[i].id, outcomes);
      assert report == Some(outcomes(i));
      after := Record(marked, i, report.value).(state := BetweenSubtasks);
      Save(after);
    }

    method WalkSubtasks(goal: Goal, outcomes: nat -> Outcome) returns (after: Goal)
      requires IdsDistinct(goal)
      modifies this
      ensures after == Walk(goal, 0, outcomes).goal && after.id == goal.id && IdsDistinct(after)
      ensures saves == old(saves) + Walk(goal, 0, outcomes).saves
      ensures executed == old(executed) + Walk(goal, 0, outcomes).executed
      ensures SameOthers(old(stored), stored, goal.id)
    {
      hide Executed, IsOpen, IdsDistinct;
      ghost var trip := Walk(goal, 0, outcomes);
      after := goal;
      var i := 0;
      assert saves + trip.saves == old(saves) + trip.saves;
      while i < |after.subtasks|
        invariant 0 <= i <= |after.subtasks| && after.id == goal.id && IdsDistinct(after)
        invariant var rest := Walk(after, i, outcomes);
                  && trip.goal == rest.goal
                  && saves + rest.saves == old(saves) + trip.saves
                  && executed + rest.executed == old(executed) + trip.executed
        invariant SameOthers(old(stored), stored, goal.id)
      {
        if IsOpen(after.subtasks[i]) {
          ExecutedKeepsId(after, i, outcomes(i));
          ghost var before, ran := saves, executed;
          ghost var later := Walk(Executed(after, i, outcomes(i)), i + 1, outcomes);
          ghost var three := [Mark(after, i), Record(Mark(after, i), i, outcomes(i)), Executed(after, i, outcomes(i))];
          after := ExecuteSubtask(after, i, outcomes);
          assert saves == before + three;
          assert (before + three) + later.saves == before + (three + later.saves);
          assert (ran + [i]) + later.executed == ran + ([i] + later.executed);
        }
        i := i + 1;
      }
      assert Walk(after, i, outcomes) == Trip(after, [], []);
    }

    /** Runs the open subtasks of a stored goal, or raises KeyError. */
    method Resume(id: string, outcomes: nat -> Outcome) returns (r: Option<Goal>)
      requires Valid()
      modifies this
      ensures Valid() && SameOthers(old(stored), stored, id)
      ensures id !in old(stored) ==>
              r == None && stored == old(stored) && saves == old(saves) && executed == old(executed)
      ensures id in old(stored) ==>
        var trip := Walk(old(stored)[id], 0, outcomes);
        && r == Some(Conclude(trip.goal)) && id in stored && stored[id] == r.value
        && saves == old(saves) + trip.saves + [r.value]
        && executed == old(executed) + trip.executed
    {
      hide Walk, IdsDistinct;
      if id !in stored {
        return None;
      }
      var goal := WalkSubtasks(stored[id], outcomes);
      ConcludeKeepsIds(goal);
      goal := Conclude(goal);
      Save(goal);
      return Some(goal);
    }

    /** Puts the failed subtasks back to pending, saves, and resumes. */
    method Retry(id: string, outcomes: nat -> Outcome) returns (r: Option<Goal>)
      requires Valid()
      modifies this
      ensures Valid() && SameOthers(old(stored), stored, id)
      ensures id !in old(stored) ==>
              r == None && stored == old(stored) && saves == old(saves) && executed == old(executed)
      ensures id in old(stored) ==>
        var reset := ResetFailed(old(stored)[id]);
        var trip := Walk(reset, 0, outcomes);
        && r == Some(Conclude(trip.goal)) && id in stored && stored[id] == r.value
        && saves == old(saves) + [reset] + trip.saves + [r.value]
        && executed == old(executed) + trip.executed
    {
      hide Walk, IdsDistinct, Conclude;
      if id !in stored {
        return None;
      }
      var goal, i := stored[id], 0;
      ghost var reset := ResetFailed(goal);
      while i < |goal.subtasks|
        invariant 0 <= i <= |goal.subtasks| == |reset.subtasks|
        invariant goal == old(stored)[id].(subtasks := goal.subtasks)
        invariant forall k :: 0 <= k < |goal.subtasks| ==>
          goal.subtasks[k] == if k < i then reset.subtasks[k] else old(stored)[id].subtasks[k]
      {
        var t := goal.subtasks[i];
        if t.status == Failed {
          goal := goal.(subtasks := goal.subtasks[i := t.(status := Pending, result := "")]);
        }
        i := i + 1;
      }
      assert goal.subtasks == reset.subtasks;
      ResetKeepsIds(old(stored)[id]);
      Save(goal);
      r := Resume(id, outcomes);
    }

    /** A fresh goal up to its first subtask: the four copies that creating and planning it save. */
    method PlanGoal(id: string, description: string, plan: seq<string>, ids: nat -> string) returns (goal: Goal)
      requires Valid() && forall i: nat, j: nat :: i < j ==> ids(i) != ids(j)
      modifies this`stored, this`saves
      ensures Valid() && SameOthers(old(stored), stored, id) && IdsDistinct(goal)
      ensures goal == FirstSaves(id, description, plan, ids)[3] && goal.id == id
      ensures saves == old(saves) + FirstSaves(id, description, plan, ids)
    {
      hide FirstSaves;
      goal := Goal(id, description, NotStarted, []);
      Save(goal);
      goal := goal.(state := Planning);
      Save(goal);
      var steps := plan;
      if steps == [] {
        steps := [description];
      }
      goal := goal.(subtasks := seq(|steps|, i requires 0 <= i < |steps| => Subtask(ids(i), steps[i], Pending, "")));
      Save(goal);
      goal := goal.(state := Running);
      Save(goal);
      FourSaves(id, description, plan, ids, goal.subtasks);
    }

    lemma FourSaves(id: string, description: string, plan: seq<string>, ids: nat -> string, subtasks: seq<Subtask>)
      requires var steps := Steps(plan, description);
               subtasks == seq(|steps|, i requires 0 <= i < |steps| => Subtask(ids(i), steps[i], Pending, ""))
      ensures FirstSaves(id, description, plan, ids) ==
              [Goal(id, description, NotStarted, [])] + [Goal(id, description, Planning, [])] +
              [Goal(id, description, Planning, subtasks)] + [Goal(id, description, Running, subtasks)]
    {
      var steps := Steps(plan, description);
      assert subtasks == Planned(id, description, steps, ids).subtasks;
    }

    /** A fresh goal: created, planned, walked over and concluded. */
    method RunGoal(id: string, description: string, plan: seq<string>, ids: nat -> string, outcomes: nat -> Outcome)
      returns (r: Goal)
      requires Valid() && forall i: nat, j: nat :: i < j ==> ids(i) != ids(j)
      modifies this
      ensures Valid() && SameOthers(old(stored), stored, id)
      ensures var first := FirstSaves(id, description, plan, ids);
              var trip := Walk(first[3], 0, outcomes);
              && r == Conclude(trip.goal) && id in stored && stored[id] == r
              && executed == old(executed) + trip.executed
              && saves == old(saves) + first + trip.saves + [r]
    {
      hide Walk, Conclude, FirstSaves, IdsDistinct;
      var goal := PlanGoal(id, description, plan, ids);
      r := WalkSubtasks(goal, outcomes);
      ConcludeKeepsIds(r);
      r := Conclude(r);
      Save(r);
    }

    /** Every goal is stored under its own id, and its subtasks' ids differ. */
    ghost predicate Valid()
      reads this
    {
      forall id :: id in stored ==> stored[id].id == id && IdsDistinct(stored[id])
    }

    lemma ConcludeKeepsIds(g: Goal)
      requires IdsDistinct(g)
      ensures IdsDistinct(Conclude(g)) && Conclude(g).id == g.id
    {
    }

    lemma ResetKeepsIds(g: Goal)
      requires IdsDistinct(g)
      ensures IdsDistinct(ResetFailed(g))
    {
    }

    lemma ExecutedKeepsId(g: Goal, i: nat, o: Outcome)
      requires i < |g.subtasks|
      ensures Executed(g, i, o).id == g.id && |Executed(g, i, o).subtasks| == |g.subtasks|
    {
    }
  }
}
