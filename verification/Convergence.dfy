/** The advisory detector of runs that keep calling tools without answering: it counts task steps, not
    calls, since the last answer. */
module Convergence {
  import opened RepeatGuard
  import opened Text

  datatype Nudge = Silent | Gentle | Insistent(count: nat)

  /** One observed action: the task step set at that time, if any, and whether it was an answer. */
  datatype Seen = Seen(step: Option<int>, terminal: bool)

  predicate IsTerminal(name: string) {
    name == "final_answer" || name == "done"
  }

  /** Steps that passed since the last action that had a step, at least one. */
  function Passed(last: Option<int>, step: Option<int>): nat {
    if last.Some? && step.Some? && step.value > last.value then step.value - last.value else 1
  }

  /** The step the next count starts from. */
  function Anchor(seen: seq<Seen>): Option<int> {
    if seen == [] then None
    else
      var s := seen[|seen| - 1];
      if s.terminal || s.step.Some? then s.step else Anchor(seen[..|seen| - 1])
  }

  /** What the guard has counted after these observations. */
  function Counted(seen: seq<Seen>): nat {
    if seen == [] || seen[|seen| - 1].terminal then 0
    else
      var before := seen[..|seen| - 1];
      Counted(before) + Passed(Anchor(before), seen[|seen| - 1].step)
  }

  function NudgeFor(thresholds: seq<nat>, count: nat): Nudge
    requires thresholds != []
  {
    if count !in thresholds then Silent else if count == Least(thresholds) then Gentle else Insistent(count)
  }

  class NonConvergenceGuard {
    const thresholds: seq<nat>
    var count: nat
    var lastStep: Option<int>
    var step: Option<int>
    ghost var seen: seq<Seen>  // observed since the last reset

    ghost predicate Consistent()
      reads this
    {
      GoodThresholds(thresholds) && count == Counted(seen) && lastStep == Anchor(seen)
    }

    constructor (thresholds: seq<nat>)
      requires GoodThresholds(thresholds)
      ensures Consistent() && seen == [] && step == None && this.thresholds == thresholds
    {
      this.thresholds := thresholds;
      count, lastStep, step, seen := 0, None, None, [];
    }

    method Reset()
      requires Consistent()
      modifies this
      ensures Consistent() && seen == [] && step == None
    {
      count, lastStep, step, seen := 0, None, None, [];
    }

    method SetStep(s: int)
      requires Consistent()
      modifies this`step
      ensures Consistent() && step == Some(s)
    {
      step := Some(s);
    }

    method Observe(name: string) returns (nudge: Nudge)
      requires Consistent()
      modifies this`count, this`lastStep, this`seen
      ensures Consistent()
      ensures seen == old(seen) + [Seen(step, name == "final_answer" || name == "done")]
      ensures nudge == NudgeAt(thresholds, seen)
    {
      seen := seen + [Seen(step, IsTerminal(name))];
      assert seen[..|seen| - 1] == old(seen);
      if IsTerminal(name) {
        count, lastStep := 0, step;
        return Silent;
      }
      var delta :=
        if lastStep.Some? && step.Some? && step.value > lastStep.value then step.value - lastStep.value else 1;
      count := count + delta;
      if step.Some? {
        lastStep := step;
      }
      if count !in thresholds {
        return Silent;
      }
      nudge := if count == Least(thresholds) then Gentle else Insistent(count);
    }
  }

  // ---- What is counted ----

  /** From `k` on no answer came and the task step rose from each action to the next. */
  predicate Rising(seen: seq<Seen>, k: nat) {
    && (forall i :: k <= i < |seen| ==> !seen[i].terminal && seen[i].step.Some?)
    && (forall i, j :: k <= i < j < |seen| ==> seen[i].step.value < seen[j].step.value)
  }

  /** The count is the number of task steps since the last answer, however many of them were skipped;
      without an answer so far it is those since the first action, and one. */
  lemma {:induction false} CountIsStepsTaken(seen: seq<Seen>, k: nat)
    requires k < |seen| && Rising(seen, k)
    requires k > 0 ==> seen[k - 1].terminal && seen[k - 1].step.Some? && seen[k - 1].step.value < seen[k].step.value
    ensures var now := seen[|seen| - 1].step.value;
            Counted(seen) == if k == 0 then now - seen[0].step.value + 1 else now - seen[k - 1].step.value
    ensures Anchor(seen) == seen[|seen| - 1].step
    decreases |seen|
  {
    var n := |seen| - 1;
    var before := seen[..n];
    if k < n {
      assert seen[n - 1].step.value < seen[n].step.value;
      CountIsStepsTaken(before, k);
    } else if k > 0 {
      assert before[n - 1] == seen[k - 1];
    }
  }

  /** Whatever steps are set, no action since the last answer goes uncounted. */
  lemma {:induction false} NoActionGoesUncounted(seen: seq<Seen>, k: nat)
    requires k <= |seen| && forall i :: k <= i < |seen| ==> !seen[i].terminal
    ensures Counted(seen) >= |seen| - k
    decreases |seen|
  {
    if k < |seen| { NoActionGoesUncounted(seen[..|seen| - 1], k); }
  }

  // ---- Thresholds that are jumped over ----

  /** The notice that the guard gives at the last of these observations. */
  function NudgeAt(thresholds: seq<nat>, seen: seq<Seen>): Nudge
    requires thresholds != [] && seen != []
  {
    if seen[|seen| - 1].terminal then Silent else NudgeFor(thresholds, Counted(seen))
  }

  /** Only an action that is no answer and takes the count to a threshold gets a notice: a gentle one at the
      smallest threshold, one that says the count at the others. */
  lemma NudgeMeans(thresholds: seq<nat>, seen: seq<Seen>)
    requires thresholds != [] && seen != []
    ensures var n, nudge := Counted(seen), NudgeAt(thresholds, seen);
            if seen[|seen| - 1].terminal || n !in thresholds then nudge == Silent
            else if forall t :: t in thresholds ==> n <= t then nudge == Gentle
            else nudge == Insistent(n)
  {
    hide Counted, Least;
    LeastIs(thresholds);
  }

  /** The last of these observations takes the count over some threshold. */
  ghost predicate Crosses(thresholds: seq<nat>, seen: seq<Seen>)
    requires seen != []
  {
    exists t :: t in thresholds && Counted(seen[..|seen| - 1]) < t <= Counted(seen)
  }

  /** Each crossing along these observations gets its notice when it happens. */
  ghost predicate Noticed(thresholds: seq<nat>, seen: seq<Seen>)
    requires thresholds != []
  {
    forall k :: 0 < k <= |seen| && Crosses(thresholds, seen[..k]) ==> NudgeAt(thresholds, seen[..k]) != Silent
  }

  /** No counted action passes more than `longest` task steps. */
  predicate StepsAtMost(seen: seq<Seen>, longest: nat) {
    forall k :: 0 <= k < |seen| && !seen[k].terminal ==> Passed(Anchor(seen[..k]), seen[k].step) <= longest
  }

  lemma {:induction false} Greatest(ts: seq<nat>) returns (t: nat)
    requires ts != []
    ensures t in ts && forall u :: u in ts ==> u <= t
  {
    if |ts| == 1 {
      t := ts[0];
    } else {
      assert ts == [ts[0]] + ts[1..];
      t := Greatest(ts[1..]);
      if ts[0] > t { t := ts[0]; }
    }
  }

  lemma CountedNext(seen: seq<Seen>, s: Seen)
    ensures Counted(seen + [s]) == if s.terminal then 0 else Counted(seen) + Passed(Anchor(seen), s.step)
    ensures Anchor(seen + [s]) == if s.terminal || s.step.Some? then s.step else Anchor(seen)
  {
    assert (seen + [s])[..|seen|] == seen;
  }

  /** One step at a time a crossing lands on its threshold. */
  lemma SingleStepsAreNoticed(thresholds: seq<nat>, seen: seq<Seen>)
    requires GoodThresholds(thresholds) && StepsAtMost(seen, 1)
    ensures Noticed(thresholds, seen)
  {
    hide Distinct, Crosses, NudgeAt, Passed, Anchor;
    forall k | 0 < k <= |seen| && Crosses(thresholds, seen[..k]) ensures NudgeAt(thresholds, seen[..k]) != Silent {
      assert seen[..k] == seen[..k - 1] + [seen[k - 1]];
      SingleStepIsNoticed(thresholds, seen[..k - 1], seen[k - 1]);
    }
  }

  lemma SingleStepIsNoticed(thresholds: seq<nat>, before: seq<Seen>, s: Seen)
    requires thresholds != [] && (!s.terminal ==> Passed(Anchor(before), s.step) <= 1)
    ensures Crosses(thresholds, before + [s]) ==> NudgeAt(thresholds, before + [s]) != Silent
  {
    hide Counted, Anchor, Passed, Least;
    CountedNext(before, s);
    assert (before + [s])[..|before|] == before;
  }

  /** `n` actions before any step is set. */
  function Unset(n: nat): seq<Seen> {
    seq(n, i => Seen(None, false))
  }

  lemma {:induction false} CountUnset(n: nat)
    ensures Counted(Unset(n)) == n && Anchor(Unset(n)) == None
    decreases n
  {
    if n > 0 {
      CountUnset(n - 1);
      assert Unset(n) == Unset(n - 1) + [Seen(None, false)];
      CountedNext(Unset(n - 1), Seen(None, false));
    }
  }

  /** Up to one below the threshold, and then two steps on. */
  function Skipping(t: nat): seq<Seen>
    requires t >= 2
  {
    Unset(t - 2) + [Seen(Some(0), false)] + [Seen(Some(2), false)]
  }

  lemma SkippedIsUnnoticed(thresholds: seq<nat>, t: nat)
    requires GoodThresholds(thresholds) && t in thresholds && t + 1 !in thresholds && t >= 2
    ensures StepsAtMost(Skipping(t), 2) && !Noticed(thresholds, Skipping(t))
  {
    var start := Unset(t - 2);
    var near, seen := start + [Seen(Some(0), false)], Skipping(t);
    CountUnset(t - 2);
    CountedNext(start, Seen(Some(0), false));
    CountedNext(near, Seen(Some(2), false));
    forall k | 0 <= k < |seen| ensures Passed(Anchor(seen[..k]), seen[k].step) <= 2 {
      if k < t - 2 {
        assert seen[k].step == None;
      } else if k == t - 2 {
        assert seen[..k] == start;
      } else {
        assert seen[..k] == near;
      }
    }
    assert seen[..|seen|] == seen && seen[..|seen| - 1] == near;
    assert Counted(near) == t - 1 && Counted(seen) == t + 1;
    assert Crosses(thresholds, seen[..|seen|]) && NudgeAt(thresholds, seen[..|seen|]) == Silent;
  }

  /** Whatever is observed, every crossing of a threshold gets its notice exactly when no counted action
      can pass more than one step: the guard compares for equality, so a threshold in the middle of a
      longer step goes unnoticed. */
  lemma CrossingsAreNoticedIff(thresholds: seq<nat>, longest: nat)
    requires GoodThresholds(thresholds)
    ensures (forall seen :: StepsAtMost(seen, longest) ==> Noticed(thresholds, seen)) <==> longest <= 1
  {
    hide StepsAtMost, Noticed;
    if longest <= 1 {
      forall seen | StepsAtMost(seen, longest) ensures Noticed(thresholds, seen) {
        LongerSteps(seen, longest, 1);
        SingleStepsAreNoticed(thresholds, seen);
      }
    } else {
      var t := Greatest(thresholds);
      SkippedIsUnnoticed(thresholds, t);
      LongerSteps(Skipping(t), 2, longest);
      assert StepsAtMost(Skipping(t), longest) && !Noticed(thresholds, Skipping(t));
    }
  }

  lemma LongerSteps(seen: seq<Seen>, m: nat, n: nat)
    requires StepsAtMost(seen, m) && m <= n
    ensures StepsAtMost(seen, n)
  {
  }
}
