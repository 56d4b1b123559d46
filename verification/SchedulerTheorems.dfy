/** What holds in every interleaving of the scheduler's events. */
module SchedulerTheorems {
  import opened Jobs
  import opened Text

  // ---- Counting ----

  function Tally<T>(s: seq<T>, p: T -> bool): nat
    decreases |s|
  {
    if s == [] then 0 else Tally(s[..|s| - 1], p) + if p(s[|s| - 1]) then 1 else 0
  }

  lemma {:induction false} TallyUpdate<T>(s: seq<T>, i: nat, x: T, p: T -> bool)
    requires i < |s|
    ensures Tally(s[i := x], p) == Tally(s, p) - (if p(s[i]) then 1 else 0) + if p(x) then 1 else 0
    decreases |s|
  {
    var n := |s| - 1;
    if i == n {
      assert s[i := x][..n] == s[..n];
    } else {
      assert s[i := x][..n] == s[..n][i := x];
      TallyUpdate(s[..n], i, x, p);
    }
  }

  lemma {:induction false} TallyAlike<T>(s: seq<T>, t: seq<T>, p: T -> bool)
    requires |s| == |t| && forall i :: 0 <= i < |s| ==> (p(s[i]) <==> p(t[i]))
    ensures Tally(s, p) == Tally(t, p)
    decreases |s|
  {
    if s != [] {
      var n := |s| - 1;
      assert p(s[n]) <==> p(t[n]);
      TallyAlike(s[..n], t[..n], p);
    }
  }

  lemma {:induction false} TallyZero<T>(s: seq<T>, p: T -> bool)
    ensures Tally(s, p) == 0 <==> forall i :: 0 <= i < |s| ==> !p(s[i])
    decreases |s|
  {
    if s != [] {
      TallyZero(s[..|s| - 1], p);
    }
  }

  function LiveOf(r: nat): Task -> bool {
    (t: Task) => t.job == r && Live(t)
  }

  function WaitingOf(r: nat): Task -> bool {
    (t: Task) => t.job == r && t.progress == Waiting
  }

  function RunningOf(r: nat): Task -> bool {
    (t: Task) => t.job == r && t.progress == Running
  }

  function IsJob(r: nat): nat -> bool {
    (q: nat) => q == r
  }

  // ---- running_count is the number of live tasks ----

  ghost predicate IdsDistinct(s: State)
    requires Shaped(s)
  {
    forall i, j :: 0 <= i < j < |s.table| ==> s.jobs[s.table[i]].id != s.jobs[s.table[j]].id
  }

  function Cap(job: Job): nat {
    if job.maxRunning > 0 then job.maxRunning else 0
  }

  ghost predicate CountOk(s: State, r: nat)
    requires r < |s.jobs|
  {
    var job, live := s.jobs[r], Tally(s.tasks, LiveOf(r));
    && job.runningCount <= Cap(job)
    && match s.phase
       case Active => job.runningCount == live && !HasCancelled(s.tasks, r)
       case Stopping => live <= job.runningCount
       case Stopped => job.runningCount == 0 && live == 0
  }

  ghost predicate HasCancelled(tasks: seq<Task>, r: nat) {
    exists i :: 0 <= i < |tasks| && tasks[i].job == r && Live(tasks[i]) && tasks[i].cancelled
  }

  ghost predicate Counted(s: State)
    requires Shaped(s)
  {
    forall r :: r in s.table ==> r < |s.jobs| && CountOk(s, r)
  }

  ghost predicate ComputeNextKeeps(job: Job, now: int) {
    var n := ComputeNext(job, now);
    n.id == job.id && n.runningCount == job.runningCount && n.maxRunning == job.maxRunning &&
    n.enabled == job.enabled && n.schedule == job.schedule && n.lastRun == job.lastRun
  }

  lemma ComputeNextOnly(job: Job, now: int)
    ensures ComputeNextKeeps(job, now)
  {
  }

  ghost predicate Registered(s: State) {
    Shaped(s) && IdsDistinct(s) && Counted(s)
  }

  lemma AddKeepsCounted(s: State, id: string, schedule: Schedule, maxRunning: int, enabled: bool, now: int)
    requires Registered(s)
    ensures Registered(AddJob(s, id, schedule, maxRunning, enabled, now))
  {
    ComputeNextOnly(Job(id, schedule, maxRunning, enabled, None, None, 0), now);
    AddKeepsIds(s, id, schedule, maxRunning, enabled, now);
    hide Find, ComputeNext, CountOk, IdsDistinct;
    var t := AddJob(s, id, schedule, maxRunning, enabled, now);
    forall r | r in t.table ensures r < |t.jobs| && CountOk(t, r) {
      if r < |s.jobs| {
        assert r in s.table;
        SameCount(s, t, r);
      } else {
        UnusedCount(t, r);
      }
    }
  }

  lemma AddKeepsIds(s: State, id: string, schedule: Schedule, maxRunning: int, enabled: bool, now: int)
    requires Registered(s)
    ensures var t := AddJob(s, id, schedule, maxRunning, enabled, now); Shaped(t) && IdsDistinct(t)
  {
    ComputeNextOnly(Job(id, schedule, maxRunning, enabled, None, None, 0), now);
    hide ComputeNext, Counted, Find;
    var t, k := AddJob(s, id, schedule, maxRunning, enabled, now), Find(s.jobs, s.table, id);
    forall i | 0 <= i < |s.table| && i != k ensures s.jobs[s.table[i]].id != id {
      if k < i { assert s.jobs[s.table[k]].id != s.jobs[s.table[i]].id; }
    }
    assert forall i :: 0 <= i < |t.table| && i != k ==>
           t.table[i] == s.table[i] && t.jobs[t.table[i]] == s.jobs[s.table[i]];
  }

  lemma SameCount(s: State, t: State, r: nat)
    requires r < |s.jobs| && r < |t.jobs| && s.jobs[r] == t.jobs[r] && s.tasks == t.tasks && s.phase == t.phase
    requires CountOk(s, r)
    ensures CountOk(t, r)
  {
  }

  /** A job that no task belongs to yet counts as it should. */
  lemma UnusedCount(t: State, r: nat)
    requires r < |t.jobs| && t.jobs[r].runningCount == 0
    requires forall i :: 0 <= i < |t.tasks| ==> t.tasks[i].job != r
    ensures CountOk(t, r)
  {
    TallyZero(t.tasks, LiveOf(r));
  }

  lemma RemoveKeepsCounted(s: State, id: string)
    requires Registered(s)
    ensures Registered(RemoveJob(s, id))
  {
    hide Find, SavedTimes;
    var t, k := RemoveJob(s, id), Find(s.jobs, s.table, id);
    if k < |s.table| {
      forall r | r in t.table ensures r < |t.jobs| && CountOk(t, r) {
        assert CountOk(s, r);
        SameTally(s, t, r);
      }
    }
  }

  /** Cancelling does not change which tasks are live. */
  lemma SameTally(s: State, t: State, r: nat)
    requires |s.tasks| == |t.tasks|
    requires forall i :: 0 <= i < |s.tasks| ==>
             t.tasks[i].job == s.tasks[i].job && t.tasks[i].progress == s.tasks[i].progress
    ensures Tally(t.tasks, LiveOf(r)) == Tally(s.tasks, LiveOf(r))
    ensures Tally(t.tasks, WaitingOf(r)) == Tally(s.tasks, WaitingOf(r))
    ensures Tally(t.tasks, RunningOf(r)) == Tally(s.tasks, RunningOf(r))
  {
    TallyAlike(s.tasks, t.tasks, LiveOf(r));
    TallyAlike(s.tasks, t.tasks, WaitingOf(r));
    TallyAlike(s.tasks, t.tasks, RunningOf(r));
  }

  lemma StartKeepsCounted(s: State)
    requires Registered(s) && s.phase != Stopping
    ensures Registered(StartUp(s))
  {
    var t := StartUp(s);
    if s.phase == Stopped {
      forall r | r in t.table ensures r < |t.jobs| && CountOk(t, r) {
        assert CountOk(s, r);
        NoneLiveNoneCancelled(s.tasks, r);
      }
    }
  }

  lemma NoneLiveNoneCancelled(tasks: seq<Task>, r: nat)
    ensures Tally(tasks, LiveOf(r)) == 0 ==> !HasCancelled(tasks, r)
  {
    TallyZero(tasks, LiveOf(r));
  }

  lemma ScheduleKeepsCounted(s: State, r: nat)
    requires Registered(s) && s.phase == Active && r in s.table && Free(s.jobs[r])
    ensures Registered(ScheduleRun(s, r))
  {
    var t := ScheduleRun(s, r);
    forall q | q in t.table ensures q < |t.jobs| && CountOk(t, q) {
      assert CountOk(s, q);
    }
  }

  lemma VisitKeepsCounted(s: State, r: nat, now: int, later: int)
    requires Registered(s) && s.phase == Active && r in s.table
    ensures Registered(Visit(s, r, now, later)) && Visit(s, r, now, later).table == s.table
    ensures Visit(s, r, now, later).phase == Active
  {
    if Due(s.jobs[r], now) {
      ScheduleKeepsCounted(s, r);
      var t, u := ScheduleRun(s, r), LoopRun(s, r, now, later);
      ComputeNextOnly(t.jobs[r], later);
      forall q | q in u.table ensures q < |u.jobs| && CountOk(u, q) {
        assert CountOk(t, q);
      }
    }
  }

  lemma {:induction false} PassKeepsCounted(s: State, refs: seq<nat>, now: int, later: nat -> int)
    requires Registered(s) && s.phase == Active && forall i :: 0 <= i < |refs| ==> refs[i] in s.table
    ensures Registered(PassOver(s, refs, now, later))
    decreases |refs|
  {
    hide Visit, IdsDistinct, Counted;
    if refs != [] {
      VisitKeepsCounted(s, refs[0], now, later(refs[0]));
      PassKeepsCounted(Visit(s, refs[0], now, later(refs[0])), refs[1..], now, later);
    }
  }

  lemma BeginTaskKeepsCounted(s: State, i: nat)
    requires Registered(s)
    ensures Registered(BeginTask(s, i))
  {
    var t := BeginTask(s, i);
    if i < |s.tasks| {
      forall r | r in t.table ensures r < |t.jobs| && CountOk(t, r) {
        assert CountOk(s, r);
        TallyUpdate(s.tasks, i, t.tasks[i], LiveOf(r));
      }
    }
  }

  lemma EndTaskKeepsCounted(s: State, i: nat, now: int)
    requires Registered(s)
    ensures Registered(EndTask(s, i, now))
  {
    hide SavedTimes;
    var t := EndTask(s, i, now);
    if i < |s.tasks| {
      forall r | r in t.table ensures r < |t.jobs| && CountOk(t, r) {
        assert CountOk(s, r);
        TallyUpdate(s.tasks, i, t.tasks[i], LiveOf(r));
        if r == s.tasks[i].job { TallyZero(s.tasks, LiveOf(r)); }
      }
    }
  }

  lemma BeginStopKeepsCounted(s: State)
    requires Registered(s)
    ensures Registered(BeginStop(s))
  {
    var t := BeginStop(s);
    forall r | r in t.table ensures r < |t.jobs| && CountOk(t, r) {
      assert CountOk(s, r);
      SameTally(s, t, r);
    }
  }

  /** `stop` leaves every counter right exactly when the tasks it cancelled have ended before it
      resets the counters. */
  lemma StopCountsIffDrained(s: State)
    requires Registered(s) && s.phase == Stopping
    ensures Registered(EndStop(s)) <==> Drained(s)
  {
    hide SavedTimes;
    var t := EndStop(s);
    forall r | r in s.table ensures r < |t.jobs| && (CountOk(t, r) <==> Tally(s.tasks, LiveOf(r)) == 0) {
      assert CountOk(s, r);
      TallyZero(s.tasks, LiveOf(r));
    }
    if Counted(t) {
      forall i | 0 <= i < |s.tasks| && Live(s.tasks[i]) ensures s.tasks[i].job !in s.table {
        TallyZero(s.tasks, LiveOf(s.tasks[i].job));
        assert LiveOf(s.tasks[i].job)(s.tasks[i]);
      }
    }
    if Drained(s) {
      forall r | r in t.table ensures CountOk(t, r) {
        TallyZero(s.tasks, LiveOf(r));
      }
    }
  }

  /** A `start` that does not wait for the `stop` under way is met by its reset: the scheduler is active then
      and counts right exactly when the tasks have ended before. */
  lemma StartDuringStopCountsIffDrained(s: State)
    requires Registered(s) && s.phase == Stopping
    ensures var t := EndStop(StartUp(s)); t.phase == Active && (Registered(t) <==> Drained(s))
  {
    hide SavedTimes;
    var t := EndStop(StartUp(s));
    forall r | r in s.table ensures r < |t.jobs| && (CountOk(t, r) <==> Tally(s.tasks, LiveOf(r)) == 0) {
      assert CountOk(s, r);
      NoneLiveNoneCancelled(s.tasks, r);
    }
    if Counted(t) {
      forall i | 0 <= i < |s.tasks| && Live(s.tasks[i]) ensures s.tasks[i].job !in s.table {
        TallyZero(s.tasks, LiveOf(s.tasks[i].job));
        assert LiveOf(s.tasks[i].job)(s.tasks[i]);
      }
    }
    if Drained(s) {
      forall r | r in t.table ensures CountOk(t, r) {
        TallyZero(s.tasks, LiveOf(r));
      }
    }
  }

  lemma EventKeepsCounted(s: State, e: Event)
    requires Registered(s) && Allowed(s, e)
    ensures Registered(Apply(s, e))
  {
    hide IdsDistinct, Counted, Drained;
    match e
    case Add(id, schedule, maxRunning, enabled, now) => AddKeepsCounted(s, id, schedule, maxRunning, enabled, now);
    case Remove(id) => RemoveKeepsCounted(s, id);
    case Start => StartKeepsCounted(s);
    case Pass(now, later) =>
      ClockKeepsCounted(s, now);
      PassKeepsCounted(s.(clock := now), s.table, now, later);
    case RunNow(id) => if Find(s.jobs, s.table, id) < |s.table| && Free(s.jobs[s.table[Find(s.jobs, s.table, id)]]) {
      ScheduleKeepsCounted(s, s.table[Find(s.jobs, s.table, id)]);
    }
    case TaskStarts(i) => BeginTaskKeepsCounted(s, i);
    case TaskEnds(i, now) => EndTaskKeepsCounted(s, i, now);
    case StopBegins => BeginStopKeepsCounted(s);
    case StopEnds => StopCountsIffDrained(s);
  }

  lemma ClockKeepsCounted(s: State, now: int)
    requires Registered(s)
    ensures Registered(s.(clock := now))
  {
    forall r | r in s.table ensures CountOk(s.(clock := now), r) { assert CountOk(s, r); }
  }

  function Fresh(saved: Option<map<string, Times>>, clock: int): State {
    NO_JOBS.(saved := saved, clock := clock)
  }

  lemma {:induction false} RunKeepsCounted(s: State, events: seq<Event>)
    requires Registered(s) && LegalRun(s, events)
    ensures Registered(ApplyAll(s, events))
    decreases |events|
  {
    hide IdsDistinct, Counted, Apply, Allowed;
    if events != [] {
      ApplyIsShaped(s, events[0]);
      EventKeepsCounted(s, events[0]);
      RunKeepsCounted(Apply(s, events[0]), events[1..]);
    }
  }

  /** In every interleaving, while the scheduler is active each registered job's `running_count` is
      the number of its live tasks and never exceeds `max_running`. */
  lemma RunningCountIsLive(saved: Option<map<string, Times>>, clock: int, events: seq<Event>, r: nat)
    requires LegalRun(Fresh(saved, clock), events)
    ensures var s := ApplyAll(Fresh(saved, clock), events);
            s.phase == Active && r in s.table ==>
              && r < |s.jobs|
              && s.jobs[r].runningCount == Tally(s.tasks, LiveOf(r))
              && s.jobs[r].runningCount <= Cap(s.jobs[r])
  {
    RunKeepsCounted(Fresh(saved, clock), events);
    var s := ApplyAll(Fresh(saved, clock), events);
    hide ApplyAll;
    if r in s.table { assert CountOk(s, r); }
  }

  // ---- A one-shot body is entered at most once ----

  ghost predicate OnceOk(s: State, r: nat)
    requires r < |s.jobs|
  {
    var starts := Tally(s.bodyStarts, IsJob(r));
    s.jobs[r].schedule.OneShot? && s.jobs[r].maxRunning <= 1 ==>
      && starts + Tally(s.tasks, WaitingOf(r)) <= 1
      && (starts > 0 ==> !s.jobs[r].enabled || Tally(s.tasks, RunningOf(r)) > 0)
  }

  ghost predicate Once(s: State) {
    && (forall r :: 0 <= r < |s.jobs| ==> OnceOk(s, r))
    && (forall i :: 0 <= i < |s.bodyStarts| ==> s.bodyStarts[i] < |s.jobs|)
  }

  lemma {:induction false} LiveSplits(tasks: seq<Task>, r: nat)
    ensures Tally(tasks, LiveOf(r)) == Tally(tasks, WaitingOf(r)) + Tally(tasks, RunningOf(r))
    decreases |tasks|
  {
    if tasks != [] { LiveSplits(tasks[..|tasks| - 1], r); }
  }

  lemma ScheduleKeepsOnce(s: State, r: nat)
    requires Registered(s) && Once(s) && s.phase == Active && r in s.table && Free(s.jobs[r])
    ensures Once(ScheduleRun(s, r))
  {
    hide IdsDistinct;
    var t := ScheduleRun(s, r);
    assert CountOk(s, r);
    LiveSplits(s.tasks, r);
    forall q | 0 <= q < |t.jobs| ensures OnceOk(t, q) {
      assert OnceOk(s, q);
    }
  }

  /** Changing times and counters of jobs leaves the argument alone. */
  lemma OnceDepends(s: State, t: State)
    requires Once(s) && |s.jobs| == |t.jobs| && s.bodyStarts == t.bodyStarts && |s.tasks| == |t.tasks|
    requires forall r :: 0 <= r < |s.jobs| ==> SameKind(s.jobs[r], t.jobs[r])
    requires forall i :: 0 <= i < |s.tasks| ==>
             t.tasks[i].job == s.tasks[i].job && t.tasks[i].progress == s.tasks[i].progress
    ensures Once(t)
  {
    forall r | 0 <= r < |t.jobs| ensures OnceOk(t, r) {
      assert SameKind(s.jobs[r], t.jobs[r]) && OnceOk(s, r);
      SameTally(s, t, r);
    }
  }

  ghost predicate SameKind(j: Job, k: Job) {
    j.schedule == k.schedule && j.maxRunning == k.maxRunning && j.enabled == k.enabled
  }

  lemma VisitKeepsOnce(s: State, r: nat, now: int, later: int)
    requires Registered(s) && Once(s) && s.phase == Active && r in s.table
    ensures Once(Visit(s, r, now, later))
  {
    if Due(s.jobs[r], now) {
      ScheduleKeepsOnce(s, r);
      var t := ScheduleRun(s, r);
      ComputeNextOnly(t.jobs[r], later);
      OnceDepends(t, LoopRun(s, r, now, later));
    }
  }

  lemma {:induction false} PassKeepsOnce(s: State, refs: seq<nat>, now: int, later: nat -> int)
    requires Registered(s) && Once(s) && s.phase == Active && forall i :: 0 <= i < |refs| ==> refs[i] in s.table
    ensures Once(PassOver(s, refs, now, later))
    decreases |refs|
  {
    hide Visit, IdsDistinct, Counted, Once;
    if refs != [] {
      VisitKeepsOnce(s, refs[0], now, later(refs[0]));
      VisitKeepsCounted(s, refs[0], now, later(refs[0]));
      PassKeepsOnce(Visit(s, refs[0], now, later(refs[0])), refs[1..], now, later);
    }
  }

  lemma BeginTaskKeepsOnce(s: State, i: nat)
    requires Shaped(s) && Once(s)
    ensures Once(BeginTask(s, i))
  {
    var t := BeginTask(s, i);
    if i < |s.tasks| {
      forall r | 0 <= r < |t.jobs| ensures OnceOk(t, r) {
        assert OnceOk(s, r);
        TallyUpdate(s.tasks, i, t.tasks[i], WaitingOf(r));
        TallyUpdate(s.tasks, i, t.tasks[i], RunningOf(r));
      }
    }
  }

  lemma EndTaskKeepsOnce(s: State, i: nat, now: int)
    requires Shaped(s) && Once(s)
    ensures Once(EndTask(s, i, now))
  {
    hide SavedTimes;
    var t := EndTask(s, i, now);
    if i < |s.tasks| {
      forall r | 0 <= r < |t.jobs| ensures OnceOk(t, r) {
        assert OnceOk(s, r);
        TallyUpdate(s.tasks, i, t.tasks[i], WaitingOf(r));
        TallyUpdate(s.tasks, i, t.tasks[i], RunningOf(r));
      }
    }
  }

  lemma AddKeepsOnce(s: State, id: string, schedule: Schedule, maxRunning: int, enabled: bool, now: int)
    requires Shaped(s) && Once(s)
    ensures Once(AddJob(s, id, schedule, maxRunning, enabled, now))
  {
    ComputeNextOnly(Job(id, schedule, maxRunning, enabled, None, None, 0), now);
    hide Find, ComputeNext;
    var t, r := AddJob(s, id, schedule, maxRunning, enabled, now), |s.jobs|;
    TallyZero(s.tasks, WaitingOf(r));
    TallyZero(s.bodyStarts, IsJob(r));
    forall q | 0 <= q < |t.jobs| ensures OnceOk(t, q) {
      if q < r { assert OnceOk(s, q); }
    }
  }

  lemma EventKeepsOnce(s: State, e: Event)
    requires Registered(s) && Once(s) && Allowed(s, e)
    ensures Once(Apply(s, e))
  {
    hide IdsDistinct, Counted, Drained, Once, SavedTimes;
    match e
    case Add(id, schedule, maxRunning, enabled, now) => AddKeepsOnce(s, id, schedule, maxRunning, enabled, now);
    case Remove(id) => OnceDepends(s, RemoveJob(s, id));
    case Start => OnceDepends(s, StartUp(s));
    case Pass(now, later) =>
      ClockKeepsCounted(s, now);
      OnceDepends(s, s.(clock := now));
      PassKeepsOnce(s.(clock := now), s.table, now, later);
    case RunNow(id) =>
      var k := Find(s.jobs, s.table, id);
      if k < |s.table| && Free(s.jobs[s.table[k]]) { ScheduleKeepsOnce(s, s.table[k]); }
    case TaskStarts(i) => BeginTaskKeepsOnce(s, i);
    case TaskEnds(i, now) => EndTaskKeepsOnce(s, i, now);
    case StopBegins => OnceDepends(s, BeginStop(s));
    case StopEnds => OnceDepends(s, EndStop(s));
  }

  lemma {:induction false} RunKeepsOnce(s: State, events: seq<Event>)
    requires Registered(s) && Once(s) && LegalRun(s, events)
    ensures Once(ApplyAll(s, events))
    decreases |events|
  {
    hide IdsDistinct, Counted, Apply, Allowed, Once;
    if events != [] {
      ApplyIsShaped(s, events[0]);
      EventKeepsCounted(s, events[0]);
      EventKeepsOnce(s, events[0]);
      RunKeepsOnce(Apply(s, events[0]), events[1..]);
    }
  }

  /** However the events interleave, over stops and restarts, a one-shot job with
      `max_running` 1 has its body entered at most once. */
  lemma OneShotRunsOnce(saved: Option<map<string, Times>>, clock: int, events: seq<Event>, r: nat)
    requires LegalRun(Fresh(saved, clock), events)
    ensures var s := ApplyAll(Fresh(saved, clock), events);
            r < |s.jobs| && s.jobs[r].schedule.OneShot? && s.jobs[r].maxRunning == 1 ==>
              Tally(s.bodyStarts, IsJob(r)) <= 1
  {
    RunKeepsOnce(Fresh(saved, clock), events);
    hide ApplyAll;
    var s := ApplyAll(Fresh(saved, clock), events);
    if r < |s.jobs| { assert OnceOk(s, r); }
  }

  /** A body that outlives `stop` (it ignores the cancellation) does not keep a one-shot job from
      running again after a restart, while the first run is still under way. */
  lemma UndrainedStopRunsTwice(s: State, r: nat, i: nat)
    requires Registered(s) && s.phase == Stopping && r in s.table && i < |s.tasks|
    requires s.jobs[r].schedule.OneShot? && s.jobs[r].maxRunning == 1 && s.jobs[r].enabled
    requires s.tasks[i].job == r && s.tasks[i].progress == Running
    ensures var restarted := StartUp(EndStop(s));
            Shaped(restarted) &&
            var again := RunJobNow(restarted, s.jobs[r].id);
            Shaped(again) &&
            var t := BeginTask(again, |s.tasks|);
            && t.bodyStarts == s.bodyStarts + [r]
            && |t.tasks| == |s.tasks| + 1 && t.tasks[i] == s.tasks[i]
            && t.tasks[|s.tasks|].job == r && t.tasks[|s.tasks|].progress == Running
  {
    hide SavedTimes, Find, Tally;
    var restarted, k := StartUp(EndStop(s)), Find(s.jobs, s.table, s.jobs[r].id);
    FoundByName(s, r);
    SameNames(s.jobs, restarted.jobs, s.table, s.jobs[r].id);
  }

  /** One registered job: a one-shot that is enabled, may run once at a time and has this many runs. */
  predicate OneJob(s: State, id: string, runs: int) {
    && s.table == [0] && |s.jobs| == 1 && s.jobs[0].id == id && s.jobs[0].runningCount == runs
    && s.jobs[0].schedule == OneShot && s.jobs[0].maxRunning == 1 && s.jobs[0].enabled
  }

  /** Such a state is reached by an allowed run: the job is added and started by hand, and `stop` begins
      while its body runs. */
  lemma UndrainedStopIsReached(saved: Option<map<string, Times>>, clock: int, id: string, now: int)
    ensures var events := [Add(id, OneShot, 1, true, now), Start, RunNow(id), TaskStarts(0), StopBegins];
            && LegalRun(Fresh(saved, clock), events)
            && var s := ApplyAll(Fresh(saved, clock), events);
               && Registered(s) && s.phase == Stopping && OneJob(s, id, 1) && s.tasks == [Task(0, Running, true)]
               && !Drained(s)
  {
    hide Registered, Drained, OneJob, Apply, LegalRun, ApplyAll, Allowed;
    var s0 := Fresh(saved, clock);
    NothingRegistered(saved, clock);
    var e1, e2, e3, e4, e5: Event := Add(id, OneShot, 1, true, now), Start, RunNow(id), TaskStarts(0), StopBegins;
    var s1 := AddedFirst(saved, clock, id, now);
    var s2 := StartedFirst(s1, id);
    var s3 := RunByHand(s2, id);
    var s4 := EntersBody(s3, id);
    var s5 := StopsThen(s4, id);
    var l5, l4: seq<Event>, l3: seq<Event>, l2: seq<Event> := [e5], [e4, e5], [e3, e4, e5], [e2, e3, e4, e5];
    NoEvents(s5);
    assert l5 == [e5] + [] && l4 == [e4] + l5 && l3 == [e3] + l4 && l2 == [e2] + l3;
    OneEvent(s4, e5, []);
    OneEvent(s3, e4, l5);
    OneEvent(s2, e3, l4);
    OneEvent(s1, e2, l3);
    OneEvent(s0, e1, l2);
    var events := [e1] + l2;
    assert events == [e1, e2, e3, e4, e5];
    RunKeepsCounted(s0, events);
    OneLiveJob(s5, id);
  }

  lemma AddedFirst(saved: Option<map<string, Times>>, clock: int, id: string, now: int) returns (s: State)
    ensures s == Apply(Fresh(saved, clock), Add(id, OneShot, 1, true, now)) && Shaped(s)
    ensures Allowed(Fresh(saved, clock), Add(id, OneShot, 1, true, now))
    ensures OneJob(s, id, 0) && s.tasks == [] && s.phase == Stopped
  {
    s := Apply(Fresh(saved, clock), Add(id, OneShot, 1, true, now));
    var none: seq<nat> := [];
    assert Find([], none, id) == 0;
  }

  lemma StartedFirst(s: State, id: string) returns (t: State)
    requires Shaped(s) && OneJob(s, id, 0) && s.tasks == [] && s.phase == Stopped
    ensures t == Apply(s, Start) && Shaped(t) && Allowed(s, Start)
    ensures OneJob(t, id, 0) && t.tasks == [] && t.phase == Active
  {
    hide Find, PassOver, SavedTimes;
    t := Apply(s, Start);
  }

  lemma RunByHand(s: State, id: string) returns (t: State)
    requires Shaped(s) && OneJob(s, id, 0) && s.tasks == [] && s.phase == Active
    ensures t == Apply(s, RunNow(id)) && Shaped(t) && Allowed(s, RunNow(id))
    ensures OneJob(t, id, 1) && t.tasks == [Task(0, Waiting, false)] && t.phase == Active
  {
    hide PassOver, SavedTimes;
    FindOnly(s.jobs, id);
    t := Apply(s, RunNow(id));
  }

  lemma EntersBody(s: State, id: string) returns (t: State)
    requires Shaped(s) && OneJob(s, id, 1) && s.tasks == [Task(0, Waiting, false)] && s.phase == Active
    ensures t == Apply(s, TaskStarts(0)) && Shaped(t) && Allowed(s, TaskStarts(0))
    ensures OneJob(t, id, 1) && t.tasks == [Task(0, Running, false)] && t.phase == Active
  {
    hide Find, PassOver, SavedTimes;
    t := Apply(s, TaskStarts(0));
  }

  lemma StopsThen(s: State, id: string) returns (t: State)
    requires Shaped(s) && OneJob(s, id, 1) && s.tasks == [Task(0, Running, false)] && s.phase == Active
    ensures t == Apply(s, StopBegins) && Shaped(t) && Allowed(s, StopBegins)
    ensures OneJob(t, id, 1) && t.tasks == [Task(0, Running, true)] && t.phase == Stopping
  {
    hide Find, PassOver, SavedTimes;
    t := Apply(s, StopBegins);
  }

  lemma NoEvents(s: State)
    requires Shaped(s)
    ensures LegalRun(s, []) && ApplyAll(s, []) == s
  {
  }

  lemma OneLiveJob(s: State, id: string)
    requires OneJob(s, id, 1) && s.tasks == [Task(0, Running, true)]
    ensures !Drained(s)
  {
    assert Live(s.tasks[0]) && s.tasks[0].job in s.table;
  }

  lemma NothingRegistered(saved: Option<map<string, Times>>, clock: int)
    ensures Registered(Fresh(saved, clock))
  {
  }

  lemma FindOnly(jobs: seq<Job>, id: string)
    requires |jobs| == 1 && jobs[0].id == id
    ensures Find(jobs, [0], id) == 0
  {
  }

  lemma OneEvent(s: State, e: Event, rest: seq<Event>)
    requires Shaped(s)
    ensures Shaped(Apply(s, e)) && ApplyAll(s, [e] + rest) == ApplyAll(Apply(s, e), rest)
    ensures LegalRun(s, [e] + rest) <==> Allowed(s, e) && LegalRun(Apply(s, e), rest)
  {
    hide Apply;
    ApplyIsShaped(s, e);
    assert ([e] + rest)[1..] == rest;
  }

  lemma FoundByName(s: State, r: nat)
    requires Shaped(s) && IdsDistinct(s) && r in s.table
    ensures var k := Find(s.jobs, s.table, s.jobs[r].id); k < |s.table| && s.table[k] == r
  {
    hide Find;
    var k := Find(s.jobs, s.table, s.jobs[r].id);
    var j :| 0 <= j < |s.table| && s.table[j] == r;
    assert k <= j;
  }

  lemma {:induction false} SameNames(jobs: seq<Job>, more: seq<Job>, table: seq<nat>, id: string)
    requires |jobs| == |more| && forall r :: 0 <= r < |jobs| ==> more[r].id == jobs[r].id
    ensures Find(more, table, id) == Find(jobs, table, id)
    decreases |table|
  {
    if table != [] { SameNames(jobs, more, table[1..], id); }
  }

  // ---- Runs of an interval job keep their distance ----

  ghost predicate SpacedAt(s: State, i: nat)
    requires Shaped(s) && i < |s.loopStarts|
  {
    var r, t := s.loopStarts[i].job, s.loopStarts[i].time;
    && t <= s.clock && r < |s.jobs|
    && (s.jobs[r].schedule.Interval? ==>
          && (r in s.table ==> NextFrom(s.jobs[r].nextRun, t + s.jobs[r].schedule.seconds))
          && forall k :: i < k < |s.loopStarts| && s.loopStarts[k].job == r ==>
               s.loopStarts[k].time >= t + s.jobs[r].schedule.seconds)
  }

  ghost predicate NextFrom(next: Option<int>, bound: int) {
    next.Some? && next.value >= bound
  }

  ghost predicate Spaced(s: State)
    requires Shaped(s)
  {
    forall i :: 0 <= i < |s.loopStarts| ==> SpacedAt(s, i)
  }

  ghost predicate Looped(s: State, r: nat) {
    exists i :: 0 <= i < |s.loopStarts| && s.loopStarts[i].job == r
  }

  /** The backend holds this job's own next run. */
  ghost predicate SavedNext(s: State, r: nat)
    requires r < |s.jobs|
  {
    s.saved.Some? && s.jobs[r].id in s.saved.value && s.saved.value[s.jobs[r].id].nextRun == s.jobs[r].nextRun
  }

  /** While stopped, what a restart would load is what the jobs that have run still hold. */
  ghost predicate SavedOk(s: State)
    requires Shaped(s)
  {
    s.phase == Stopped ==> forall r :: r in s.table && Looped(s, r) ==> SavedNext(s, r)
  }

  lemma {:induction false} PersistedIsSaved(jobs: seq<Job>, table: seq<nat>, r: nat)
    requires r in table && (forall i :: 0 <= i < |table| ==> table[i] < |jobs|)
    requires forall i, j :: 0 <= i < j < |table| ==> jobs[table[i]].id != jobs[table[j]].id
    ensures jobs[r].id in SavedTimes(jobs, table) && SavedTimes(jobs, table)[jobs[r].id].nextRun == jobs[r].nextRun
    decreases |table|
  {
    var n := |table| - 1;
    if table[n] != r {
      assert r in table[..n];
      PersistedIsSaved(jobs, table[..n], r);
    }
  }

  lemma PersistSaves(s: State)
    requires Shaped(s) && IdsDistinct(s)
    ensures SavedOk(Persist(s))
  {
    hide SavedTimes;
    forall r | r in s.table ensures SavedNext(Persist(s), r) { PersistedIsSaved(s.jobs, s.table, r); }
  }

  lemma SpacedDepends(s: State, t: State)
    requires Shaped(s) && Shaped(t) && Spaced(s) && t.loopStarts == s.loopStarts && s.clock <= t.clock
             && |s.jobs| <= |t.jobs|
    requires forall r :: r in t.table && r < |s.jobs| ==>
             r in s.table && (Looped(s, r) ==> t.jobs[r].nextRun == s.jobs[r].nextRun)
    requires forall r :: 0 <= r < |s.jobs| ==> t.jobs[r].schedule == s.jobs[r].schedule
    ensures Spaced(t)
  {
    forall i | 0 <= i < |t.loopStarts| ensures SpacedAt(t, i) {
      assert SpacedAt(s, i);
      assert Looped(s, s.loopStarts[i].job);
    }
  }

  lemma VisitKeepsSpaced(s: State, r: nat, later: int)
    requires Shaped(s) && Spaced(s) && r in s.table && s.clock <= later
    ensures var t := Visit(s, r, s.clock, later);
            Shaped(t) && Spaced(t) && t.clock == s.clock && t.table == s.table && |t.jobs| == |s.jobs|
  {
    var now := s.clock;
    var t := Visit(s, r, now, later);
    if Due(s.jobs[r], now) {
      ComputeNextOnly(ScheduleRun(s, r).jobs[r], later);
      forall i | 0 <= i < |t.loopStarts| ensures SpacedAt(t, i) {
        if i < |s.loopStarts| { assert SpacedAt(s, i); }
      }
    }
  }

  lemma {:induction false} PassKeepsSpaced(s: State, refs: seq<nat>, later: nat -> int)
    requires Shaped(s) && Spaced(s) && forall i :: 0 <= i < |refs| ==> refs[i] in s.table
    requires forall r: nat :: s.clock <= later(r)
    ensures var t := PassOver(s, refs, s.clock, later); Shaped(t) && Spaced(t)
    decreases |refs|
  {
    hide Visit, Spaced;
    if refs != [] {
      VisitKeepsSpaced(s, refs[0], later(refs[0]));
      PassKeepsSpaced(Visit(s, refs[0], s.clock, later(refs[0])), refs[1..], later);
    }
  }

  lemma {:induction false} PassStaysActive(s: State, refs: seq<nat>, now: int, later: nat -> int)
    requires Shaped(s) && s.phase == Active && forall i :: 0 <= i < |refs| ==> refs[i] < |s.jobs|
    ensures PassOver(s, refs, now, later).phase == Active
    decreases |refs|
  {
    hide ComputeNext, Due;
    if refs != [] {
      PassStaysActive(Visit(s, refs[0], now, later(refs[0])), refs[1..], now, later);
    }
  }

  lemma StartKeepsSpaced(s: State)
    requires Registered(s) && Spaced(s) && SavedOk(s) && s.phase != Stopping
    ensures Shaped(StartUp(s)) && Spaced(StartUp(s)) && SavedOk(StartUp(s))
  {
    var t := StartUp(s);
    if s.phase == Stopped {
      forall r | r in t.table && Looped(s, r) ensures t.jobs[r].nextRun == s.jobs[r].nextRun {
        assert SavedNext(s, r);
      }
      SpacedDepends(s, t);
    }
  }

  lemma AddKeepsSpaced(s: State, id: string, schedule: Schedule, maxRunning: int, enabled: bool, now: int)
    requires Shaped(s) && Spaced(s) && SavedOk(s)
    ensures var t := AddJob(s, id, schedule, maxRunning, enabled, now); Shaped(t) && Spaced(t) && SavedOk(t)
  {
    hide Find, ComputeNext;
    var t := AddJob(s, id, schedule, maxRunning, enabled, now);
    forall i | 0 <= i < |s.loopStarts| ensures s.loopStarts[i].job < |s.jobs| { assert SpacedAt(s, i); }
    SpacedDepends(s, t);
    if s.phase == Stopped {
      forall r | r in t.table && Looped(t, r) ensures SavedNext(t, r) {
        assert Looped(s, r);
        assert SavedNext(s, r);
      }
    }
  }

  lemma ScheduleKeepsSpaced(s: State, r: nat)
    requires Shaped(s) && Spaced(s) && s.phase == Active && r < |s.jobs|
    ensures var t := ScheduleRun(s, r); Shaped(t) && Spaced(t) && SavedOk(t)
  {
    SpacedDepends(s, ScheduleRun(s, r));
  }

  lemma EventKeepsSpaced(s: State, e: Event)
    requires Registered(s) && Spaced(s) && SavedOk(s) && Allowed(s, e)
    ensures Shaped(Apply(s, e)) && Spaced(Apply(s, e)) && SavedOk(Apply(s, e))
  {
    EventKeepsCounted(s, e);
    hide Counted, Drained, Spaced, SavedOk, SavedTimes, Looped, Find, ComputeNext;
    match e
    case Add(id, schedule, maxRunning, enabled, now) => AddKeepsSpaced(s, id, schedule, maxRunning, enabled, now);
    case Remove(id) => RemoveKeepsSpaced(s, id);
    case Start => StartKeepsSpaced(s);
    case Pass(now, later) => LoopPassKeepsSpaced(s, now, later);
    case RunNow(id) =>
      var k := Find(s.jobs, s.table, id);
      if k < |s.table| { ScheduleKeepsSpaced(s, s.table[k]); }
    case TaskStarts(_) => TaskKeepsSpaced(s, e);
    case TaskEnds(_, _) => TaskKeepsSpaced(s, e);
    case StopBegins => TaskKeepsSpaced(s, e);
    case StopEnds => StopKeepsSpaced(s);
  }

  lemma RemoveKeepsSpaced(s: State, id: string)
    requires Registered(s) && Spaced(s) && SavedOk(s) && Registered(RemoveJob(s, id))
    ensures Spaced(RemoveJob(s, id)) && SavedOk(RemoveJob(s, id))
  {
    hide Counted, Spaced, SavedTimes, Looped;
    var t := RemoveJob(s, id);
    if Find(s.jobs, s.table, id) < |s.table| {
      SpacedDepends(s, t);
      PersistSaves(t);
    }
  }

  lemma StopKeepsSpaced(s: State)
    requires Registered(s) && Spaced(s) && s.phase == Stopping && Registered(EndStop(s))
    ensures Spaced(EndStop(s)) && SavedOk(EndStop(s))
  {
    hide Counted, Spaced, SavedTimes, Looped;
    var t := EndStop(s);
    SpacedDepends(s, t);
    PersistSaves(t);
  }

  lemma LoopPassKeepsSpaced(s: State, now: int, later: nat -> int)
    requires Shaped(s) && Spaced(s) && s.phase == Active && s.clock <= now && forall r: nat :: now <= later(r)
    ensures var t := PassOver(s.(clock := now), s.table, now, later); Shaped(t) && Spaced(t) && SavedOk(t)
  {
    hide Spaced, Looped;
    SpacedDepends(s, s.(clock := now));
    PassKeepsSpaced(s.(clock := now), s.table, later);
    PassStaysActive(s.(clock := now), s.table, now, later);
  }

  lemma TaskKeepsSpaced(s: State, e: Event)
    requires Registered(s) && Spaced(s) && SavedOk(s) && (e.TaskStarts? || e.TaskEnds? || e.StopBegins?)
    requires Registered(Apply(s, e))
    ensures Spaced(Apply(s, e)) && SavedOk(Apply(s, e))
  {
    hide Counted, Spaced, SavedTimes;
    var t := Apply(s, e);
    SpacedDepends(s, t);
    PersistSaves(t);
    forall r | r in t.table && Looped(t, r) && s.phase == Stopped ensures SavedNext(s, r) { assert Looped(s, r); }
  }

  lemma {:induction false} RunKeepsSpaced(s: State, events: seq<Event>)
    requires Registered(s) && Spaced(s) && SavedOk(s) && LegalRun(s, events)
    ensures Shaped(ApplyAll(s, events)) && Spaced(ApplyAll(s, events))
    decreases |events|
  {
    hide IdsDistinct, Counted, Apply, Allowed, Spaced, SavedOk;
    if events != [] {
      ApplyIsShaped(s, events[0]);
      EventKeepsCounted(s, events[0]);
      EventKeepsSpaced(s, events[0]);
      RunKeepsSpaced(Apply(s, events[0]), events[1..]);
    }
  }

  /** In every interleaving, over stops, restarts and loaded state, two runs of one interval job
      that the loop started are at least its `seconds` apart. */
  lemma IntervalRunsKeepApart(saved: Option<map<string, Times>>, clock: int, events: seq<Event>, i: nat, k: nat)
    requires LegalRun(Fresh(saved, clock), events)
    ensures var s := ApplyAll(Fresh(saved, clock), events);
            i < k < |s.loopStarts| && s.loopStarts[i].job == s.loopStarts[k].job ==>
              var r := s.loopStarts[i].job;
              r < |s.jobs| && (s.jobs[r].schedule.Interval? ==>
                s.loopStarts[k].time - s.loopStarts[i].time >= s.jobs[r].schedule.seconds)
  {
    RunKeepsSpaced(Fresh(saved, clock), events);
    hide ApplyAll, LegalRun, Fresh;
    var s := ApplyAll(Fresh(saved, clock), events);
    if i < k < |s.loopStarts| { assert SpacedAt(s, i); }
  }
}
