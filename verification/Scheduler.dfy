/** The scheduler object: every method is one stretch of the event loop between two awaits. */
module Scheduler {
  import opened Jobs
  import opened Text

  class JobScheduler {
    var jobs: seq<Job>
    var table: seq<nat>
    var tasks: seq<Task>
    var phase: Phase
    var saved: Option<map<string, Times>>
    var clock: int
    var loopStarts: seq<LoopStart>
    var bodyStarts: seq<nat>

    function View(): State
      reads this
    {
      State(jobs, table, tasks, phase, saved, clock, loopStarts, bodyStarts)
    }

    constructor (saved: Option<map<string, Times>>, clock: int)
      ensures View() == NO_JOBS.(saved := saved, clock := clock)
    {
      this.saved, this.clock := saved, clock;
      jobs, table, tasks, phase, loopStarts, bodyStarts := [], [], [], Stopped, [], [];
    }

    method PersistState()
      requires Shaped(View())
      modifies this`saved
      ensures View() == Persist(old(View()))
    {
      var state: map<string, Times> := map[];
      var i := 0;
      while i < |table|
        invariant 0 <= i <= |table|
        invariant state == SavedTimes(jobs, table[..i])
      {
        var job := jobs[table[i]];
        assert table[..i + 1][..i] == table[..i];
        state := state[job.id := Times(job.lastRun, job.nextRun)];
        i := i + 1;
      }
      assert table[..i] == table;
      saved := Some(state);
    }

    method AddJob(id: string, schedule: Schedule, maxRunning: int, enabled: bool, now: int)
      requires Shaped(View())
      modifies this
      ensures View() == Jobs.AddJob(old(View()), id, schedule, maxRunning, enabled, now)
    {
      var k := Find(jobs, table, id);
      var job := ComputeNext(Job(id, schedule, maxRunning, enabled, None, None, 0), now);
      table := if k < |table| then table[k := |jobs|] else table + [|jobs|];
      jobs := jobs + [job];
    }

    method RemoveJob(id: string)
      requires Shaped(View())
      modifies this
      ensures View() == Jobs.RemoveJob(old(View()), id)
    {
      hide Find, SavedTimes;
      var k := Find(jobs, table, id);
      if k == |table| {
        return;
      }
      table := table[..k] + table[k + 1..];
      ghost var rest := table;
      var i := 0;
      ghost var cancelled := CancelNamed(old(View()), id);
      hide CancelNamed;
      while i < |tasks|
        invariant 0 <= i <= |tasks| == |old(tasks)|
        invariant forall k :: 0 <= k < |tasks| ==> tasks[k] == if k < i then cancelled[k] else old(tasks)[k]
        invariant View() == old(View()).(table := rest, tasks := tasks) && Shaped(View())
      {
        var t := tasks[i];
        if jobs[t.job].id == id {
          tasks := tasks[i := t.(cancelled := true)];
        }
        i := i + 1;
      }
      assert tasks == cancelled;
      PersistState();
    }

    method ScheduleRun(r: nat)
      requires r < |jobs|
      modifies this
      ensures View() == Jobs.ScheduleRun(old(View()), r)
    {
      jobs := jobs[r := jobs[r].(runningCount := jobs[r].runningCount + 1)];
      tasks := tasks + [Task(r, Waiting, false)];
    }

    /** What the loop does with one job. */
    method VisitJob(r: nat, now: int, later: int)
      requires r < |jobs|
      modifies this
      ensures View() == Visit(old(View()), r, now, later)
    {
      hide ComputeNext;
      if !jobs[r].enabled { return; }
      if jobs[r].runningCount >= jobs[r].maxRunning { return; }
      if jobs[r].nextRun.Some? && now >= jobs[r].nextRun.value {
        ScheduleRun(r);
        jobs := jobs[r := ComputeNext(jobs[r], later)];
        loopStarts := loopStarts + [LoopStart(r, now)];
      }
    }

    /** One pass of the loop over a snapshot of the registered jobs. */
    method LoopPass(now: int, later: nat -> int)
      requires Shaped(View()) && phase == Active
      modifies this
      ensures View() == Apply(old(View()), Pass(now, later))
    {
      hide ComputeNext, Visit;
      clock := now;
      var refs, i := table, 0;
      while i < |refs|
        invariant 0 <= i <= |refs| && forall k :: 0 <= k < |refs| ==> refs[k] < |jobs|
        invariant PassOver(View(), refs[i..], now, later)
                    == PassOver(old(View()).(clock := now), old(table), now, later)
      {
        assert refs[i..][0] == refs[i] && refs[i..][1..] == refs[i + 1..];
        VisitJob(refs[i], now, later(refs[i]));
        i := i + 1;
      }
    }

    method RunJobNow(id: string)
      requires Shaped(View())
      modifies this
      ensures View() == Jobs.RunJobNow(old(View()), id)
    {
      var k := Find(jobs, table, id);
      if k == |table| || !jobs[table[k]].enabled {
        return;
      }
      if jobs[table[k]].runningCount >= jobs[table[k]].maxRunning {
        return;
      }
      ScheduleRun(table[k]);
    }

    /** The first step of a task: it enters the body unless it was cancelled before. */
    method EnterTask(i: nat)
      requires Shaped(View())
      modifies this
      ensures View() == BeginTask(old(View()), i)
    {
      if i >= |tasks| || tasks[i].progress != Waiting {
        return;
      }
      if tasks[i].cancelled {
        tasks := tasks[i := tasks[i].(progress := Ended)];
        return;
      }
      bodyStarts := bodyStarts + [tasks[i].job];
      tasks := tasks[i := tasks[i].(progress := Running)];
    }

    /** The `finally` block of a task whose body is over. */
    method LeaveTask(i: nat, now: int)
      requires Shaped(View())
      modifies this
      ensures View() == EndTask(old(View()), i, now)
    {
      hide SavedTimes;
      if i >= |tasks| || tasks[i].progress != Running {
        return;
      }
      var r := tasks[i].job;
      jobs := jobs[r := jobs[r].(runningCount := jobs[r].runningCount - 1, lastRun := Some(now))];
      if jobs[r].schedule.OneShot? {
        jobs := jobs[r := jobs[r].(enabled := false)];
      }
      assert jobs == old(jobs)[r := jobs[r]];
      tasks := tasks[i := tasks[i].(progress := Ended)];
      PersistState();
    }

    method LoadState()
      requires Shaped(View())
      modifies this`jobs
      ensures View() == old(View()).(jobs := jobs)
      ensures |jobs| == |old(jobs)|
      ensures forall r :: 0 <= r < |jobs| ==>
        jobs[r] == if saved.Some? && r in table then Loaded(old(jobs)[r], saved.value) else old(jobs)[r]
    {
      if saved.None? {
        return;
      }
      var r := 0;
      while r < |jobs|
        invariant 0 <= r <= |jobs| == |old(jobs)|
        invariant View() == old(View()).(jobs := jobs)
        invariant forall q :: 0 <= q < r ==>
                  jobs[q] == if q in table then Loaded(old(jobs)[q], saved.value) else old(jobs)[q]
        invariant forall q :: r <= q < |jobs| ==> jobs[q] == old(jobs)[q]
      {
        if r in table && jobs[r].id in saved.value {
          var times := saved.value[jobs[r].id];
          jobs := jobs[r := jobs[r].(lastRun := times.lastRun, nextRun := times.nextRun, runningCount := 0)];
        }
        r := r + 1;
      }
    }

    method Start()
      requires Shaped(View())
      modifies this
      ensures View() == StartUp(old(View()))
    {
      if phase == Active {
        return;
      }
      LoadState();
      phase := Active;
      assert jobs == StartUp(old(View())).jobs;
    }

    /** `stop` up to its await: every task is told to cancel. */
    method StopBegin()
      requires Shaped(View())
      modifies this
      ensures View() == BeginStop(old(View()))
    {
      if phase != Active {
        return;
      }
      phase := Stopping;
      var i := 0;
      while i < |tasks|
        invariant 0 <= i <= |tasks| == |old(tasks)|
        invariant View() == old(View()).(phase := Stopping, tasks := tasks)
        invariant forall k :: 0 <= k < |tasks| ==>
          tasks[k] == if k < i then old(tasks)[k].(cancelled := true) else old(tasks)[k]
      {
        tasks := tasks[i := tasks[i].(cancelled := true)];
        i := i + 1;
      }
      assert tasks == BeginStop(old(View())).tasks;
    }

    /** `stop` after its await: the counters are reset and the state saved. */
    method StopEnd()
      requires Shaped(View())
      modifies this
      ensures View() == EndStop(old(View()))
    {
      hide SavedTimes;
      if phase == Stopping {
        phase := Stopped;
      }
      ghost var after := phase;
      var r := 0;
      while r < |jobs|
        invariant 0 <= r <= |jobs| == |old(jobs)|
        invariant View() == old(View()).(phase := after, jobs := jobs)
        invariant forall q :: 0 <= q < |jobs| ==>
          jobs[q] == if q < r && q in table then old(jobs)[q].(runningCount := 0) else old(jobs)[q]
      {
        if r in table {
          jobs := jobs[r := jobs[r].(runningCount := 0)];
        }
        r := r + 1;
      }
      PersistState();
      assert jobs == EndStop(old(View())).jobs;
    }
  }
}
