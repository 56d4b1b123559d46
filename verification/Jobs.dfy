/** The scheduler's state and its atomic events. Between two awaits nothing interleaves, so every
    event below is one uninterrupted stretch of the event loop. */
module Jobs {
  import opened Text

  datatype Schedule =
    | OneShot
    | Interval(seconds: int)
    | Cron(next: int -> int)

  datatype Job = Job(
    id: string,
    schedule: Schedule,
    maxRunning: int,
    enabled: bool,
    lastRun: Option<int>,
    nextRun: Option<int>,
    runningCount: int)

  datatype Progress = Waiting | Running | Ended

  /** A task runs one job object; it keeps that object when the id is given to another. */
  datatype Task = Task(job: nat, progress: Progress, cancelled: bool)

  datatype Times = Times(lastRun: Option<int>, nextRun: Option<int>)

  datatype Phase = Stopped | Active | Stopping

  datatype LoopStart = LoopStart(job: nat, time: int)

  datatype State = State(
    jobs: seq<Job>,                           // every job object ever made
    table: seq<nat>,                          // the registered ones, in dictionary order
    tasks: seq<Task>,                         // every task ever made
    phase: Phase,
    saved: Option<map<string, Times>>,        // what the backend holds
    clock: int,                               // time of the latest loop pass
    loopStarts: seq<LoopStart>,               // runs the loop scheduled
    bodyStarts: seq<nat>)                     // job objects whose body was entered

  datatype Event =
    | Add(id: string, schedule: Schedule, maxRunning: int, enabled: bool, now: int)
    | Remove(id: string)
    | Start
    | Pass(now: int, later: nat -> int)       // `later(r)` is the clock when job r's next run is computed
    | RunNow(id: string)
    | TaskStarts(task: nat)
    | TaskEnds(task: nat, now: int)
    | StopBegins
    | StopEnds

  const NO_JOBS := State([], [], [], Stopped, None, 0, [], [])

  function ComputeNext(job: Job, now: int): Job {
    match job.schedule
    case OneShot => job.(nextRun := Some(now))
    case Interval(seconds) =>
      var base := if job.lastRun.Some? && job.lastRun.value > now then job.lastRun.value else now;
      job.(nextRun := Some(base + seconds))
    case Cron(next) => job.(nextRun := Some(next(now)))
  }

  /** Position of `id` in the table, or the table's length. */
  function Find(jobs: seq<Job>, table: seq<nat>, id: string): (k: nat)
    ensures k <= |table|
    ensures k < |table| ==> table[k] < |jobs| && jobs[table[k]].id == id
    ensures forall i :: 0 <= i < k && table[i] < |jobs| ==> jobs[table[i]].id != id
  {
    if table == [] then 0
    else if table[0] < |jobs| && jobs[table[0]].id == id then 0
    else 1 + Find(jobs, table[1..], id)
  }

  function SavedTimes(jobs: seq<Job>, table: seq<nat>): map<string, Times>
    decreases |table|
  {
    if table == [] then map[]
    else
      var r, before := table[|table| - 1], SavedTimes(jobs, table[..|table| - 1]);
      if r < |jobs| then before[jobs[r].id := Times(jobs[r].lastRun, jobs[r].nextRun)] else before
  }

  function Persist(s: State): State {
    s.(saved := Some(SavedTimes(s.jobs, s.table)))
  }

  ghost predicate Shaped(s: State) {
    && (forall i :: 0 <= i < |s.table| ==> s.table[i] < |s.jobs|)
    && (forall i :: 0 <= i < |s.tasks| ==> s.tasks[i].job < |s.jobs|)
  }

  predicate Free(job: Job) {
    job.enabled && job.runningCount < job.maxRunning
  }

  predicate Due(job: Job, now: int) {
    Free(job) && job.nextRun.Some? && now >= job.nextRun.value
  }

  /** `_schedule_run`: one more running, and a task that has not started yet. */
  function ScheduleRun(s: State, r: nat): State
    requires r < |s.jobs|
  {
    s.(jobs := s.jobs[r := s.jobs[r].(runningCount := s.jobs[r].runningCount + 1)],
       tasks := s.tasks + [Task(r, Waiting, false)])
  }

  function LoopRun(s: State, r: nat, now: int, later: int): State
    requires r < |s.jobs|
  {
    var t := ScheduleRun(s, r);
    t.(jobs := t.jobs[r := ComputeNext(t.jobs[r], later)], loopStarts := t.loopStarts + [LoopStart(r, now)])
  }

  function Visit(s: State, r: nat, now: int, later: int): (t: State)
    requires r < |s.jobs|
    ensures |t.jobs| == |s.jobs|
  {
    if Due(s.jobs[r], now) then LoopRun(s, r, now, later) else s
  }

  /** One pass of the loop over the registered jobs. */
  function PassOver(s: State, refs: seq<nat>, now: int, later: nat -> int): State
    requires forall i :: 0 <= i < |refs| ==> refs[i] < |s.jobs|
    decreases |refs|
  {
    if refs == [] then s else PassOver(Visit(s, refs[0], now, later(refs[0])), refs[1..], now, later)
  }

  function AddJob(s: State, id: string, schedule: Schedule, maxRunning: int, enabled: bool, now: int): State {
    var r, k := |s.jobs|, Find(s.jobs, s.table, id);
    s.(jobs := s.jobs + [ComputeNext(Job(id, schedule, maxRunning, enabled, None, None, 0), now)],
       table := if k < |s.table| then s.table[k := r] else s.table + [r])
  }

  function CancelNamed(s: State, id: string): seq<Task>
    requires Shaped(s)
  {
    seq(|s.tasks|, i requires 0 <= i < |s.tasks| =>
      var t := s.tasks[i]; if s.jobs[t.job].id == id then t.(cancelled := true) else t)
  }

  function RemoveJob(s: State, id: string): State
    requires Shaped(s)
  {
    var k := Find(s.jobs, s.table, id);
    if k == |s.table| then s
    else Persist(s.(table := s.table[..k] + s.table[k + 1..], tasks := CancelNamed(s, id)))
  }

  function Loaded(job: Job, saved: map<string, Times>): Job {
    if job.id in saved then job.(lastRun := saved[job.id].lastRun, nextRun := saved[job.id].nextRun, runningCount := 0)
    else job
  }

  /** `start` looks only at whether the scheduler is running, so that it restarts one that is still stopping. */
  function StartUp(s: State): State {
    if s.phase == Active then s
    else
      s.(phase := Active,
         jobs := if s.saved.None? then s.jobs
                 else seq(|s.jobs|, r requires 0 <= r < |s.jobs| =>
                        if r in s.table then Loaded(s.jobs[r], s.saved.value) else s.jobs[r]))
  }

  function RunJobNow(s: State, id: string): State
    requires Shaped(s)
  {
    var k := Find(s.jobs, s.table, id);
    if k < |s.table| && Free(s.jobs[s.table[k]]) then ScheduleRun(s, s.table[k]) else s
  }

  /** A task's first step. A task cancelled before it never enters `_run_job` at all. */
  function BeginTask(s: State, i: nat): State
    requires Shaped(s)
  {
    if i < |s.tasks| && s.tasks[i].progress == Waiting then
      if s.tasks[i].cancelled then s.(tasks := s.tasks[i := s.tasks[i].(progress := Ended)])
      else s.(tasks := s.tasks[i := s.tasks[i].(progress := Running)], bodyStarts := s.bodyStarts + [s.tasks[i].job])
    else s
  }

  /** The `finally` block of `_run_job`: the body returned, raised or was cancelled. */
  function EndTask(s: State, i: nat, now: int): State
    requires Shaped(s)
  {
    if i < |s.tasks| && s.tasks[i].progress == Running then
      var r := s.tasks[i].job;
      var job := s.jobs[r];
      Persist(s.(
        tasks := s.tasks[i := s.tasks[i].(progress := Ended)],
        jobs := s.jobs[r := job.(runningCount := job.runningCount - 1, lastRun := Some(now),
                                 enabled := job.enabled && !job.schedule.OneShot?)]))
    else s
  }

  function BeginStop(s: State): State {
    if s.phase != Active then s
    else
      s.(phase := Stopping,
         tasks := seq(|s.tasks|, i requires 0 <= i < |s.tasks| => s.tasks[i].(cancelled := true)))
  }

  /** The rest of `stop` after its await; a scheduler restarted meanwhile stays active. */
  function EndStop(s: State): State {
    Persist(s.(phase := if s.phase == Stopping then Stopped else s.phase,
               jobs := seq(|s.jobs|, r requires 0 <= r < |s.jobs| =>
                         if r in s.table then s.jobs[r].(runningCount := 0) else s.jobs[r])))
  }

  function Apply(s: State, e: Event): State
    requires Shaped(s)
  {
    match e
    case Add(id, schedule, maxRunning, enabled, now) => AddJob(s, id, schedule, maxRunning, enabled, now)
    case Remove(id) => RemoveJob(s, id)
    case Start => StartUp(s)
    case Pass(now, later) => if s.phase == Active then PassOver(s.(clock := now), s.table, now, later) else s
    case RunNow(id) => RunJobNow(s, id)
    case TaskStarts(i) => BeginTask(s, i)
    case TaskEnds(i, now) => EndTask(s, i, now)
    case StopBegins => BeginStop(s)
    case StopEnds => EndStop(s)
  }

  // ---- Which events a run contains ----

  predicate Live(t: Task) {
    t.progress != Ended
  }

  /** Every task of a registered job has ended. */
  ghost predicate Drained(s: State) {
    forall i :: 0 <= i < |s.tasks| && Live(s.tasks[i]) ==> s.tasks[i].job !in s.table
  }

  /** What the callers owe: jobs are run by hand only while the scheduler is active, `start` waits
      for a `stop` under way, and that `stop` waits for the tasks it cancelled. Clocks never go back. */
  ghost predicate Allowed(s: State, e: Event) {
    match e
    case Start => s.phase != Stopping
    case RunNow(_) => s.phase == Active
    case Pass(now, later) => s.phase == Active && s.clock <= now && forall r: nat :: now <= later(r)
    case StopEnds => s.phase == Stopping && Drained(s)
    case _ => true
  }

  function ApplyAll(s: State, events: seq<Event>): State
    requires Shaped(s)
    decreases |events|
  {
    if events == [] then s
    else
      ApplyIsShaped(s, events[0]);
      ApplyAll(Apply(s, events[0]), events[1..])
  }

  ghost predicate LegalRun(s: State, events: seq<Event>)
    requires Shaped(s)
    decreases |events|
  {
    events == [] ||
    (Allowed(s, events[0]) && (ApplyIsShaped(s, events[0]); LegalRun(Apply(s, events[0]), events[1..])))
  }

  lemma ApplyIsShaped(s: State, e: Event)
    requires Shaped(s)
    ensures Shaped(Apply(s, e))
  {
    hide Find, SavedTimes, ComputeNext;
    match e
    case Pass(now, later) => PassIsShaped(s.(clock := now), s.table, now, later);
    case _ =>
  }

  lemma {:induction false} PassIsShaped(s: State, refs: seq<nat>, now: int, later: nat -> int)
    requires Shaped(s) && forall i :: 0 <= i < |refs| ==> refs[i] < |s.jobs|
    ensures var t := PassOver(s, refs, now, later); Shaped(t) && |t.jobs| == |s.jobs| && t.table == s.table
    decreases |refs|
  {
    hide ComputeNext, Due;
    if refs != [] { PassIsShaped(Visit(s, refs[0], now, later(refs[0])), refs[1..], now, later); }
  }
}
