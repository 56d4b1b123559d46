/** A pass of the loop starts exactly the jobs that are due. When a job is due is told by its own history
    alone: what its latest schedule computation, or the state loaded since, says. */
module SchedulerLiveness {
  import opened Jobs
  import opened SchedulerTheorems
  import opened Text

  /** What the history of one job says about it; `saved` is what the backend holds under its id. */
  datatype Timetable = Timetable(
    id: string,
    schedule: Schedule,
    maxRunning: int,
    registered: bool,
    enabled: bool,
    last: Option<int>,
    next: Option<int>,
    saved: Option<Times>)

  /** When a job whose next run is computed at `at` is due: a one-shot then, an interval job its seconds after
      the later of that time and its last run, a cron job at the next time its expression gives. */
  function DueFrom(schedule: Schedule, last: Option<int>, at: int): int {
    match schedule
    case OneShot => at
    case Interval(seconds) => (match last case Some(t) => if t > at then t else at case None => at) + seconds
    case Cron(next) => next(at)
  }

  /** What the backend holds under the id. */
  function Held(saved: Option<map<string, Times>>, id: string): Option<Times> {
    if saved.Some? && id in saved.value then Some(saved.value[id]) else None
  }

  function FirstTimetable(
    s: State, id: string, schedule: Schedule, maxRunning: int, enabled: bool, now: int): Timetable
  {
    Timetable(id, schedule, maxRunning, true, enabled, None, Some(DueFrom(schedule, None, now)), Held(s.saved, id))
  }

  /** The job is registered, enabled, has fewer live tasks than it may have, and its time has come. */
  predicate IsTime(p: Timetable, live: nat, now: int) {
    p.registered && p.enabled && live < p.maxRunning && p.next.Some? && p.next.value <= now
  }

  function NowSaved(p: Timetable): Timetable {
    if p.registered then p.(saved := Some(Times(p.last, p.next))) else p
  }

  /** Some registered job has this id. */
  predicate Names(s: State, id: string) {
    exists q :: q in s.table && q < |s.jobs| && s.jobs[q].id == id
  }

  /** What an event makes of the timetable of job `r`. */
  function Told(s: State, e: Event, r: nat, p: Timetable): Timetable {
    match e
    case Add(id, _, _, _, _) => p.(registered := p.registered && id != p.id)
    case Remove(id) =>
      if id == p.id then p.(registered := false)
      else if Names(s, id) then NowSaved(p) else p
    case Start =>
      if s.phase == Stopped && p.registered && p.saved.Some? then
        p.(last := p.saved.value.lastRun, next := p.saved.value.nextRun)
      else p
    case Pass(now, later) =>
      if IsTime(p, Tally(s.tasks, LiveOf(r)), now) then p.(next := Some(DueFrom(p.schedule, p.last, later(r)))) else p
    case TaskEnds(i, now) =>
      if i < |s.tasks| && s.tasks[i].progress == Running then
        NowSaved(if s.tasks[i].job != r then p
                 else p.(last := Some(now), enabled := p.enabled && p.schedule != OneShot))
      else p
    case StopEnds => NowSaved(p)
    case _ => p
  }

  function ToldAll(s: State, events: seq<Event>, r: nat, p: Timetable): Timetable
    requires Shaped(s)
    decreases |events|
  {
    if events == [] then p
    else
      ApplyIsShaped(s, events[0]);
      ToldAll(Apply(s, events[0]), events[1..], r, Told(s, events[0], r, p))
  }

  /** The state agrees with the timetable of job `r`. */
  ghost predicate Agrees(s: State, r: nat, p: Timetable) {
    && r < |s.jobs|
    && s.jobs[r].id == p.id && s.jobs[r].schedule == p.schedule && s.jobs[r].maxRunning == p.maxRunning
    && s.jobs[r].enabled == p.enabled && s.jobs[r].lastRun == p.last
    && (r in s.table <==> p.registered)
    && (p.registered ==> s.jobs[r].nextRun == p.next && Held(s.saved, p.id) == p.saved)
  }

  // ---- One pass, one job at a time ----

  /** The loop started job `r` between these two states: it says so, and one more task waits. */
  ghost predicate StartedIn(s: State, t: State, r: nat, now: int) {
    && Tally(t.loopStarts, IsStart(r)) == Tally(s.loopStarts, IsStart(r)) + 1
    && LoopStart(r, now) in t.loopStarts
    && Tally(t.tasks, WaitingOf(r)) == Tally(s.tasks, WaitingOf(r)) + 1
  }

  ghost predicate NotStartedIn(s: State, t: State, r: nat) {
    && Tally(t.loopStarts, IsStart(r)) == Tally(s.loopStarts, IsStart(r))
    && Tally(t.tasks, WaitingOf(r)) == Tally(s.tasks, WaitingOf(r))
  }

  function IsStart(r: nat): LoopStart -> bool {
    (l: LoopStart) => l.job == r
  }

  /** The job has been visited: started and given its next time exactly when its time had come. */
  ghost predicate Visited(s: State, t: State, r: nat, now: int, later: int)
    requires r < |s.jobs| && r < |t.jobs|
  {
    var job := s.jobs[r];
    if job.enabled && job.runningCount < job.maxRunning && job.nextRun.Some? && job.nextRun.value <= now then
      && StartedIn(s, t, r, now)
      && t.jobs[r] == job.(runningCount := job.runningCount + 1,
                           nextRun := Some(DueFrom(job.schedule, job.lastRun, later)))
    else NotStartedIn(s, t, r) && t.jobs[r] == job
  }

  lemma TallyOne<T>(s: seq<T>, x: T, p: T -> bool)
    ensures Tally(s + [x], p) == Tally(s, p) + if p(x) then 1 else 0
  {
    assert (s + [x])[..|s|] == s;
  }

  lemma VisitOf(s: State, r: nat, now: int, later: int)
    requires r < |s.jobs|
    ensures Visited(s, Visit(s, r, now, later), r, now, later)
  {
    TallyOne(s.tasks, Task(r, Waiting, false), WaitingOf(r));
    TallyOne(s.loopStarts, LoopStart(r, now), IsStart(r));
    hide Tally;
    var t := Visit(s, r, now, later);
    assert LoopStart(r, now) in s.loopStarts + [LoopStart(r, now)];
  }

  lemma VisitOfOther(s: State, q: nat, r: nat, now: int, later: int)
    requires q < |s.jobs| && r < |s.jobs| && q != r
    ensures var t := Visit(s, q, now, later);
            t.jobs[r] == s.jobs[r] && NotStartedIn(s, t, r) && forall l :: l in s.loopStarts ==> l in t.loopStarts
  {
    TallyOne(s.tasks, Task(q, Waiting, false), WaitingOf(r));
    TallyOne(s.loopStarts, LoopStart(q, now), IsStart(r));
    hide Tally, ComputeNext;
  }

  lemma {:induction false} PassVisits(s: State, refs: seq<nat>, now: int, later: nat -> int, r: nat)
    requires r < |s.jobs| && (forall i :: 0 <= i < |refs| ==> refs[i] < |s.jobs|)
    requires forall i, j :: 0 <= i < j < |refs| ==> refs[i] != refs[j]
    ensures var t := PassOver(s, refs, now, later);
            && |t.jobs| == |s.jobs| && t.table == s.table && t.saved == s.saved
            && (forall l :: l in s.loopStarts ==> l in t.loopStarts)
            && if r in refs then Visited(s, t, r, now, later(r))
               else NotStartedIn(s, t, r) && t.jobs[r] == s.jobs[r]
    decreases |refs|
  {
    hide ComputeNext, Due, Tally, DueFrom;
    if refs != [] {
      var q, rest := refs[0], refs[1..];
      var u := Visit(s, q, now, later(q));
      VisitOf(s, r, now, later(r));
      if q != r { VisitOfOther(s, q, r, now, later(q)); }
      assert forall i :: 0 <= i < |rest| ==> rest[i] == refs[i + 1];
      PassVisits(u, rest, now, later, r);
    }
  }

  // ---- Every event keeps the timetable ----

  lemma TableDistinct(s: State)
    requires Shaped(s) && IdsDistinct(s)
    ensures forall i, j :: 0 <= i < j < |s.table| ==> s.table[i] != s.table[j]
    ensures forall q, r :: q in s.table && r in s.table && s.jobs[q].id == s.jobs[r].id ==> q == r
  {
  }

  lemma PassAgrees(s: State, r: nat, p: Timetable, now: int, later: nat -> int)
    requires Registered(s) && s.phase == Active && Agrees(s, r, p)
    ensures Agrees(Apply(s, Pass(now, later)), r, Told(s, Pass(now, later), r, p))
    ensures var t := Apply(s, Pass(now, later));
            if IsTime(p, Tally(s.tasks, LiveOf(r)), now) then StartedIn(s, t, r, now) else NotStartedIn(s, t, r)
  {
    TableDistinct(s);
    if r in s.table { assert CountOk(s, r); }
    PassVisits(s.(clock := now), s.table, now, later, r);
    hide Tally, PassOver, DueFrom, IdsDistinct, Counted;
  }

  lemma AddAgrees(s: State, r: nat, p: Timetable, e: Event)
    requires Registered(s) && Agrees(s, r, p) && e.Add?
    ensures Agrees(Apply(s, e), r, Told(s, e, r, p))
  {
    TableDistinct(s);
    hide ComputeNext, IdsDistinct, Counted, Find;
    var k := Find(s.jobs, s.table, e.id);
    var t := Apply(s, e);
    if r in s.table {
      FoundByName(s, r);
      var i :| 0 <= i < |s.table| && s.table[i] == r;
      assert e.id != p.id ==> t.table[i] == r;
    }
  }

  lemma AddedAgrees(s: State, id: string, schedule: Schedule, maxRunning: int, enabled: bool, now: int)
    requires Registered(s)
    ensures Agrees(AddJob(s, id, schedule, maxRunning, enabled, now), |s.jobs|,
                   FirstTimetable(s, id, schedule, maxRunning, enabled, now))
  {
    hide IdsDistinct, Counted, Find;
    var t := AddJob(s, id, schedule, maxRunning, enabled, now);
    var k := Find(s.jobs, s.table, id);
    assert if k < |s.table| then t.table[k] == |s.jobs| else t.table[|s.table|] == |s.jobs|;
  }

  lemma RemoveAgrees(s: State, r: nat, p: Timetable, id: string)
    requires Registered(s) && Agrees(s, r, p)
    ensures Agrees(Apply(s, Remove(id)), r, Told(s, Remove(id), r, p))
  {
    NameFound(s, id);
    RemoveGives(s, id);
    if Find(s.jobs, s.table, id) < |s.table| {
      RemovedAgrees(s, r, p, id);
    } else {
      hide Apply, Jobs.RemoveJob, Counted, IdsDistinct, Find;
      assert forall q :: q in s.table && s.jobs[q].id == id ==> Names(s, id);
    }
  }

  lemma RemovedAgrees(s: State, r: nat, p: Timetable, id: string)
    requires Registered(s) && Agrees(s, r, p) && Find(s.jobs, s.table, id) < |s.table|
    ensures Agrees(Apply(s, Remove(id)), r, Told(s, Remove(id), r, p))
  {
    TableDistinct(s);
    NameFound(s, id);
    RemoveKeepsCounted(s, id);
    RemoveGives(s, id);
    hide Registered, IdsDistinct, Counted, Find, SavedTimes, Apply, Jobs.RemoveJob, Names, Persist, Shaped;
    var t, k := Apply(s, Remove(id)), Find(s.jobs, s.table, id);
    WithoutOne(s.table, k, r);
    if r in t.table { SavedAgrees(t, r); }
  }

  lemma RemoveGives(s: State, id: string)
    requires Shaped(s)
    ensures var t, k := Apply(s, Remove(id)), Find(s.jobs, s.table, id);
            && t.jobs == s.jobs
            && (k == |s.table| ==> t == s)
            && (k < |s.table| ==> t.table == s.table[..k] + s.table[k + 1..] && t.saved == Persist(t).saved)
            && t == RemoveJob(s, id)
  {
    hide Find, SavedTimes, CancelNamed;
  }

  lemma NameFound(s: State, id: string)
    requires Shaped(s)
    ensures Find(s.jobs, s.table, id) < |s.table| <==> Names(s, id)
  {
    hide Find;
    var k := Find(s.jobs, s.table, id);
    assert k < |s.table| ==> s.table[k] in s.table;
  }

  lemma WithoutOne(table: seq<nat>, k: nat, r: nat)
    requires k < |table| && forall i, j :: 0 <= i < j < |table| ==> table[i] != table[j]
    ensures r in table[..k] + table[k + 1..] <==> r in table && r != table[k]
  {
    var rest := table[..k] + table[k + 1..];
    assert forall i :: 0 <= i < |table| && i != k ==> table[i] == rest[if i < k then i else i - 1];
  }

  lemma SavedAgrees(s: State, r: nat)
    requires Shaped(s) && IdsDistinct(s) && r in s.table
    ensures Held(Persist(s).saved, s.jobs[r].id) == Some(Times(s.jobs[r].lastRun, s.jobs[r].nextRun))
  {
    SavedHolds(s.jobs, s.table, r);
  }

  lemma {:induction false} SavedHolds(jobs: seq<Job>, table: seq<nat>, r: nat)
    requires r in table && (forall i :: 0 <= i < |table| ==> table[i] < |jobs|)
    requires forall i, j :: 0 <= i < j < |table| ==> jobs[table[i]].id != jobs[table[j]].id
    ensures Held(Some(SavedTimes(jobs, table)), jobs[r].id) == Some(Times(jobs[r].lastRun, jobs[r].nextRun))
    decreases |table|
  {
    var n := |table| - 1;
    if table[n] != r {
      assert r in table[..n];
      SavedHolds(jobs, table[..n], r);
    }
  }

  lemma EndAgrees(s: State, r: nat, p: Timetable, i: nat, now: int)
    requires Registered(s) && Agrees(s, r, p)
    ensures Agrees(Apply(s, TaskEnds(i, now)), r, Told(s, TaskEnds(i, now), r, p))
  {
    EndTaskKeepsCounted(s, i, now);
    hide Counted, SavedTimes;
    var t := EndTask(s, i, now);
    if r in t.table && i < |s.tasks| && s.tasks[i].progress == Running { SavedAgrees(t.(saved := s.saved), r); }
  }

  lemma StopAgrees(s: State, r: nat, p: Timetable)
    requires Registered(s) && Agrees(s, r, p)
    ensures Agrees(Apply(s, StopEnds), r, Told(s, StopEnds, r, p))
  {
    hide Counted, SavedTimes;
    var t := EndStop(s);
    if r in t.table { SavedAgrees(t.(saved := s.saved), r); }
  }

  lemma EventAgrees(s: State, r: nat, p: Timetable, e: Event)
    requires Registered(s) && Agrees(s, r, p) && Allowed(s, e)
    ensures Agrees(Apply(s, e), r, Told(s, e, r, p))
  {
    hide IdsDistinct, Counted, Drained, SavedTimes, Find, PassOver, Tally, ComputeNext;
    match e
    case Add(_, _, _, _, _) => AddAgrees(s, r, p, e);
    case Remove(id) => RemoveAgrees(s, r, p, id);
    case Pass(now, later) => PassAgrees(s, r, p, now, later);
    case TaskEnds(i, now) => EndAgrees(s, r, p, i, now);
    case StopEnds => StopAgrees(s, r, p);
    case _ =>
  }

  /** Over any legal run the state of a job is what its own history says. */
  lemma {:induction false} RunAgrees(s: State, events: seq<Event>, r: nat, p: Timetable)
    requires Registered(s) && LegalRun(s, events) && Agrees(s, r, p)
    ensures Agrees(ApplyAll(s, events), r, ToldAll(s, events, r, p))
    decreases |events|
  {
    hide Registered, Apply, Allowed, Agrees, Told;
    if events != [] {
      ShapedIfRegistered(s);
      ApplyIsShaped(s, events[0]);
      EventKeepsCounted(s, events[0]);
      EventAgrees(s, r, p, events[0]);
      RunAgrees(Apply(s, events[0]), events[1..], r, Told(s, events[0], r, p));
    }
  }

  lemma ShapedIfRegistered(s: State)
    requires Registered(s)
    ensures Shaped(s)
  {
  }

  // ---- What a pass starts ----

  /** A state that a legal run of a new scheduler leads to. */
  ghost predicate Reached(s: State) {
    exists saved, clock, events :: LegalRun(Fresh(saved, clock), events) && s == ApplyAll(Fresh(saved, clock), events)
  }

  lemma ReachedIsRegistered(s: State)
    requires Reached(s)
    ensures Registered(s)
  {
    hide Registered, LegalRun, ApplyAll;
    var saved, clock, events :|
      LegalRun(Fresh(saved, clock), events) && s == ApplyAll(Fresh(saved, clock), events);
    NothingRegistered(saved, clock);
    RunKeepsCounted(Fresh(saved, clock), events);
  }

  /** In every reached state a pass starts job `r`, with one task and one entry, exactly when it is registered
      and enabled, has fewer live tasks than `max_running`, and its own history says that its time has come. */
  lemma PassStartsByHistory(s0: State, add: Event, events: seq<Event>, now: int, later: nat -> int)
    requires Reached(s0) && add.Add? && Shaped(s0) && Shaped(Apply(s0, add)) && LegalRun(Apply(s0, add), events)
    requires var s := ApplyAll(Apply(s0, add), events); Shaped(s) && Allowed(s, Pass(now, later))
    ensures var s1, r := Apply(s0, add), |s0.jobs|;
            var added := FirstTimetable(s0, add.id, add.schedule, add.maxRunning, add.enabled, add.now);
            var p := ToldAll(s1, events, r, added);
            var s := ApplyAll(s1, events);
            var t := Apply(s, Pass(now, later));
            Agrees(s, r, p)
            && if IsTime(p, Tally(s.tasks, LiveOf(r)), now) then StartedIn(s, t, r, now) else NotStartedIn(s, t, r)
  {
    hide ApplyAll, LegalRun, Registered, Agrees, IsTime, Tally, Told, ToldAll;
    ReachedIsRegistered(s0);
    EventKeepsCounted(s0, add);
    AddedAgrees(s0, add.id, add.schedule, add.maxRunning, add.enabled, add.now);
    var s1, r := Apply(s0, add), |s0.jobs|;
    var p := FirstTimetable(s0, add.id, add.schedule, add.maxRunning, add.enabled, add.now);
    RunKeepsCounted(s1, events);
    RunAgrees(s1, events, r, p);
    PassAgrees(ApplyAll(s1, events), r, ToldAll(s1, events, r, p), now, later);
  }

  /** The event computed the next run of job `r` at time `at`: it added the job, or it is a pass that started it. */
  ghost predicate Computes(s: State, e: Event, r: nat, at: int)
    requires Shaped(s)
  {
    match e
    case Add(_, _, _, _, now) => r == |s.jobs| && at == now
    case Pass(now, later) => r in s.table && StartedIn(s, Apply(s, e), r, now) && at == later(r)
    case _ => false
  }

  /** In none of these events does the loop start the job or a start load a time saved under its id. */
  ghost predicate Undisturbed(s: State, events: seq<Event>, r: nat)
    requires Shaped(s) && r < |s.jobs|
    decreases |events|
  {
    events == [] ||
    (ApplyIsShaped(s, events[0]);
     var t := Apply(s, events[0]);
     && (events[0] == Start ==> Held(s.saved, s.jobs[r].id) == None)
     && NotStartedIn(s, t.(tasks := s.tasks), r)
     && r < |t.jobs| && Undisturbed(t, events[1..], r))
  }

  lemma {:induction false} NextStays(s: State, events: seq<Event>, r: nat, p: Timetable)
    requires Registered(s) && LegalRun(s, events) && Agrees(s, r, p) && Undisturbed(s, events, r)
    ensures var q := ToldAll(s, events, r, p); q.schedule == p.schedule && (q.registered ==> q.next == p.next)
    decreases |events|
  {
    hide Registered, Apply, Allowed, Tally, IsTime;
    if events != [] {
      ShapedIfRegistered(s);
      ApplyIsShaped(s, events[0]);
      EventKeepsCounted(s, events[0]);
      EventAgrees(s, r, p, events[0]);
      if events[0].Pass? { PassGives(s, r, p, events[0].now, events[0].later); }
      NextStays(Apply(s, events[0]), events[1..], r, Told(s, events[0], r, p));
    }
  }

  lemma PassGives(s: State, r: nat, p: Timetable, now: int, later: nat -> int)
    requires Registered(s) && Agrees(s, r, p) && Allowed(s, Pass(now, later))
    ensures var t := Apply(s, Pass(now, later));
            if IsTime(p, Tally(s.tasks, LiveOf(r)), now) then StartedIn(s, t, r, now) else NotStartedIn(s, t, r)
  {
    hide Registered, Apply, Agrees;
    PassAgrees(s, r, p, now, later);
  }

  /** A registered, enabled job below its limit, not started since its next run was computed at `at`, is
      started by a pass exactly when the time has come: for a one-shot `at` itself; for an interval job its
      seconds after the later of `at` and the last run known then; for a cron job the next time its expression
      gives after `at`. */
  lemma PassStartsWhatIsDue(s0: State, e: Event, events: seq<Event>, r: nat, at: int, now: int, later: nat -> int)
    requires Reached(s0) && Shaped(s0) && Allowed(s0, e) && Computes(s0, e, r, at)
    requires Shaped(Apply(s0, e)) && LegalRun(Apply(s0, e), events)
    requires r < |Apply(s0, e).jobs| && Undisturbed(Apply(s0, e), events, r)
    requires var s := ApplyAll(Apply(s0, e), events);
             && Shaped(s) && Allowed(s, Pass(now, later)) && r in s.table && s.jobs[r].enabled
             && Tally(s.tasks, LiveOf(r)) < s.jobs[r].maxRunning
    ensures var s := ApplyAll(Apply(s0, e), events);
            var t := Apply(s, Pass(now, later));
            var last := if r < |s0.jobs| then s0.jobs[r].lastRun else None;
            var due := match s.jobs[r].schedule
                       case OneShot => now >= at
                       case Interval(seconds) => now >= at + seconds && (last.Some? ==> now >= last.value + seconds)
                       case Cron(next) => now >= next(at);
            if due then StartedIn(s, t, r, now) else NotStartedIn(s, t, r)
  {
    hide ApplyAll, LegalRun, Registered, Tally, Told, ToldAll, Apply, Undisturbed;
    ReachedIsRegistered(s0);
    EventKeepsCounted(s0, e);
    var p := TimetableAfter(s0, e, r, at);
    var s1 := Apply(s0, e);
    RunKeepsCounted(s1, events);
    RunAgrees(s1, events, r, p);
    NextStays(s1, events, r, p);
    PassAgrees(ApplyAll(s1, events), r, ToldAll(s1, events, r, p), now, later);
  }

  lemma TimetableAfter(s: State, e: Event, r: nat, at: int) returns (p: Timetable)
    requires Registered(s) && Allowed(s, e) && Computes(s, e, r, at)
    ensures Agrees(Apply(s, e), r, p)
    ensures p.next == Some(DueFrom(p.schedule, if r < |s.jobs| then s.jobs[r].lastRun else None, at))
  {
    hide IdsDistinct, Counted, PassOver, Tally;
    match e
    case Add(id, schedule, maxRunning, enabled, now) =>
      AddedAgrees(s, id, schedule, maxRunning, enabled, now);
      p := FirstTimetable(s, id, schedule, maxRunning, enabled, now);
    case Pass(now, later) =>
      var job := s.jobs[r];
      var q := Timetable(job.id, job.schedule, job.maxRunning, true, job.enabled, job.lastRun, job.nextRun,
                         Held(s.saved, job.id));
      PassAgrees(s, r, q, now, later);
      p := Told(s, e, r, q);
  }

  /** The loaded state overrules the time at which a job was added: a one-shot added for time 5 under an id whose
      saved next run is 100 is not started at 6, though it would be without the saved state. */
  lemma SavedTimeDelaysOneShot(later: nat -> int)
    requires forall r: nat :: 6 <= later(r)
    ensures var events := [Add("j", OneShot, 1, true, 5), Start, Pass(6, later)];
            var held := Some(map["j" := Times(None, Some(100))]);
            && LegalRun(Fresh(held, 0), events) && ApplyAll(Fresh(held, 0), events).tasks == []
            && LegalRun(Fresh(None, 0), events) && ApplyAll(Fresh(None, 0), events).tasks == [Task(0, Waiting, false)]
  {
    hide LegalRun, ApplyAll;
    var e1, e2, e3: Event := Add("j", OneShot, 1, true, 5), Start, Pass(6, later);
    forall saved: Option<map<string, Times>> | saved == None || saved == Some(map["j" := Times(None, Some(100))])
      ensures LegalRun(Fresh(saved, 0), [e1, e2, e3])
              && ApplyAll(Fresh(saved, 0), [e1, e2, e3]).tasks
                 == if saved == None then [Task(0, Waiting, false)] else []
    {
      ThreeEvents(saved, e1, e2, e3);
      assert [e1] + ([e2] + ([e3] + [])) == [e1, e2, e3];
    }
  }

  lemma ThreeEvents(saved: Option<map<string, Times>>, e1: Event, e2: Event, e3: Event)
    requires saved == None || saved == Some(map["j" := Times(None, Some(100))])
    requires e1 == Add("j", OneShot, 1, true, 5) && e2 == Start && e3.Pass? && e3.now == 6
             && forall r: nat :: 6 <= e3.later(r)
    ensures LegalRun(Fresh(saved, 0), [e1] + ([e2] + ([e3] + [])))
    ensures ApplyAll(Fresh(saved, 0), [e1] + ([e2] + ([e3] + []))).tasks
            == if saved == None then [Task(0, Waiting, false)] else []
  {
    hide LegalRun, ApplyAll;
    var s1 := AddedFirst(saved, 0, "j", 5);
    OneEvent(Fresh(saved, 0), e1, [e2] + ([e3] + []));
    OneEvent(s1, e2, [e3] + []);
    var s2 := Apply(s1, e2);
    OneEvent(s2, e3, []);
    NoEvents(Apply(s2, e3));
    assert s2.table[1..] == [];
  }
}
