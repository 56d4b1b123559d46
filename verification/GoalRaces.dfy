/** Coordinator and workers as concurrent threads on one stored goal, timeouts included. */
module GoalRaces {
  import opened Goals

  datatype CoordinatorPc = At(i: nat) | Awaiting(i: nat) | Over

  /** The worker of one subtask. */
  datatype Worker = Absent | Queued | Loaded(copy: Goal) | Reported

  datatype State = State(
    memory: Goal,           // the coordinator's own copy
    stored: Goal,
    pc: CoordinatorPc,
    workers: seq<Worker>,
    lateSaves: nat)         // worker saves after the coordinator's last one

  datatype Event =
    | Proceed               // the coordinator goes on to its next save
    | Receive               // it gets the report it waits for
    | TimeOut               // it gives up waiting
    | Load(worker: nat)
    | SaveResult(worker: nat)

  function Begin(g: Goal): State {
    State(g, g, At(0), seq(|g.subtasks|, _ => Absent), 0)
  }

  ghost predicate Shaped(s: State) {
    && |s.workers| == |s.memory.subtasks| == |s.stored.subtasks|
    && (s.pc.At? ==> s.pc.i <= |s.workers|) && (s.pc.Awaiting? ==> s.pc.i < |s.workers|)
    && forall k :: 0 <= k < |s.workers| && s.workers[k].Loaded? ==> |s.workers[k].copy.subtasks| == |s.workers|
  }

  function Resolve(s: State, i: nat, o: Outcome): State
    requires i < |s.memory.subtasks|
  {
    var memory := Record(s.memory, i, o).(state := BetweenSubtasks);
    s.(memory := memory, stored := memory, pc := At(i + 1))
  }

  function Advance(s: State): State
    requires Shaped(s) && s.pc.At?
  {
    var i := s.pc.i;
    if i == |s.workers| then s.(memory := Conclude(s.memory), stored := Conclude(s.memory), pc := Over)
    else if IsOpen(s.memory.subtasks[i]) then
      s.(memory := Mark(s.memory, i), stored := Mark(s.memory, i), pc := Awaiting(i), workers := s.workers[i := Queued])
    else s.(pc := At(i + 1))
  }

  const TIMED_OUT := Outcome(false, "subtask timed out")

  /** One atomic step; an event that is not possible now changes nothing. */
  function Step(s: State, e: Event, outcomes: nat -> Outcome): (r: State)
    requires Shaped(s)
    ensures Shaped(r) && |r.workers| == |s.workers|
  {
    match e
    case Proceed => if s.pc.At? then Advance(s) else s
    case Receive => if s.pc.Awaiting? && s.workers[s.pc.i].Reported? then Resolve(s, s.pc.i, outcomes(s.pc.i)) else s
    case TimeOut => if s.pc.Awaiting? then Resolve(s, s.pc.i, TIMED_OUT) else s
    case Load(k) =>
      if k < |s.workers| && s.workers[k].Queued? then s.(workers := s.workers[k := Loaded(s.stored)]) else s
    case SaveResult(k) =>
      if k < |s.workers| && s.workers[k].Loaded? then
        s.(stored := Record(s.workers[k].copy, k, outcomes(k)), workers := s.workers[k := Reported],
           lateSaves := s.lateSaves + if s.pc.Over? then 1 else 0)
      else s
  }

  function Run(s: State, events: seq<Event>, outcomes: nat -> Outcome): (r: State)
    requires Shaped(s)
    ensures Shaped(r)
    decreases |events|
  {
    if events == [] then s else Run(Step(s, events[0], outcomes), events[1..], outcomes)
  }

  // ---- Without timeouts every interleaving is the walk ----

  ghost predicate Quiet(s: State, except: nat) {
    forall k :: 0 <= k < |s.workers| && k != except ==> s.workers[k].Absent? || s.workers[k].Reported?
  }

  /** Coordinator and store agree, up to the one result the worker has saved and not yet reported. */
  ghost predicate InStep(s: State, outcomes: nat -> Outcome)
    requires Shaped(s)
  {
    match s.pc
    case At(_) => s.stored == s.memory && Quiet(s, |s.workers|)
    case Over => s.stored == s.memory && Quiet(s, |s.workers|)
    case Awaiting(i) =>
      && Quiet(s, i)
      && match s.workers[i]
         case Queued => s.stored == s.memory
         case Loaded(copy) => copy == s.stored == s.memory
         case Reported => s.stored == Record(s.memory, i, outcomes(i))
         case Absent => false
  }

  /** What the walk will have made of the goal in the end. */
  function Expected(s: State, outcomes: nat -> Outcome): Goal
    requires Shaped(s)
  {
    match s.pc
    case At(i) => Conclude(Walk(s.memory, i, outcomes).goal)
    case Awaiting(i) =>
      Conclude(Walk(Record(s.memory, i, outcomes(i)).(state := BetweenSubtasks), i + 1, outcomes).goal)
    case Over => s.memory
  }

  lemma StepStaysInStep(s: State, e: Event, outcomes: nat -> Outcome)
    requires Shaped(s) && InStep(s, outcomes) && !e.TimeOut?
    ensures InStep(Step(s, e, outcomes), outcomes)
    ensures OneChange(s.stored, Step(s, e, outcomes).stored)
  {
    hide Walk;
    var t := Step(s, e, outcomes);
    var p := if e.SaveResult? then e.worker else match s.pc case At(i) => i case Awaiting(i) => i case Over => 0;
    assert ChangesOnly(s.stored, t.stored, p);
  }

  lemma StepKeepsExpected(s: State, e: Event, outcomes: nat -> Outcome)
    requires Shaped(s) && InStep(s, outcomes) && !e.TimeOut?
    ensures Expected(Step(s, e, outcomes), outcomes) == Expected(s, outcomes)
  {
  }

  lemma {:induction false} RunStaysInStep(s: State, events: seq<Event>, outcomes: nat -> Outcome)
    requires Shaped(s) && InStep(s, outcomes) && TimeOut !in events
    ensures InStep(Run(s, events, outcomes), outcomes)
    ensures Expected(Run(s, events, outcomes), outcomes) == Expected(s, outcomes)
    decreases |events|
  {
    hide InStep, Expected, Step, Shaped;
    if events != [] {
      StepStaysInStep(s, events[0], outcomes);
      StepKeepsExpected(s, events[0], outcomes);
      RunStaysInStep(Step(s, events[0], outcomes), events[1..], outcomes);
    }
  }

  /** However coordinator and workers interleave, if no wait times out the goal stored in the end is
      the coordinator's own and the one the sequential walk computes. */
  lemma EveryInterleavingIsTheWalk(g: Goal, events: seq<Event>, outcomes: nat -> Outcome)
    requires TimeOut !in events
    ensures var s := Run(Begin(g), events, outcomes);
            s.pc.Over? ==> s.stored == s.memory == Conclude(Walk(g, 0, outcomes).goal)
  {
    hide Run, Walk;
    assert InStep(Begin(g), outcomes);
    RunStaysInStep(Begin(g), events, outcomes);
  }

  /** And no save on the way loses another's update. */
  lemma NoUpdateIsLost(g: Goal, events: seq<Event>, e: Event, outcomes: nat -> Outcome)
    requires TimeOut !in events && !e.TimeOut?
    ensures var s := Run(Begin(g), events, outcomes); OneChange(s.stored, Step(s, e, outcomes).stored)
  {
    hide Run, Walk, Step;
    assert InStep(Begin(g), outcomes);
    RunStaysInStep(Begin(g), events, outcomes);
    StepStaysInStep(Run(Begin(g), events, outcomes), e, outcomes);
  }

  // ---- With timeouts ----

  /** The subtasks whose wait times out along these events. */
  ghost function TimedOut(s: State, events: seq<Event>, outcomes: nat -> Outcome): set<nat>
    requires Shaped(s)
    decreases |events|
  {
    if events == [] then {}
    else
      (if events[0].TimeOut? && s.pc.Awaiting? then {s.pc.i} else {})
      + TimedOut(Step(s, events[0], outcomes), events[1..], outcomes)
  }

  /** What the coordinator takes for the outcomes when these time out. */
  function Seen(outcomes: nat -> Outcome, late: set<nat>): nat -> Outcome {
    (i: nat) => if i in late then Outcome(false, "subtask timed out") else outcomes(i)
  }

  ghost function Next(pc: CoordinatorPc, n: nat): nat {
    match pc case At(i) => i case Awaiting(i) => i case Over => n
  }

  lemma {:induction false} TimedOutAhead(s: State, events: seq<Event>, outcomes: nat -> Outcome)
    requires Shaped(s)
    ensures forall i :: i in TimedOut(s, events, outcomes) ==> Next(s.pc, |s.workers|) <= i < |s.workers|
    decreases |events|
  {
    if events != [] { TimedOutAhead(Step(s, events[0], outcomes), events[1..], outcomes); }
  }

  lemma {:induction false} WalkAlike(g: Goal, i: nat, o: nat -> Outcome, u: nat -> Outcome)
    requires i <= |g.subtasks| && forall k: nat :: i <= k < |g.subtasks| ==> o(k) == u(k)
    ensures Walk(g, i, o) == Walk(g, i, u)
    decreases |g.subtasks| - i
  {
    if i < |g.subtasks| {
      WalkAlike(if IsOpen(g.subtasks[i]) then Executed(g, i, o(i)) else g, i + 1, o, u);
    }
  }

  lemma StepKeepsSeen(s: State, e: Event, outcomes: nat -> Outcome, seen: nat -> Outcome)
    requires Shaped(s)
    requires s.pc.Awaiting? ==>
               && (e.TimeOut? ==> seen(s.pc.i) == Outcome(false, "subtask timed out"))
               && (e.Receive? && s.workers[s.pc.i].Reported? ==> seen(s.pc.i) == outcomes(s.pc.i))
    ensures Expected(Step(s, e, outcomes), seen) == Expected(s, seen)
  {
  }

  lemma {:induction false} RunKeepsSeen(s: State, events: seq<Event>, outcomes: nat -> Outcome, seen: nat -> Outcome)
    requires Shaped(s)
    requires forall i: nat :: Next(s.pc, |s.workers|) <= i < |s.workers| ==>
               seen(i) == Seen(outcomes, TimedOut(s, events, outcomes))(i)
    ensures Expected(Run(s, events, outcomes), seen) == Expected(s, seen)
    decreases |events|
  {
    hide Expected;
    if events != [] {
      var t := Step(s, events[0], outcomes);
      TimedOutAhead(t, events[1..], outcomes);
      StepKeepsSeen(s, events[0], outcomes, seen);
      RunKeepsSeen(t, events[1..], outcomes, seen);
    }
  }

  /** However coordinator and workers interleave and whatever waits time out, the goal returned is the one that the
      sequential walk makes of the same outcomes, with a failure in place of each that timed out. */
  lemma ReturnedGoalIsTheWalk(g: Goal, events: seq<Event>, outcomes: nat -> Outcome)
    ensures var s := Run(Begin(g), events, outcomes);
            var late := TimedOut(Begin(g), events, outcomes);
            s.pc.Over? ==> s.memory == Conclude(Walk(g, 0, Seen(outcomes, late)).goal)
  {
    hide Run, Walk, TimedOut;
    RunKeepsSeen(Begin(g), events, outcomes, Seen(outcomes, TimedOut(Begin(g), events, outcomes)));
  }

  /** On a fresh goal the coordinator's copy stays orderly, and ends "done" only if all is done. */
  ghost predicate MemoryOk(s: State)
    requires Shaped(s)
  {
    match s.pc
    case At(i) => OneAtATime(s.memory, i) && AllPendingFrom(s.memory, i)
    case Awaiting(i) => OneAtATime(s.memory, i)
    case Over =>
      (s.memory.state == GoalDone <==> AllDone(s.memory)) && (s.memory.state == GoalFailed <==> !AllDone(s.memory))
  }

  lemma StepKeepsMemory(s: State, e: Event, outcomes: nat -> Outcome)
    requires Shaped(s) && MemoryOk(s)
    ensures MemoryOk(Step(s, e, outcomes))
  {
  }

  lemma {:induction false} RunKeepsMemory(s: State, events: seq<Event>, outcomes: nat -> Outcome)
    requires Shaped(s) && MemoryOk(s)
    ensures MemoryOk(Run(s, events, outcomes))
    decreases |events|
  {
    hide MemoryOk, Step, Shaped;
    if events != [] {
      StepKeepsMemory(s, events[0], outcomes);
      RunKeepsMemory(Step(s, events[0], outcomes), events[1..], outcomes);
    }
  }

  /** Even when waits time out, the goal a fresh run returns is "done" exactly when each of its
      subtasks is. */
  lemma ReturnedGoalIsRight(g: Goal, events: seq<Event>, outcomes: nat -> Outcome)
    requires AllPendingFrom(g, 0)
    ensures var s := Run(Begin(g), events, outcomes); s.pc.Over? ==> (s.memory.state == GoalDone <==> AllDone(s.memory))
  {
    hide Run;
    assert MemoryOk(Begin(g));
    RunKeepsMemory(Begin(g), events, outcomes);
  }

  predicate Ended(state: GoalState) {
    state == GoalDone || state == GoalFailed
  }

  /** Copies that workers hold were stored before the goal ended, so they say it is under way. */
  ghost predicate CopiesUnderWay(s: State)
    requires Shaped(s)
  {
    && (forall k :: 0 <= k < |s.workers| && s.workers[k].Loaded? ==> !Ended(s.workers[k].copy.state))
    && (forall k :: 0 <= k < |s.workers| && s.workers[k].Queued? && !s.pc.Over? ==> !Ended(s.stored.state))
    && (s.pc.Over? ==> Ended(s.memory.state) && (s.lateSaves == 0 <==> s.stored == s.memory) &&
                       (s.lateSaves > 0 ==> !Ended(s.stored.state)))
    && (!s.pc.Over? ==> s.lateSaves == 0)
  }

  /** No worker starts once the goal has ended: `stop` cancels those that have not. */
  ghost predicate LoadsInTime(s: State, events: seq<Event>, outcomes: nat -> Outcome)
    requires Shaped(s)
    decreases |events|
  {
    || events == []
    || ((events[0].Load? ==> !s.pc.Over?) && LoadsInTime(Step(s, events[0], outcomes), events[1..], outcomes))
  }

  lemma StepKeepsCopies(s: State, e: Event, outcomes: nat -> Outcome)
    requires Shaped(s) && CopiesUnderWay(s) && (e.Load? ==> !s.pc.Over?)
    ensures CopiesUnderWay(Step(s, e, outcomes))
  {
  }

  lemma {:induction false} RunKeepsCopies(s: State, events: seq<Event>, outcomes: nat -> Outcome)
    requires Shaped(s) && CopiesUnderWay(s) && LoadsInTime(s, events, outcomes)
    ensures CopiesUnderWay(Run(s, events, outcomes))
    decreases |events|
  {
    hide CopiesUnderWay, Step, Shaped;
    if events != [] {
      StepKeepsCopies(s, events[0], outcomes);
      RunKeepsCopies(Step(s, events[0], outcomes), events[1..], outcomes);
    }
  }

  ghost predicate SavedAtEnd(s: State) {
    if s.pc.Over? then s.lateSaves == 0 ==> s.stored == s.memory else s.lateSaves == 0
  }

  lemma StepKeepsSavedAtEnd(s: State, e: Event, outcomes: nat -> Outcome)
    requires Shaped(s) && SavedAtEnd(s)
    ensures SavedAtEnd(Step(s, e, outcomes))
  {
  }

  /** Whatever workers start when, as long as none saves after the end the stored goal is the returned one. */
  lemma {:induction false} NoLateSaveIsStored(s: State, events: seq<Event>, outcomes: nat -> Outcome)
    requires Shaped(s) && SavedAtEnd(s)
    ensures var t := Run(s, events, outcomes); t.pc.Over? && t.lateSaves == 0 ==> t.stored == t.memory
    decreases events
  {
    hide Step, Shaped;
    if events != [] {
      StepKeepsSavedAtEnd(s, events[0], outcomes);
      NoLateSaveIsStored(Step(s, events[0], outcomes), events[1..], outcomes);
    }
  }

  /** After a timeout the worker is still at work. The stored goal is the one that was returned
      exactly when no such worker saved after the end; one that does puts the goal back under way. */
  lemma StoredIffNoLateSave(g: Goal, events: seq<Event>, outcomes: nat -> Outcome)
    requires LoadsInTime(Begin(g), events, outcomes)
    ensures var s := Run(Begin(g), events, outcomes);
            s.pc.Over? ==> (s.stored == s.memory <==> s.lateSaves == 0) && (s.lateSaves > 0 ==> !Ended(s.stored.state))
  {
    hide Run, LoadsInTime;
    assert CopiesUnderWay(Begin(g));
    RunKeepsCopies(Begin(g), events, outcomes);
  }
}
