/** Per-path locks around read-modify-write file tools, one atomic step of one thread at a time. */
module Locks {
  import opened Edits
  import opened Lists
  import opened Text

  datatype Call = Call(path: string, op: FileOp)

  /** The calls, one per thread, and how a path is made canonical. */
  datatype Setup = Setup(calls: seq<Call>, resolve: string -> string)

  datatype Pc =
    | Idle                                     // before `with _master_lock`
    | Master                                   // holds the master lock
    | Found(lock: nat)                         // holds the master lock and has its path's lock object
    | Waiting(lock: nat)                       // master lock released, at `lock.acquire()`
    | Entered(lock: nat)                       // holds the path's lock
    | HasRead(lock: nat, seen: Option<string>)
    | HasWritten(lock: nat)
    | Finished

  datatype State = State(
    master: Option<nat>,
    locks: map<string, nat>,     // lock object of each canonical path
    created: nat,                // lock objects made so far
    owner: map<nat, nat>,        // thread holding each lock object that is held
    files: map<string, string>,
    pcs: seq<Pc>,
    replies: map<nat, Reply>,
    entered: seq<nat>,           // threads in the order they acquired their path's lock
    committed: seq<nat>)         // threads in the order they wrote

  function Key(e: Setup, t: nat): string {
    if t < |e.calls| then e.resolve(e.calls[t].path) else ""
  }

  function Content(files: map<string, string>, key: string): Option<string> {
    if key in files then Some(files[key]) else None
  }

  predicate Changes(reply: Reply) {
    reply.Wrote? || reply.Edited?
  }

  /** The files after `op` on the file `key`, given the text it works from. */
  function Stored(files: map<string, string>, key: string, op: FileOp, seen: Option<string>): map<string, string> {
    var (after, reply) := Apply(op, seen);
    if Changes(reply) && after.Some? then files[key := after.value] else files
  }

  function Start(e: Setup, files: map<string, string>): State {
    State(None, map[], 0, map[], files, seq(|e.calls|, _ => Idle), map[], [], [])
  }

  predicate Fits(e: Setup, s: State) {
    |s.pcs| == |e.calls|
  }

  /** Under the master lock: the lock object of the thread's path, made if there is none. */
  function LookUp(e: Setup, s: State, t: nat): State
    requires t < |s.pcs|
  {
    var key := Key(e, t);
    if key in s.locks then s.(pcs := s.pcs[t := Found(s.locks[key])])
    else s.(locks := s.locks[key := s.created], created := s.created + 1, pcs := s.pcs[t := Found(s.created)])
  }

  function Enter(s: State, t: nat, l: nat): State
    requires t < |s.pcs|
  {
    s.(owner := s.owner[l := t], entered := s.entered + [t], pcs := s.pcs[t := Entered(l)])
  }

  function WriteBack(e: Setup, s: State, t: nat, l: nat, seen: Option<string>): State
    requires t < |e.calls| == |s.pcs|
  {
    var op := e.calls[t].op;
    s.(files := Stored(s.files, Key(e, t), op, seen), replies := s.replies[t := Apply(op, seen).1],
       committed := s.committed + [t], pcs := s.pcs[t := HasWritten(l)])
  }

  /** Thread `t`'s next atomic step, or None when it is blocked or finished. */
  function Turn(e: Setup, s: State, t: nat): (r: Option<State>)
    requires Fits(e, s) && t < |e.calls|
    ensures r.Some? ==> Fits(e, r.value)
  {
    match s.pcs[t]
    case Idle => if s.master.Some? then None else Some(s.(master := Some(t), pcs := s.pcs[t := Master]))
    case Master => Some(LookUp(e, s, t))
    case Found(l) => Some(s.(master := None, pcs := s.pcs[t := Waiting(l)]))
    case Waiting(l) => if l in s.owner then None else Some(Enter(s, t, l))
    case Entered(l) => Some(s.(pcs := s.pcs[t := HasRead(l, Content(s.files, Key(e, t)))]))
    case HasRead(l, seen) => Some(WriteBack(e, s, t, l, seen))
    case HasWritten(l) => Some(s.(owner := s.owner - {l}, pcs := s.pcs[t := Finished]))
    case Finished => None
  }

  /** A run: the scheduler offers turns in any order; a blocked thread does not move. */
  function Run(e: Setup, s: State, schedule: seq<nat>): (r: State)
    requires Fits(e, s)
    ensures Fits(e, r)
    decreases schedule
  {
    if schedule == [] then s
    else if schedule[0] < |e.calls| && Turn(e, s, schedule[0]).Some? then
      Run(e, Turn(e, s, schedule[0]).value, schedule[1..])
    else Run(e, s, schedule[1..])
  }

  // ---- Reference: the calls one after another ----

  function Serial(e: Setup, files: map<string, string>, order: seq<nat>): map<string, string>
    decreases |order|
  {
    if order == [] then files
    else
      var before, t := Serial(e, files, order[..|order| - 1]), order[|order| - 1];
      if t < |e.calls| then Stored(before, Key(e, t), e.calls[t].op, Content(before, Key(e, t))) else before
  }

  /** The reply of the call at position `i` when the calls run in `order`. */
  function SerialReply(e: Setup, files: map<string, string>, order: seq<nat>, i: nat): Reply
    requires i < |order| && order[i] < |e.calls|
  {
    Apply(e.calls[order[i]].op, Content(Serial(e, files, order[..i]), Key(e, order[i]))).1
  }

  // ---- Invariants ----

  predicate HasLock(pc: Pc) {
    !pc.Idle? && !pc.Master? && !pc.Finished?
  }

  /** Inside the critical section of a path. */
  predicate Inside(pc: Pc) {
    pc.Entered? || pc.HasRead? || pc.HasWritten?
  }

  ghost predicate LockTable(s: State) {
    && (forall k :: k in s.locks ==> s.locks[k] < s.created)
    && (forall k, m :: k in s.locks && m in s.locks && s.locks[k] == s.locks[m] ==> k == m)
  }

  ghost predicate MasterHeld(s: State) {
    forall t :: 0 <= t < |s.pcs| ==> (s.pcs[t].Master? || s.pcs[t].Found? <==> s.master == Some(t))
  }

  ghost predicate MasterKnown(s: State) {
    s.master.Some? ==> s.master.value < |s.pcs|
  }

  ghost predicate Handles(e: Setup, s: State) {
    forall t :: 0 <= t < |s.pcs| && HasLock(s.pcs[t]) ==> Key(e, t) in s.locks && s.locks[Key(e, t)] == s.pcs[t].lock
  }

  ghost predicate Owners(s: State) {
    && (forall t :: 0 <= t < |s.pcs| && Inside(s.pcs[t]) ==> s.pcs[t].lock in s.owner && s.owner[s.pcs[t].lock] == t)
    && (forall l :: l in s.owner ==> s.owner[l] < |s.pcs| && Inside(s.pcs[s.owner[l]]) && s.pcs[s.owner[l]].lock == l)
  }

  ghost predicate Snapshots(e: Setup, s: State) {
    forall t :: 0 <= t < |s.pcs| && s.pcs[t].HasRead? ==> s.pcs[t].seen == Content(s.files, Key(e, t))
  }

  ghost predicate Locked(e: Setup, s: State) {
    LockTable(s) && MasterHeld(s) && MasterKnown(s) && Handles(e, s) && Owners(s) && Snapshots(e, s)
  }

  /** At most one thread at a time is inside the critical section of a canonical path. */
  lemma OneInside(e: Setup, s: State, t: nat, u: nat)
    requires Fits(e, s) && Locked(e, s) && t < |s.pcs| && u < |s.pcs|
    requires Inside(s.pcs[t]) && Inside(s.pcs[u]) && Key(e, t) == Key(e, u)
    ensures t == u
  {
  }

  lemma TurnKeepsLocked(e: Setup, s: State, t: nat)
    requires Fits(e, s) && Locked(e, s) && t < |e.calls| && Turn(e, s, t).Some?
    ensures Locked(e, Turn(e, s, t).value)
  {
    TurnKeepsTables(e, s, t);
    TurnKeepsMaster(e, s, t);
    TurnKeepsOwners(e, s, t);
    TurnKeepsSnapshots(e, s, t);
  }

  /** What a turn leaves alone. */
  ghost predicate Frame(s: State, r: State, t: nat)
    requires t < |s.pcs| == |r.pcs|
  {
    var pc := s.pcs[t];
    && r.pcs == s.pcs[t := r.pcs[t]]
    && (!pc.Idle? && !pc.Found? ==> r.master == s.master)
    && (!pc.Master? ==> r.locks == s.locks && r.created == s.created)
    && (!pc.Waiting? && !pc.HasWritten? ==> r.owner == s.owner && (Inside(r.pcs[t]) <==> Inside(pc)))
    && (!pc.Waiting? ==> r.entered == s.entered)
    && (!pc.HasRead? ==> r.files == s.files && r.committed == s.committed && r.replies == s.replies)
    && (HasLock(pc) && HasLock(r.pcs[t]) ==> r.pcs[t].lock == pc.lock)
  }

  lemma TurnFrame(e: Setup, s: State, t: nat)
    requires Fits(e, s) && t < |e.calls| && Turn(e, s, t).Some?
    ensures Frame(s, Turn(e, s, t).value, t)
  {
    var pc := s.pcs[t];
    if pc.Master? {
      LookUpFrame(e, s, t);
    } else if pc.Waiting? {
      EnterFrame(s, t);
    } else if pc.HasRead? {
      WriteBackFrame(e, s, t);
    }
  }

  lemma LookUpFrame(e: Setup, s: State, t: nat)
    requires Fits(e, s) && t < |e.calls| && s.pcs[t].Master?
    ensures Frame(s, LookUp(e, s, t), t)
  {
    hide Key;
  }

  lemma EnterFrame(s: State, t: nat)
    requires t < |s.pcs| && s.pcs[t].Waiting?
    ensures Frame(s, Enter(s, t, s.pcs[t].lock), t)
  {
  }

  lemma WriteBackFrame(e: Setup, s: State, t: nat)
    requires Fits(e, s) && t < |e.calls| && s.pcs[t].HasRead?
    ensures Frame(s, WriteBack(e, s, t, s.pcs[t].lock, s.pcs[t].seen), t)
  {
    hide Key, Stored, Apply;
  }

  function PcTurns(pc: Pc): nat {
    match pc
    case Idle => 7
    case Master => 6
    case Found(_) => 5
    case Waiting(_) => 4
    case Entered(_) => 3
    case HasRead(_, _) => 2
    case HasWritten(_) => 1
    case Finished => 0
  }

  /** Every turn takes a thread one stage further. */
  lemma TurnMoves(e: Setup, s: State, t: nat)
    requires Fits(e, s) && t < |e.calls| && Turn(e, s, t).Some?
    ensures PcTurns(Turn(e, s, t).value.pcs[t]) + 1 == PcTurns(s.pcs[t])
    ensures s.pcs[t].Master? ==> Turn(e, s, t).value.pcs[t].Found?
  {
    hide Key, Stored, Apply, Content;
  }

  lemma TurnKeepsTables(e: Setup, s: State, t: nat)
    requires Fits(e, s) && LockTable(s) && Handles(e, s) && t < |e.calls| && Turn(e, s, t).Some?
    ensures var r := Turn(e, s, t).value; LockTable(r) && Handles(e, r)
  {
    hide Key;
    if s.pcs[t].Master? {
      LookUpKeepsTables(e, s, t);
    } else {
      TurnFrame(e, s, t);
      StaysOutside(e, s, t);
    }
  }

  lemma StaysOutside(e: Setup, s: State, t: nat)
    requires Fits(e, s) && t < |e.calls| && Turn(e, s, t).Some?
    ensures var r := Turn(e, s, t).value; HasLock(r.pcs[t]) ==> HasLock(s.pcs[t]) || s.pcs[t].Master?
  {
    hide Key, Stored, Apply, Content, LookUp;
  }

  lemma LookUpKeepsTables(e: Setup, s: State, t: nat)
    requires Fits(e, s) && LockTable(s) && Handles(e, s) && t < |e.calls|
    ensures var r := LookUp(e, s, t); LockTable(r) && Handles(e, r)
  {
    hide Key;
  }

  lemma TurnKeepsMaster(e: Setup, s: State, t: nat)
    requires Fits(e, s) && MasterHeld(s) && MasterKnown(s) && t < |e.calls| && Turn(e, s, t).Some?
    ensures var r := Turn(e, s, t).value; MasterHeld(r) && MasterKnown(r)
  {
    assert s.pcs[t].Master? || s.pcs[t].Found? <==> s.master == Some(t);
    if !s.pcs[t].Idle? && !s.pcs[t].Found? {
      TurnFrame(e, s, t);
      TurnMoves(e, s, t);
    }
  }

  lemma TurnKeepsOwners(e: Setup, s: State, t: nat)
    requires Fits(e, s) && Owners(s) && t < |e.calls| && Turn(e, s, t).Some?
    ensures Owners(Turn(e, s, t).value)
  {
    if s.pcs[t].Waiting? {
      EnterKeepsOwners(s, t);
    } else if s.pcs[t].HasWritten? {
      LeaveKeepsOwners(s, t);
    } else {
      TurnFrame(e, s, t);
    }
  }

  lemma EnterKeepsOwners(s: State, t: nat)
    requires t < |s.pcs| && Owners(s) && s.pcs[t].Waiting? && s.pcs[t].lock !in s.owner
    ensures Owners(Enter(s, t, s.pcs[t].lock))
  {
  }

  lemma LeaveKeepsOwners(s: State, t: nat)
    requires t < |s.pcs| && Owners(s) && s.pcs[t].HasWritten?
    ensures Owners(s.(owner := s.owner - {s.pcs[t].lock}, pcs := s.pcs[t := Finished]))
  {
  }

  lemma TurnKeepsSnapshots(e: Setup, s: State, t: nat)
    requires Fits(e, s) && Locked(e, s) && t < |e.calls| && Turn(e, s, t).Some?
    ensures Snapshots(e, Turn(e, s, t).value)
  {
    hide Apply, Key, MasterHeld, MasterKnown;
    var r := Turn(e, s, t).value;
    forall u | 0 <= u < |r.pcs| && r.pcs[u].HasRead? ensures r.pcs[u].seen == Content(r.files, Key(e, u)) {
      if u != t && s.pcs[t].HasRead? && Key(e, u) == Key(e, t) { OneInside(e, s, t, u); }
    }
  }

  // ---- The logs ----

  function OnKey(e: Setup, key: string): nat -> bool {
    (t: nat) => Key(e, t) == key
  }

  function Project(e: Setup, order: seq<nat>, key: string): seq<nat> {
    Filter(order, OnKey(e, key))
  }

  predicate Writing(pc: Pc) {
    pc.Entered? || pc.HasRead?
  }

  /** The thread that holds the lock of `key` and has not written yet. */
  function Pending(s: State, key: string): seq<nat> {
    if key in s.locks && s.locks[key] in s.owner && s.owner[s.locks[key]] < |s.pcs| &&
       Writing(s.pcs[s.owner[s.locks[key]]])
    then [s.owner[s.locks[key]]] else []
  }

  ghost predicate InOrderAt(e: Setup, s: State, key: string) {
    Project(e, s.entered, key) == Project(e, s.committed, key) + Pending(s, key)
  }

  /** On every path, writes happen in lock-acquisition order. */
  ghost predicate InOrder(e: Setup, s: State) {
    forall key :: InOrderAt(e, s, key)
  }

  ghost predicate Logged(s: State) {
    && Distinct(s.entered) && Distinct(s.committed)
    && (forall t: nat :: t in s.entered <==> t < |s.pcs| && (Inside(s.pcs[t]) || s.pcs[t].Finished?))
    && (forall t: nat :: t in s.committed <==> t < |s.pcs| && (s.pcs[t].HasWritten? || s.pcs[t].Finished?))
  }

  lemma ProjectAppend(e: Setup, order: seq<nat>, t: nat, key: string)
    ensures Project(e, order + [t], key) == Project(e, order, key) + if Key(e, t) == key then [t] else []
  {
    FilterConcat(order, [t], OnKey(e, key));
    var one, none: seq<nat> := [t], [];
    assert one[1..] == none;
    assert Filter(none, OnKey(e, key)) == [];
  }

  /** A thread inside its critical section that has not written is the pending one of its path. */
  lemma PendingIs(e: Setup, s: State, t: nat)
    requires Fits(e, s) && Locked(e, s) && t < |s.pcs| && Writing(s.pcs[t])
    ensures Pending(s, Key(e, t)) == [t]
  {
  }

  /** Nobody is pending on the path whose lock is free or held by a thread that has written. */
  lemma NobodyPending(e: Setup, s: State, t: nat)
    requires Fits(e, s) && Locked(e, s) && t < |s.pcs|
    requires s.pcs[t].HasWritten? || (s.pcs[t].Waiting? && s.pcs[t].lock !in s.owner)
    ensures Pending(s, Key(e, t)) == []
  {
  }

  lemma OthersPending(e: Setup, s: State, t: nat, key: string)
    requires Fits(e, s) && Locked(e, s) && t < |e.calls| && Turn(e, s, t).Some?
    requires !HasLock(s.pcs[t]) || s.pcs[t].Found? || key != Key(e, t) || s.pcs[t].Entered?
    ensures Pending(Turn(e, s, t).value, key) == Pending(s, key)
  {
    hide Key, MasterHeld, Snapshots;
    if s.pcs[t].Master? {
      LookUpPending(e, s, t, key);
    } else if s.pcs[t].Waiting? || s.pcs[t].HasRead? || s.pcs[t].HasWritten? {
      TurnFrame(e, s, t);
      OwnersElsewhere(e, s, t);
      ElsewherePending(e, s, Turn(e, s, t).value, t, key);
    } else {
      TurnFrame(e, s, t);
      SameWriting(e, s, t);
    }
  }

  ghost predicate SameOwners(s: State, r: State, except: nat) {
    forall l :: l != except ==> (l in r.owner <==> l in s.owner) && (l in s.owner ==> r.owner[l] == s.owner[l])
  }

  lemma OwnersElsewhere(e: Setup, s: State, t: nat)
    requires Fits(e, s) && t < |e.calls| && Turn(e, s, t).Some?
    requires s.pcs[t].Waiting? || s.pcs[t].HasRead? || s.pcs[t].HasWritten?
    ensures SameOwners(s, Turn(e, s, t).value, s.pcs[t].lock)
  {
    hide Key, Stored, Apply;
  }

  lemma ElsewherePending(e: Setup, s: State, r: State, t: nat, key: string)
    requires Fits(e, s) && LockTable(s) && Handles(e, s) && Owners(s) && t < |s.pcs| && HasLock(s.pcs[t])
    requires key != Key(e, t) && |r.pcs| == |s.pcs| && r.pcs == s.pcs[t := r.pcs[t]] && r.locks == s.locks
    requires SameOwners(s, r, s.pcs[t].lock)
    ensures Pending(r, key) == Pending(s, key)
  {
    hide Key;
  }

  lemma SameWriting(e: Setup, s: State, t: nat)
    requires Fits(e, s) && t < |e.calls| && Turn(e, s, t).Some?
    requires !s.pcs[t].Waiting? && !s.pcs[t].HasRead?
    ensures Writing(s.pcs[t]) <==> Writing(Turn(e, s, t).value.pcs[t])
  {
    hide Key, Stored, Apply, Content, Enter, WriteBack;
  }

  lemma LookUpPending(e: Setup, s: State, t: nat, key: string)
    requires Fits(e, s) && Locked(e, s) && t < |e.calls| && s.pcs[t].Master?
    ensures Pending(LookUp(e, s, t), key) == Pending(s, key)
  {
    hide Key, MasterHeld, Snapshots;
  }

  lemma TurnKeepsInOrderAt(e: Setup, s: State, t: nat, key: string)
    requires Fits(e, s) && Locked(e, s) && InOrderAt(e, s, key) && t < |e.calls| && Turn(e, s, t).Some?
    ensures InOrderAt(e, Turn(e, s, t).value, key)
  {
    hide Project, Pending, Locked, Key, Stored, Apply, Content;
    var r := Turn(e, s, t).value;
    TurnKeepsLocked(e, s, t);
    ProjectAppend(e, s.entered, t, key);
    ProjectAppend(e, s.committed, t, key);
    var none: seq<nat> := [];
    if key != Key(e, t) || !(s.pcs[t].Waiting? || s.pcs[t].HasRead? || s.pcs[t].HasWritten?) {
      OthersPending(e, s, t, key);
    } else if s.pcs[t].Waiting? {
      NobodyPending(e, s, t);
      PendingIs(e, r, t);
      assert Project(e, s.committed, key) + none == Project(e, s.committed, key);
    } else if s.pcs[t].HasRead? {
      PendingIs(e, s, t);
      NobodyPending(e, r, t);
      var after := Project(e, s.committed, key) + [t];
      assert after + none == after;
    } else {
      NobodyPending(e, s, t);
      Released(e, s, t);
    }
  }

  lemma Released(e: Setup, s: State, t: nat)
    requires Fits(e, s) && Locked(e, s) && t < |e.calls| && s.pcs[t].HasWritten?
    ensures Pending(Turn(e, s, t).value, Key(e, t)) == []
  {
  }

  lemma TurnKeepsLogged(e: Setup, s: State, t: nat)
    requires Fits(e, s) && Logged(s) && t < |e.calls| && Turn(e, s, t).Some?
    ensures Logged(Turn(e, s, t).value)
  {
    if s.pcs[t].Waiting? {
      EnterKeepsLogged(s, t);
    } else if s.pcs[t].HasRead? {
      CommitKeepsLogged(e, s, t);
    } else {
      TurnFrame(e, s, t);
      SameSide(e, s, t);
    }
  }

  lemma SameSide(e: Setup, s: State, t: nat)
    requires Fits(e, s) && t < |e.calls| && Turn(e, s, t).Some? && !s.pcs[t].Waiting? && !s.pcs[t].HasRead?
    ensures var was, now := s.pcs[t], Turn(e, s, t).value.pcs[t];
            && (Inside(was) || was.Finished? <==> Inside(now) || now.Finished?)
            && (was.HasWritten? || was.Finished? <==> now.HasWritten? || now.Finished?)
  {
    hide Key, Stored, Apply, Content, Enter, WriteBack;
  }

  lemma EnterKeepsLogged(s: State, t: nat)
    requires Logged(s) && t < |s.pcs| && s.pcs[t].Waiting?
    ensures Logged(Enter(s, t, s.pcs[t].lock))
  {
    DistinctAppend(s.entered, [t]);
  }

  lemma CommitKeepsLogged(e: Setup, s: State, t: nat)
    requires Fits(e, s) && Logged(s) && t < |e.calls| && s.pcs[t].HasRead?
    ensures Logged(WriteBack(e, s, t, s.pcs[t].lock, s.pcs[t].seen))
  {
    hide Key, Stored, Apply;
    DistinctAppend(s.committed, [t]);
  }

  // ---- What the files and replies are ----

  /** The files are those of the committed calls run one after another, and so is each reply. */
  ghost predicate Serialised(e: Setup, files: map<string, string>, s: State) {
    && s.files == Serial(e, files, s.committed)
    && forall i :: 0 <= i < |s.committed| ==> RepliedAt(e, files, s, s.committed, i)
  }

  ghost predicate RepliedAt(e: Setup, files: map<string, string>, s: State, order: seq<nat>, i: nat)
    requires i < |order|
  {
    && order[i] < |e.calls| && order[i] in s.replies
    && s.replies[order[i]] == SerialReply(e, files, order, i)
  }

  lemma TurnKeepsSerialised(e: Setup, files: map<string, string>, s: State, t: nat)
    requires Fits(e, s) && Snapshots(e, s) && Logged(s) && Serialised(e, files, s) && t < |e.calls|
             && Turn(e, s, t).Some?
    ensures Serialised(e, files, Turn(e, s, t).value)
  {
    hide Snapshots, Logged, Serialised, Turn;
    if s.pcs[t].HasRead? {
      CommitKeepsSerialised(e, files, s, t);
    } else {
      TurnFrame(e, s, t);
      SerialisedDepends(e, files, s, Turn(e, s, t).value);
    }
  }

  lemma SerialisedDepends(e: Setup, files: map<string, string>, s: State, r: State)
    requires Serialised(e, files, s) && r.files == s.files && r.committed == s.committed && r.replies == s.replies
    ensures Serialised(e, files, r)
  {
    hide Serial, SerialReply;
    forall i | 0 <= i < |r.committed| ensures RepliedAt(e, files, r, r.committed, i) {
      assert RepliedAt(e, files, s, s.committed, i);
    }
  }

  lemma CommitKeepsSerialised(e: Setup, files: map<string, string>, s: State, t: nat)
    requires Fits(e, s) && Snapshots(e, s) && Logged(s) && Serialised(e, files, s) && t < |e.calls| && s.pcs[t].HasRead?
    ensures Serialised(e, files, Turn(e, s, t).value)
  {
    hide Key, Stored, Apply, Content;
    var r := Turn(e, s, t).value;
    assert r.committed[..|r.committed| - 1] == s.committed;
    assert t !in s.committed;
    forall i | 0 <= i < |r.committed| ensures RepliedAt(e, files, r, r.committed, i) {
      if i < |s.committed| {
        assert RepliedAt(e, files, s, s.committed, i);
        assert r.committed[..i] == s.committed[..i] && r.committed[i] == s.committed[i];
        assert s.committed[i] in s.committed;
      }
    }
  }

  ghost predicate Good(e: Setup, files: map<string, string>, s: State) {
    Fits(e, s) && Locked(e, s) && InOrder(e, s) && Logged(s) && Serialised(e, files, s)
  }

  lemma StartIsGood(e: Setup, files: map<string, string>)
    ensures Fits(e, Start(e, files)) && Good(e, files, Start(e, files))
  {
    var s := Start(e, files);
    forall key ensures InOrderAt(e, s, key) {}
  }

  lemma {:induction false} RunIsGood(e: Setup, files: map<string, string>, s: State, schedule: seq<nat>)
    requires Good(e, files, s)
    ensures Good(e, files, Run(e, s, schedule))
    decreases schedule
  {
    hide Locked, InOrderAt, Logged, Serialised, Turn;
    if schedule != [] {
      var t := schedule[0];
      if t < |e.calls| && Turn(e, s, t).Some? {
        TurnIsGood(e, files, s, t);
        RunIsGood(e, files, Turn(e, s, t).value, schedule[1..]);
      } else {
        RunIsGood(e, files, s, schedule[1..]);
      }
    }
  }

  lemma TurnIsGood(e: Setup, files: map<string, string>, s: State, t: nat)
    requires Good(e, files, s) && t < |e.calls| && Turn(e, s, t).Some?
    ensures Good(e, files, Turn(e, s, t).value)
  {
    hide LockTable, MasterHeld, MasterKnown, Handles, Owners, Snapshots, InOrderAt, Logged, Serialised, Turn;
    TurnKeepsLocked(e, s, t);
    forall key ensures InOrderAt(e, Turn(e, s, t).value, key) {
      assert InOrderAt(e, s, key);
      TurnKeepsInOrderAt(e, s, t, key);
    }
    TurnKeepsLogged(e, s, t);
    TurnKeepsSerialised(e, files, s, t);
  }

  // ---- From commit order to acquisition order ----

  function Fold(e: Setup, file: Option<string>, order: seq<nat>): Option<string>
    decreases |order|
  {
    if order == [] then file
    else
      var before, t := Fold(e, file, order[..|order| - 1]), order[|order| - 1];
      if t < |e.calls| && Changes(Apply(e.calls[t].op, before).1) then Apply(e.calls[t].op, before).0 else before
  }

  /** Only the calls on a path matter for its content. */
  lemma {:induction false} SerialByKey(e: Setup, files: map<string, string>, order: seq<nat>, key: string)
    ensures Content(Serial(e, files, order), key) == Fold(e, Content(files, key), Project(e, order, key))
    decreases |order|
  {
    hide Key, Project;
    if order == [] {
      NothingProjected(e, key);
    } else {
      var before, t := order[..|order| - 1], order[|order| - 1];
      assert order == before + [t];
      SerialByKey(e, files, before, key);
      ProjectAppend(e, before, t, key);
      var p := Project(e, before, key);
      assert (p + [t])[..|p|] == p;
      assert p + [] == p;
    }
  }

  lemma NothingProjected(e: Setup, key: string)
    ensures Project(e, [], key) == []
  {
  }

  lemma SameProjectionsSameFiles(e: Setup, files: map<string, string>, a: seq<nat>, b: seq<nat>)
    requires forall key :: Project(e, a, key) == Project(e, b, key)
    ensures Serial(e, files, a) == Serial(e, files, b)
  {
    hide Project, Serial, Fold;
    var x, y := Serial(e, files, a), Serial(e, files, b);
    forall key ensures Content(x, key) == Content(y, key) {
      SerialByKey(e, files, a, key);
      SerialByKey(e, files, b, key);
    }
    SameContents(x, y);
  }

  lemma SameContents(x: map<string, string>, y: map<string, string>)
    requires forall key :: Content(x, key) == Content(y, key)
    ensures x == y
  {
    forall key ensures key in x <==> key in y {
      assert Content(x, key) == Content(y, key);
    }
    forall key | key in x ensures x[key] == y[key] {
      assert Content(x, key) == Content(y, key);
    }
  }

  /** What comes before `t` on its own path is the same in both orders. */
  lemma SamePrefix(e: Setup, a: seq<nat>, b: seq<nat>, i: nat, j: nat)
    requires Distinct(a) && i < |a| && j < |b| && a[i] == b[j]
    requires Project(e, a, Key(e, a[i])) == Project(e, b, Key(e, a[i]))
    ensures Project(e, a[..i], Key(e, a[i])) == Project(e, b[..j], Key(e, a[i]))
  {
    hide Key;
    var key, t := Key(e, a[i]), a[i];
    ProjectSplit(e, a, i, key);
    ProjectSplit(e, b, j, key);
    var p, q := Project(e, a[..i], key), Project(e, b[..j], key);
    var p', q' := Project(e, a[i + 1..], key), Project(e, b[j + 1..], key);
    FilterAll(a[..i], OnKey(e, key));
    FilterAll(a[i + 1..], OnKey(e, key));
    assert t !in a[..i] && t !in a[i + 1..];
    assert p + [t] + p' == q + [t] + q';
    UniqueSplit(p, q, p', q', t);
  }

  lemma ProjectSplit(e: Setup, order: seq<nat>, i: nat, key: string)
    requires i < |order| && Key(e, order[i]) == key
    ensures Project(e, order, key) == Project(e, order[..i], key) + [order[i]] + Project(e, order[i + 1..], key)
  {
    hide Filter;
    assert order == (order[..i] + [order[i]]) + order[i + 1..];
    FilterConcat(order[..i] + [order[i]], order[i + 1..], OnKey(e, key));
    ProjectAppend(e, order[..i], order[i], key);
  }

  lemma UniqueSplit(p: seq<nat>, q: seq<nat>, p': seq<nat>, q': seq<nat>, t: nat)
    requires t !in p && t !in p' && p + [t] + p' == q + [t] + q'
    ensures p == q
  {
    var whole := p + [t] + p';
    assert whole == q + [t] + q';
    assert whole[|q|] == t;
    assert forall i :: 0 <= i < |whole| && i != |p| ==> whole[i] != t by {
      assert forall i :: 0 <= i < |p| ==> whole[i] == p[i] && p[i] in p;
      assert forall i :: |p| < i < |whole| ==> whole[i] == p'[i - |p| - 1] && p'[i - |p| - 1] in p';
    }
    assert p == whole[..|p|] && q == whole[..|q|];
  }

  ghost predicate Over(s: State) {
    forall t :: 0 <= t < |s.pcs| ==> s.pcs[t].Finished?
  }

  /** Whatever the interleaving, once all threads are done the files and every reply are those of
      the calls run one after another in the order in which they acquired their path's lock. */
  lemma EditsAreSerialisable(e: Setup, files: map<string, string>, schedule: seq<nat>)
    requires Over(Run(e, Start(e, files), schedule))
    ensures var s := Run(e, Start(e, files), schedule);
            && Distinct(s.entered) && (forall t: nat :: t in s.entered <==> t < |e.calls|)
            && s.files == Serial(e, files, s.entered)
            && forall i :: 0 <= i < |s.entered| ==> RepliedAt(e, files, s, s.entered, i)
  {
    hide Run, Start, Serial, Project, SerialReply;
    StartIsGood(e, files);
    RunIsGood(e, files, Start(e, files), schedule);
    var s := Run(e, Start(e, files), schedule);
    forall key ensures Project(e, s.entered, key) == Project(e, s.committed, key) {
      assert InOrderAt(e, s, key);
      assert Pending(s, key) == [];
      assert Project(e, s.committed, key) + [] == Project(e, s.committed, key);
    }
    SameProjectionsSameFiles(e, files, s.entered, s.committed);
    forall i | 0 <= i < |s.entered| ensures RepliedAt(e, files, s, s.entered, i) {
      assert s.entered[i] in s.entered;
      assert s.entered[i] in s.committed;
      var j :| 0 <= j < |s.committed| && s.committed[j] == s.entered[i];
      assert RepliedAt(e, files, s, s.committed, j);
      SameReply(e, files, s.entered, s.committed, i, j);
    }
  }

  lemma SameReply(e: Setup, files: map<string, string>, a: seq<nat>, b: seq<nat>, i: nat, j: nat)
    requires Distinct(a) && i < |a| && j < |b| && a[i] == b[j] < |e.calls|
    requires forall key :: Project(e, a, key) == Project(e, b, key)
    ensures SerialReply(e, files, a, i) == SerialReply(e, files, b, j)
  {
    hide Serial, Project, Fold, Distinct, Apply;
    SamePrefix(e, a, b, i, j);
    SerialByKey(e, files, a[..i], Key(e, a[i]));
    SerialByKey(e, files, b[..j], Key(e, a[i]));
  }

  /** One more call in the order touches no file but the one its path resolves to. A write leaves its text there and
      says how long it is; an edit of a readable file leaves and says what it makes of the text. */
  lemma OneMoreCall(e: Setup, files: map<string, string>, order: seq<nat>, t: nat)
    requires t < |e.calls| && forall i :: 0 <= i < |order| ==> order[i] < |e.calls|
    ensures var before, after := Serial(e, files, order), Serial(e, files, order + [t]);
            var path, op := e.resolve(e.calls[t].path), e.calls[t].op;
            var reply := SerialReply(e, files, order + [t], |order|);
            && (forall k :: k != path ==> (k in after <==> k in before) && (k in before ==> after[k] == before[k]))
            && (op.Write? ==> path in after && after[path] == op.content && reply == Wrote(|op.content|))
            && (op.Edit? ==> (path in after <==> path in before))
            && (op.Edit? && path in before ==> (Some(after[path]), reply) == Apply(op, Some(before[path])))
  {
    assert (order + [t])[..|order|] == order;
  }

  /** In every reachable state at most one thread is inside a path's critical section, threads on
      equal resolved paths use one lock object, and unequal ones never share one. */
  lemma MutualExclusion(e: Setup, files: map<string, string>, schedule: seq<nat>, t: nat, u: nat)
    requires t < |e.calls| && u < |e.calls|
    ensures var s := Run(e, Start(e, files), schedule);
            var same := e.resolve(e.calls[t].path) == e.resolve(e.calls[u].path);
            && (Inside(s.pcs[t]) && Inside(s.pcs[u]) && same ==> t == u)
            && (HasLock(s.pcs[t]) && HasLock(s.pcs[u]) ==> (s.pcs[t].lock == s.pcs[u].lock <==> same))
  {
    hide Run, Start;
    StartIsGood(e, files);
    RunIsGood(e, files, Start(e, files), schedule);
    var s := Run(e, Start(e, files), schedule);
    if Inside(s.pcs[t]) && Inside(s.pcs[u]) && Key(e, t) == Key(e, u) { OneInside(e, s, t, u); }
  }

  ghost predicate Grown(before: map<string, nat>, after: map<string, nat>) {
    forall key :: key in before ==> key in after && after[key] == before[key]
  }

  lemma {:induction false} LocksOnlyGrow(e: Setup, s: State, schedule: seq<nat>)
    requires Fits(e, s)
    ensures Grown(s.locks, Run(e, s, schedule).locks)
    decreases schedule
  {
    hide Turn;
    if schedule != [] {
      var t := schedule[0];
      if t < |e.calls| && Turn(e, s, t).Some? {
        TurnGrows(e, s, t);
        LocksOnlyGrow(e, Turn(e, s, t).value, schedule[1..]);
      } else {
        LocksOnlyGrow(e, s, schedule[1..]);
      }
    }
  }

  lemma TurnGrows(e: Setup, s: State, t: nat)
    requires Fits(e, s) && t < |e.calls| && Turn(e, s, t).Some?
    ensures Grown(s.locks, Turn(e, s, t).value.locks)
  {
    TurnFrame(e, s, t);
  }

  // ---- No deadlock ----

  function TurnsLeft(pcs: seq<Pc>): nat {
    if pcs == [] then 0 else PcTurns(pcs[0]) + TurnsLeft(pcs[1..])
  }

  lemma {:induction false} TurnsLeftFalls(pcs: seq<Pc>, t: nat, pc: Pc)
    requires t < |pcs| && PcTurns(pc) + 1 == PcTurns(pcs[t])
    ensures TurnsLeft(pcs[t := pc]) + 1 == TurnsLeft(pcs)
  {
    hide PcTurns;
    if t == 0 {
      assert pcs[0 := pc][1..] == pcs[1..];
    } else {
      assert pcs[t := pc][1..] == pcs[1..][t - 1 := pc];
      TurnsLeftFalls(pcs[1..], t - 1, pc);
    }
  }

  /** In every reachable state some unfinished thread can move, and every move of any thread brings
      the end one turn closer: nothing can block for good. */
  lemma NoDeadlock(e: Setup, files: map<string, string>, schedule: seq<nat>) returns (t: nat)
    requires !Over(Run(e, Start(e, files), schedule))
    ensures var s := Run(e, Start(e, files), schedule);
            && t < |e.calls| && Turn(e, s, t).Some?
            && forall u: nat :: u < |e.calls| && Turn(e, s, u).Some? ==>
                 TurnsLeft(Turn(e, s, u).value.pcs) + 1 == TurnsLeft(s.pcs)
  {
    hide Run, Start, Turn, TurnsLeft;
    StartIsGood(e, files);
    RunIsGood(e, files, Start(e, files), schedule);
    var s := Run(e, Start(e, files), schedule);
    t := SomeoneMoves(e, s);
    forall u: nat | u < |e.calls| && Turn(e, s, u).Some?
      ensures TurnsLeft(Turn(e, s, u).value.pcs) + 1 == TurnsLeft(s.pcs)
    {
      MoveLowersTurns(e, s, u);
    }
  }

  lemma MoveLowersTurns(e: Setup, s: State, t: nat)
    requires Fits(e, s) && t < |e.calls| && Turn(e, s, t).Some?
    ensures TurnsLeft(Turn(e, s, t).value.pcs) + 1 == TurnsLeft(s.pcs)
  {
    hide Turn, TurnsLeft, PcTurns;
    TurnFrame(e, s, t);
    TurnMoves(e, s, t);
    TurnsLeftFalls(s.pcs, t, Turn(e, s, t).value.pcs[t]);
  }

  lemma SomeoneMoves(e: Setup, s: State) returns (t: nat)
    requires Fits(e, s) && Locked(e, s) && !Over(s)
    ensures t < |e.calls| && Turn(e, s, t).Some?
  {
    if s.master.Some? {
      t := s.master.value;
    } else {
      t :| t < |s.pcs| && !s.pcs[t].Finished?;
      if s.pcs[t].Waiting? && s.pcs[t].lock in s.owner {
        t := s.owner[s.pcs[t].lock];
      }
    }
    hide Key, Content, LookUp, Enter, WriteBack;
    assert Turn(e, s, t).Some?;
  }
}
