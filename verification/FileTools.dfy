/** The shared lock table and files, changed in place by one atomic step of one thread at a time. */
module FileTools {
  import opened Edits
  import opened Locks
  import opened Text

  class PathLockManager {
    const setup: Setup
    var master: Option<nat>
    var locks: map<string, nat>
    var created: nat
    var owner: map<nat, nat>
    var files: map<string, string>
    var pcs: seq<Pc>
    var replies: map<nat, Reply>
    var entered: seq<nat>
    var committed: seq<nat>

    function View(): State
      reads this
    {
      State(master, locks, created, owner, files, pcs, replies, entered, committed)
    }

    constructor (setup: Setup, files: map<string, string>)
      ensures this.setup == setup && View() == Start(setup, files)
    {
      this.setup, this.files := setup, files;
      master, locks, created, owner := None, map[], 0, map[];
      pcs, replies, entered, committed := seq(|setup.calls|, _ => Idle), map[], [], [];
    }

    /** One atomic step of thread `t`; it does not move when the lock it wants is held. */
    method Step(t: nat) returns (moved: bool)
      requires Fits(setup, View()) && t < |setup.calls|
      modifies this
      ensures var r := Turn(setup, old(View()), t);
              moved == r.Some? && View() == if moved then r.value else old(View())
    {
      hide Key, Apply, Content, Stored;
      var key := Key(setup, t);
      match pcs[t] {
        case Idle =>
          if master.Some? { return false; }
          master, pcs := Some(t), pcs[t := Master];
        case Master =>
          var lock := created;
          if key in locks {
            lock := locks[key];
          } else {
            created := created + 1;
            locks := locks[key := lock];
          }
          pcs := pcs[t := Found(lock)];
        case Found(lock) =>
          master, pcs := None, pcs[t := Waiting(lock)];
        case Waiting(lock) =>
          if lock in owner { return false; }
          owner, entered, pcs := owner[lock := t], entered + [t], pcs[t := Entered(lock)];
        case Entered(lock) =>
          pcs := pcs[t := HasRead(lock, Content(files, key))];
        case HasRead(lock, seen) =>
          var op := setup.calls[t].op;
          files := Stored(files, key, op, seen);
          replies, committed := replies[t := Apply(op, seen).1], committed + [t];
          pcs := pcs[t := HasWritten(lock)];
        case HasWritten(lock) =>
          owner, pcs := owner - {lock}, pcs[t := Finished];
        case Finished =>
          return false;
      }
      moved := true;
    }

    /** Lets the threads run in the order the schedule offers turns. */
    method Drive(schedule: seq<nat>)
      requires Fits(setup, View())
      modifies this
      ensures View() == Run(setup, old(View()), schedule)
    {
      hide Turn;
      var i := 0;
      while i < |schedule|
        invariant 0 <= i <= |schedule| && Fits(setup, View())
        invariant Run(setup, View(), schedule[i..]) == Run(setup, old(View()), schedule)
      {
        var t := schedule[i];
        assert schedule[i..][1..] == schedule[i + 1..];
        if t < |setup.calls| {
          var _ := Step(t);
        }
        i := i + 1;
      }
    }
  }
}
