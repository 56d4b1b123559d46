/** The mutable memory store: each method does to its fields what the operation of the same name
    does to a store state. */
module Store {
  import opened Lists
  import opened Memory
  import opened MemoryTheorems
  import opened Text

  class MemoryStore {
    const words: Words
    var memories: seq<Step>
    var batchDepth: nat
    var disk: Option<seq<Step>>  // what the backend holds under this store's key

    function View(): StoreState
      reads this
    {
      StoreState(memories, batchDepth, disk)
    }

    /** `saved` is what the backend holds under the store's key, each record read as a step. */
    constructor (words: Words, saved: Option<seq<Step>>)
      ensures this.words == words && View() == StoreState(if saved.Some? then saved.value else [], 0, saved)
      ensures Synced(View())
    {
      this.words, batchDepth, disk := words, 0, saved;
      memories := if saved.Some? then saved.value else [];
    }

    method SaveNow()
      modifies this`disk
      ensures View() == Save(old(View()))
    {
      if batchDepth == 0 {
        disk := Some(memories);
      }
    }

    method FindDuplicate(m: Step) returns (found: Option<nat>)
      ensures found == FindMergeable(m, memories, words)
      ensures found.Some? ==> found.value < |memories|
    {
      hide Restates;
      var i := 0;
      while i < |memories|
        invariant 0 <= i <= |memories|
        invariant FindMergeable(m, memories, words) ==
                  match FindMergeable(m, memories[i..], words) { case None => None case Some(j) => Some(i + j) }
      {
        if Restates(m, memories[i], words) {
          return Some(i);
        }
        assert memories[i..][1..] == memories[i + 1..];
        i := i + 1;
      }
      return None;
    }

    method AddStep(m: Step)
      modifies this
      ensures View() == Apply(old(View()), Add(m), words)
    {
      hide FindMergeable;
      var duplicate := FindDuplicate(m);
      if duplicate.Some? {
        var i := duplicate.value;
        memories := memories[i := Corroborated(memories[i])];
        SaveNow();
        return;
      }
      memories := memories + [m];
      SaveNow();
    }

    method Extend(steps: seq<Step>)
      modifies this
      ensures View() == Apply(old(View()), AddSteps(steps), words)
    {
      memories := memories + steps;
      SaveNow();
    }

    method PruneSteps(scope: Option<Scope>, tag: string, keepLast: int) returns (removed: nat)
      modifies this
      ensures View() == Apply(old(View()), Prune(scope, tag, keepLast), words)
      ensures |memories| == |old(memories)| - removed
    {
      var p := PruneFilter(scope, tag);
      PositionsShape(memories, p);
      removed := PruneCount(|Positions(memories, p)|, keepLast);
      RemoveFirstFilter(memories, removed, p);
      memories := DeleteMatches(memories, p, removed);
      SaveNow();
    }

    /** Removes the oldest candidates one by one, each by equality, as `list.remove` does. */
    method CompactSteps(tag: Option<string>, limits: Limits, summary: string) returns (done: bool)
      modifies this
      ensures View() == Apply(old(View()), Compact(tag, limits, summary), words)
      ensures done <==> Keep(Filter(old(memories), Candidate(tag)), limits).Some?
    {
      hide Filter, RemoveFirst, RemoveEach, RemoveEqual, Candidate, SumChars, Added, SummaryText;
      var candidates := Filter(memories, Candidate(tag));
      var kept := Keep(candidates, limits);
      if kept.None? {
        return false;
      }
      var n := |candidates| - kept.value;
      var toCompact := candidates[..n];
      var text := SummaryText(summary, toCompact);
      RemoveEachIsOldest(memories, n, Candidate(tag));
      memories := RemoveAllEqual(memories, toCompact);
      AddStep(SummaryStep(tag, text));
      return true;
    }

    static method RemoveAllEqual(s: seq<Step>, xs: seq<Step>) returns (left: seq<Step>)
      ensures left == RemoveEach(s, xs)
    {
      left := s;
      var i := 0;
      while i < |xs|
        invariant 0 <= i <= |xs|
        invariant RemoveEach(s, xs) == RemoveEach(left, xs[i..])
      {
        assert xs[i..][1..] == xs[i + 1..];
        left := RemoveEqual(left, xs[i]);
        i := i + 1;
      }
    }

    method MarkQuestions(hypothesis: string, status: Status)
      modifies this
      ensures View() == Apply(old(View()), Mark(hypothesis, status), words)
    {
      var i := 0;
      while i < |memories|
        invariant 0 <= i <= |memories| == |old(memories)|
        invariant batchDepth == old(batchDepth) && disk == old(disk)
        invariant forall j :: 0 <= j < |memories| ==>
          memories[j] == if j < i then Marked(old(memories)[j], hypothesis, status) else old(memories)[j]
      {
        memories := memories[i := Marked(memories[i], hypothesis, status)];
        i := i + 1;
      }
      assert memories == SetStatus(old(memories), hypothesis, status);
      SaveNow();
    }

    method UpdateConjectures(question: string, verdict: Verdict)
      modifies this
      ensures View() == Apply(old(View()), Judge(question, verdict), words)
    {
      if verdict == Inconclusive {
        return;
      }
      var i := 0;
      while i < |memories|
        invariant 0 <= i <= |memories| == |old(memories)|
        invariant batchDepth == old(batchDepth) && disk == old(disk)
        invariant forall j :: 0 <= j < |memories| ==>
          memories[j] == if j < i then Judged(old(memories)[j], question, verdict) else old(memories)[j]
      {
        memories := memories[i := Judged(memories[i], question, verdict)];
        i := i + 1;
      }
      assert memories == JudgeAll(old(memories), question, verdict);
      SaveNow();
    }

    method UpdateBeliefs(chosen: set<nat>, supports: bool)
      modifies this
      ensures View() == Apply(old(View()), Believe(chosen, supports), words)
    {
      hide Believed, BelieveAll;
      BelieveAllAt(memories, chosen, supports);
      var updated := false;
      var i := 0;
      ghost var before, after := memories, BelieveAll(memories, chosen, supports);
      while i < |memories|
        invariant 0 <= i <= |memories| == |before| == |after|
        invariant batchDepth == old(batchDepth) && disk == old(disk)
        invariant forall j :: 0 <= j < |memories| ==> memories[j] == if j < i then after[j] else before[j]
        invariant updated == CredibilityMoved(before, after, i)
      {
        if i in chosen {
          var m := memories[i];
          memories := memories[i := Believed(m, supports)];
          updated := updated || (m.content != "" && memories[i].credibility != m.credibility);
        }
        i := i + 1;
      }
      assert memories == after;
      if updated {
        SaveNow();
      }
    }

    static lemma BelieveAllAt(ms: seq<Step>, chosen: set<nat>, supports: bool)
      ensures var after := BelieveAll(ms, chosen, supports);
              && |after| == |ms|
              && forall i :: 0 <= i < |ms| ==> after[i] == if i in chosen then Believed(ms[i], supports) else ms[i]
    {
    }

    /** The persisting part of the agent's loop, one iteration per action taken. */
    method PersistRun(task: string, steps: seq<Persisted>, limits: Limits)
      modifies this
      ensures View() == PersistAll(old(View()), task, steps, limits, words)
    {
      hide Apply;
      var i := 0;
      while i < |steps|
        invariant 0 <= i <= |steps|
        invariant PersistAll(old(View()), task, steps, limits, words)
                    == PersistAll(View(), task, steps[i..], limits, words)
      {
        assert steps[i..][1..] == steps[i + 1..];
        Extend([steps[i].action, steps[i].observation]);
        var done := CompactSteps(Some(task), limits, steps[i].summary);
        i := i + 1;
      }
    }

    /** Runs operations that some other part of the agent issues on this store. */
    method Execute(op: Op)
      modifies this
      ensures View() == Apply(old(View()), op, words)
      decreases op, 1
    {
      match op
      case Add(m) => AddStep(m);
      case AddSteps(steps) => Extend(steps);
      case Prune(scope, tag, keepLast) => var removed := PruneSteps(scope, tag, keepLast);
      case Compact(tag, limits, summary) => var done := CompactSteps(tag, limits, summary);
      case Mark(hypothesis, status) => MarkQuestions(hypothesis, status);
      case Judge(question, verdict) => UpdateConjectures(question, verdict);
      case Believe(chosen, supports) => UpdateBeliefs(chosen, supports);
      case Batch(body) => ExecuteBatch(op);
    }

    /** `with memory.batch(): ...` around the body. */
    method ExecuteBatch(op: Op)
      requires op.Batch?
      modifies this
      ensures View() == Apply(old(View()), op, words)
      decreases op, 0
    {
      hide ApplyAll;
      EnterBatch();
      ExecuteAll(op.body);
      ExitBatch();
    }

    method ExecuteAll(ops: seq<Op>)
      modifies this
      ensures View() == ApplyAll(old(View()), ops, words)
      ensures batchDepth == old(batchDepth)
      decreases ops, 0
    {
      hide Apply;
      var i := 0;
      while i < |ops|
        invariant 0 <= i <= |ops| && batchDepth == old(batchDepth)
        invariant ApplyAll(old(View()), ops, words) == ApplyAll(View(), ops[i..], words)
      {
        assert ops[i..][1..] == ops[i + 1..];
        DepthKept(View(), ops[i], words);
        Execute(ops[i]);
        i := i + 1;
      }
    }

    static lemma DepthKept(s: StoreState, op: Op, words: Words)
      ensures Apply(s, op, words).batchDepth == s.batchDepth
    {
    }

    method EnterBatch()
      modifies this`batchDepth
      ensures View() == old(View()).(batchDepth := old(batchDepth) + 1)
    {
      batchDepth := batchDepth + 1;
    }

    method ExitBatch()
      requires batchDepth > 0
      modifies this`batchDepth, this`disk
      ensures View() == Save(old(View()).(batchDepth := old(batchDepth) - 1))
    {
      batchDepth := batchDepth - 1;
      if batchDepth == 0 {
        SaveNow();
      }
    }
  }
}
