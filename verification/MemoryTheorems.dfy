/** Invariants of the memory store over every sequence of operations, and what compaction keeps. */
module MemoryTheorems {
  import opened Lists
  import opened Memory
  import opened Text

  // ---- No duplicates, sane credibilities ----

  /** Two long-term entries that `add` should have merged. */
  predicate Clash(a: Step, b: Step, words: Words) {
    && a.scope == LongTerm && b.scope == LongTerm && a.kind == b.kind
    && (|| (IsQuestion(a.kind) && a.content == b.content != "")
        || (IsMergeable(a.kind) && words(a.content) != {} && words(b.content) != {}
            && Overlaps(words(a.content), words(b.content))))
  }

  function Apart(words: Words): (Step, Step) -> bool {
    (a, b) => !Clash(a, b, words)
  }

  predicate Credible(m: Step) {
    0.0 <= m.credibility <= 1.0
  }

  ghost predicate Tidy(ms: seq<Step>, words: Words) {
    Pairwise(ms, Apart(words)) && forall m :: m in ms ==> Credible(m)
  }

  /** What callers must respect: credibilities in range, and `add_steps` for short-term steps only. */
  predicate Lawful(op: Op)
    decreases op
  {
    match op
    case Add(m) => Credible(m)
    case AddSteps(steps) => forall i :: 0 <= i < |steps| ==> steps[i].scope == ShortTerm && Credible(steps[i])
    case Batch(body) => forall i :: 0 <= i < |body| ==> Lawful(body[i])
    case _ => true
  }

  lemma {:induction false} FindMergeableSound(m: Step, ms: seq<Step>, words: Words)
    ensures match FindMergeable(m, ms, words)
            case None => forall e :: e in ms ==> !Restates(m, e, words)
            case Some(i) => i < |ms| && Restates(m, ms[i], words)
  {
    hide Restates;
    if ms != [] {
      FindMergeableSound(m, ms[1..], words);
      assert ms == [ms[0]] + ms[1..];
    }
  }

  lemma UnmergedIsApart(m: Step, e: Step, words: Words)
    requires words("") == {} && !Restates(m, e, words)
    ensures !Clash(e, m, words)
  {
    assert words(e.content) * words(m.content) == words(m.content) * words(e.content);
    assert words(e.content) + words(m.content) == words(m.content) + words(e.content);
  }

  lemma AddKeepsTidy(m: Step, ms: seq<Step>, words: Words)
    requires words("") == {} && Tidy(ms, words) && Credible(m)
    ensures Tidy(Added(m, ms, words), words)
  {
    hide Restates, Clash, Pairwise;
    FindMergeableSound(m, ms, words);
    match FindMergeable(m, ms, words)
    case None =>
      forall e | e in ms ensures Apart(words)(e, m) { UnmergedIsApart(m, e, words); }
      AppendPairwise(ms, m, Apart(words));
    case Some(k) =>
      forall i | 0 <= i < |ms| ensures Credible(ms[i]) { assert ms[i] in ms; }
      SameIdentityKeepsTidy(ms, ms[k := Corroborated(ms[k])], words);
  }

  /** Scope, kind and content, all that merging looks at. */
  predicate SameIdentity(a: Step, b: Step) {
    a.scope == b.scope && a.kind == b.kind && a.content == b.content
  }

  lemma SameIdentityKeepsTidy(ms: seq<Step>, ns: seq<Step>, words: Words)
    requires Pairwise(ms, Apart(words)) && |ms| == |ns|
    requires forall i :: 0 <= i < |ms| ==> SameIdentity(ms[i], ns[i]) && Credible(ns[i])
    ensures Tidy(ns, words)
  {
    hide Pairwise, Overlaps;
    PairwiseAlike(ms, ns, Apart(words));
  }

  lemma RemovalKeepsTidy(ms: seq<Step>, n: nat, p: Step -> bool, words: Words)
    requires Tidy(ms, words)
    ensures Tidy(RemoveFirst(ms, n, p), words)
  {
    RemoveFirstPairwise(ms, n, p, Apart(words));
    RemoveFirstSubset(ms, n, p);
  }

  lemma {:induction false} ShortTermKeepsTidy(ms: seq<Step>, steps: seq<Step>, words: Words)
    requires Tidy(ms, words)
    requires forall i :: 0 <= i < |steps| ==> steps[i].scope == ShortTerm && Credible(steps[i])
    ensures Tidy(ms + steps, words)
    decreases |steps|
  {
    hide Pairwise;
    if steps == [] {
      assert ms + steps == ms;
    } else {
      var n := |steps| - 1;
      ShortTermKeepsTidy(ms, steps[..n], words);
      AppendPairwise(ms + steps[..n], steps[n], Apart(words));
      assert ms + steps == ms + steps[..n] + [steps[n]];
    }
  }

  lemma {:induction false} ApplyKeepsTidy(s: StoreState, op: Op, words: Words)
    requires words("") == {} && Tidy(s.memories, words) && Lawful(op)
    ensures Tidy(Apply(s, op, words).memories, words)
    decreases op, 1
  {
    hide Tidy, Added, RemoveFirst, Candidate, PruneFilter, Keep, SummaryText, Filter;
    match op
    case Add(m) => AddKeepsTidy(m, s.memories, words);
    case AddSteps(steps) => ShortTermKeepsTidy(s.memories, steps, words);
    case Prune(scope, tag, keepLast) =>
      var p := PruneFilter(scope, tag);
      RemovalKeepsTidy(s.memories, PruneCount(|Filter(s.memories, p)|, keepLast), p, words);
    case Compact(tag, limits, summary) =>
      var candidates := Filter(s.memories, Candidate(tag));
      if Keep(candidates, limits).Some? {
        var keep := Keep(candidates, limits).value;
        var n := if keep <= |candidates| then |candidates| - keep else 0;
        RemovalKeepsTidy(s.memories, n, Candidate(tag), words);
        AddKeepsTidy(SummaryStep(tag, SummaryText(summary, candidates[..n])),
            RemoveFirst(s.memories, n, Candidate(tag)), words);
      }
    case Mark(hypothesis, status) => InPlaceKeepsTidy(s.memories, SetStatus(s.memories, hypothesis, status), words);
    case Judge(question, verdict) => InPlaceKeepsTidy(s.memories, JudgeAll(s.memories, question, verdict), words);
    case Believe(chosen, supports) => InPlaceKeepsTidy(s.memories, BelieveAll(s.memories, chosen, supports), words);
    case Batch(body) => ApplyAllKeepsTidy(s.(batchDepth := s.batchDepth + 1), body, words);
  }

  lemma InPlaceKeepsTidy(ms: seq<Step>, ns: seq<Step>, words: Words)
    requires Tidy(ms, words) && |ms| == |ns|
    requires forall i :: 0 <= i < |ms| ==> SameIdentity(ms[i], ns[i]) && (Credible(ms[i]) ==> Credible(ns[i]))
    ensures Tidy(ns, words)
  {
    hide Pairwise, Clash;
    SameIdentityKeepsTidy(ms, ns, words);
  }

  /** However operations follow one another: no two long-term questions or contradictions share a
      non-empty content, no two entries of a mergeable kind overlap by three quarters, and every
      credibility stays in [0, 1]. */
  lemma {:induction false} ApplyAllKeepsTidy(s: StoreState, ops: seq<Op>, words: Words)
    requires words("") == {} && Tidy(s.memories, words)
    requires forall i :: 0 <= i < |ops| ==> Lawful(ops[i])
    ensures Tidy(ApplyAll(s, ops, words).memories, words)
    decreases ops, 0
  {
    hide Tidy, Lawful;
    if ops != [] {
      ApplyKeepsTidy(s, ops[0], words);
      ApplyAllKeepsTidy(Apply(s, ops[0], words), ops[1..], words);
    }
  }

  // ---- The backend ----

  ghost predicate Synced(s: StoreState) {
    s.disk == Some(s.memories) || (s.disk.None? && s.memories == [])
  }

  /** What the operation changes outside a batch is saved: a belief update saves only when a credibility
      moved, and is not saved if it moved nothing but counters. */
  predicate SavesChanges(s: StoreState, op: Op) {
    match op
    case Believe(chosen, supports) =>
      var after := BelieveAll(s.memories, chosen, supports);
      CredibilityMoved(s.memories, after, |after|) || after == s.memories
    case _ => true
  }

  /** Inside a batch nothing is written and the depth comes back; outside, the backend keeps holding the
      list exactly if the operation's changes are saved. */
  lemma {:induction false} ApplySync(s: StoreState, op: Op, words: Words)
    ensures var t := Apply(s, op, words);
            && t.batchDepth == s.batchDepth
            && (s.batchDepth > 0 ==> t.disk == s.disk)
            && (s.batchDepth == 0 && Synced(s) ==> (Synced(t) <==> SavesChanges(s, op)))
    decreases op, 1
  {
    hide Added, Pruned, Compacted, Keep, SetStatus, JudgeAll, BelieveAll, CredibilityMoved;
    if op.Batch? {
      ApplyAllSync(s.(batchDepth := s.batchDepth + 1), op.body, words);
    }
  }

  /** The backend holds the list before the first operation and after each one. */
  ghost predicate AlwaysSynced(s: StoreState, ops: seq<Op>, words: Words)
    decreases ops
  {
    Synced(s) && (ops == [] || AlwaysSynced(Apply(s, ops[0], words), ops[1..], words))
  }

  predicate AllSaved(s: StoreState, ops: seq<Op>, words: Words)
    decreases ops
  {
    ops == [] || (SavesChanges(s, ops[0]) && AllSaved(Apply(s, ops[0], words), ops[1..], words))
  }

  /** Over any operations: inside a batch nothing is written; outside, the backend holds the list after
      every operation exactly if no belief update moves counters alone. */
  lemma {:induction false} ApplyAllSync(s: StoreState, ops: seq<Op>, words: Words)
    ensures var t := ApplyAll(s, ops, words);
            && t.batchDepth == s.batchDepth
            && (s.batchDepth > 0 ==> t.disk == s.disk)
            && (s.batchDepth == 0 && Synced(s) ==> (AlwaysSynced(s, ops, words) <==> AllSaved(s, ops, words)))
    decreases ops, 0
  {
    hide Apply, Synced, SavesChanges;
    if ops != [] {
      ApplySync(s, ops[0], words);
      ApplyAllSync(Apply(s, ops[0], words), ops[1..], words);
      if !SavesChanges(s, ops[0]) && s.batchDepth == 0 && Synced(s) {
        assert !AlwaysSynced(Apply(s, ops[0], words), ops[1..], words);
      }
    }
  }

  /** Supporting a fact that is already certain counts the support in memory only. */
  lemma CertainFactIsNotSaved(fact: Step, words: Words)
    requires fact.stepKind == MemoryStep && fact.kind != "conjecture" && fact.credibility == 1.0
    ensures var s := StoreState([fact], 0, Some([fact]));
            var t := Apply(s, Believe({0}, true), words);
            && Synced(s) && t.memories[0].supported == fact.supported + 1 && t.disk == Some([fact]) && !Synced(t)
  {
    var after := BelieveAll([fact], {0}, true);
    assert after == [fact.(supported := fact.supported + 1)];
    assert !CredibilityMoved([fact], after, 0);
    assert after[0].supported != [fact][0].supported;
  }

  // ---- Compaction ----

  function NotCandidate(tag: Option<string>): Step -> bool {
    (m: Step) => !Candidate(tag)(m)
  }

  lemma SummaryIsAppended(tag: Option<string>, text: string, ms: seq<Step>, words: Words)
    ensures Added(SummaryStep(tag, text), ms, words) == ms + [SummaryStep(tag, text)]
  {
    FindMergeableSound(SummaryStep(tag, text), ms, words);
  }

  /** Compaction keeps exactly the newest candidates, in order, leaves every other step untouched,
      appends one summary, and strictly shrinks the candidates. */
  lemma CompactKeepsNewest(s: StoreState, tag: Option<string>, limits: Limits, summary: string, words: Words)
    ensures var before := Filter(s.memories, Candidate(tag));
            var after := Apply(s, Compact(tag, limits, summary), words).memories;
            match Keep(before, limits)
            case None => after == s.memories
            case Some(keep) =>
              && keep < |before|
              && Filter(after, Candidate(tag)) == before[|before| - keep..]
              && Filter(after, NotCandidate(tag)) == Filter(s.memories, NotCandidate(tag))
                   + [SummaryStep(tag, SummaryText(summary, before[..|before| - keep]))]
              && |after| == |s.memories| - (|before| - keep) + 1
  {
    hide Filter, RemoveFirst, Added, SummaryText, SumChars;
    var before := Filter(s.memories, Candidate(tag));
    if Keep(before, limits).Some? {
      var n := |before| - Keep(before, limits).value;
      var text := SummaryText(summary, before[..n]);
      var left := RemoveFirst(s.memories, n, Candidate(tag));
      SummaryIsAppended(tag, text, left, words);
      RemovalThenAppend(s.memories, n, tag, SummaryStep(tag, text));
    }
  }

  lemma RemovalThenAppend(ms: seq<Step>, n: nat, tag: Option<string>, m: Step)
    requires n <= |Filter(ms, Candidate(tag))| && !Candidate(tag)(m)
    ensures var p, q := Candidate(tag), NotCandidate(tag); var after := RemoveFirst(ms, n, p) + [m];
            && Filter(after, p) == Filter(ms, p)[n..]
            && Filter(after, q) == Filter(ms, q) + [m]
            && |after| == |ms| - n + 1
  {
    hide Filter, RemoveFirst;
    var p, q := Candidate(tag), NotCandidate(tag);
    var left := RemoveFirst(ms, n, p);
    RemoveFirstFilter(ms, n, p);
    RemoveFirstOthers(ms, n, p, q);
    FilterConcat(left, [m], p);
    FilterConcat(left, [m], q);
    FilterOne(m, p);
    FilterOne(m, q);
  }

  lemma FilterOne(m: Step, p: Step -> bool)
    ensures Filter([m], p) == if p(m) then [m] else []
  {
    assert [m][1..] == [];
  }

  // ---- The agent's loop: persist a step, then compact ----

  lemma PersistBound(s: StoreState, task: string, step: Persisted, limits: Limits, words: Words)
    ensures |Filter(Persist(s, task, step, limits, words).memories, Candidate(Some(task)))| <= limits.maxSteps
  {
    hide Apply, Filter, SumChars, Candidate;
    var t := Apply(s, AddSteps([step.action, step.observation]), words);
    CompactKeepsNewest(t, Some(task), limits, step.summary, words);
  }

  /** After every persisted step of a run at most `maxSteps` candidates carry the task's tag. */
  lemma {:induction false} RunBound(s: StoreState, task: string, steps: seq<Persisted>, limits: Limits, words: Words)
    ensures forall k :: 1 <= k <= |steps| ==>
      |Filter(PersistAll(s, task, steps[..k], limits, words).memories, Candidate(Some(task)))| <= limits.maxSteps
  {
    hide Persist, Filter, Candidate;
    forall k | 1 <= k <= |steps|
      ensures |Filter(PersistAll(s, task, steps[..k], limits, words).memories, Candidate(Some(task)))|
              <= limits.maxSteps
    {
      PersistLast(s, task, steps[..k], limits, words);
    }
  }

  lemma {:induction false} PersistLast(s: StoreState, task: string, steps: seq<Persisted>, limits: Limits, words: Words)
    requires steps != []
    ensures |Filter(PersistAll(s, task, steps, limits, words).memories, Candidate(Some(task)))| <= limits.maxSteps
    decreases steps
  {
    hide Persist, Filter, Candidate;
    if |steps| == 1 {
      PersistBound(s, task, steps[0], limits, words);
      assert steps[1..] == [];
    } else {
      PersistLast(Persist(s, task, steps[0], limits, words), task, steps[1..], limits, words);
    }
  }
}
