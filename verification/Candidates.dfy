/** The director's candidates under every operation the rest of the agent may issue: an entry that
    is no reflection keeps its status for good, and closed entries never become candidates again. */
module Candidates {
  import opened Evolution
  import opened Lists
  import opened Memory
  import opened MemoryTheorems
  import opened Text

  predicate LongQuestion(m: Step) {
    m.scope == LongTerm && IsQuestion(m.kind)
  }

  // ---- What an operation outside the director may do ----

  /** Questions come in as reflections no deeper than `deepest`, `add_steps` brings short-term steps,
      pruning keeps to short-term steps, and no status is ever set back to open. */
  predicate Within(op: Op, deepest: nat)
    decreases op
  {
    match op
    case Add(m) => IsQuestion(m.kind) ==> m.stepKind == ReflectionStep && m.depth <= deepest
    case AddSteps(steps) => forall i :: 0 <= i < |steps| ==> steps[i].scope == ShortTerm
    case Prune(scope, _, _) => scope == Some(ShortTerm)
    case Mark(_, status) => status != Open
    case Batch(body) => forall i :: 0 <= i < |body| ==> Within(body[i], deepest)
    case _ => true
  }

  predicate AllWithin(ops: seq<Op>, deepest: nat) {
    forall i :: 0 <= i < |ops| ==> Within(ops[i], deepest)
  }

  // ---- Who is a candidate ----

  lemma {:induction false} SortByDepthMembers(ms: seq<Step>)
    ensures forall x :: x in SortByDepth(ms) <==> x in ms
  {
    if ms != [] {
      SortByDepthMembers(ms[1..]);
      InsertByDepthMembers(ms[0], SortByDepth(ms[1..]));
      assert ms == [ms[0]] + ms[1..];
    }
  }

  lemma {:induction false} InsertByDepthMembers(m: Step, ms: seq<Step>)
    ensures forall x :: x in InsertByDepth(m, ms) <==> x == m || x in ms
  {
    if ms != [] {
      InsertByDepthMembers(m, ms[1..]);
      assert ms == [ms[0]] + ms[1..];
    }
  }

  lemma CandidatesAreOpen(ms: seq<Step>)
    ensures forall x :: x in OpenCandidates(ms) ==> x in ms && LongQuestion(x) && x.status == Open
  {
    hide SortByDepth;
    SortByDepthMembers(OpenOf(ms, "contradiction") + OpenOf(ms, "question"));
    OpenOfMembers(ms, "contradiction");
    OpenOfMembers(ms, "question");
  }

  lemma OpenOfMembers(ms: seq<Step>, kind: string)
    ensures forall x :: x in OpenOf(ms, kind) ==> x in ms && x.kind == kind && x.scope == LongTerm && x.status == Open
  {
    hide Filter;
    var all := Filter(ms, OfKind(kind));
    FilterAll(ms, OfKind(kind));
    FilterAll(Newest(all, 50), IsOpen());
    assert forall x :: x in Newest(all, 50) ==> x in all;
  }

  /** Every candidate is a reflection, so that a status can reach it. */
  ghost predicate ReflectedCandidates(ms: seq<Step>) {
    forall x :: x in OpenCandidates(ms) ==> x.stepKind == ReflectionStep
  }

  /** Every open entry among the newest 50 of a kind is a reflection. */
  ghost predicate WindowReflected(entries: seq<Step>) {
    forall x :: x in Newest(entries, 50) && x.status == Open ==> x.stepKind == ReflectionStep
  }

  lemma CandidatesByWindow(ms: seq<Step>)
    ensures ReflectedCandidates(ms)
            <==> (forall kind :: IsQuestion(kind) ==> WindowReflected(Filter(ms, OfKind(kind))))
  {
    hide SortByDepth, Filter, Newest, OfKind;
    SortByDepthMembers(OpenOf(ms, "contradiction") + OpenOf(ms, "question"));
    FilterAll(Newest(Filter(ms, OfKind("contradiction")), 50), IsOpen());
    FilterAll(Newest(Filter(ms, OfKind("question")), 50), IsOpen());
    assert IsQuestion("contradiction") && IsQuestion("question");
  }

  // ---- The entries of a kind over time ----

  predicate Keeps(a: Step, b: Step) {
    && b.stepKind == a.stepKind
    && (b.status == Open ==> a.status == Open)
    && (a.stepKind != ReflectionStep ==> b.status == a.status)
  }

  /** Entry by entry the same, but for statuses of reflections that left "open"; newer entries are reflections. */
  ghost predicate Follows(before: seq<Step>, after: seq<Step>) {
    && |before| <= |after|
    && (forall i :: 0 <= i < |before| ==> Keeps(before[i], after[i]))
    && (forall i :: |before| <= i < |after| ==> after[i].stepKind == ReflectionStep)
  }

  lemma FollowsOn(a: seq<Step>, b: seq<Step>, c: seq<Step>)
    requires Follows(a, b) && Follows(b, c)
    ensures Follows(a, c)
  {
    forall i | 0 <= i < |a| ensures Keeps(a[i], c[i]) {
      assert Keeps(a[i], b[i]) && Keeps(b[i], c[i]);
    }
    forall i | |a| <= i < |c| ensures c[i].stepKind == ReflectionStep {
      if i < |b| { assert Keeps(b[i], c[i]); }
    }
  }

  lemma FollowsKeepsReflected(before: seq<Step>, after: seq<Step>)
    requires Follows(before, after) && WindowReflected(before)
    ensures WindowReflected(after)
  {
    forall x | x in Newest(after, 50) && x.status == Open ensures x.stepKind == ReflectionStep {
      var i :| 0 <= i < |after| && i >= |after| - 50 && after[i] == x;
      if i < |before| {
        assert Keeps(before[i], after[i]) && before[i] in Newest(before, 50);
      }
    }
  }

  lemma FollowsKeepsPlain(before: seq<Step>, after: seq<Step>)
    requires Follows(before, after) && |before| == |after| && !WindowReflected(before)
    ensures !WindowReflected(after)
  {
    var x :| x in Newest(before, 50) && x.status == Open && x.stepKind != ReflectionStep;
    var i :| 0 <= i < |before| && i >= |before| - 50 && before[i] == x;
    assert Keeps(before[i], after[i]) && after[i] in Newest(after, 50);
  }

  lemma {:induction false} InPlaceFollows(ms: seq<Step>, ns: seq<Step>, kind: string)
    requires |ms| == |ns| && forall i :: 0 <= i < |ms| ==> SameIdentity(ms[i], ns[i]) && Keeps(ms[i], ns[i])
    ensures Follows(Filter(ms, OfKind(kind)), Filter(ns, OfKind(kind)))
    ensures |Filter(ms, OfKind(kind))| == |Filter(ns, OfKind(kind))|
  {
    hide Keeps, Filter;
    FilterHead(ms, OfKind(kind));
    FilterHead(ns, OfKind(kind));
    if ms != [] {
      InPlaceFollows(ms[1..], ns[1..], kind);
    }
  }

  lemma FollowsItself(ms: seq<Step>)
    ensures Follows(ms, ms)
  {
  }

  lemma AppendFollows(ms: seq<Step>, more: seq<Step>, kind: string)
    requires forall m :: m in more && OfKind(kind)(m) ==> m.stepKind == ReflectionStep
    ensures Follows(Filter(ms, OfKind(kind)), Filter(ms + more, OfKind(kind)))
    ensures (forall m :: m in more ==> !OfKind(kind)(m)) ==> Filter(ms + more, OfKind(kind)) == Filter(ms, OfKind(kind))
  {
    hide Filter;
    FilterConcat(ms, more, OfKind(kind));
    FilterAll(more, OfKind(kind));
    var a: seq<Step>, b: seq<Step> := Filter(ms, OfKind(kind)), Filter(more, OfKind(kind));
    FollowsItself(a);
    forall i | |a| <= i < |a| + |b| ensures (a + b)[i].stepKind == ReflectionStep {
      assert b[i - |a|] in b;
    }
    if forall m :: m in more ==> !OfKind(kind)(m) {
      FilterNone(more, OfKind(kind));
    }
  }

  lemma RemovalFollows(ms: seq<Step>, n: nat, p: Step -> bool, kind: string)
    requires forall m :: p(m) ==> m.scope == ShortTerm
    ensures Filter(RemoveFirst(ms, n, p), OfKind(kind)) == Filter(ms, OfKind(kind))
  {
    RemoveFirstOthers(ms, n, p, OfKind(kind));
  }

  lemma AddFollows(m: Step, ms: seq<Step>, words: Words, kind: string)
    requires IsQuestion(kind) && (IsQuestion(m.kind) ==> m.stepKind == ReflectionStep)
    ensures Follows(Filter(ms, OfKind(kind)), Filter(Added(m, ms, words), OfKind(kind)))
    ensures !IsQuestion(m.kind) ==> |Filter(Added(m, ms, words), OfKind(kind))| == |Filter(ms, OfKind(kind))|
  {
    hide FindMergeable, Filter, Follows;
    FindMergeableSound(m, ms, words);
    match FindMergeable(m, ms, words)
    case None => AppendFollows(ms, [m], kind);
    case Some(k) => InPlaceFollows(ms, ms[k := Corroborated(ms[k])], kind);
  }

  lemma CompactFollows(ms: seq<Step>, tag: Option<string>, limits: Limits, summary: string, words: Words, kind: string)
    requires IsQuestion(kind)
    ensures Follows(Filter(ms, OfKind(kind)), Filter(Compacted(ms, tag, limits, summary, words), OfKind(kind)))
  {
    hide Filter, RemoveFirst, Added, SummaryText, Keep, OfKind;
    FollowsItself(Filter(ms, OfKind(kind)));
    var candidates := Filter(ms, Candidate(tag));
    if Keep(candidates, limits).Some? {
      var keep := Keep(candidates, limits).value;
      var n := if keep <= |candidates| then |candidates| - keep else 0;
      RemovalFollows(ms, n, Candidate(tag), kind);
      AddFollows(SummaryStep(tag, SummaryText(summary, candidates[..n])), RemoveFirst(ms, n, Candidate(tag)), words,
          kind);
    }
  }

  lemma PruneFollows(ms: seq<Step>, tag: string, keepLast: int, kind: string)
    ensures Follows(Filter(ms, OfKind(kind)), Filter(Pruned(ms, Some(ShortTerm), tag, keepLast), OfKind(kind)))
  {
    hide Filter, RemoveFirst, OfKind;
    var p := PruneFilter(Some(ShortTerm), tag);
    RemovalFollows(ms, PruneCount(|Filter(ms, p)|, keepLast), p, kind);
    FollowsItself(Filter(ms, OfKind(kind)));
  }

  lemma {:induction false} ApplyFollows(s: StoreState, op: Op, words: Words, deepest: nat, kind: string)
    requires IsQuestion(kind) && Within(op, deepest)
    ensures Follows(Filter(s.memories, OfKind(kind)), Filter(Apply(s, op, words).memories, OfKind(kind)))
    decreases op, 1
  {
    hide Follows, Added, Pruned, Compacted, Keep, CredibilityMoved, Filter, OfKind;
    FollowsItself(Filter(s.memories, OfKind(kind)));
    match op
    case Add(m) => AddFollows(m, s.memories, words, kind);
    case AddSteps(steps) => ShortTermFollows(s.memories, steps, kind);
    case Prune(scope, tag, keepLast) => PruneFollows(s.memories, tag, keepLast, kind);
    case Compact(tag, limits, summary) => CompactFollows(s.memories, tag, limits, summary, words, kind);
    case Mark(hypothesis, status) => InPlaceFollows(s.memories, SetStatus(s.memories, hypothesis, status), kind);
    case Judge(question, verdict) => InPlaceFollows(s.memories, JudgeAll(s.memories, question, verdict), kind);
    case Believe(chosen, supports) => InPlaceFollows(s.memories, BelieveAll(s.memories, chosen, supports), kind);
    case Batch(body) => ApplyAllFollows(s.(batchDepth := s.batchDepth + 1), body, words, deepest, kind);
  }

  lemma ShortTermFollows(ms: seq<Step>, steps: seq<Step>, kind: string)
    requires forall i :: 0 <= i < |steps| ==> steps[i].scope == ShortTerm
    ensures Follows(Filter(ms, OfKind(kind)), Filter(ms + steps, OfKind(kind)))
  {
    AppendFollows(ms, steps, kind);
  }

  lemma {:induction false} ApplyAllFollows(s: StoreState, ops: seq<Op>, words: Words, deepest: nat, kind: string)
    requires IsQuestion(kind) && AllWithin(ops, deepest)
    ensures Follows(Filter(s.memories, OfKind(kind)), Filter(ApplyAll(s, ops, words).memories, OfKind(kind)))
    decreases ops, 0
  {
    hide Follows, Apply, Within, Filter, OfKind;
    FollowsItself(Filter(s.memories, OfKind(kind)));
    if ops != [] {
      var t := Apply(s, ops[0], words);
      ApplyFollows(s, ops[0], words, deepest, kind);
      ApplyAllFollows(t, ops[1..], words, deepest, kind);
      FollowsOn(Filter(s.memories, OfKind(kind)), Filter(t.memories, OfKind(kind)),
                Filter(ApplyAll(t, ops[1..], words).memories, OfKind(kind)));
    }
  }

  /** Operations that bring questions in as reflections never make a plain memory a candidate. */
  lemma ApplyAllKeepsCandidates(s: StoreState, ops: seq<Op>, words: Words, deepest: nat)
    requires ReflectedCandidates(s.memories) && AllWithin(ops, deepest)
    ensures ReflectedCandidates(ApplyAll(s, ops, words).memories)
  {
    hide ReflectedCandidates, WindowReflected, AllWithin, ApplyAll, Filter, OfKind, IsQuestion;
    var t := ApplyAll(s, ops, words);
    CandidatesByWindow(s.memories);
    CandidatesByWindow(t.memories);
    forall kind | IsQuestion(kind) ensures WindowReflected(Filter(t.memories, OfKind(kind))) {
      ApplyAllFollows(s, ops, words, deepest, kind);
      FollowsKeepsReflected(Filter(s.memories, OfKind(kind)), Filter(t.memories, OfKind(kind)));
    }
  }
}
