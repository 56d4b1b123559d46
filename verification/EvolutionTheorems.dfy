/** Why self-evolution converges: a weight on open questions that every experiment lowers, settled
    questions that stay settled, and a depth that stays bounded. */
module EvolutionTheorems {
  import opened Candidates
  import opened Evolution
  import opened Lists
  import opened Memory
  import opened MemoryTheorems
  import opened Text

  // ---- The weight of the open tree ----

  /** Experiments a question at depth `d` can still cause, itself included. */
  function TreeWeight(d: nat, maxDepth: nat): nat
    decreases if d < maxDepth then maxDepth - d else 0
  {
    if d >= maxDepth then 1 else 1 + 3 * TreeWeight(d + 1, maxDepth)
  }

  function Pow3(n: nat): nat {
    if n == 0 then 1 else 3 * Pow3(n - 1)
  }

  lemma {:induction false} TreeWeightClosed(d: nat, maxDepth: nat)
    requires d <= maxDepth
    ensures 2 * TreeWeight(d, maxDepth) + 1 == Pow3(maxDepth - d + 1)
    decreases maxDepth - d
  {
    if d < maxDepth {
      TreeWeightClosed(d + 1, maxDepth);
    }
  }

  function Weight(m: Step, maxDepth: nat): nat {
    if LongQuestion(m) && m.status == Open then TreeWeight(m.depth, maxDepth) else 0
  }

  function Total(ms: seq<Step>, maxDepth: nat): nat {
    if ms == [] then 0 else Weight(ms[0], maxDepth) + Total(ms[1..], maxDepth)
  }

  // ---- New roots ----

  /** How many long-term questions and contradictions the operation really appends (not merges). */
  function Roots(s: StoreState, op: Op, words: Words): nat
    decreases op, 1
  {
    match op
    case Add(m) => if LongQuestion(m) && FindMergeable(m, s.memories, words).None? then 1 else 0
    case Batch(body) => RootsAll(s.(batchDepth := s.batchDepth + 1), body, words)
    case _ => 0
  }

  function RootsAll(s: StoreState, ops: seq<Op>, words: Words): nat
    decreases ops, 0
  {
    if ops == [] then 0 else Roots(s, ops[0], words) + RootsAll(Apply(s, ops[0], words), ops[1..], words)
  }

  /** Every stored question is a reflection, so that statuses reach it, and lies within the depth bound. */
  ghost predicate Reflected(ms: seq<Step>, maxDepth: nat) {
    forall m :: m in ms && LongQuestion(m) ==> m.stepKind == ReflectionStep && m.depth <= maxDepth
  }

  // ---- How the total moves ----

  lemma {:induction false} TotalConcat(a: seq<Step>, b: seq<Step>, maxDepth: nat)
    ensures Total(a + b, maxDepth) == Total(a, maxDepth) + Total(b, maxDepth)
  {
    hide Weight;
    if a == [] {
      assert a + b == b;
    } else {
      assert (a + b)[1..] == a[1..] + b;
      TotalConcat(a[1..], b, maxDepth);
    }
  }

  lemma {:induction false} TotalZero(ms: seq<Step>, maxDepth: nat)
    requires forall m :: m in ms ==> Weight(m, maxDepth) == 0
    ensures Total(ms, maxDepth) == 0
  {
    hide Weight;
    if ms != [] {
      TotalZero(ms[1..], maxDepth);
    }
  }

  lemma TotalOne(m: Step, maxDepth: nat)
    ensures Total([m], maxDepth) == Weight(m, maxDepth)
  {
    assert [m][1..] == [];
  }

  /** In-place changes that raise no weight; one that clears entry `k` lowers the total by its weight. */
  lemma {:induction false} TotalInPlace(ms: seq<Step>, ns: seq<Step>, maxDepth: nat)
    requires |ms| == |ns|
    requires forall i :: 0 <= i < |ms| ==> Weight(ns[i], maxDepth) <= Weight(ms[i], maxDepth)
    ensures Total(ns, maxDepth) <= Total(ms, maxDepth)
    ensures forall k :: 0 <= k < |ms| && Weight(ns[k], maxDepth) == 0
                        ==> Total(ns, maxDepth) + Weight(ms[k], maxDepth) <= Total(ms, maxDepth)
  {
    hide Weight;
    if ms != [] {
      TotalInPlace(ms[1..], ns[1..], maxDepth);
      forall k | 0 <= k < |ms| && Weight(ns[k], maxDepth) == 0
        ensures Total(ns, maxDepth) + Weight(ms[k], maxDepth) <= Total(ms, maxDepth)
      {
        if k > 0 { assert ns[k] == ns[1..][k - 1] && ms[k] == ms[1..][k - 1]; }
      }
    }
  }

  lemma {:induction false} TotalRemove(ms: seq<Step>, n: nat, p: Step -> bool, maxDepth: nat)
    ensures Total(RemoveFirst(ms, n, p), maxDepth) <= Total(ms, maxDepth)
  {
    hide Weight;
    if n > 0 && ms != [] {
      if p(ms[0]) {
        TotalRemove(ms[1..], n - 1, p, maxDepth);
      } else {
        TotalRemove(ms[1..], n, p, maxDepth);
        assert ([ms[0]] + RemoveFirst(ms[1..], n, p))[1..] == RemoveFirst(ms[1..], n, p);
      }
    }
  }

  lemma CorroboratedWeight(m: Step, maxDepth: nat)
    ensures Weight(Corroborated(m), maxDepth) == Weight(m, maxDepth)
  {
  }

  lemma TotalAdd(m: Step, ms: seq<Step>, words: Words, maxDepth: nat)
    ensures var grown := LongQuestion(m) && FindMergeable(m, ms, words).None?;
            Total(Added(m, ms, words), maxDepth)
            <= Total(ms, maxDepth) + if grown then TreeWeight(m.depth, maxDepth) else 0
  {
    hide Total, FindMergeable, Corroborated, TreeWeight;
    match FindMergeable(m, ms, words)
    case None =>
      TotalConcat(ms, [m], maxDepth);
      TotalOne(m, maxDepth);
    case Some(i) =>
      if i < |ms| {
        CorroboratedWeight(ms[i], maxDepth);
        TotalInPlace(ms, ms[i := Corroborated(ms[i])], maxDepth);
      }
  }

  lemma TotalMark(ms: seq<Step>, hypothesis: string, status: Status, maxDepth: nat)
    requires status != Open
    ensures Total(SetStatus(ms, hypothesis, status), maxDepth) <= Total(ms, maxDepth)
    ensures forall k :: 0 <= k < |ms| && Marked(ms[k], hypothesis, status).status == status
                        ==> Total(SetStatus(ms, hypothesis, status), maxDepth) + Weight(ms[k], maxDepth)
                            <= Total(ms, maxDepth)
  {
    hide Total, TreeWeight;
    TotalInPlace(ms, SetStatus(ms, hypothesis, status), maxDepth);
  }

  lemma TotalCompact(ms: seq<Step>, tag: Option<string>, limits: Limits, summary: string, words: Words, maxDepth: nat)
    ensures Total(Compacted(ms, tag, limits, summary, words), maxDepth) <= Total(ms, maxDepth)
  {
    hide Total, Filter, RemoveFirst, Added, SummaryText, Candidate, Keep, TreeWeight;
    var candidates := Filter(ms, Candidate(tag));
    if Keep(candidates, limits).Some? {
      var keep := Keep(candidates, limits).value;
      var n := if keep <= |candidates| then |candidates| - keep else 0;
      TotalRemove(ms, n, Candidate(tag), maxDepth);
      TotalAdd(SummaryStep(tag, SummaryText(summary, candidates[..n])), RemoveFirst(ms, n, Candidate(tag)), words,
          maxDepth);
    }
  }

  /** Outside operations raise the total only by what their new roots weigh. */
  lemma {:induction false} TotalApply(s: StoreState, op: Op, words: Words, maxDepth: nat)
    requires Within(op, 0)
    ensures Total(Apply(s, op, words).memories, maxDepth)
            <= Total(s.memories, maxDepth) + Roots(s, op, words) * TreeWeight(0, maxDepth)
    decreases op, 1
  {
    hide Total, Added, Pruned, Compacted, SetStatus, JudgeAll, BelieveAll, CredibilityMoved, Keep, FindMergeable,
        TreeWeight;
    match op
    case Add(m) => TotalAdd(m, s.memories, words, maxDepth);
    case AddSteps(steps) =>
      TotalConcat(s.memories, steps, maxDepth);
      TotalZero(steps, maxDepth);
    case Prune(scope, tag, keepLast) => TotalPrune(s.memories, scope, tag, keepLast, maxDepth);
    case Compact(tag, limits, summary) => TotalCompact(s.memories, tag, limits, summary, words, maxDepth);
    case Mark(hypothesis, status) => TotalMark(s.memories, hypothesis, status, maxDepth);
    case Judge(question, verdict) => TotalJudge(s.memories, question, verdict, maxDepth);
    case Believe(chosen, supports) => TotalBelieve(s.memories, chosen, supports, maxDepth);
    case Batch(body) => TotalApplyAll(s.(batchDepth := s.batchDepth + 1), body, words, maxDepth);
  }

  lemma TotalPrune(ms: seq<Step>, scope: Option<Scope>, tag: string, keepLast: int, maxDepth: nat)
    ensures Total(Pruned(ms, scope, tag, keepLast), maxDepth) <= Total(ms, maxDepth)
  {
    hide Total;
    var p := PruneFilter(scope, tag);
    TotalRemove(ms, PruneCount(|Filter(ms, p)|, keepLast), p, maxDepth);
  }

  lemma TotalJudge(ms: seq<Step>, question: string, verdict: Verdict, maxDepth: nat)
    ensures Total(JudgeAll(ms, question, verdict), maxDepth) <= Total(ms, maxDepth)
  {
    hide Total, TreeWeight;
    TotalInPlace(ms, JudgeAll(ms, question, verdict), maxDepth);
  }

  lemma TotalBelieve(ms: seq<Step>, chosen: set<nat>, supports: bool, maxDepth: nat)
    ensures Total(BelieveAll(ms, chosen, supports), maxDepth) <= Total(ms, maxDepth)
  {
    hide Total, TreeWeight;
    TotalInPlace(ms, BelieveAll(ms, chosen, supports), maxDepth);
  }

  lemma {:induction false} TotalApplyAll(s: StoreState, ops: seq<Op>, words: Words, maxDepth: nat)
    requires AllWithin(ops, 0)
    ensures Total(ApplyAll(s, ops, words).memories, maxDepth)
            <= Total(s.memories, maxDepth) + RootsAll(s, ops, words) * TreeWeight(0, maxDepth)
    decreases ops, 0
  {
    hide Total, Apply, Roots, Within, TreeWeight;
    if ops != [] {
      var w, a, b := TreeWeight(0, maxDepth), Roots(s, ops[0], words),
          RootsAll(Apply(s, ops[0], words), ops[1..], words);
      TotalApply(s, ops[0], words, maxDepth);
      TotalApplyAll(Apply(s, ops[0], words), ops[1..], words, maxDepth);
      assert (a + b) * w == a * w + b * w;
    }
  }

  // ---- Sequencing ----

  lemma {:induction false} ApplyAllConcat(s: StoreState, a: seq<Op>, b: seq<Op>, words: Words)
    ensures ApplyAll(s, a + b, words) == ApplyAll(ApplyAll(s, a, words), b, words)
    decreases a
  {
    hide Apply;
    if a == [] {
      assert a + b == b;
    } else {
      assert (a + b)[1..] == a[1..] + b;
      ApplyAllConcat(Apply(s, a[0], words), a[1..], b, words);
    }
  }

  lemma ApplyOne(s: StoreState, op: Op, words: Words)
    ensures ApplyAll(s, [op], words) == Apply(s, op, words)
  {
    assert [op][1..] == [];
  }

  // ---- Every question stored is a reflection within the depth bound ----

  lemma {:induction false} KeptByRemoval(ms: seq<Step>, n: nat, p: Step -> bool, x: Step)
    requires x in ms && !p(x)
    ensures x in RemoveFirst(ms, n, p)
  {
    if n > 0 {
      if x != ms[0] {
        assert ms == [ms[0]] + ms[1..];
        KeptByRemoval(ms[1..], if p(ms[0]) then n - 1 else n, p, x);
      }
    }
  }

  lemma AddKeepsReflected(m: Step, ms: seq<Step>, words: Words, maxDepth: nat)
    requires Reflected(ms, maxDepth)
    requires IsQuestion(m.kind) ==> m.stepKind == ReflectionStep && m.depth <= maxDepth
    ensures Reflected(Added(m, ms, words), maxDepth)
  {
    hide FindMergeable;
  }

  lemma RemovalKeepsReflected(ms: seq<Step>, n: nat, p: Step -> bool, maxDepth: nat)
    requires Reflected(ms, maxDepth)
    ensures Reflected(RemoveFirst(ms, n, p), maxDepth)
  {
    RemoveFirstSubset(ms, n, p);
  }

  lemma InPlaceKeepsReflected(ms: seq<Step>, ns: seq<Step>, maxDepth: nat)
    requires Reflected(ms, maxDepth) && |ms| == |ns|
    requires forall i :: 0 <= i < |ms| ==>
             SameIdentity(ms[i], ns[i]) && ns[i].stepKind == ms[i].stepKind && ns[i].depth == ms[i].depth
    ensures Reflected(ns, maxDepth)
  {
    forall n | n in ns && LongQuestion(n) ensures n.stepKind == ReflectionStep && n.depth <= maxDepth {
      var i :| 0 <= i < |ns| && ns[i] == n;
      assert ms[i] in ms;
    }
  }

  lemma CompactKeepsReflected(ms: seq<Step>, tag: Option<string>, limits: Limits, summary: string, words: Words,
        maxDepth: nat)
    requires Reflected(ms, maxDepth)
    ensures Reflected(Compacted(ms, tag, limits, summary, words), maxDepth)
  {
    hide Filter, RemoveFirst, Added, SummaryText, Candidate, Keep, Reflected;
    var candidates := Filter(ms, Candidate(tag));
    if Keep(candidates, limits).Some? {
      var keep := Keep(candidates, limits).value;
      var n := if keep <= |candidates| then |candidates| - keep else 0;
      RemovalKeepsReflected(ms, n, Candidate(tag), maxDepth);
      AddKeepsReflected(SummaryStep(tag, SummaryText(summary, candidates[..n])), RemoveFirst(ms, n, Candidate(tag)),
          words, maxDepth);
    }
  }

  lemma {:induction false} ApplyKeepsReflected(s: StoreState, op: Op, words: Words, maxDepth: nat)
    requires Reflected(s.memories, maxDepth) && Within(op, maxDepth)
    ensures Reflected(Apply(s, op, words).memories, maxDepth)
    decreases op, 1
  {
    hide Reflected, Added, RemoveFirst, Compacted, Keep, CredibilityMoved;
    match op
    case Add(m) => AddKeepsReflected(m, s.memories, words, maxDepth);
    case AddSteps(steps) => ShortTermReflected(s.memories, steps, maxDepth);
    case Prune(scope, tag, keepLast) =>
      var p := PruneFilter(scope, tag);
      RemovalKeepsReflected(s.memories, PruneCount(|Filter(s.memories, p)|, keepLast), p, maxDepth);
    case Compact(tag, limits, summary) => CompactKeepsReflected(s.memories, tag, limits, summary, words, maxDepth);
    case Mark(hypothesis, status) =>
      InPlaceKeepsReflected(s.memories, SetStatus(s.memories, hypothesis, status), maxDepth);
    case Judge(question, verdict) =>
      InPlaceKeepsReflected(s.memories, JudgeAll(s.memories, question, verdict), maxDepth);
    case Believe(chosen, supports) =>
      InPlaceKeepsReflected(s.memories, BelieveAll(s.memories, chosen, supports), maxDepth);
    case Batch(body) => ApplyAllKeepsReflected(s.(batchDepth := s.batchDepth + 1), body, words, maxDepth);
  }

  lemma ShortTermReflected(ms: seq<Step>, steps: seq<Step>, maxDepth: nat)
    requires Reflected(ms, maxDepth)
    requires forall i :: 0 <= i < |steps| ==> steps[i].scope == ShortTerm
    ensures Reflected(ms + steps, maxDepth)
  {
  }

  lemma {:induction false} ApplyAllKeepsReflected(s: StoreState, ops: seq<Op>, words: Words, maxDepth: nat)
    requires Reflected(s.memories, maxDepth) && AllWithin(ops, maxDepth)
    ensures Reflected(ApplyAll(s, ops, words).memories, maxDepth)
    decreases ops, 0
  {
    hide Reflected, Apply;
    if ops != [] {
      ApplyKeepsReflected(s, ops[0], words, maxDepth);
      ApplyAllKeepsReflected(Apply(s, ops[0], words), ops[1..], words, maxDepth);
    }
  }

  // ---- Settled questions stay settled ----

  predicate HasKey(m: Step, kind: string, content: string) {
    m.scope == LongTerm && m.kind == kind && m.content == content
  }

  /** The question is stored, and no entry for it is open. */
  ghost predicate Settled(ms: seq<Step>, kind: string, content: string) {
    && (exists m :: m in ms && HasKey(m, kind, content))
    && (forall m :: m in ms && HasKey(m, kind, content) ==> m.status != Open)
  }

  lemma InPlaceKeepsSettled(ms: seq<Step>, ns: seq<Step>, kind: string, content: string)
    requires Settled(ms, kind, content) && |ms| == |ns|
    requires forall i :: 0 <= i < |ms| ==> SameIdentity(ms[i], ns[i]) && (ms[i].status != Open ==> ns[i].status != Open)
    ensures Settled(ns, kind, content)
  {
    var m :| m in ms && HasKey(m, kind, content);
    var k :| 0 <= k < |ms| && ms[k] == m;
    assert ns[k] in ns && HasKey(ns[k], kind, content);
    forall n | n in ns && HasKey(n, kind, content) ensures n.status != Open {
      var i :| 0 <= i < |ns| && ns[i] == n;
      assert ms[i] in ms;
    }
  }

  lemma AppendKeepsSettled(ms: seq<Step>, more: seq<Step>, kind: string, content: string)
    requires Settled(ms, kind, content)
    requires forall m :: m in more ==> !HasKey(m, kind, content)
    ensures Settled(ms + more, kind, content)
  {
    var m :| m in ms && HasKey(m, kind, content);
    assert m in ms + more;
  }

  lemma RemovalKeepsSettled(ms: seq<Step>, n: nat, p: Step -> bool, kind: string, content: string)
    requires Settled(ms, kind, content)
    requires forall m :: p(m) ==> m.scope == ShortTerm
    ensures Settled(RemoveFirst(ms, n, p), kind, content)
  {
    var m :| m in ms && HasKey(m, kind, content);
    KeptByRemoval(ms, n, p, m);
    RemoveFirstSubset(ms, n, p);
  }

  /** A question already stored is merged, never appended. */
  lemma AddKeepsSettled(m: Step, ms: seq<Step>, words: Words, kind: string, content: string)
    requires Settled(ms, kind, content) && IsQuestion(kind) && content != ""
    ensures Settled(Added(m, ms, words), kind, content)
  {
    hide FindMergeable, Settled;
    FindMergeableSound(m, ms, words);
    match FindMergeable(m, ms, words)
    case None =>
      StoredOnce(m, ms, words, kind, content);
      AppendKeepsSettled(ms, [m], kind, content);
    case Some(i) => InPlaceKeepsSettled(ms, ms[i := Corroborated(ms[i])], kind, content);
  }

  lemma StoredOnce(m: Step, ms: seq<Step>, words: Words, kind: string, content: string)
    requires Settled(ms, kind, content) && IsQuestion(kind) && content != ""
    requires forall e :: e in ms ==> !Restates(m, e, words)
    ensures !HasKey(m, kind, content)
  {
    var e :| e in ms && HasKey(e, kind, content);
    assert !Restates(m, e, words);
  }

  lemma CompactKeepsSettled(ms: seq<Step>, tag: Option<string>, limits: Limits, summary: string, words: Words,
        kind: string, content: string)
    requires Settled(ms, kind, content) && IsQuestion(kind) && content != ""
    ensures Settled(Compacted(ms, tag, limits, summary, words), kind, content)
  {
    hide Filter, RemoveFirst, Added, SummaryText, Keep, Settled;
    var candidates := Filter(ms, Candidate(tag));
    if Keep(candidates, limits).Some? {
      var keep := Keep(candidates, limits).value;
      var n := if keep <= |candidates| then |candidates| - keep else 0;
      RemovalKeepsSettled(ms, n, Candidate(tag), kind, content);
      AddKeepsSettled(SummaryStep(tag, SummaryText(summary, candidates[..n])), RemoveFirst(ms, n, Candidate(tag)),
          words, kind, content);
    }
  }

  lemma PruneKeepsSettled(ms: seq<Step>, tag: string, keepLast: int, kind: string, content: string)
    requires Settled(ms, kind, content)
    ensures Settled(Pruned(ms, Some(ShortTerm), tag, keepLast), kind, content)
  {
    hide Filter, RemoveFirst, Settled;
    var p := PruneFilter(Some(ShortTerm), tag);
    RemovalKeepsSettled(ms, PruneCount(|Filter(ms, p)|, keepLast), p, kind, content);
  }

  lemma {:induction false} ApplyKeepsSettled(s: StoreState, op: Op, words: Words, deepest: nat, kind: string,
        content: string)
    requires Settled(s.memories, kind, content) && IsQuestion(kind) && content != ""
    requires Within(op, deepest)
    ensures Settled(Apply(s, op, words).memories, kind, content)
    decreases op, 1
  {
    hide Settled, Added, Pruned, Compacted, Keep, CredibilityMoved;
    match op
    case Add(m) => AddKeepsSettled(m, s.memories, words, kind, content);
    case AddSteps(steps) => AppendKeepsSettled(s.memories, steps, kind, content);
    case Prune(scope, tag, keepLast) => PruneKeepsSettled(s.memories, tag, keepLast, kind, content);
    case Compact(tag, limits, summary) => CompactKeepsSettled(s.memories, tag, limits, summary, words, kind, content);
    case Mark(hypothesis, status) =>
      InPlaceKeepsSettled(s.memories, SetStatus(s.memories, hypothesis, status), kind, content);
    case Judge(question, verdict) =>
      InPlaceKeepsSettled(s.memories, JudgeAll(s.memories, question, verdict), kind, content);
    case Believe(chosen, supports) =>
      InPlaceKeepsSettled(s.memories, BelieveAll(s.memories, chosen, supports), kind, content);
    case Batch(body) => ApplyAllKeepsSettled(s.(batchDepth := s.batchDepth + 1), body, words, deepest, kind, content);
  }

  /** No question that left "open" becomes open again, whatever follows. */
  lemma {:induction false} ApplyAllKeepsSettled(s: StoreState, ops: seq<Op>, words: Words, deepest: nat, kind: string,
        content: string)
    requires Settled(s.memories, kind, content) && IsQuestion(kind) && content != ""
    requires AllWithin(ops, deepest)
    ensures Settled(ApplyAll(s, ops, words).memories, kind, content)
    decreases ops, 0
  {
    hide Settled, Apply, Within;
    if ops != [] {
      ApplyKeepsSettled(s, ops[0], words, deepest, kind, content);
      ApplyAllKeepsSettled(Apply(s, ops[0], words), ops[1..], words, deepest, kind, content);
    }
  }

  lemma MarkSettles(ms: seq<Step>, entry: Step, status: Status, maxDepth: nat)
    requires entry in ms && LongQuestion(entry) && status != Open && Reflected(ms, maxDepth)
    ensures Settled(SetStatus(ms, entry.content, status), entry.kind, entry.content)
  {
    var k :| 0 <= k < |ms| && ms[k] == entry;
    var ns := SetStatus(ms, entry.content, status);
    assert ns[k] in ns && HasKey(ns[k], entry.kind, entry.content);
    forall n | n in ns && HasKey(n, entry.kind, entry.content) ensures n.status != Open {
      var i :| 0 <= i < |ns| && ns[i] == n;
      assert ms[i] in ms && LongQuestion(ms[i]);
    }
  }

  // ---- One round ----

  lemma {:induction false} ConjectureIsAppended(m: Step, ms: seq<Step>, words: Words)
    requires !IsQuestion(m.kind) && !IsMergeable(m.kind)
    ensures Added(m, ms, words) == ms + [m]
  {
    FindMergeableSound(m, ms, words);
  }

  /** The store once the conjecture is recorded and the entry marked as under test. */
  function Opening(s: StoreState, entry: Step, c: Choice, words: Words): StoreState {
    Apply(ApplyAll(s, ConjectureOps(entry.content, c.conjecture), words), Mark(entry.content, Testing), words)
  }

  /** After that the entry's weight is gone. */
  lemma RoundOpening(s: StoreState, entry: Step, c: Choice, maxDepth: nat, words: Words)
    requires entry in s.memories && LongQuestion(entry) && entry.stepKind == ReflectionStep
    ensures var t := Opening(s, entry, c, words);
            Total(t.memories, maxDepth) + Weight(entry, maxDepth) <= Total(s.memories, maxDepth)
  {
    hide Total, TreeWeight, ApplyAll, ConjectureOps, SetStatus;
    var more :=
      if c.conjecture == "" || c.conjecture == entry.content then [] else [ConjectureStep(entry.content, c.conjecture)];
    var ms := s.memories + more;
    ConjectureRecorded(s, entry.content, c.conjecture, words);
    TotalConcat(s.memories, more, maxDepth);
    TotalZero(more, maxDepth);
    var k :| 0 <= k < |s.memories| && s.memories[k] == entry;
    assert ms[k] == entry;
    MarkEntry(ms, k, maxDepth);
  }

  lemma RoundOpeningSettles(s: StoreState, entry: Step, c: Choice, maxDepth: nat, words: Words)
    requires entry in s.memories && LongQuestion(entry) && Reflected(s.memories, maxDepth)
    ensures var t := Opening(s, entry, c, words);
            Settled(t.memories, entry.kind, entry.content)
  {
    hide Settled, Reflected, ApplyAll, ConjectureOps, SetStatus;
    var more :=
      if c.conjecture == "" || c.conjecture == entry.content then [] else [ConjectureStep(entry.content, c.conjecture)];
    ConjectureRecorded(s, entry.content, c.conjecture, words);
    ConjectureReflected(s.memories, more, maxDepth);
    MarkSettles(s.memories + more, entry, Testing, maxDepth);
  }

  lemma ConjectureRecorded(s: StoreState, question: string, conjecture: string, words: Words)
    ensures ApplyAll(s, ConjectureOps(question, conjecture), words).memories
            == s.memories
               + if conjecture == "" || conjecture == question then [] else [ConjectureStep(question, conjecture)]
  {
    hide Apply;
    if conjecture != "" && conjecture != question {
      ApplyOne(s, Add(ConjectureStep(question, conjecture)), words);
      ConjectureAdded(s, question, conjecture, words);
    }
  }

  lemma ConjectureAdded(s: StoreState, question: string, conjecture: string, words: Words)
    ensures Apply(s, Add(ConjectureStep(question, conjecture)), words).memories
            == s.memories + [ConjectureStep(question, conjecture)]
  {
    ConjectureIsAppended(ConjectureStep(question, conjecture), s.memories, words);
  }

  lemma ConjectureReflected(ms: seq<Step>, more: seq<Step>, maxDepth: nat)
    requires Reflected(ms, maxDepth) && forall m :: m in more ==> !LongQuestion(m)
    ensures Reflected(ms + more, maxDepth)
  {
  }

  lemma MarkEntry(ms: seq<Step>, k: nat, maxDepth: nat)
    requires k < |ms| && LongQuestion(ms[k]) && ms[k].stepKind == ReflectionStep
    ensures Total(SetStatus(ms, ms[k].content, Testing), maxDepth) + Weight(ms[k], maxDepth) <= Total(ms, maxDepth)
  {
    hide Total, TreeWeight;
    TotalMark(ms, ms[k].content, Testing, maxDepth);
  }

  /** The sub-questions weigh at most three subtrees one level deeper. */
  lemma {:induction false} TotalSubQuestions(s: StoreState, parent: string, depth: nat, questions: seq<string>,
        maxDepth: nat, words: Words)
    ensures Total(ApplyAll(s, SubQuestionOps(parent, depth, questions), words).memories, maxDepth)
            <= Total(s.memories, maxDepth) + |questions| * TreeWeight(depth, maxDepth)
    decreases questions
  {
    hide Total, Added, FindMergeable, TreeWeight;
    if questions != [] {
      var m := SubQuestionStep(parent, depth, questions[0]);
      var ops := SubQuestionOps(parent, depth, questions);
      TotalAdd(m, s.memories, words, maxDepth);
      assert ops[0] == Add(m) && ops[1..] == SubQuestionOps(parent, depth, questions[1..]);
      TotalSubQuestions(Apply(s, Add(m), words), parent, depth, questions[1..], maxDepth, words);
      var w, n := TreeWeight(depth, maxDepth), |questions[1..]|;
      assert (n + 1) * w == n * w + w;
    }
  }

  lemma TotalDecompose(s: StoreState, entry: Step, c: Choice, maxDepth: nat, words: Words)
    ensures Total(ApplyAll(s, DecomposeOps(entry, c, maxDepth), words).memories, maxDepth)
            <= Total(s.memories, maxDepth) + TreeWeight(entry.depth, maxDepth) - 1
  {
    hide Total, Apply, SubQuestionOps;
    if DecomposeOps(entry, c, maxDepth) != [] {
      var subs := FirstThree(c.subQuestions);
      var ops, last := SubQuestionOps(entry.content, entry.depth + 1, subs), Mark(entry.content, Decomposed);
      var t := ApplyAll(s, ops, words);
      TotalSubQuestions(s, entry.content, entry.depth + 1, subs, maxDepth, words);
      ApplyAllConcat(s, ops, [last], words);
      ApplyOne(t, last, words);
      MarkDecomposed(t, entry.content, maxDepth, words);
      var w := TreeWeight(entry.depth + 1, maxDepth);
      assert |subs| * w <= 3 * w;
    }
  }

  lemma MarkDecomposed(s: StoreState, parent: string, maxDepth: nat, words: Words)
    ensures Total(Apply(s, Mark(parent, Decomposed), words).memories, maxDepth) <= Total(s.memories, maxDepth)
  {
    hide Total;
    TotalMark(s.memories, parent, Decomposed, maxDepth);
  }

  function VerdictOps(entry: Step, c: Choice): seq<Op> {
    [Judge(entry.content, c.verdict), Add(ExperimentStep(entry.content, c.note))]
  }

  lemma VerdictWeightless(s: StoreState, entry: Step, c: Choice, maxDepth: nat, words: Words)
    ensures AllWithin(VerdictOps(entry, c), 0) && RootsAll(s, VerdictOps(entry, c), words) == 0
  {
    hide Apply, FindMergeable;
    var ops := VerdictOps(entry, c);
    var t := Apply(s, ops[0], words);
    assert ops[1..] == [Add(ExperimentStep(entry.content, c.note))] && ops[1..][1..] == [];
    assert RootsAll(Apply(t, ops[1..][0], words), ops[1..][1..], words) == 0;
    assert RootsAll(t, ops[1..], words) == 0;
  }

  /** New roots brought in by the run inside a round. */
  function RoundRoots(s: StoreState, entry: Step, c: Choice, words: Words): nat {
    RootsAll(Opening(s, entry, c, words), c.run, words)
  }

  lemma {:induction false} SubQuestionsWithin(parent: string, depth: nat, questions: seq<string>, maxDepth: nat)
    requires depth <= maxDepth
    ensures AllWithin(SubQuestionOps(parent, depth, questions), maxDepth)
  {
    if questions != [] {
      SubQuestionsWithin(parent, depth, questions[1..], maxDepth);
    }
  }

  lemma DecomposeWithin(entry: Step, c: Choice, maxDepth: nat)
    ensures AllWithin(DecomposeOps(entry, c, maxDepth), maxDepth)
  {
    if DecomposeOps(entry, c, maxDepth) != [] {
      SubQuestionsWithin(entry.content, entry.depth + 1, FirstThree(c.subQuestions), maxDepth);
    }
  }

  lemma {:induction false} WithinDeeper(op: Op, maxDepth: nat)
    requires Within(op, 0)
    ensures Within(op, maxDepth)
    decreases op
  {
    if op.Batch? {
      forall i | 0 <= i < |op.body| ensures Within(op.body[i], maxDepth) { WithinDeeper(op.body[i], maxDepth); }
    }
  }

  lemma AllWithinDeeper(ops: seq<Op>, maxDepth: nat)
    requires AllWithin(ops, 0)
    ensures AllWithin(ops, maxDepth)
  {
    hide Within;
    forall i | 0 <= i < |ops| ensures Within(ops[i], maxDepth) { WithinDeeper(ops[i], maxDepth); }
  }

  /** One experiment on a reflection lowers the total by at least one, up to the new roots of its run. */
  lemma RoundLowersTotal(s: StoreState, entry: Step, c: Choice, maxDepth: nat, words: Words)
    requires entry in s.memories && LongQuestion(entry) && entry.status == Open && entry.stepKind == ReflectionStep
    requires AllWithin(c.run, 0)
    ensures Total(ApplyAll(s, RoundOps(entry, c, maxDepth), words).memories, maxDepth) + 1
            <= Total(s.memories, maxDepth) + RoundRoots(s, entry, c, words) * TreeWeight(0, maxDepth)
  {
    hide *;
    var s2, s3, s4 := RoundStages(s, entry, c, maxDepth, words);
    RoundOpening(s, entry, c, maxDepth, words);
    TotalApplyAll(s2, c.run, words, maxDepth);
    VerdictWeightless(s3, entry, c, maxDepth, words);
    TotalApplyAll(s3, VerdictOps(entry, c), words, maxDepth);
    TotalDecompose(s4, entry, c, maxDepth, words);
    OpenWeight(entry, maxDepth);
  }

  /** A round leaves its question settled. */
  lemma RoundSettles(s: StoreState, entry: Step, c: Choice, maxDepth: nat, words: Words)
    requires entry in s.memories && LongQuestion(entry) && Reflected(s.memories, maxDepth) && AllWithin(c.run, 0)
    requires entry.content != ""
    ensures Settled(ApplyAll(s, RoundOps(entry, c, maxDepth), words).memories, entry.kind, entry.content)
  {
    hide *;
    var s2, s3, s4 := RoundStages(s, entry, c, maxDepth, words);
    RoundOpeningSettles(s, entry, c, maxDepth, words);
    VerdictWeightless(s3, entry, c, maxDepth, words);
    DecomposeWithin(entry, c, maxDepth);
    QuestionKind(entry);
    ApplyAllKeepsSettled(s2, c.run, words, 0, entry.kind, entry.content);
    ApplyAllKeepsSettled(s3, VerdictOps(entry, c), words, 0, entry.kind, entry.content);
    ApplyAllKeepsSettled(s4, DecomposeOps(entry, c, maxDepth), words, maxDepth, entry.kind, entry.content);
  }

  lemma RoundWithin(entry: Step, c: Choice, maxDepth: nat)
    requires AllWithin(c.run, 0)
    ensures AllWithin(RoundOps(entry, c, maxDepth), maxDepth)
  {
    hide Within, DecomposeOps;
    AllWithinDeeper(c.run, maxDepth);
    DecomposeWithin(entry, c, maxDepth);
    FixedOpsWithin(entry, c, maxDepth);
  }

  lemma FixedOpsWithin(entry: Step, c: Choice, maxDepth: nat)
    ensures Within(Mark(entry.content, Testing), maxDepth) && Within(Judge(entry.content, c.verdict), maxDepth)
    ensures Within(Add(ExperimentStep(entry.content, c.note)), maxDepth)
    ensures AllWithin(ConjectureOps(entry.content, c.conjecture), maxDepth)
  {
  }

  lemma OpenWeight(entry: Step, maxDepth: nat)
    requires LongQuestion(entry) && entry.status == Open
    ensures Weight(entry, maxDepth) == TreeWeight(entry.depth, maxDepth)
  {
  }

  lemma QuestionKind(entry: Step)
    requires LongQuestion(entry)
    ensures IsQuestion(entry.kind)
  {
  }

  lemma RoundStages(s: StoreState, entry: Step, c: Choice, maxDepth: nat, words: Words)
    returns (s2: StoreState, s3: StoreState, s4: StoreState)
    ensures s2 == Opening(s, entry, c, words)
    ensures s3 == ApplyAll(s2, c.run, words)
    ensures s4 == ApplyAll(s3, VerdictOps(entry, c), words)
    ensures ApplyAll(s, RoundOps(entry, c, maxDepth), words) == ApplyAll(s4, DecomposeOps(entry, c, maxDepth), words)
    ensures RoundRoots(s, entry, c, words) == RootsAll(s2, c.run, words)
  {
    hide Apply, ApplyAll, DecomposeOps, RootsAll, ConjectureOps;
    var a, b := ConjectureOps(entry.content, c.conjecture), [Mark(entry.content, Testing)];
    var d := VerdictOps(entry, c);
    var s1 := ApplyAll(s, a, words);
    s2 := Apply(s1, b[0], words);
    s3 := ApplyAll(s2, c.run, words);
    s4 := ApplyAll(s3, d, words);
    ApplyOne(s1, b[0], words);
    ApplyAllConcat(s, a, b, words);
    ApplyAllConcat(s, a + b, c.run, words);
    ApplyAllConcat(s, a + b + c.run, d, words);
    ApplyAllConcat(s, a + b + c.run + d, DecomposeOps(entry, c, maxDepth), words);
  }

  // ---- Any number of cycles, with anything in between ----

  datatype Phase = Explore(choices: seq<Choice>) | Elsewhere(op: Op)

  ghost predicate LawfulPhase(p: Phase) {
    match p
    case Explore(choices) => forall i :: 0 <= i < |choices| ==> AllWithin(choices[i].run, 0)
    case Elsewhere(op) => Within(op, 0)
  }

  function CycleRoots(s: StoreState, choices: seq<Choice>, cfg: Config, words: Words): nat
    decreases choices
  {
    var candidates := OpenCandidates(s.memories);
    if choices == [] || candidates == [] || |candidates| < cfg.minOpen then 0
    else
      RoundRoots(s, candidates[0], choices[0], words)
      + CycleRoots(ApplyAll(s, RoundOps(candidates[0], choices[0], cfg.maxDepth), words), choices[1..], cfg, words)
  }

  /** The state after some phases and the entries explored, in order. */
  function Evolve(s: StoreState, phases: seq<Phase>, cfg: Config, words: Words): (StoreState, seq<Step>)
    decreases phases
  {
    if phases == [] then (s, [])
    else
      match phases[0]
      case Elsewhere(op) => Evolve(Apply(s, op, words), phases[1..], cfg, words)
      case Explore(choices) =>
        var (t, explored) := Cycle(s, choices, cfg, words);
        var (u, more) := Evolve(t, phases[1..], cfg, words);
        (u, explored + more)
  }

  /** Depth-0 questions and contradictions that entered the store outside decomposition. */
  function RootsAdded(s: StoreState, phases: seq<Phase>, cfg: Config, words: Words): nat
    decreases phases
  {
    if phases == [] then 0
    else
      match phases[0]
      case Elsewhere(op) => Roots(s, op, words) + RootsAdded(Apply(s, op, words), phases[1..], cfg, words)
      case Explore(choices) =>
        CycleRoots(s, choices, cfg, words) + RootsAdded(Cycle(s, choices, cfg, words).0, phases[1..], cfg, words)
  }

  /** As long as every candidate is a reflection, a cycle's experiments are paid for by weight. */
  lemma {:induction false} CycleLowersTotal(s: StoreState, choices: seq<Choice>, cfg: Config, words: Words)
    requires ReflectedCandidates(s.memories) && LawfulPhase(Explore(choices))
    ensures var (t, explored) := Cycle(s, choices, cfg, words);
            && Total(t.memories, cfg.maxDepth) + |explored|
               <= Total(s.memories, cfg.maxDepth) + CycleRoots(s, choices, cfg, words) * TreeWeight(0, cfg.maxDepth)
            && ReflectedCandidates(t.memories)
    decreases choices
  {
    hide Total, OpenCandidates, ApplyAll, RoundOps, RoundRoots, TreeWeight, AllWithin;
    var candidates := OpenCandidates(s.memories);
    CandidatesAreOpen(s.memories);
    if choices != [] && candidates != [] && |candidates| >= cfg.minOpen {
      assert candidates[0] in candidates;
      var ops := RoundOps(candidates[0], choices[0], cfg.maxDepth);
      var t := ApplyAll(s, ops, words);
      RoundLowersTotal(s, candidates[0], choices[0], cfg.maxDepth, words);
      RoundWithin(candidates[0], choices[0], cfg.maxDepth);
      ApplyAllKeepsCandidates(s, ops, words, cfg.maxDepth);
      CycleLowersTotal(t, choices[1..], cfg, words);
      Distribute(RoundRoots(s, candidates[0], choices[0], words), CycleRoots(t, choices[1..], cfg, words),
          TreeWeight(0, cfg.maxDepth));
    }
  }

  lemma {:induction false} CycleKeepsReflected(s: StoreState, choices: seq<Choice>, cfg: Config, words: Words)
    requires Reflected(s.memories, cfg.maxDepth) && LawfulPhase(Explore(choices))
    ensures Reflected(Cycle(s, choices, cfg, words).0.memories, cfg.maxDepth)
    decreases choices
  {
    hide Reflected, OpenCandidates, ApplyAll, RoundOps, AllWithin;
    var candidates := OpenCandidates(s.memories);
    if choices != [] && candidates != [] && |candidates| >= cfg.minOpen {
      var ops := RoundOps(candidates[0], choices[0], cfg.maxDepth);
      RoundWithin(candidates[0], choices[0], cfg.maxDepth);
      ApplyAllKeepsReflected(s, ops, words, cfg.maxDepth);
      CycleKeepsReflected(ApplyAll(s, ops, words), choices[1..], cfg, words);
    }
  }

  lemma Distribute(a: nat, b: nat, w: nat)
    ensures (a + b) * w == a * w + b * w
  {
  }

  ghost predicate LawfulPhases(phases: seq<Phase>) {
    forall i :: 0 <= i < |phases| ==> LawfulPhase(phases[i])
  }

  lemma {:induction false} EvolveLowersTotal(s: StoreState, phases: seq<Phase>, cfg: Config, words: Words)
    requires ReflectedCandidates(s.memories) && LawfulPhases(phases)
    ensures var (t, explored) := Evolve(s, phases, cfg, words);
            Total(t.memories, cfg.maxDepth) + |explored|
            <= Total(s.memories, cfg.maxDepth) + RootsAdded(s, phases, cfg, words) * TreeWeight(0, cfg.maxDepth)
    decreases phases
  {
    hide Total, ReflectedCandidates, ApplyAll, Apply, Cycle, Roots, CycleRoots, TreeWeight, Within;
    if phases != [] {
      var w := TreeWeight(0, cfg.maxDepth);
      assert LawfulPhase(phases[0]);
      match phases[0]
      case Elsewhere(op) =>
        TotalApply(s, op, words, cfg.maxDepth);
        ApplyOne(s, op, words);
        ApplyAllKeepsCandidates(s, [op], words, 0);
        EvolveLowersTotal(Apply(s, op, words), phases[1..], cfg, words);
        Distribute(Roots(s, op, words), RootsAdded(Apply(s, op, words), phases[1..], cfg, words), w);
      case Explore(choices) =>
        var t := Cycle(s, choices, cfg, words).0;
        CycleLowersTotal(s, choices, cfg, words);
        EvolveLowersTotal(t, phases[1..], cfg, words);
        Distribute(CycleRoots(s, choices, cfg, words), RootsAdded(t, phases[1..], cfg, words), w);
    }
  }

  lemma {:induction false} EvolveKeepsReflected(s: StoreState, phases: seq<Phase>, cfg: Config, words: Words)
    requires Reflected(s.memories, cfg.maxDepth) && LawfulPhases(phases)
    ensures Reflected(Evolve(s, phases, cfg, words).0.memories, cfg.maxDepth)
    decreases phases
  {
    hide Reflected, Apply, Cycle, Within, AllWithin;
    if phases != [] {
      assert LawfulPhase(phases[0]);
      match phases[0]
      case Elsewhere(op) =>
        WithinDeeper(op, cfg.maxDepth);
        ApplyKeepsReflected(s, op, words, cfg.maxDepth);
        EvolveKeepsReflected(Apply(s, op, words), phases[1..], cfg, words);
      case Explore(choices) =>
        CycleKeepsReflected(s, choices, cfg, words);
        EvolveKeepsReflected(Cycle(s, choices, cfg, words).0, phases[1..], cfg, words);
    }
  }

  /** From an empty store, over any number of cycles and anything else happening in between, the
      experiments run are at most (3^(D+1) - 1) / 2 per depth-0 question ever added, and no question
      lies deeper than D. */
  lemma EvolutionBound(phases: seq<Phase>, cfg: Config, words: Words)
    requires LawfulPhases(phases)
    ensures var s := StoreState([], 0, None); var (t, explored) := Evolve(s, phases, cfg, words);
            && 2 * |explored| <= (Pow3(cfg.maxDepth + 1) - 1) * RootsAdded(s, phases, cfg, words)
            && (forall m :: m in t.memories && LongQuestion(m) ==> m.depth <= cfg.maxDepth)
  {
    hide Evolve, RootsAdded, LawfulPhases, Pow3, TreeWeight, OpenCandidates;
    var s := StoreState([], 0, None);
    NoCandidates();
    EvolveLowersTotal(s, phases, cfg, words);
    EvolveKeepsReflected(s, phases, cfg, words);
    TreeWeightClosed(0, cfg.maxDepth);
    var r, w := RootsAdded(s, phases, cfg, words), TreeWeight(0, cfg.maxDepth);
    TwiceProduct(r, w);
  }

  lemma NoCandidates()
    ensures OpenCandidates([]) == []
  {
  }

  lemma TwiceProduct(r: nat, w: nat)
    ensures 2 * (r * w) == (2 * w) * r
  {
  }

  /** At the default depth bound of 2 a root costs at most 13 experiments. */
  lemma ThirteenPerRoot()
    ensures TreeWeight(0, 2) == 13
  {
    TreeWeightClosed(0, 2);
    assert Pow3(3) == 27;
  }

  // ---- No question is explored twice ----

  lemma {:induction false} CycleKeepsSettled(
      s: StoreState, choices: seq<Choice>, cfg: Config, words: Words, kind: string, content: string)
    requires LawfulPhase(Explore(choices)) && Settled(s.memories, kind, content) && IsQuestion(kind) && content != ""
    ensures var (t, explored) := Cycle(s, choices, cfg, words);
            && Settled(t.memories, kind, content)
            && (forall m :: m in explored ==> !(m.kind == kind && m.content == content))
    decreases choices
  {
    hide OpenCandidates, ApplyAll, RoundOps, AllWithin;
    var candidates := OpenCandidates(s.memories);
    CandidatesAreOpen(s.memories);
    if choices != [] && candidates != [] && |candidates| >= cfg.minOpen {
      var entry := candidates[0];
      assert entry in candidates;
      assert !HasKey(entry, kind, content);
      var ops := RoundOps(entry, choices[0], cfg.maxDepth);
      RoundWithin(entry, choices[0], cfg.maxDepth);
      ApplyAllKeepsSettled(s, ops, words, cfg.maxDepth, kind, content);
      CycleKeepsSettled(ApplyAll(s, ops, words), choices[1..], cfg, words, kind, content);
    }
  }

  predicate SameQuestion(a: Step, b: Step) {
    a.kind == b.kind && a.content == b.content != ""
  }

  predicate NoRepeats(explored: seq<Step>) {
    forall i, j :: 0 <= i < j < |explored| ==> !SameQuestion(explored[i], explored[j])
  }

  lemma {:induction false} CycleNeverRepeats(s: StoreState, choices: seq<Choice>, cfg: Config, words: Words)
    requires Reflected(s.memories, cfg.maxDepth) && LawfulPhase(Explore(choices))
    ensures var (t, explored) := Cycle(s, choices, cfg, words);
            && NoRepeats(explored)
            && (forall m :: m in explored && m.content != "" ==>
                  IsQuestion(m.kind) && Settled(t.memories, m.kind, m.content))
    decreases choices
  {
    hide Reflected, OpenCandidates, ApplyAll, RoundOps, AllWithin, Settled, LongQuestion;
    var candidates := OpenCandidates(s.memories);
    CandidatesAreOpen(s.memories);
    if choices != [] && candidates != [] && |candidates| >= cfg.minOpen {
      var entry := candidates[0];
      assert entry in candidates;
      QuestionKind(entry);
      var t := ApplyAll(s, RoundOps(entry, choices[0], cfg.maxDepth), words);
      RoundWithin(entry, choices[0], cfg.maxDepth);
      ApplyAllKeepsReflected(s, RoundOps(entry, choices[0], cfg.maxDepth), words, cfg.maxDepth);
      CycleNeverRepeats(t, choices[1..], cfg, words);
      if entry.content != "" {
        RoundSettles(s, entry, choices[0], cfg.maxDepth, words);
        CycleKeepsSettled(t, choices[1..], cfg, words, entry.kind, entry.content);
      }
      var more := Cycle(t, choices[1..], cfg, words).1;
      forall j | 0 <= j < |more| ensures !SameQuestion(entry, more[j]) { assert more[j] in more; }
    }
  }

  lemma {:induction false} EvolveKeepsSettled(
      s: StoreState, phases: seq<Phase>, cfg: Config, words: Words, kind: string, content: string)
    requires LawfulPhases(phases) && Settled(s.memories, kind, content) && IsQuestion(kind) && content != ""
    ensures var (t, explored) := Evolve(s, phases, cfg, words);
            && Settled(t.memories, kind, content)
            && (forall m :: m in explored ==> !(m.kind == kind && m.content == content))
    decreases phases
  {
    hide Settled, Apply, Cycle, Within, AllWithin;
    if phases != [] {
      assert LawfulPhase(phases[0]);
      match phases[0]
      case Elsewhere(op) =>
        ApplyKeepsSettled(s, op, words, 0, kind, content);
        EvolveKeepsSettled(Apply(s, op, words), phases[1..], cfg, words, kind, content);
      case Explore(choices) =>
        CycleKeepsSettled(s, choices, cfg, words, kind, content);
        EvolveKeepsSettled(Cycle(s, choices, cfg, words).0, phases[1..], cfg, words, kind, content);
    }
  }

  /** Over a whole life, no question or contradiction with a non-empty content is explored twice. */
  lemma {:induction false} EvolveNeverRepeats(s: StoreState, phases: seq<Phase>, cfg: Config, words: Words)
    requires Reflected(s.memories, cfg.maxDepth) && LawfulPhases(phases)
    ensures NoRepeats(Evolve(s, phases, cfg, words).1)
    decreases phases
  {
    hide Reflected, Settled, Apply, Cycle, Within, AllWithin;
    if phases != [] {
      assert LawfulPhase(phases[0]);
      match phases[0]
      case Elsewhere(op) =>
        WithinDeeper(op, cfg.maxDepth);
        ApplyKeepsReflected(s, op, words, cfg.maxDepth);
        EvolveNeverRepeats(Apply(s, op, words), phases[1..], cfg, words);
        assert Evolve(s, phases, cfg, words) == Evolve(Apply(s, op, words), phases[1..], cfg, words);
      case Explore(choices) =>
        var (t, explored) := Cycle(s, choices, cfg, words);
        var more := Evolve(t, phases[1..], cfg, words).1;
        assert Evolve(s, phases, cfg, words).1 == explored + more;
        CycleKeepsReflected(s, choices, cfg, words);
        CycleNeverRepeats(s, choices, cfg, words);
        EvolveNeverRepeats(t, phases[1..], cfg, words);
        forall m, n | m in explored && m.content != "" && n in more
          ensures !(n.kind == m.kind && n.content == m.content)
        {
          EvolveKeepsSettled(t, phases[1..], cfg, words, m.kind, m.content);
        }
        AcrossSplit(explored, more);
    }
  }

  lemma AcrossSplit(a: seq<Step>, b: seq<Step>)
    requires NoRepeats(a) && NoRepeats(b)
    requires forall m, n :: m in a && m.content != "" && n in b ==> !(n.kind == m.kind && n.content == m.content)
    ensures NoRepeats(a + b)
  {
    forall i, j | 0 <= i < j < |a + b| ensures !SameQuestion((a + b)[i], (a + b)[j]) {
      if i < |a| <= j {
        assert a[i] in a && b[j - |a|] in b;
      }
    }
  }

  // ---- When the experiments are bounded at all ----

  /** A round that designs no conjecture, whose run stores nothing and whose verdict is "supported". */
  function IdleChoice(note: string): Choice {
    Choice("", [], Supported, note, [])
  }

  /** Cycles of one idle round each. */
  function IdlePhases(notes: seq<string>): seq<Phase> {
    if notes == [] then [] else [Explore([IdleChoice(notes[0])])] + IdlePhases(notes[1..])
  }

  lemma IdleRoundKeepsPlain(s: StoreState, entry: Step, note: string, maxDepth: nat, words: Words)
    requires !ReflectedCandidates(s.memories)
    ensures !ReflectedCandidates(ApplyAll(s, RoundOps(entry, IdleChoice(note), maxDepth), words).memories)
  {
    hide ReflectedCandidates, WindowReflected, Apply, ApplyAll, RoundOps, Filter, OfKind, IsQuestion;
    var t := ApplyAll(s, RoundOps(entry, IdleChoice(note), maxDepth), words);
    CandidatesByWindow(s.memories);
    CandidatesByWindow(t.memories);
    var kind :| IsQuestion(kind) && !WindowReflected(Filter(s.memories, OfKind(kind)));
    var s2, s3, s4 := RoundStages(s, entry, IdleChoice(note), maxDepth, words);
    IdleStages(s, s2, s3, s4, entry, note, maxDepth, words);
    var s1 := Apply(s2, Judge(entry.content, Supported), words);
    MarkKeepsPlain(s, entry.content, Testing, words, kind);
    JudgeKeepsPlain(s2, entry.content, words, kind);
    RecordKeepsPlain(s1, ExperimentStep(entry.content, note), words, kind);
  }

  lemma IdleStages(s: StoreState, s2: StoreState, s3: StoreState, s4: StoreState, entry: Step, note: string,
                   maxDepth: nat, words: Words)
    requires s3 == ApplyAll(s2, IdleChoice(note).run, words)
    requires s4 == ApplyAll(s3, VerdictOps(entry, IdleChoice(note)), words)
    ensures ApplyAll(s, ConjectureOps(entry.content, IdleChoice(note).conjecture), words) == s
    ensures s3 == s2
    ensures var s1 := Apply(s2, Judge(entry.content, Supported), words);
            s4 == Apply(s1, Add(ExperimentStep(entry.content, note)), words)
    ensures ApplyAll(s4, DecomposeOps(entry, IdleChoice(note), maxDepth), words) == s4
  {
    hide Apply;
    var record := Add(ExperimentStep(entry.content, note));
    assert VerdictOps(entry, IdleChoice(note))[1..] == [record];
    ApplyOne(Apply(s2, Judge(entry.content, Supported), words), record, words);
  }

  lemma MarkKeepsPlain(s: StoreState, hypothesis: string, status: Status, words: Words, kind: string)
    requires status != Open && !WindowReflected(Filter(s.memories, OfKind(kind)))
    ensures !WindowReflected(Filter(Apply(s, Mark(hypothesis, status), words).memories, OfKind(kind)))
  {
    hide WindowReflected, Filter, OfKind;
    var ns := SetStatus(s.memories, hypothesis, status);
    InPlaceFollows(s.memories, ns, kind);
    FollowsKeepsPlain(Filter(s.memories, OfKind(kind)), Filter(ns, OfKind(kind)));
  }

  lemma JudgeKeepsPlain(s: StoreState, question: string, words: Words, kind: string)
    requires !WindowReflected(Filter(s.memories, OfKind(kind)))
    ensures !WindowReflected(Filter(Apply(s, Judge(question, Supported), words).memories, OfKind(kind)))
  {
    hide WindowReflected, Filter, OfKind;
    var ns := JudgeAll(s.memories, question, Supported);
    InPlaceFollows(s.memories, ns, kind);
    FollowsKeepsPlain(Filter(s.memories, OfKind(kind)), Filter(ns, OfKind(kind)));
  }

  lemma RecordKeepsPlain(s: StoreState, record: Step, words: Words, kind: string)
    requires IsQuestion(kind) && record.kind == "experiment" && !WindowReflected(Filter(s.memories, OfKind(kind)))
    ensures !WindowReflected(Filter(Apply(s, Add(record), words).memories, OfKind(kind)))
  {
    hide WindowReflected, Filter, OfKind, Added;
    AddFollows(record, s.memories, words, kind);
    FollowsKeepsPlain(Filter(s.memories, OfKind(kind)), Filter(Added(record, s.memories, words), OfKind(kind)));
  }

  /** A candidate stored as a plain memory has no status to set: cycle after cycle runs an experiment,
      though nothing new is asked. */
  lemma {:induction false} PlainMemoryIsExploredForever(s: StoreState, notes: seq<string>, cfg: Config, words: Words)
    requires !ReflectedCandidates(s.memories) && cfg.minOpen <= 1
    ensures LawfulPhases(IdlePhases(notes)) && RootsAdded(s, IdlePhases(notes), cfg, words) == 0
    ensures |Evolve(s, IdlePhases(notes), cfg, words).1| == |notes|
    decreases notes
  {
    hide OpenCandidates, ApplyAll, RoundOps, RoundRoots;
    if notes != [] {
      var phases, choices := IdlePhases(notes), [IdleChoice(notes[0])];
      assert phases[0] == Explore(choices) && phases[1..] == IdlePhases(notes[1..]) && choices[1..] == [];
      var entry := OpenCandidates(s.memories)[0];
      var t := ApplyAll(s, RoundOps(entry, choices[0], cfg.maxDepth), words);
      CycleOfOne(s, choices[0], cfg, words);
      IdleAddsNoRoots(s, entry, notes[0], words);
      IdleRoundKeepsPlain(s, entry, notes[0], cfg.maxDepth, words);
      PlainMemoryIsExploredForever(t, notes[1..], cfg, words);
    }
  }

  lemma CycleOfOne(s: StoreState, c: Choice, cfg: Config, words: Words)
    requires OpenCandidates(s.memories) != [] && |OpenCandidates(s.memories)| >= cfg.minOpen
    ensures var entry := OpenCandidates(s.memories)[0];
            && Cycle(s, [c], cfg, words) == (ApplyAll(s, RoundOps(entry, c, cfg.maxDepth), words), [entry])
            && CycleRoots(s, [c], cfg, words) == RoundRoots(s, entry, c, words)
  {
    hide OpenCandidates, ApplyAll, RoundOps, RoundRoots;
    var t, choices := ApplyAll(s, RoundOps(OpenCandidates(s.memories)[0], c, cfg.maxDepth), words), [c];
    assert choices[0] == c && choices[1..] == [];
    var entry := OpenCandidates(s.memories)[0];
    assert Cycle(t, choices[1..], cfg, words) == (t, []) && CycleRoots(t, choices[1..], cfg, words) == 0;
    assert [entry] + [] == [entry];
    assert Cycle(s, choices, cfg, words) == (t, [entry]);
    assert CycleRoots(s, choices, cfg, words) == RoundRoots(s, entry, c, words);
  }

  lemma IdleAddsNoRoots(s: StoreState, entry: Step, note: string, words: Words)
    ensures RoundRoots(s, entry, IdleChoice(note), words) == 0
  {
    hide Apply, ApplyAll, ConjectureOps;
  }

  /** No run without new roots, whatever happens in it, explores more than `bound` entries. */
  ghost predicate BoundedBy(s: StoreState, cfg: Config, words: Words, bound: nat) {
    forall phases :: LawfulPhases(phases) && RootsAdded(s, phases, cfg, words) == 0 ==>
      |Evolve(s, phases, cfg, words).1| <= bound
  }

  /** Self-evolution converges once nothing new is asked exactly when every candidate is a reflection. */
  lemma ConvergesIff(s: StoreState, cfg: Config, words: Words)
    requires cfg.minOpen <= 1
    ensures ReflectedCandidates(s.memories) <==> exists bound: nat :: BoundedBy(s, cfg, words, bound)
  {
    hide ReflectedCandidates, Evolve, RootsAdded, LawfulPhases, Total, TreeWeight;
    if ReflectedCandidates(s.memories) {
      ReflectedIsBounded(s, cfg, words);
    } else {
      forall bound: nat ensures !BoundedBy(s, cfg, words, bound) {
        var notes := seq(bound + 1, i => "");
        PlainMemoryIsExploredForever(s, notes, cfg, words);
      }
    }
  }

  lemma ReflectedIsBounded(s: StoreState, cfg: Config, words: Words)
    requires ReflectedCandidates(s.memories)
    ensures BoundedBy(s, cfg, words, Total(s.memories, cfg.maxDepth))
  {
    hide ReflectedCandidates, Evolve, RootsAdded, LawfulPhases, Total, TreeWeight;
    forall phases | LawfulPhases(phases) && RootsAdded(s, phases, cfg, words) == 0
      ensures |Evolve(s, phases, cfg, words).1| <= Total(s.memories, cfg.maxDepth)
    {
      EvolveLowersTotal(s, phases, cfg, words);
    }
  }
}
