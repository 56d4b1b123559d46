/** The evidence ledger: what a stored conjecture's credibility and counters say is exactly the
    history of verdicts on its question. */
module Ledger {
  import opened Candidates
  import opened Evolution
  import opened EvolutionTheorems
  import opened Lists
  import opened Memory
  import opened MemoryTheorems
  import opened Text

  function IsConjecture(): Step -> bool {
    (m: Step) => m.kind == "conjecture" && m.scope == LongTerm
  }

  function Conjectures(ms: seq<Step>): seq<Step> {
    Filter(ms, IsConjecture())
  }

  // ---- The reference: folding verdicts ----

  /** The verdicts on `question` among the operations, in order. */
  function VerdictsOn(op: Op, question: string): seq<Verdict>
    decreases op, 1
  {
    match op
    case Judge(q, v) => if q == question then [v] else []
    case Batch(body) => AllVerdictsOn(body, question)
    case _ => []
  }

  function AllVerdictsOn(ops: seq<Op>, question: string): seq<Verdict>
    decreases ops, 0
  {
    if ops == [] then [] else VerdictsOn(ops[0], question) + AllVerdictsOn(ops[1..], question)
  }

  /** What one verdict makes of a credibility: support adds a fifth, refutation takes three tenths, and the
      result stays between 0 and 1. */
  function Weighed(c: real, v: Verdict): real {
    match v
    case Supported => if c + 0.2 < 0.0 then 0.0 else if c + 0.2 > 1.0 then 1.0 else c + 0.2
    case Refuted => if c - 0.3 < 0.0 then 0.0 else if c - 0.3 > 1.0 then 1.0 else c - 0.3
    case Inconclusive => c
  }

  function FoldCredibility(c: real, verdicts: seq<Verdict>): real
    decreases verdicts
  {
    if verdicts == [] then c else FoldCredibility(Weighed(c, verdicts[0]), verdicts[1..])
  }

  function Count(verdicts: seq<Verdict>, v: Verdict): nat {
    if verdicts == [] then 0 else (if verdicts[0] == v then 1 else 0) + Count(verdicts[1..], v)
  }

  /** The conjecture after these verdicts on its question, and nothing else. */
  function After(m: Step, verdicts: seq<Verdict>): Step {
    m.(credibility := FoldCredibility(m.credibility, verdicts),
       supported := m.supported + Count(verdicts, Supported),
       refuted := m.refuted + Count(verdicts, Refuted))
  }

  lemma {:induction false} AfterConcat(m: Step, a: seq<Verdict>, b: seq<Verdict>)
    ensures After(After(m, a), b) == After(m, a + b)
    decreases a
  {
    if a == [] {
      assert a + b == b;
    } else {
      assert (a + b)[1..] == a[1..] + b;
      var once := After(m, [a[0]]);
      AfterSplit(m, a);
      AfterSplit(m, a + b);
      AfterConcat(once, a[1..], b);
    }
  }

  lemma AfterSplit(m: Step, a: seq<Verdict>)
    requires a != []
    ensures After(m, a) == After(After(m, [a[0]]), a[1..])
  {
    AfterOne(m, a[0]);
  }

  lemma AfterOne(m: Step, v: Verdict)
    ensures After(m, [v]) ==
            m.(credibility := Weighed(m.credibility, v),
               supported := m.supported + (if v == Supported then 1 else 0),
               refuted := m.refuted + (if v == Refuted then 1 else 0))
  {
    hide Weighed;
    var one, none: seq<Verdict> := [v], [];
    assert one[1..] == none;
    assert Count(none, Supported) == 0 && Count(none, Refuted) == 0;
    var next := Weighed(m.credibility, v);
    assert FoldCredibility(m.credibility, one) == FoldCredibility(next, none) == next;
  }

  // ---- What each operation does to the conjectures ----

  /** `after` holds the conjectures of `before`, each moved by its own verdicts, and maybe newer ones. */
  ghost predicate Moved(before: seq<Step>, after: seq<Step>, op: Op) {
    && |before| <= |after|
    && forall i :: 0 <= i < |before| ==> after[i] == After(before[i], VerdictsOn(op, before[i].relation))
  }

  lemma {:induction false} InPlaceMoves(ms: seq<Step>, ns: seq<Step>, op: Op)
    requires |ms| == |ns|
    requires forall i :: 0 <= i < |ms| ==> (IsConjecture()(ms[i]) <==> IsConjecture()(ns[i]))
    requires forall i :: 0 <= i < |ms| && IsConjecture()(ms[i]) ==>
             ns[i] == After(ms[i], VerdictsOn(op, ms[i].relation))
    ensures Moved(Conjectures(ms), Conjectures(ns), op)
    ensures |Conjectures(ms)| == |Conjectures(ns)|
  {
    hide After, VerdictsOn, Filter, IsConjecture;
    FilterHead(ms, IsConjecture());
    FilterHead(ns, IsConjecture());
    if ms != [] {
      assert ms[0] == ms[..1][0];
      InPlaceMoves(ms[1..], ns[1..], op);
    }
  }

  lemma AppendMoves(ms: seq<Step>, more: seq<Step>, op: Op)
    requires !op.Judge? && !op.Batch?
    ensures Moved(Conjectures(ms), Conjectures(ms + more), op)
  {
    FilterConcat(ms, more, IsConjecture());
    forall m: Step ensures After(m, []) == m {}
  }

  lemma {:induction false} RemovalMoves(ms: seq<Step>, n: nat, p: Step -> bool, more: seq<Step>, op: Op)
    requires !op.Judge? && !op.Batch?
    requires forall m :: p(m) ==> m.scope == ShortTerm
    ensures Moved(Conjectures(ms), Conjectures(RemoveFirst(ms, n, p) + more), op)
  {
    RemoveFirstOthers(ms, n, p, IsConjecture());
    AppendMoves(RemoveFirst(ms, n, p), more, op);
  }

  lemma AddMoves(m: Step, ms: seq<Step>, words: Words)
    ensures Moved(Conjectures(ms), Conjectures(Added(m, ms, words)), Add(m))
  {
    hide FindMergeable, Conjectures;
    FindMergeableSound(m, ms, words);
    match FindMergeable(m, ms, words)
    case None => AppendMoves(ms, [m], Add(m));
    case Some(k) =>
      forall e: Step ensures After(e, []) == e {}
      InPlaceMoves(ms, ms[k := Corroborated(ms[k])], Add(m));
  }

  lemma CompactMoves(ms: seq<Step>, tag: Option<string>, limits: Limits, summary: string, words: Words)
    ensures Moved(Conjectures(ms), Conjectures(Compacted(ms, tag, limits, summary, words)),
            Compact(tag, limits, summary))
  {
    hide Filter, RemoveFirst, Added, SummaryText, Keep, Conjectures;
    var op := Compact(tag, limits, summary);
    var candidates := Filter(ms, Candidate(tag));
    if Keep(candidates, limits).Some? {
      var keep := Keep(candidates, limits).value;
      var n := if keep <= |candidates| then |candidates| - keep else 0;
      var text := SummaryText(summary, candidates[..n]);
      SummaryIsAppended(tag, text, RemoveFirst(ms, n, Candidate(tag)), words);
      RemovalMoves(ms, n, Candidate(tag), [SummaryStep(tag, text)], op);
    } else {
      AppendMoves(ms, [], op);
      assert ms + [] == ms;
    }
  }

  lemma PruneMoves(ms: seq<Step>, tag: string, keepLast: int)
    ensures Moved(Conjectures(ms), Conjectures(Pruned(ms, Some(ShortTerm), tag, keepLast)),
            Prune(Some(ShortTerm), tag, keepLast))
  {
    hide Filter, RemoveFirst, Conjectures;
    var p := PruneFilter(Some(ShortTerm), tag);
    var n := PruneCount(|Filter(ms, p)|, keepLast);
    RemovalMoves(ms, n, p, [], Prune(Some(ShortTerm), tag, keepLast));
    assert RemoveFirst(ms, n, p) + [] == RemoveFirst(ms, n, p);
  }

  lemma JudgeMoves(ms: seq<Step>, question: string, verdict: Verdict)
    ensures Moved(Conjectures(ms), Conjectures(JudgeAll(ms, question, verdict)), Judge(question, verdict))
  {
    hide Conjectures, After, Judged, IsConjecture, VerdictsOn;
    forall i | 0 <= i < |ms|
      ensures IsConjecture()(ms[i]) <==> IsConjecture()(Judged(ms[i], question, verdict))
      ensures IsConjecture()(ms[i]) ==>
        Judged(ms[i], question, verdict) == After(ms[i], VerdictsOn(Judge(question, verdict), ms[i].relation))
    {
      JudgedMoves(ms[i], question, verdict);
    }
    InPlaceMoves(ms, JudgeAll(ms, question, verdict), Judge(question, verdict));
  }

  lemma JudgedMoves(m: Step, question: string, verdict: Verdict)
    ensures IsConjecture()(m) <==> IsConjecture()(Judged(m, question, verdict))
    ensures IsConjecture()(m) ==>
      Judged(m, question, verdict) == After(m, VerdictsOn(Judge(question, verdict), m.relation))
  {
    hide After;
    AfterOne(m, verdict);
    AfterNone(m);
  }

  lemma AfterNone(m: Step)
    ensures After(m, []) == m
  {
  }

  lemma MarkMoves(ms: seq<Step>, hypothesis: string, status: Status)
    ensures Moved(Conjectures(ms), Conjectures(SetStatus(ms, hypothesis, status)), Mark(hypothesis, status))
  {
    hide Conjectures;
    assert "conjecture"[3] != "contradiction"[3] && "conjecture"[0] != "question"[0];
    InPlaceMoves(ms, SetStatus(ms, hypothesis, status), Mark(hypothesis, status));
  }

  lemma BelieveMoves(ms: seq<Step>, chosen: set<nat>, supports: bool)
    ensures Moved(Conjectures(ms), Conjectures(BelieveAll(ms, chosen, supports)), Believe(chosen, supports))
  {
    hide Conjectures;
    InPlaceMoves(ms, BelieveAll(ms, chosen, supports), Believe(chosen, supports));
  }

  lemma {:induction false} ApplyMoves(s: StoreState, op: Op, words: Words, deepest: nat)
    requires Within(op, deepest)
    ensures Moved(Conjectures(s.memories), Conjectures(Apply(s, op, words).memories), op)
    decreases op, 1
  {
    hide Moved, Conjectures, Added, Pruned, Compacted, Keep, CredibilityMoved, SetStatus, JudgeAll, BelieveAll;
    match op
    case Add(m) => AddMoves(m, s.memories, words);
    case AddSteps(steps) => AppendMoves(s.memories, steps, op);
    case Prune(scope, tag, keepLast) => PruneMoves(s.memories, tag, keepLast);
    case Compact(tag, limits, summary) => CompactApplied(s, tag, limits, summary, words);
    case Mark(hypothesis, status) => MarkMoves(s.memories, hypothesis, status);
    case Judge(question, verdict) =>
      JudgeMoves(s.memories, question, verdict);
      if verdict == Inconclusive { NothingJudged(s.memories, question); }
    case Believe(chosen, supports) => BelieveMoves(s.memories, chosen, supports);
    case Batch(body) => BatchMoves(s, body, words, deepest);
  }

  lemma NothingJudged(ms: seq<Step>, question: string)
    ensures JudgeAll(ms, question, Inconclusive) == ms
  {
  }

  lemma CompactApplied(s: StoreState, tag: Option<string>, limits: Limits, summary: string, words: Words)
    ensures var op := Compact(tag, limits, summary);
            Moved(Conjectures(s.memories), Conjectures(Apply(s, op, words).memories), op)
  {
    hide Moved, Conjectures, Keep, Added;
    CompactMoves(s.memories, tag, limits, summary, words);
  }

  lemma BatchMoves(s: StoreState, body: seq<Op>, words: Words, deepest: nat)
    requires AllWithin(body, deepest)
    ensures Moved(Conjectures(s.memories), Conjectures(Apply(s, Batch(body), words).memories), Batch(body))
    decreases body, 1
  {
    hide Conjectures, ApplyAll, AllVerdictsOn;
    CredibilityIsTheFold(s.(batchDepth := s.batchDepth + 1), body, words, deepest);
  }

  /** Over any sequence of operations (director rounds among them) each stored conjecture's
      credibility is the clamped fold of the verdicts on its question since it was stored, and its
      counters are the supported and refuted ones: no other channel touches a conjecture. */
  lemma {:induction false} CredibilityIsTheFold(s: StoreState, ops: seq<Op>, words: Words, deepest: nat)
    requires AllWithin(ops, deepest)
    ensures var before, after := Conjectures(s.memories), Conjectures(ApplyAll(s, ops, words).memories);
            && |before| <= |after|
            && forall i :: 0 <= i < |before| ==> after[i] == After(before[i], AllVerdictsOn(ops, before[i].relation))
    decreases ops, 0
  {
    hide Conjectures, Apply, VerdictsOn, Within, After;
    if ops == [] {
      forall m: Step ensures After(m, []) == m { AfterNone(m); }
    } else {
      var t := Apply(s, ops[0], words);
      ApplyMoves(s, ops[0], words, deepest);
      CredibilityIsTheFold(t, ops[1..], words, deepest);
      var before, mid := Conjectures(s.memories), Conjectures(t.memories);
      forall i | 0 <= i < |before|
        ensures Conjectures(ApplyAll(s, ops, words).memories)[i]
                  == After(before[i], AllVerdictsOn(ops, before[i].relation))
      {
        AfterKeepsRelation(before[i], VerdictsOn(ops[0], before[i].relation));
        AfterConcat(before[i], VerdictsOn(ops[0], before[i].relation), AllVerdictsOn(ops[1..], before[i].relation));
      }
    }
  }

  lemma AfterKeepsRelation(m: Step, verdicts: seq<Verdict>)
    ensures After(m, verdicts).relation == m.relation
  {
  }

  /** A conjecture the director records starts at 0.3 with empty counters; whatever follows, its
      entry is the fold of the verdicts on its question from then on. */
  lemma RecordedConjectureLedger(s: StoreState, question: string, conjecture: string, ops: seq<Op>, words: Words,
        deepest: nat)
    requires AllWithin(ops, deepest)
    ensures var start := Step(MemoryStep, "conjecture", LongTerm, ["conjecture"], conjecture, "", 0.3, Open, question,
                              0, 0, 0, "director");
            var recorded := Apply(s, Add(start), words);
            var k := |Conjectures(s.memories)|;
            var after := Conjectures(ApplyAll(recorded, ops, words).memories);
            var verdicts := AllVerdictsOn(ops, question);
            && k < |after|
            && after[k].credibility == FoldCredibility(0.3, verdicts)
            && after[k].supported == Count(verdicts, Supported) && after[k].refuted == Count(verdicts, Refuted)
  {
    hide Apply, ApplyAll, AllVerdictsOn, FoldCredibility, Count, Filter;
    var m := ConjectureStep(question, conjecture);
    ConjectureAdded(s, question, conjecture, words);
    FilterConcat(s.memories, [m], IsConjecture());
    FilterOne(m, IsConjecture());
    CredibilityIsTheFold(Apply(s, Add(m), words), ops, words, deepest);
  }
}
