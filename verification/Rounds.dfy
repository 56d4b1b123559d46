/** What one exploration round leaves in the store: the experiment, and sub-questions exactly when its
    verdict is inconclusive and there is depth left to go. */
module Rounds {
  import opened Candidates
  import opened Evolution
  import opened EvolutionTheorems
  import opened Gates
  import opened Lists
  import opened Memory
  import opened MemoryTheorems
  import opened StoreEffects
  import opened Text

  /** The store when the round's run is over: the conjecture is recorded (unless there is none, or it is the
      question itself), the question is marked as under test, and the run has done what it did. */
  function AfterRun(s: StoreState, entry: Step, c: Choice, words: Words): StoreState {
    var conjecture := Step(MemoryStep, "conjecture", LongTerm, ["conjecture"], c.conjecture, "", 0.3, Open,
                           entry.content, 0, 0, 0, "director");
    var recorded := if c.conjecture == "" || c.conjecture == entry.content then s else Apply(s, Add(conjecture), words);
    ApplyAll(Apply(recorded, Mark(entry.content, Testing), words), c.run, words)
  }

  lemma AfterRunIs(s: StoreState, entry: Step, c: Choice, words: Words)
    ensures AfterRun(s, entry, c, words) == ApplyAll(Opening(s, entry, c, words), c.run, words)
  {
    hide Apply;
    if c.conjecture != "" && c.conjecture != entry.content {
      ApplyOne(s, Add(ConjectureStep(entry.content, c.conjecture)), words);
    }
  }

  /** The question is stored as a sub-question of `parent`. */
  ghost predicate StoredUnder(ms: seq<Step>, q: string, parent: string, depth: nat, status: Status) {
    exists m :: m in ms && IsSub(m, q, parent, depth, status)
  }

  predicate IsSub(m: Step, q: string, parent: string, depth: nat, status: Status) {
    && m.stepKind == ReflectionStep && m.kind == "question" && m.scope == LongTerm && m.content == q
    && m.relation == parent && m.depth == depth && m.status == status
  }

  /** A reflection that asks this question, or notes this contradiction. */
  predicate Asks(m: Step, q: string) {
    m.stepKind == ReflectionStep && (m.kind == "question" || m.kind == "contradiction") && m.content == q
  }

  ghost predicate Stored(ms: seq<Step>, q: string) {
    exists m :: m in ms && HasKey(m, "question", q)
  }

  // ---- Adding sub-questions ----

  lemma AddStores(ms: seq<Step>, q: string, parent: string, depth: nat, words: Words)
    requires q != "" && !Stored(ms, q)
    ensures StoredUnder(Added(SubQuestionStep(parent, depth, q), ms, words), q, parent, depth, Open)
  {
    hide FindMergeable;
    var m := SubQuestionStep(parent, depth, q);
    FindMergeableSound(m, ms, words);
    assert forall i :: 0 <= i < |ms| && HasKey(ms[i], "question", q) ==> ms[i] in ms;
    assert m in ms + [m] && IsSub(m, q, parent, depth, Open);
  }

  lemma AddKeepsStored(m: Step, ms: seq<Step>, q: string, parent: string, depth: nat, words: Words)
    requires StoredUnder(ms, q, parent, depth, Open)
    ensures StoredUnder(Added(m, ms, words), q, parent, depth, Open)
  {
    hide FindMergeable;
    FindMergeableSound(m, ms, words);
    var x :| x in ms && IsSub(x, q, parent, depth, Open);
    var i :| 0 <= i < |ms| && ms[i] == x;
    var ns := Added(m, ms, words);
    assert ns[i] in ns && IsSub(ns[i], q, parent, depth, Open);
  }

  lemma OtherAddStoresNot(ms: seq<Step>, other: string, q: string, parent: string, depth: nat, words: Words)
    requires !Stored(ms, q) && other != q
    ensures !Stored(Added(SubQuestionStep(parent, depth, other), ms, words), q)
  {
    hide FindMergeable;
    var m := SubQuestionStep(parent, depth, other);
    FindMergeableSound(m, ms, words);
    var ns := Added(m, ms, words);
    forall x | x in ns ensures !HasKey(x, "question", q) {
      var i :| 0 <= i < |ns| && ns[i] == x;
      if i < |ms| { assert ms[i] in ms; }
    }
  }

  lemma {:induction false} SubQuestionsStay(
    s: StoreState, questions: seq<string>, q: string, parent: string, depth: nat, words: Words)
    requires StoredUnder(s.memories, q, parent, depth, Open)
    ensures StoredUnder(ApplyAll(s, SubQuestionOps(parent, depth, questions), words).memories, q, parent, depth, Open)
    decreases questions
  {
    hide StoredUnder, Added;
    if questions != [] {
      var m, ops := SubQuestionStep(parent, depth, questions[0]), SubQuestionOps(parent, depth, questions);
      assert ops[0] == Add(m) && ops[1..] == SubQuestionOps(parent, depth, questions[1..]);
      AddKeepsStored(m, s.memories, q, parent, depth, words);
      SubQuestionsStay(Apply(s, Add(m), words), questions[1..], q, parent, depth, words);
    }
  }

  lemma {:induction false} SubQuestionsStored(
    s: StoreState, questions: seq<string>, q: string, parent: string, depth: nat, words: Words)
    requires q in questions && q != "" && !Stored(s.memories, q)
    ensures StoredUnder(ApplyAll(s, SubQuestionOps(parent, depth, questions), words).memories, q, parent, depth, Open)
    decreases questions
  {
    hide StoredUnder, Stored, Added;
    var m, ops := SubQuestionStep(parent, depth, questions[0]), SubQuestionOps(parent, depth, questions);
    assert ops[0] == Add(m) && ops[1..] == SubQuestionOps(parent, depth, questions[1..]);
    if questions[0] == q {
      AddStores(s.memories, q, parent, depth, words);
      SubQuestionsStay(Apply(s, Add(m), words), questions[1..], q, parent, depth, words);
    } else {
      OtherAddStoresNot(s.memories, questions[0], q, parent, depth, words);
      SubQuestionsStored(Apply(s, Add(m), words), questions[1..], q, parent, depth, words);
    }
  }

  // ---- The verdict leaves questions alone ----

  lemma VerdictInKind(s: StoreState, entry: Step, c: Choice, words: Words, kind: string)
    requires IsQuestion(kind)
    ensures Filter(ApplyAll(s, VerdictOps(entry, c), words).memories, OfKind(kind)) == Filter(s.memories, OfKind(kind))
  {
    hide Apply, Filter, OfKind, IsQuestion;
    var record := ExperimentStep(entry.content, c.note);
    var t := Apply(s, Judge(entry.content, c.verdict), words);
    assert VerdictOps(entry, c)[1..] == [Add(record)];
    ApplyOne(t, Add(record), words);
    JudgeInKind(s, entry.content, c.verdict, words, kind);
    RecordInKind(t, record, words, kind);
  }

  lemma StoredByKind(ms: seq<Step>, q: string)
    ensures Stored(ms, q) <==> exists m :: m in Filter(ms, OfKind("question")) && m.content == q
  {
    FilterAll(ms, OfKind("question"));
    if Stored(ms, q) {
      var m :| m in ms && HasKey(m, "question", q);
      assert m in Filter(ms, OfKind("question"));
    }
  }

  // ---- What a round leaves ----

  /** The round explores the first candidate. */
  predicate Explores(s: StoreState, entry: Step, cfg: Config) {
    var candidates := OpenCandidates(s.memories);
    candidates != [] && |candidates| >= cfg.minOpen && entry == candidates[0]
  }

  /** On an inconclusive verdict above the depth bound the first three sub-questions are stored, open, one level
      deeper and related to their parent, unless they were stored before; and the parent is decomposed. */
  lemma InconclusiveSplits(s: StoreState, entry: Step, c: Choice, cfg: Config, words: Words)
    requires Explores(s, entry, cfg)
    requires c.verdict == Inconclusive && entry.depth < cfg.maxDepth && c.subQuestions != []
    ensures var before, (t, explored) := AfterRun(s, entry, c, words), Cycle(s, [c], cfg, words);
            && explored == [entry]
            && (forall i :: 0 <= i < 3 && i < |c.subQuestions| && c.subQuestions[i] != "" ==>
                  Stored(before.memories, c.subQuestions[i])
                  || StoredUnder(t.memories, c.subQuestions[i], entry.content, entry.depth + 1,
                                 if c.subQuestions[i] == entry.content then Decomposed else Open))
            && (forall m :: m in t.memories && Asks(m, entry.content) ==> m.status == Decomposed)
  {
    hide OpenCandidates, Apply, ApplyAll, RoundOps, VerdictOps, AfterRun, Stored, StoredUnder, SetStatus,
         SubQuestionOps;
    CycleOfOne(s, c, cfg, words);
    AfterRunIs(s, entry, c, words);
    var s2, s3, s4 := RoundStages(s, entry, c, cfg.maxDepth, words);
    var subs := FirstThree(c.subQuestions);
    var ops, last := SubQuestionOps(entry.content, entry.depth + 1, subs), Mark(entry.content, Decomposed);
    ApplyAllConcat(s4, ops, [last], words);
    var s5 := ApplyAll(s4, ops, words);
    ApplyOne(s5, last, words);
    MarkGives(s5, entry.content, words);
    forall i | 0 <= i < 3 && i < |c.subQuestions| && c.subQuestions[i] != "" && !Stored(s3.memories, c.subQuestions[i])
      ensures StoredUnder(Apply(s5, last, words).memories, c.subQuestions[i], entry.content, entry.depth + 1,
                          if c.subQuestions[i] == entry.content then Decomposed else Open)
    {
      var q := c.subQuestions[i];
      assert q == subs[i] && q in subs;
      VerdictStoresNot(s3, entry, c, words, q);
      SubQuestionsStored(s4, subs, q, entry.content, entry.depth + 1, words);
      MarkTurns(s5, q, entry.content, entry.depth + 1, words);
    }
  }

  lemma VerdictStoresNot(s: StoreState, entry: Step, c: Choice, words: Words, q: string)
    requires !Stored(s.memories, q)
    ensures !Stored(ApplyAll(s, VerdictOps(entry, c), words).memories, q)
  {
    hide ApplyAll, VerdictOps, Stored, Filter, OfKind;
    VerdictInKind(s, entry, c, words, "question");
    StoredByKind(s.memories, q);
    StoredByKind(ApplyAll(s, VerdictOps(entry, c), words).memories, q);
  }

  lemma MarkGives(s: StoreState, h: string, words: Words)
    ensures forall m :: m in Apply(s, Mark(h, Decomposed), words).memories && Asks(m, h) ==> m.status == Decomposed
  {
  }

  lemma MarkTurns(s: StoreState, q: string, parent: string, depth: nat, words: Words)
    requires StoredUnder(s.memories, q, parent, depth, Open)
    ensures StoredUnder(Apply(s, Mark(parent, Decomposed), words).memories, q, parent, depth,
                        if q == parent then Decomposed else Open)
  {
    var m :| m in s.memories && IsSub(m, q, parent, depth, Open);
    var i :| 0 <= i < |s.memories| && s.memories[i] == m;
    var ns := Apply(s, Mark(parent, Decomposed), words).memories;
    assert ns[i] in ns && IsSub(ns[i], q, parent, depth, if q == parent then Decomposed else Open);
  }

  /** On any other verdict, at the depth bound, or with nothing offered, the long-term questions and contradictions
      are exactly what they were when the run was over, each with its status. */
  lemma OtherwiseNothingIsSplit(s: StoreState, entry: Step, c: Choice, cfg: Config, words: Words)
    requires Explores(s, entry, cfg)
    requires c.verdict != Inconclusive || entry.depth >= cfg.maxDepth || c.subQuestions == []
    ensures var before, (t, explored) := AfterRun(s, entry, c, words), Cycle(s, [c], cfg, words);
            && explored == [entry]
            && forall kind :: IsQuestion(kind) ==>
                 Filter(t.memories, OfKind(kind)) == Filter(before.memories, OfKind(kind))
  {
    hide OpenCandidates, Apply, ApplyAll, RoundOps, VerdictOps, AfterRun, Filter, OfKind, IsQuestion;
    CycleOfOne(s, c, cfg, words);
    AfterRunIs(s, entry, c, words);
    var s2, s3, s4 := RoundStages(s, entry, c, cfg.maxDepth, words);
    assert DecomposeOps(entry, c, cfg.maxDepth) == [];
    NothingMore(s4, words);
    forall kind | IsQuestion(kind) ensures Filter(s4.memories, OfKind(kind)) == Filter(s3.memories, OfKind(kind)) {
      VerdictInKind(s3, entry, c, words, kind);
    }
  }

  lemma NothingMore(s: StoreState, words: Words)
    ensures ApplyAll(s, [], words) == s
  {
  }

  // ---- The experiment is recorded ----

  /** A stored experiment on this question, with this note. */
  predicate IsExperiment(m: Step, question: string, note: string) {
    && m.stepKind == MemoryStep && m.kind == "experiment" && m.scope == LongTerm && m.content == note
    && m.relation == question && m.credibility == 0.5
  }

  ghost predicate HasExperiment(ms: seq<Step>, question: string, note: string) {
    exists m :: m in ms && IsExperiment(m, question, note)
  }

  lemma {:induction false} SubQuestionsKeepExperiments(
    s: StoreState, questions: seq<string>, parent: string, depth: nat, q: string, note: string, words: Words)
    requires HasExperiment(s.memories, q, note)
    ensures HasExperiment(ApplyAll(s, SubQuestionOps(parent, depth, questions), words).memories, q, note)
    decreases questions
  {
    hide HasExperiment, Added;
    if questions != [] {
      var m, ops := SubQuestionStep(parent, depth, questions[0]), SubQuestionOps(parent, depth, questions);
      assert ops[0] == Add(m) && ops[1..] == SubQuestionOps(parent, depth, questions[1..]);
      AddKeepsExperiment(m, s.memories, q, note, words);
      SubQuestionsKeepExperiments(Apply(s, Add(m), words), questions[1..], parent, depth, q, note, words);
    }
  }

  lemma AddKeepsExperiment(m: Step, ms: seq<Step>, q: string, note: string, words: Words)
    requires m.kind == "question" && HasExperiment(ms, q, note)
    ensures HasExperiment(Added(m, ms, words), q, note)
  {
    hide FindMergeable;
    FindMergeableSound(m, ms, words);
    assert "question"[0] != "experiment"[0];
    var x :| x in ms && IsExperiment(x, q, note);
    var i :| 0 <= i < |ms| && ms[i] == x;
    assert Added(m, ms, words)[i] == x;
  }

  lemma MarkKeepsExperiment(s: StoreState, h: string, q: string, note: string, words: Words)
    requires HasExperiment(s.memories, q, note)
    ensures HasExperiment(Apply(s, Mark(h, Decomposed), words).memories, q, note)
  {
    var x :| x in s.memories && IsExperiment(x, q, note);
    var i :| 0 <= i < |s.memories| && s.memories[i] == x;
    assert Apply(s, Mark(h, Decomposed), words).memories[i] == x;
  }

  lemma DecomposingKeepsExperiments(
    s: StoreState, entry: Step, c: Choice, maxDepth: nat, q: string, note: string, words: Words)
    requires HasExperiment(s.memories, q, note)
    ensures HasExperiment(ApplyAll(s, DecomposeOps(entry, c, maxDepth), words).memories, q, note)
  {
    hide Apply, ApplyAll, HasExperiment, SubQuestionOps;
    var ops, last := SubQuestionOps(entry.content, entry.depth + 1, FirstThree(c.subQuestions)),
                     Mark(entry.content, Decomposed);
    NothingMore(s, words);
    SubQuestionsKeepExperiments(s, FirstThree(c.subQuestions), entry.content, entry.depth + 1, q, note, words);
    ApplyAllConcat(s, ops, [last], words);
    ApplyOne(ApplyAll(s, ops, words), last, words);
    MarkKeepsExperiment(ApplyAll(s, ops, words), entry.content, q, note, words);
  }

  lemma RecordGives(s: StoreState, record: Step, q: string, note: string, words: Words)
    requires IsExperiment(record, q, note) && forall e :: e in s.memories ==> !Repeats(record, e, words)
    ensures HasExperiment(Apply(s, Add(record), words).memories, q, note)
  {
    hide Repeats;
    AddGives(s, record, words);
    var ms := s.memories + [record];
    assert ms[|s.memories|] == record && record in ms;
  }

  lemma JudgeRepeatsNot(s: StoreState, question: string, verdict: Verdict, record: Step, words: Words)
    requires forall e :: e in s.memories ==> !Repeats(record, e, words)
    ensures forall e :: e in Apply(s, Judge(question, verdict), words).memories ==> !Repeats(record, e, words)
  {
    hide MostlyShared;
    var ns := Apply(s, Judge(question, verdict), words).memories;
    forall e | e in ns ensures !Repeats(record, e, words) {
      var i :| 0 <= i < |ns| && ns[i] == e;
      assert s.memories[i] in s.memories;
    }
  }

  /** Whatever the verdict, a round leaves an experiment on the explored question that holds the note, unless
      the store held one in mostly the same words when the run was over. */
  lemma RoundIsRecorded(s: StoreState, entry: Step, c: Choice, cfg: Config, words: Words)
    requires Explores(s, entry, cfg)
    ensures var before, (t, explored) := AfterRun(s, entry, c, words), Cycle(s, [c], cfg, words);
            var record := Step(MemoryStep, "experiment", LongTerm, ["experiment"], c.note, "", 0.5, Open, entry.content,
                               0, 0, 0, "director");
            (forall e :: e in before.memories ==> !Repeats(record, e, words))
            ==> HasExperiment(t.memories, entry.content, c.note)
  {
    hide OpenCandidates, Apply, ApplyAll, RoundOps, AfterRun, HasExperiment, Repeats, DecomposeOps;
    CycleOfOne(s, c, cfg, words);
    AfterRunIs(s, entry, c, words);
    var s2, s3, s4 := RoundStages(s, entry, c, cfg.maxDepth, words);
    var record := Step(MemoryStep, "experiment", LongTerm, ["experiment"], c.note, "", 0.5, Open, entry.content,
                       0, 0, 0, "director");
    if forall e :: e in s3.memories ==> !Repeats(record, e, words) {
      var judge := Judge(entry.content, c.verdict);
      assert VerdictOps(entry, c) == [judge] + [Add(record)];
      ApplyAllConcat(s3, [judge], [Add(record)], words);
      ApplyOne(s3, judge, words);
      ApplyOne(Apply(s3, judge, words), Add(record), words);
      JudgeRepeatsNot(s3, entry.content, c.verdict, record, words);
      RecordGives(Apply(s3, judge, words), record, entry.content, c.note, words);
      DecomposingKeepsExperiments(s4, entry, c, cfg.maxDepth, entry.content, c.note, words);
    }
  }

  // ---- Which question a round explores ----

  function LongTermOf(kind: string): Step -> bool {
    (m: Step) => m.scope == LongTerm && m.kind == kind
  }

  function OpenAt(depth: nat): Step -> bool {
    (m: Step) => m.status == Open && m.depth == depth
  }

  /** The open ones at a depth among the fifty newest long-term entries of a kind, oldest first. */
  function OpenRecent(ms: seq<Step>, kind: string, depth: nat): seq<Step> {
    Filter(LastOnes(Filter(ms, LongTermOf(kind)), 50), OpenAt(depth))
  }

  lemma {:induction false} FilterTwice(ms: seq<Step>, p: Step -> bool, q: Step -> bool, both: Step -> bool)
    requires forall m :: both(m) <==> p(m) && q(m)
    ensures Filter(Filter(ms, p), q) == Filter(ms, both)
  {
    hide Filter;
    FilterHead(ms, p);
    FilterHead(ms, both);
    if ms == [] {
      FilterHead(ms, q);
    } else {
      FilterTwice(ms[1..], p, q, both);
      FilterConcat(if p(ms[0]) then [ms[0]] else [], Filter(ms[1..], p), q);
      OnlyOne(ms[0], q);
    }
  }

  lemma OnlyOne(m: Step, q: Step -> bool)
    ensures Filter([m], q) == (if q(m) then [m] else []) && Filter([], q) == []
  {
    assert [m][1..] == [];
  }

  lemma {:induction false} InsertIsStable(m: Step, ms: seq<Step>, q: Step -> bool, depth: nat)
    requires forall x :: q(x) ==> x.depth == depth
    ensures Filter(InsertByDepth(m, ms), q) == (if q(m) then [m] else []) + Filter(ms, q)
  {
    hide Filter;
    FilterHead([m] + ms, q);
    FilterHead(ms, q);
    assert ([m] + ms)[1..] == ms;
    if ms != [] && m.depth > ms[0].depth {
      var rest := InsertByDepth(m, ms[1..]);
      InsertIsStable(m, ms[1..], q, depth);
      FilterHead([ms[0]] + rest, q);
      assert ([ms[0]] + rest)[1..] == rest;
    }
  }

  lemma {:induction false} SortIsStable(ms: seq<Step>, q: Step -> bool, depth: nat)
    requires forall x :: q(x) ==> x.depth == depth
    ensures Filter(SortByDepth(ms), q) == Filter(ms, q)
  {
    hide InsertByDepth, Filter;
    FilterHead(ms, q);
    FilterHead(SortByDepth(ms), q);
    if ms != [] {
      SortIsStable(ms[1..], q, depth);
      InsertIsStable(ms[0], SortByDepth(ms[1..]), q, depth);
    }
  }

  lemma OpenOfAt(ms: seq<Step>, kind: string, depth: nat)
    ensures Filter(OpenOf(ms, kind), OpenAt(depth)) == OpenRecent(ms, kind, depth)
  {
    hide Filter;
    FilterAlike(ms, OfKind(kind), LongTermOf(kind));
    FilterTwice(Newest(Filter(ms, OfKind(kind)), 50), IsOpen(), OpenAt(depth), OpenAt(depth));
  }

  /** The candidates are the open ones among the fifty newest contradictions and the fifty newest questions: shallow
      before deep, at one depth contradictions before questions and old before new, and nothing else. */
  lemma CandidatesAre(ms: seq<Step>, depth: nat)
    ensures Rising(OpenCandidates(ms))
    ensures forall x :: x in OpenCandidates(ms) ==> x.status == Open
    ensures Filter(OpenCandidates(ms), OpenAt(depth))
            == OpenRecent(ms, "contradiction", depth) + OpenRecent(ms, "question", depth)
  {
    hide Filter, SortByDepth, OpenOf, Rising;
    var a, b := OpenOf(ms, "contradiction"), OpenOf(ms, "question");
    SortRises(a + b);
    SortIsStable(a + b, OpenAt(depth), depth);
    FilterConcat(a, b, OpenAt(depth));
    OpenOfAt(ms, "contradiction", depth);
    OpenOfAt(ms, "question", depth);
    CandidatesAreOpen(ms);
  }
}
