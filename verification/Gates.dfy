/** A gate of any height: a plain memory that comes first among enough candidates is explored in every
    cycle for good. What an idle round does to the candidates is to drop those its question marks. */
module Gates {
  import opened Candidates
  import opened Evolution
  import opened EvolutionTheorems
  import opened Lists
  import opened Memory
  import opened MemoryTheorems
  import opened Text

  /** Entries that setting a status for this question leaves alone. */
  function Unreached(hypothesis: string): Step -> bool {
    (m: Step) => !(m.stepKind == ReflectionStep && IsQuestion(m.kind) && m.content == hypothesis)
  }

  // ---- The entries of a kind after an idle round ----

  lemma {:induction false} MarkInKind(ms: seq<Step>, ns: seq<Step>, kind: string, h: string)
    requires |ms| == |ns| && forall i :: 0 <= i < |ms| ==> ns[i] == Marked(ms[i], h, Testing)
    ensures Filter(ns, OfKind(kind)) == SetStatus(Filter(ms, OfKind(kind)), h, Testing)
  {
    hide Filter;
    FilterHead(ms, OfKind(kind));
    FilterHead(ns, OfKind(kind));
    if ms != [] {
      MarkInKind(ms[1..], ns[1..], kind, h);
    }
  }

  lemma {:induction false} SameInKind(ms: seq<Step>, ns: seq<Step>, kind: string)
    requires |ms| == |ns|
    requires forall i :: 0 <= i < |ms| ==> if OfKind(kind)(ms[i]) then ns[i] == ms[i] else !OfKind(kind)(ns[i])
    ensures Filter(ns, OfKind(kind)) == Filter(ms, OfKind(kind))
  {
    hide Filter;
    FilterHead(ms, OfKind(kind));
    FilterHead(ns, OfKind(kind));
    if ms != [] {
      SameInKind(ms[1..], ns[1..], kind);
    }
  }

  lemma JudgeInKind(s: StoreState, question: string, verdict: Verdict, words: Words, kind: string)
    requires IsQuestion(kind)
    ensures Filter(Apply(s, Judge(question, verdict), words).memories, OfKind(kind))
            == Filter(s.memories, OfKind(kind))
  {
    hide Filter;
    assert "contradiction"[3] != "conjecture"[3] && "question"[0] != "conjecture"[0];
    SameInKind(s.memories, JudgeAll(s.memories, question, verdict), kind);
  }

  lemma RecordInKind(s: StoreState, record: Step, words: Words, kind: string)
    requires IsQuestion(kind) && record.kind == "experiment"
    ensures Filter(Apply(s, Add(record), words).memories, OfKind(kind)) == Filter(s.memories, OfKind(kind))
  {
    hide Filter, FindMergeable;
    assert "contradiction"[0] != "experiment"[0] && "question"[0] != "experiment"[0];
    FindMergeableSound(record, s.memories, words);
    match FindMergeable(record, s.memories, words)
    case None => AppendFollows(s.memories, [record], kind);
    case Some(k) => SameInKind(s.memories, s.memories[k := Corroborated(s.memories[k])], kind);
  }

  lemma IdleRoundInKind(s: StoreState, entry: Step, note: string, maxDepth: nat, words: Words, kind: string)
    requires IsQuestion(kind)
    ensures Filter(ApplyAll(s, RoundOps(entry, IdleChoice(note), maxDepth), words).memories, OfKind(kind))
            == SetStatus(Filter(s.memories, OfKind(kind)), entry.content, Testing)
  {
    hide Apply, ApplyAll, RoundOps, Filter, OfKind, IsQuestion, SetStatus;
    var s2, s3, s4 := RoundStages(s, entry, IdleChoice(note), maxDepth, words);
    IdleStages(s, s2, s3, s4, entry, note, maxDepth, words);
    MarkOpInKind(s, entry.content, words, kind);
    JudgeInKind(s2, entry.content, Supported, words, kind);
    RecordInKind(Apply(s2, Judge(entry.content, Supported), words), ExperimentStep(entry.content, note), words, kind);
  }

  lemma MarkOpInKind(s: StoreState, h: string, words: Words, kind: string)
    ensures Filter(Apply(s, Mark(h, Testing), words).memories, OfKind(kind))
            == SetStatus(Filter(s.memories, OfKind(kind)), h, Testing)
  {
    hide Filter, OfKind;
    MarkInKind(s.memories, SetStatus(s.memories, h, Testing), kind, h);
  }

  // ---- The candidates after an idle round ----

  lemma {:induction false} OpenAfterMark(w: seq<Step>, h: string)
    ensures Filter(SetStatus(w, h, Testing), IsOpen()) == Filter(Filter(w, IsOpen()), Unreached(h))
  {
    hide Filter;
    FilterHead(w, IsOpen());
    FilterHead(SetStatus(w, h, Testing), IsOpen());
    if w == [] {
      FilterHead(w, Unreached(h));
    } else {
      OpenAfterMark(w[1..], h);
      assert SetStatus(w, h, Testing)[1..] == SetStatus(w[1..], h, Testing);
      if w[0].status == Open {
        FilterConcat([w[0]], Filter(w[1..], IsOpen()), Unreached(h));
        FilterOne(w[0], Unreached(h));
      } else {
        assert Filter(w, IsOpen()) == Filter(w[1..], IsOpen());
      }
    }
  }

  lemma OpenOfAfterIdle(s: StoreState, entry: Step, note: string, maxDepth: nat, words: Words, kind: string)
    requires IsQuestion(kind)
    ensures OpenOf(ApplyAll(s, RoundOps(entry, IdleChoice(note), maxDepth), words).memories, kind)
            == Filter(OpenOf(s.memories, kind), Unreached(entry.content))
  {
    hide ApplyAll, RoundOps, Filter, OfKind, IsOpen, Unreached, IsQuestion;
    var before := Filter(s.memories, OfKind(kind));
    IdleRoundInKind(s, entry, note, maxDepth, words, kind);
    assert Newest(SetStatus(before, entry.content, Testing), 50)
        == SetStatus(Newest(before, 50), entry.content, Testing);
    OpenAfterMark(Newest(before, 50), entry.content);
  }

  predicate Rising(ms: seq<Step>) {
    forall i, j :: 0 <= i < j < |ms| ==> ms[i].depth <= ms[j].depth
  }

  lemma {:induction false} InsertKeepsRising(m: Step, ms: seq<Step>)
    requires Rising(ms)
    ensures Rising(InsertByDepth(m, ms))
  {
    if ms != [] && m.depth > ms[0].depth {
      InsertKeepsRising(m, ms[1..]);
      InsertByDepthMembers(m, ms[1..]);
      var rest := InsertByDepth(m, ms[1..]);
      forall j | 0 <= j < |rest| ensures ms[0].depth <= rest[j].depth {
        assert rest[j] in rest;
        if rest[j] in ms[1..] {
          var k :| 0 <= k < |ms[1..]| && ms[1..][k] == rest[j];
          assert ms[k + 1] == rest[j];
        }
      }
    }
  }

  lemma {:induction false} SortRises(ms: seq<Step>)
    ensures Rising(SortByDepth(ms))
  {
    if ms != [] {
      SortRises(ms[1..]);
      InsertKeepsRising(ms[0], SortByDepth(ms[1..]));
    }
  }

  lemma {:induction false} InsertFiltered(m: Step, ms: seq<Step>, p: Step -> bool)
    requires Rising(ms)
    ensures Filter(InsertByDepth(m, ms), p) ==
            if p(m) then InsertByDepth(m, Filter(ms, p)) else Filter(ms, p)
  {
    hide Filter;
    FilterHead(ms, p);
    FilterHead(InsertByDepth(m, ms), p);
    if ms == [] || m.depth <= ms[0].depth {
      assert InsertByDepth(m, ms)[1..] == ms;
      FilterAll(ms, p);
      if Filter(ms, p) != [] {
        assert Filter(ms, p)[0] in Filter(ms, p);
        var k :| 0 <= k < |ms| && ms[k] == Filter(ms, p)[0];
        assert m.depth <= ms[k].depth;
      }
    } else {
      assert InsertByDepth(m, ms)[1..] == InsertByDepth(m, ms[1..]);
      InsertFiltered(m, ms[1..], p);
      assert Filter(InsertByDepth(m, ms), p) ==
             (if p(ms[0]) then [ms[0]] else []) + Filter(InsertByDepth(m, ms[1..]), p);
      if p(ms[0]) {
        assert Filter(ms, p)[1..] == Filter(ms[1..], p);
      } else {
        assert Filter(ms, p) == Filter(ms[1..], p);
      }
    }
  }

  /** Sorting is stable, so dropping entries before or after is the same. */
  lemma {:induction false} SortFiltered(ms: seq<Step>, p: Step -> bool)
    ensures SortByDepth(Filter(ms, p)) == Filter(SortByDepth(ms), p)
  {
    hide Filter, InsertByDepth;
    FilterHead(ms, p);
    if ms == [] {
      FilterHead(SortByDepth(ms), p);
    } else {
      SortFiltered(ms[1..], p);
      SortRises(ms[1..]);
      InsertFiltered(ms[0], SortByDepth(ms[1..]), p);
      if p(ms[0]) {
        assert Filter(ms, p)[1..] == Filter(ms[1..], p);
      } else {
        assert Filter(ms, p) == Filter(ms[1..], p);
      }
    }
  }

  lemma CandidatesAfterIdle(s: StoreState, entry: Step, note: string, maxDepth: nat, words: Words)
    ensures OpenCandidates(ApplyAll(s, RoundOps(entry, IdleChoice(note), maxDepth), words).memories)
            == Filter(OpenCandidates(s.memories), Unreached(entry.content))
  {
    hide ApplyAll, RoundOps, Filter, OpenOf, SortByDepth, Unreached;
    var p := Unreached(entry.content);
    OpenOfAfterIdle(s, entry, note, maxDepth, words, "contradiction");
    OpenOfAfterIdle(s, entry, note, maxDepth, words, "question");
    var a, b := OpenOf(s.memories, "contradiction"), OpenOf(s.memories, "question");
    FilterConcat(a, b, p);
    SortFiltered(a + b, p);
  }

  // ---- Explored for good ----

  /** The first candidate is no reflection, and at least `gate` candidates remain when its content is marked. */
  predicate Lasting(ms: seq<Step>, gate: nat) {
    var candidates := OpenCandidates(ms);
    && candidates != [] && candidates[0].stepKind != ReflectionStep
    && |Filter(candidates, Unreached(candidates[0].content))| >= gate
  }

  lemma {:induction false} FilterLength<T>(s: seq<T>, p: T -> bool)
    ensures |Filter(s, p)| <= |s|
  {
    if s != [] { FilterLength(s[1..], p); }
  }

  lemma {:induction false} FilterTwice<T>(s: seq<T>, p: T -> bool)
    ensures Filter(Filter(s, p), p) == Filter(s, p)
  {
    hide Filter;
    FilterHead(s, p);
    if s == [] {
      FilterHead(s, p);
    } else {
      var rest := Filter(s[1..], p);
      FilterTwice(s[1..], p);
      if p(s[0]) {
        FilterHead([s[0]] + rest, p);
        assert ([s[0]] + rest)[1..] == rest;
      } else {
        assert Filter(s, p) == rest;
      }
    }
  }

  lemma LastingStays(s: StoreState, note: string, cfg: Config, words: Words)
    requires Lasting(s.memories, cfg.minOpen)
    ensures var entry := OpenCandidates(s.memories)[0];
            var t := ApplyAll(s, RoundOps(entry, IdleChoice(note), cfg.maxDepth), words);
            Lasting(t.memories, cfg.minOpen) && OpenCandidates(t.memories)[0] == entry
  {
    hide ApplyAll, RoundOps, OpenCandidates, Filter;
    var candidates := OpenCandidates(s.memories);
    var p := Unreached(candidates[0].content);
    CandidatesAfterIdle(s, candidates[0], note, cfg.maxDepth, words);
    FilterHead(candidates, p);
    FilterTwice(candidates, p);
  }

  /** Behind any gate such an entry is the one explored, cycle after cycle, though nothing new is asked. */
  lemma {:induction false} PlainMemoryPassesAnyGate(s: StoreState, notes: seq<string>, cfg: Config, words: Words)
    requires Lasting(s.memories, cfg.minOpen)
    ensures var explored := Evolve(s, IdlePhases(notes), cfg, words).1;
            |explored| == |notes| && forall m :: m in explored ==> m == OpenCandidates(s.memories)[0]
    decreases notes
  {
    hide OpenCandidates, ApplyAll, RoundOps, RoundRoots, Filter;
    if notes != [] {
      var phases, choices := IdlePhases(notes), [IdleChoice(notes[0])];
      assert phases[0] == Explore(choices) && phases[1..] == IdlePhases(notes[1..]);
      var candidates := OpenCandidates(s.memories);
      FilterLength(candidates, Unreached(candidates[0].content));
      CycleOfOne(s, choices[0], cfg, words);
      LastingStays(s, notes[0], cfg, words);
      var t := ApplyAll(s, RoundOps(candidates[0], choices[0], cfg.maxDepth), words);
      PlainMemoryPassesAnyGate(t, notes[1..], cfg, words);
    }
  }

  /** One idle cycle, if the gate is open. */
  lemma IdleGoesOn(s: StoreState, note: string, notes: seq<string>, cfg: Config, words: Words)
    ensures var candidates := OpenCandidates(s.memories);
            var run := Evolve(s, IdlePhases([note] + notes), cfg, words).1;
            if candidates == [] || |candidates| < cfg.minOpen then |run| == |Evolve(s, IdlePhases(notes), cfg, words).1|
            else
              var t := ApplyAll(s, RoundOps(candidates[0], IdleChoice(note), cfg.maxDepth), words);
              |run| == 1 + |Evolve(t, IdlePhases(notes), cfg, words).1|
  {
    hide OpenCandidates, ApplyAll, RoundOps, RoundRoots;
    var all, choices := [note] + notes, [IdleChoice(note)];
    assert all[1..] == notes;
    var phases := IdlePhases(all);
    assert phases[0] == Explore(choices) && phases[1..] == IdlePhases(notes);
    var candidates := OpenCandidates(s.memories);
    if candidates != [] && |candidates| >= cfg.minOpen {
      CycleOfOne(s, choices[0], cfg, words);
    }
  }

  lemma {:induction false} FilterDrops<T>(s: seq<T>, p: T -> bool)
    requires s != [] && !p(s[0])
    ensures |Filter(s, p)| < |s|
  {
    FilterLength(s[1..], p);
  }

  /** Dropping reflections as they are explored, a plain memory comes first and lasts before fewer candidates
      than the gate asks for are left. */
  predicate Endless(candidates: seq<Step>, gate: nat)
    decreases |candidates|
  {
    && candidates != [] && |candidates| >= gate
    && var rest := Filter(candidates, Unreached(candidates[0].content));
       if candidates[0].stepKind != ReflectionStep then |rest| >= gate
       else |rest| < |candidates| && Endless(rest, gate)
  }

  lemma {:induction false} EndlessGoesOn(s: StoreState, notes: seq<string>, cfg: Config, words: Words)
    requires Endless(OpenCandidates(s.memories), cfg.minOpen)
    ensures |Evolve(s, IdlePhases(notes), cfg, words).1| == |notes|
    decreases notes
  {
    hide OpenCandidates, ApplyAll, RoundOps, Filter, Evolve, IdlePhases;
    var candidates := OpenCandidates(s.memories);
    if candidates[0].stepKind != ReflectionStep {
      PlainMemoryPassesAnyGate(s, notes, cfg, words);
    } else if notes == [] {
      NoPhases(s, cfg, words);
    } else {
      assert notes == [notes[0]] + notes[1..];
      IdleGoesOn(s, notes[0], notes[1..], cfg, words);
      CandidatesAfterIdle(s, candidates[0], notes[0], cfg.maxDepth, words);
      var t := ApplyAll(s, RoundOps(candidates[0], IdleChoice(notes[0]), cfg.maxDepth), words);
      EndlessGoesOn(t, notes[1..], cfg, words);
    }
  }

  lemma NoPhases(s: StoreState, cfg: Config, words: Words)
    ensures Evolve(s, IdlePhases([]), cfg, words) == (s, [])
  {
  }

  /** Otherwise some idle cycle finds the gate closed. */
  lemma {:induction false} GateCloses(s: StoreState, cfg: Config, words: Words) returns (notes: seq<string>)
    requires !Endless(OpenCandidates(s.memories), cfg.minOpen)
    ensures |Evolve(s, IdlePhases(notes), cfg, words).1| < |notes|
    decreases |OpenCandidates(s.memories)|
  {
    hide OpenCandidates, ApplyAll, RoundOps, Filter, Evolve, IdlePhases;
    var candidates := OpenCandidates(s.memories);
    NoPhases(s, cfg, words);
    if candidates == [] || |candidates| < cfg.minOpen {
      IdleGoesOn(s, "", [], cfg, words);
      notes := [""] + [];
    } else {
      var entry := candidates[0];
      var t := ApplyAll(s, RoundOps(entry, IdleChoice(""), cfg.maxDepth), words);
      CandidatesAfterIdle(s, entry, "", cfg.maxDepth, words);
      if entry.stepKind != ReflectionStep {
        NoPhases(t, cfg, words);
        IdleGoesOn(t, "", [], cfg, words);
        notes := [""] + [];
      } else {
        ReflectionIsReached(s.memories);
        FilterDrops(candidates, Unreached(entry.content));
        notes := GateCloses(t, cfg, words);
      }
      IdleGoesOn(s, "", notes, cfg, words);
      notes := [""] + notes;
    }
  }

  lemma ReflectionIsReached(ms: seq<Step>)
    requires OpenCandidates(ms) != []
    ensures var entry := OpenCandidates(ms)[0]; entry.stepKind == ReflectionStep ==> !Unreached(entry.content)(entry)
  {
    hide OpenCandidates;
    CandidatesAreOpen(ms);
    assert OpenCandidates(ms)[0] in OpenCandidates(ms);
  }

  /** Behind any gate, cycles whose runs store nothing and whose verdicts are all "supported" go on without
      end exactly if the candidates are so. */
  lemma IdleNeverEndsIff(s: StoreState, cfg: Config, words: Words)
    ensures (forall notes :: |Evolve(s, IdlePhases(notes), cfg, words).1| == |notes|)
            <==> Endless(OpenCandidates(s.memories), cfg.minOpen)
  {
    hide OpenCandidates, Evolve, IdlePhases, Endless;
    if Endless(OpenCandidates(s.memories), cfg.minOpen) {
      forall notes ensures |Evolve(s, IdlePhases(notes), cfg, words).1| == |notes| {
        EndlessGoesOn(s, notes, cfg, words);
      }
    } else {
      var notes := GateCloses(s, cfg, words);
    }
  }

  lemma {:induction false} IdleAddsNothing(s: StoreState, notes: seq<string>, cfg: Config, words: Words)
    ensures LawfulPhases(IdlePhases(notes)) && RootsAdded(s, IdlePhases(notes), cfg, words) == 0
    decreases notes
  {
    hide OpenCandidates, ApplyAll, RoundOps, RoundRoots;
    if notes != [] {
      var phases, choices := IdlePhases(notes), [IdleChoice(notes[0])];
      assert phases[0] == Explore(choices) && phases[1..] == IdlePhases(notes[1..]);
      var candidates := OpenCandidates(s.memories);
      if candidates != [] && |candidates| >= cfg.minOpen {
        CycleOfOne(s, choices[0], cfg, words);
        IdleAddsNoRoots(s, candidates[0], notes[0], words);
      }
      IdleAddsNothing(Cycle(s, choices, cfg, words).0, notes[1..], cfg, words);
    }
  }

  /** So at any gate the experiments of runs without new roots are bounded if every candidate is a reflection,
      and not if idle cycles alone never end. */
  lemma BoundedAtAnyGate(s: StoreState, cfg: Config, words: Words)
    ensures ReflectedCandidates(s.memories) ==> exists bound: nat :: BoundedBy(s, cfg, words, bound)
    ensures Endless(OpenCandidates(s.memories), cfg.minOpen) ==> !exists bound: nat :: BoundedBy(s, cfg, words, bound)
  {
    hide ReflectedCandidates, Evolve, RootsAdded, LawfulPhases, Total, Endless, OpenCandidates, IdlePhases;
    if ReflectedCandidates(s.memories) {
      ReflectedIsBounded(s, cfg, words);
    }
    if Endless(OpenCandidates(s.memories), cfg.minOpen) {
      forall bound: nat ensures !BoundedBy(s, cfg, words, bound) {
        var notes := seq(bound + 1, i => "");
        IdleAddsNothing(s, notes, cfg, words);
        EndlessGoesOn(s, notes, cfg, words);
      }
    }
  }
}
