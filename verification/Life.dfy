/** The continuous life loop: explore, wonder when nothing is open, dream now and then, stop after
    three dry passes. When it ends by itself, why it does, and the lives that never end. */
module Life {
  import opened Candidates
  import opened Evolution
  import opened EvolutionTheorems
  import opened Memory
  import opened MemoryTheorems
  import opened Store

  const MAX_DRY: nat := 3

  /** One pass of the loop as the outside world shapes it: whether it is told to stop, the choices of
      the director's cycle, the questions wondered, and what a dream stores (nothing when none is due). */
  datatype Season = Season(stop: bool, choices: seq<Choice>, wonder: seq<string>, dream: seq<Op>)

  /** The store operations of wondering: at most three new open questions at depth 0. */
  function WonderOps(questions: seq<string>): seq<Op> {
    SubQuestionOps("", 0, FirstThree(questions))
  }

  /** After the director's cycle nothing is open. */
  predicate Settles(s: StoreState, season: Season, cfg: Config, words: Words) {
    OpenCandidates(Cycle(s, season.choices, cfg, words).0.memories) == []
  }

  /** The store after the cycle and the wondering, if there is any. */
  function Wondered(s: StoreState, season: Season, cfg: Config, words: Words): StoreState {
    var t := Cycle(s, season.choices, cfg, words).0;
    if Settles(s, season, cfg, words) then ApplyAll(t, WonderOps(season.wonder), words) else t
  }

  function Streak(s: StoreState, dry: nat, season: Season, cfg: Config, words: Words): nat {
    if Settles(s, season, cfg, words) && season.wonder == [] then dry + 1 else 0
  }

  /** A pass that is not told to stop: the new store, the dry streak, and whether life ends here. */
  function Pass(s: StoreState, dry: nat, season: Season, cfg: Config, words: Words): (StoreState, nat, bool) {
    var u, streak := Wondered(s, season, cfg, words), Streak(s, dry, season, cfg, words);
    if streak >= MAX_DRY then (u, streak, true) else (ApplyAll(u, season.dream, words), streak, false)
  }

  /** The long-term questions and contradictions a pass really adds (not merges) outside decomposition:
      in the runs of its experiments, in wondering and in dreaming. */
  function PassRoots(s: StoreState, dry: nat, season: Season, cfg: Config, words: Words): nat {
    var t, u := Cycle(s, season.choices, cfg, words).0, Wondered(s, season, cfg, words);
    CycleRoots(s, season.choices, cfg, words)
    + (if Settles(s, season, cfg, words) then RootsAll(t, WonderOps(season.wonder), words) else 0)
    + (if Streak(s, dry, season, cfg, words) >= MAX_DRY then 0 else RootsAll(u, season.dream, words))
  }

  // ---- One pass ----

  ghost predicate LawfulSeason(season: Season) {
    season.choices != [] && LawfulPhase(Explore(season.choices)) && AllWithin(season.dream, 0)
  }

  /** A pass lowers the weight of the open questions by one for every experiment, up to what it adds;
      and only a pass that leaves nothing open runs no experiment. */
  lemma PassLowersTotal(s: StoreState, dry: nat, season: Season, cfg: Config, words: Words)
    requires ReflectedCandidates(s.memories) && LawfulSeason(season) && cfg.minOpen <= 1
    ensures var t, explored := Pass(s, dry, season, cfg, words).0, Cycle(s, season.choices, cfg, words).1;
            && ReflectedCandidates(t.memories)
            && Total(t.memories, cfg.maxDepth) + |explored|
               <= Total(s.memories, cfg.maxDepth) + PassRoots(s, dry, season, cfg, words) * TreeWeight(0, cfg.maxDepth)
            && (explored == [] ==> Settles(s, season, cfg, words))
  {
    hide ReflectedCandidates, Total, OpenCandidates, ApplyAll, LawfulPhase, Cycle, CycleRoots, RootsAll, WonderOps,
      TreeWeight, AllWithin;
    var t := Cycle(s, season.choices, cfg, words).0;
    var u := Wondered(s, season, cfg, words);
    CycleLowersTotal(s, season.choices, cfg, words);
    CycleRunsSomething(s, season.choices, cfg, words);
    WonderWithin(season.wonder);
    SequenceTotal(t, WonderOps(season.wonder), cfg, words);
    SequenceTotal(u, season.dream, cfg, words);
    var a, w := CycleRoots(s, season.choices, cfg, words), TreeWeight(0, cfg.maxDepth);
    var b := if Settles(s, season, cfg, words) then RootsAll(t, WonderOps(season.wonder), words) else 0;
    var d := if Streak(s, dry, season, cfg, words) >= MAX_DRY then 0 else RootsAll(u, season.dream, words);
    Distribute(a, b, w);
    Distribute(a + b, d, w);
  }

  lemma WonderWithin(wonder: seq<string>)
    ensures AllWithin(WonderOps(wonder), 0)
  {
    SubQuestionsWithin("", 0, FirstThree(wonder), 0);
  }

  lemma SequenceTotal(s: StoreState, ops: seq<Op>, cfg: Config, words: Words)
    requires ReflectedCandidates(s.memories) && AllWithin(ops, 0)
    ensures var t := ApplyAll(s, ops, words);
            && ReflectedCandidates(t.memories)
            && Total(t.memories, cfg.maxDepth)
               <= Total(s.memories, cfg.maxDepth) + RootsAll(s, ops, words) * TreeWeight(0, cfg.maxDepth)
  {
    hide ReflectedCandidates, Total, ApplyAll, AllWithin, TreeWeight;
    ApplyAllKeepsCandidates(s, ops, words, 0);
    TotalApplyAll(s, ops, words, cfg.maxDepth);
  }

  lemma CycleRunsSomething(s: StoreState, choices: seq<Choice>, cfg: Config, words: Words)
    requires choices != [] && cfg.minOpen <= 1
    ensures var (t, explored) := Cycle(s, choices, cfg, words);
            explored == [] ==> t == s && OpenCandidates(t.memories) == []
  {
    hide OpenCandidates, ApplyAll, RoundOps;
  }

  // ---- Whole lives ----

  /** What comes from outside over a whole life. */
  datatype Course = Course(seasons: nat -> Season, cfg: Config, words: Words)

  datatype Ending = Living | Stopped | RunDry

  datatype Moment = Moment(store: StoreState, dry: nat, ending: Ending)

  function NextMoment(m: Moment, season: Season, c: Course): Moment {
    if m.ending != Living then m
    else if season.stop then m.(ending := Stopped)
    else
      var (t, streak, over) := Pass(m.store, m.dry, season, c.cfg, c.words);
      Moment(t, streak, if over then RunDry else Living)
  }

  /** The life begun with store `s`, before its pass number `n`. */
  function Lived(s: StoreState, c: Course, n: nat): Moment {
    if n == 0 then Moment(s, 0, Living) else NextMoment(Lived(s, c, n - 1), c.seasons(n - 1), c)
  }

  /** Pass `i` takes place. */
  predicate Passes(s: StoreState, c: Course, i: nat) {
    Lived(s, c, i).ending == Living && !c.seasons(i).stop
  }

  /** Pass `i` takes place, leaves nothing open and wonders nothing. */
  predicate DryPass(s: StoreState, c: Course, i: nat) {
    Passes(s, c, i) && Settles(Lived(s, c, i).store, c.seasons(i), c.cfg, c.words) && c.seasons(i).wonder == []
  }

  predicate ThreeDry(s: StoreState, c: Course, i: nat) {
    DryPass(s, c, i) && DryPass(s, c, i + 1) && DryPass(s, c, i + 2)
  }

  lemma {:induction false} OverStays(s: StoreState, c: Course, m: nat, n: nat)
    requires m <= n && Lived(s, c, m).ending != Living
    ensures Lived(s, c, n) == Lived(s, c, m)
    decreases n
  {
    hide Pass;
    if m < n {
      OverStays(s, c, m, n - 1);
    }
  }

  /** The streak is the number of dry passes in a row up to now. */
  lemma {:induction false} StreakCounts(s: StoreState, c: Course, n: nat)
    ensures var m := Lived(s, c, n);
            && (m.ending == Living ==>
                  && m.dry < MAX_DRY && m.dry <= n
                  && (forall j: nat :: n - m.dry <= j < n ==> DryPass(s, c, j))
                  && (m.dry < n ==> !DryPass(s, c, n - m.dry - 1)))
            && (m.ending == RunDry ==> exists i: nat :: i + 2 < n && ThreeDry(s, c, i))
    decreases n
  {
    hide Settles, Wondered;
    if n > 0 {
      StreakCounts(s, c, n - 1);
      var before := Lived(s, c, n - 1);
      if before.ending == Living && Lived(s, c, n).ending == RunDry {
        assert ThreeDry(s, c, n - 3);
      }
    }
  }

  /** Life ends by itself exactly when three passes in a row leave nothing open and wonder nothing. */
  lemma LifeEndsIff(s: StoreState, c: Course, n: nat)
    ensures Lived(s, c, n).ending == RunDry <==> exists i: nat :: i + 2 < n && ThreeDry(s, c, i)
  {
    hide Lived, DryPass, ThreeDry;
    StreakCounts(s, c, n);
    forall i: nat | i + 2 < n && ThreeDry(s, c, i) ensures Lived(s, c, n).ending == RunDry {
      ThreeDryEnds(s, c, i);
      OverStays(s, c, i + 3, n);
    }
  }

  lemma ThreeDryEnds(s: StoreState, c: Course, i: nat)
    requires ThreeDry(s, c, i)
    ensures Lived(s, c, i + 3).ending == RunDry
  {
    hide Settles, Wondered;
    StreakCounts(s, c, i + 2);
    var m := Lived(s, c, i + 2);
    assert m.dry != 0 && m.dry != 1;
    assert Lived(s, c, i + 3) == NextMoment(m, c.seasons(i + 2), c);
  }

  // ---- Lives in which nothing more is added ----

  ghost predicate LawfulCourse(c: Course) {
    c.cfg.minOpen <= 1 && forall i: nat :: LawfulSeason(c.seasons(i))
  }

  /** From pass `q` on no pass that takes place adds a question; offering a stored one again is no adding. */
  ghost predicate QuietFrom(s: StoreState, c: Course, q: nat) {
    forall i: nat :: i >= q && Passes(s, c, i) ==>
      PassRoots(Lived(s, c, i).store, Lived(s, c, i).dry, c.seasons(i), c.cfg, c.words) == 0
  }

  /** Pass `i` takes place and leaves something open. */
  predicate Unsettled(s: StoreState, c: Course, i: nat) {
    Passes(s, c, i) && !Settles(Lived(s, c, i).store, c.seasons(i), c.cfg, c.words)
  }

  function CountUnsettled(s: StoreState, c: Course, q: nat, n: nat): nat
    requires q <= n
    decreases n
  {
    if n == q then 0 else CountUnsettled(s, c, q, n - 1) + if Unsettled(s, c, n - 1) then 1 else 0
  }

  lemma {:induction false} LifeKeepsCandidates(s: StoreState, c: Course, n: nat)
    requires ReflectedCandidates(s.memories) && LawfulCourse(c)
    ensures ReflectedCandidates(Lived(s, c, n).store.memories)
    decreases n
  {
    hide ReflectedCandidates, LawfulSeason, Pass, PassRoots, Total, Cycle, Settles;
    if n > 0 {
      LifeKeepsCandidates(s, c, n - 1);
      var m := Lived(s, c, n - 1);
      PassLowersTotal(m.store, m.dry, c.seasons(n - 1), c.cfg, c.words);
    }
  }

  /** In a quiet life the passes that leave something open are at most the weight it began with. */
  lemma {:induction false} QuietLifeWeight(s: StoreState, c: Course, q: nat, n: nat)
    requires ReflectedCandidates(s.memories) && LawfulCourse(c) && QuietFrom(s, c, q) && q <= n
    ensures Total(Lived(s, c, n).store.memories, c.cfg.maxDepth) + CountUnsettled(s, c, q, n)
            <= Total(Lived(s, c, q).store.memories, c.cfg.maxDepth)
    decreases n
  {
    hide ReflectedCandidates, LawfulCourse, QuietFrom, Lived, Unsettled, Total;
    if q < n {
      QuietLifeWeight(s, c, q, n - 1);
      QuietPass(s, c, q, n - 1);
    }
  }

  lemma QuietPass(s: StoreState, c: Course, q: nat, i: nat)
    requires ReflectedCandidates(s.memories) && LawfulCourse(c) && QuietFrom(s, c, q) && q <= i
    ensures Total(Lived(s, c, i + 1).store.memories, c.cfg.maxDepth) + (if Unsettled(s, c, i) then 1 else 0)
            <= Total(Lived(s, c, i).store.memories, c.cfg.maxDepth)
  {
    hide ReflectedCandidates, LawfulSeason, Pass, PassRoots, Total, Cycle, Settles, TreeWeight;
    var m := Lived(s, c, i);
    LifeKeepsCandidates(s, c, i);
    PassLowersTotal(m.store, m.dry, c.seasons(i), c.cfg, c.words);
    assert Passes(s, c, i) ==> PassRoots(m.store, m.dry, c.seasons(i), c.cfg, c.words) == 0;
  }

  /** From some pass on a quiet life leaves nothing open, so that it is dry whenever it wonders nothing. */
  lemma {:induction false} QuietLifeSettles(s: StoreState, c: Course, q: nat) returns (m: nat)
    requires ReflectedCandidates(s.memories) && LawfulCourse(c) && QuietFrom(s, c, q)
    ensures q <= m
    ensures forall i: nat :: i >= m && Passes(s, c, i) ==> (DryPass(s, c, i) <==> c.seasons(i).wonder == [])
    decreases Total(Lived(s, c, q).store.memories, c.cfg.maxDepth)
  {
    hide ReflectedCandidates, LawfulCourse, Passes, Lived, Total, Settles;
    if i: nat :| i >= q && Unsettled(s, c, i) {
      QuietLifeWeight(s, c, q, i + 1);
      m := QuietLifeSettles(s, c, i + 1);
    } else {
      m := q;
      forall i: nat | i >= q && Passes(s, c, i) ensures DryPass(s, c, i) <==> c.seasons(i).wonder == [] {
        assert !Unsettled(s, c, i);
      }
    }
  }

  /** `calm(i)` is a pass at or after `i` from which on three seasons wonder nothing. */
  ghost predicate CalmAgain(c: Course, calm: nat -> nat) {
    forall i: nat :: calm(i) >= i && forall k: nat :: calm(i) <= k < calm(i) + 3 ==> c.seasons(k).wonder == []
  }

  /** A quiet life ends unless from some pass on every three seasons in a row wonder something. */
  lemma QuietLifeEnds(s: StoreState, c: Course, q: nat, calm: nat -> nat) returns (n: nat)
    requires ReflectedCandidates(s.memories) && LawfulCourse(c) && QuietFrom(s, c, q) && CalmAgain(c, calm)
    ensures Lived(s, c, n).ending != Living
  {
    hide ReflectedCandidates, LawfulCourse, QuietFrom, Lived, Passes, DryPass;
    var m := QuietLifeSettles(s, c, q);
    n := calm(m) + 3;
    if Lived(s, c, n).ending == Living {
      forall k: nat | calm(m) <= k < n ensures DryPass(s, c, k) { LivedBefore(s, c, k, n); }
      ThreeDryEnds(s, c, calm(m));
    }
  }

  lemma {:induction false} LivedBefore(s: StoreState, c: Course, i: nat, n: nat)
    requires i < n && Lived(s, c, n).ending == Living
    ensures Passes(s, c, i)
    decreases n
  {
    hide Pass;
    if i < n - 1 {
      LivedBefore(s, c, i, n - 1);
    }
  }

  /** From season `k` on three in a row wonder nothing. */
  predicate Silent(c: Course, k: nat) {
    c.seasons(k).wonder == [] && c.seasons(k + 1).wonder == [] && c.seasons(k + 2).wonder == []
  }

  /** Life still goes on at season `m`, which wonders something, and no three seasons from there are silent. */
  ghost predicate RestlessFrom(s: StoreState, c: Course, m: nat) {
    && Lived(s, c, m).ending == Living && c.seasons(m).wonder != []
    && forall k: nat :: k >= m ==> !Silent(c, k)
  }

  /** A quiet life that nobody stops never ends exactly if it comes to a season from which on it is restless. */
  lemma QuietLifeNeverEndsIff(s: StoreState, c: Course, q: nat)
    requires ReflectedCandidates(s.memories) && LawfulCourse(c) && QuietFrom(s, c, q)
    requires forall i: nat :: !c.seasons(i).stop
    ensures (forall n: nat :: Lived(s, c, n).ending == Living)
            <==> exists m: nat :: m >= q && RestlessFrom(s, c, m)
  {
    hide ReflectedCandidates, LawfulCourse, QuietFrom, Lived, Settles;
    if forall n: nat :: Lived(s, c, n).ending == Living {
      var m := QuietLifeSettles(s, c, q);
      forall k: nat | k >= m ensures !Silent(c, k) {
        if Silent(c, k) {
          assert Passes(s, c, k) && Passes(s, c, k + 1) && Passes(s, c, k + 2);
          ThreeDryEnds(s, c, k);
        }
      }
      assert !Silent(c, m);
      var w: nat := if c.seasons(m).wonder != [] then m else if c.seasons(m + 1).wonder != [] then m + 1 else m + 2;
      assert w >= q && RestlessFrom(s, c, w);
    } else {
      var n: nat :| Lived(s, c, n).ending != Living;
      forall m: nat ensures !RestlessFrom(s, c, m) {
        if RestlessFrom(s, c, m) { NoSilenceNoEnd(s, c, m, n); }
      }
    }
  }

  lemma NoSilenceNoEnd(s: StoreState, c: Course, m: nat, n: nat)
    requires forall i: nat :: !c.seasons(i).stop
    requires RestlessFrom(s, c, m)
    ensures Lived(s, c, n).ending == Living
  {
    hide Lived, Settles;
    NeverStopped(s, c, n);
    LifeEndsIff(s, c, n);
    if i: nat :| i + 2 < n && ThreeDry(s, c, i) {
      assert i >= m ==> !Silent(c, i);
      ThreeDryEnds(s, c, i);
      if i + 3 <= m { OverStays(s, c, i + 3, m); }
    }
  }

  lemma {:induction false} NeverStopped(s: StoreState, c: Course, n: nat)
    requires forall i: nat :: !c.seasons(i).stop
    ensures Lived(s, c, n).ending != Stopped
    decreases n
  {
    hide Pass;
    if n > 0 { NeverStopped(s, c, n - 1); }
  }

  class LifeRunner {
    const memory: MemoryStore
    const director: SelfEvolutionDirector
    const cfg: Config

    constructor (memory: MemoryStore, cfg: Config)
      ensures this.memory == memory && this.cfg == cfg
      ensures director.memory == memory && director.cfg == cfg
    {
      var d := new SelfEvolutionDirector(memory, cfg);
      this.memory, this.director, this.cfg := memory, d, cfg;
    }

    /** The loop ends if from pass `q` on nothing more is added and three seasons in a row that wonder
        nothing come again and again; it then has lived as `Lived` says. */
    method Live(seasons: nat -> Season, ghost q: nat, ghost calm: nat -> nat) returns (stopped: bool, ended: nat)
      requires director.memory == memory && director.cfg == cfg && cfg.minOpen == 1
      requires LawfulCourse(Course(seasons, cfg, memory.words))
      requires QuietFrom(memory.View(), Course(seasons, cfg, memory.words), q)
      requires CalmAgain(Course(seasons, cfg, memory.words), calm)
      requires ReflectedCandidates(memory.memories)
      modifies memory
      ensures var end := Lived(old(memory.View()), Course(seasons, cfg, memory.words), ended + 1);
              && memory.View() == end.store && end.ending == (if stopped then Stopped else RunDry)
      ensures stopped || OpenCandidates(memory.memories) == []
    {
      hide ReflectedCandidates, OpenCandidates, LawfulCourse, QuietFrom, CalmAgain, Cycle, ApplyAll, WonderOps;
      ghost var s, c := memory.View(), Course(seasons, cfg, memory.words);
      ghost var bound := QuietLifeEnds(s, c, q, calm);
      var dry := 0;
      ended := 0;
      while true
        invariant Lived(s, c, ended) == Moment(memory.View(), dry, Living)
        decreases bound - ended
      {
        BeforeBound(s, c, ended, bound);
        var season := seasons(ended);
        if season.stop {
          return true, ended;
        }
        var explored, failed := director.RunCycle(season.choices);
        if OpenCandidates(memory.memories) == [] {
          NoWonder(season.wonder, memory.View(), memory.words);
          memory.ExecuteAll(WonderOps(season.wonder));
          dry := if season.wonder == [] then dry + 1 else 0;
          if dry >= MAX_DRY {
            return false, ended;
          }
        } else {
          dry := 0;
        }
        memory.ExecuteAll(season.dream);
        ended := ended + 1;
      }
    }
  }

  lemma BeforeBound(s: StoreState, c: Course, i: nat, bound: nat)
    requires Lived(s, c, i).ending == Living && Lived(s, c, bound).ending != Living
    ensures i < bound
  {
    hide NextMoment;
    if bound <= i {
      OverStays(s, c, bound, i);
    }
  }

  lemma NoWonder(wonder: seq<string>, t: StoreState, words: Words)
    ensures wonder == [] ==> ApplyAll(t, WonderOps(wonder), words) == t
  {
  }

  // ---- Lives that never end ----

  /** Every question wondered is non-empty, stored and closed. */
  ghost predicate Known(ms: seq<Step>, wonder: seq<string>) {
    forall q :: q in FirstThree(wonder) ==> q != "" && Settled(ms, "question", q)
  }

  /** If wondering always returns something, and only questions stored and closed at the start, it never
      adds anything, yet the dry streak restarts with every pass: life never ends by itself. */
  lemma {:induction false} RepeatedWonderNeverEnds(s: StoreState, c: Course, n: nat)
    requires LawfulCourse(c)
    requires forall i: nat :: !c.seasons(i).stop && c.seasons(i).wonder != [] && Known(s.memories, c.seasons(i).wonder)
    ensures Passes(s, c, n)
    ensures var t := Cycle(Lived(s, c, n).store, c.seasons(n).choices, c.cfg, c.words).0;
            RootsAll(t, WonderOps(c.seasons(n).wonder), c.words) == 0
    decreases n
  {
    hide Settled, Cycle, ApplyAll, LawfulSeason, RootsAll;
    var season := c.seasons(n);
    forall q | q in FirstThree(season.wonder)
      ensures Settled(Cycle(Lived(s, c, n).store, season.choices, c.cfg, c.words).0.memories, "question", q)
    {
      LifeKeepsSettled(s, c, n, q);
    }
    KnownAddsNothing(Cycle(Lived(s, c, n).store, season.choices, c.cfg, c.words).0, FirstThree(season.wonder), c.words);
    if n > 0 {
      RepeatedWonderNeverEnds(s, c, n - 1);
    }
  }

  lemma {:induction false} LifeKeepsSettled(s: StoreState, c: Course, n: nat, q: string)
    requires LawfulCourse(c) && Settled(s.memories, "question", q) && q != ""
    ensures Settled(Lived(s, c, n).store.memories, "question", q)
    ensures Settled(Cycle(Lived(s, c, n).store, c.seasons(n).choices, c.cfg, c.words).0.memories, "question", q)
    decreases n
  {
    hide Settled, Cycle, ApplyAll, RootsAll, AllWithin, LawfulPhase, WonderOps, OpenCandidates;
    if n > 0 {
      LifeKeepsSettled(s, c, n - 1, q);
      var m, season := Lived(s, c, n - 1), c.seasons(n - 1);
      var t, u := Cycle(m.store, season.choices, c.cfg, c.words).0, Wondered(m.store, season, c.cfg, c.words);
      assert LawfulSeason(season);
      WonderWithin(season.wonder);
      ApplyAllKeepsSettled(t, WonderOps(season.wonder), c.words, 0, "question", q);
      ApplyAllKeepsSettled(u, season.dream, c.words, 0, "question", q);
    }
    assert LawfulSeason(c.seasons(n));
    CycleKeepsSettled(Lived(s, c, n).store, c.seasons(n).choices, c.cfg, c.words, "question", q);
  }

  lemma {:induction false} KnownAddsNothing(t: StoreState, questions: seq<string>, words: Words)
    requires forall q :: q in questions ==> q != "" && Settled(t.memories, "question", q)
    ensures RootsAll(t, SubQuestionOps("", 0, questions), words) == 0
    decreases questions
  {
    hide Apply, Settled, FindMergeable;
    if questions != [] {
      var m, ops := SubQuestionStep("", 0, questions[0]), SubQuestionOps("", 0, questions);
      assert questions[0] in questions;
      assert ops[0] == Add(m) && ops[1..] == SubQuestionOps("", 0, questions[1..]);
      KnownIsMerged(t, m, words);
      forall q | q in questions[1..] ensures q != "" && Settled(Apply(t, Add(m), words).memories, "question", q) {
        assert q in questions;
        ApplyKeepsSettled(t, Add(m), words, 0, "question", q);
      }
      KnownAddsNothing(Apply(t, Add(m), words), questions[1..], words);
    }
  }

  lemma KnownIsMerged(t: StoreState, m: Step, words: Words)
    requires m.kind == "question" && m.content != "" && m.scope == LongTerm
             && Settled(t.memories, "question", m.content)
    ensures FindMergeable(m, t.memories, words).Some?
  {
    hide FindMergeable;
    FindMergeableSound(m, t.memories, words);
    var e :| e in t.memories && HasKey(e, "question", m.content);
    assert Restates(m, e, words);
  }

  /** A gate above one never lets a life end on its own while fewer questions than that are open. */
  lemma {:induction false} HighGateNeverEnds(s: StoreState, c: Course, n: nat)
    requires 0 < |OpenCandidates(s.memories)| < c.cfg.minOpen
    requires forall i: nat :: !c.seasons(i).stop && c.seasons(i).dream == []
    ensures Lived(s, c, n) == Moment(s, 0, Living)
    decreases n
  {
    hide OpenCandidates;
    if n > 0 {
      HighGateNeverEnds(s, c, n - 1);
    }
  }
}
