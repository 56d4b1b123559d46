/** The self-evolution director: pick the shallowest open question, run one experiment on it, record
    the verdict, and split it into at most three deeper questions when the verdict is inconclusive.
    What the brain and the agent's run do is given by a `Choice`. */
module Evolution {
  import opened Lists
  import opened Memory
  import opened Store

  // ---- Open candidates ----

  function OfKind(kind: string): Step -> bool {
    (m: Step) => m.kind == kind && m.scope == LongTerm
  }

  function IsOpen(): Step -> bool {
    (m: Step) => m.status == Open
  }

  function Newest(ms: seq<Step>, limit: nat): seq<Step> {
    if |ms| <= limit then ms else ms[|ms| - limit..]
  }

  /** The open ones among the last 50 entries of the kind. */
  function OpenOf(ms: seq<Step>, kind: string): seq<Step> {
    Filter(Newest(Filter(ms, OfKind(kind)), 50), IsOpen())
  }

  /** Stable insertion: before the first entry at least as deep. */
  function InsertByDepth(m: Step, ms: seq<Step>): seq<Step> {
    if ms == [] || m.depth <= ms[0].depth then [m] + ms else [ms[0]] + InsertByDepth(m, ms[1..])
  }

  function SortByDepth(ms: seq<Step>): seq<Step> {
    if ms == [] then [] else InsertByDepth(ms[0], SortByDepth(ms[1..]))
  }

  /** Contradictions before questions, shallow before deep. */
  function OpenCandidates(ms: seq<Step>): seq<Step> {
    SortByDepth(OpenOf(ms, "contradiction") + OpenOf(ms, "question"))
  }

  // ---- One experiment ----

  /** What the brain and the agent contribute to one round: the conjecture it designed, the store
      operations of the run (reflections, belief updates, compaction, pruning, ...), the verdict,
      the note recorded, and the sub-questions offered after an inconclusive verdict. */
  datatype Choice = Choice(conjecture: string, run: seq<Op>, verdict: Verdict, note: string, subQuestions: seq<string>)

  datatype Config = Config(minOpen: nat, maxDepth: nat)

  function ConjectureStep(question: string, conjecture: string): Step {
    Step(MemoryStep, "conjecture", LongTerm, ["conjecture"], conjecture, "", 0.3, Open, question, 0, 0, 0, "director")
  }

  function ExperimentStep(question: string, note: string): Step {
    Step(MemoryStep, "experiment", LongTerm, ["experiment"], note, "", 0.5, Open, question, 0, 0, 0, "director")
  }

  function SubQuestionStep(parent: string, depth: nat, question: string): Step {
    Step(ReflectionStep, "question", LongTerm, [], question, "", 0.5, Open, parent, depth, 0, 0, "reflector")
  }

  function ConjectureOps(question: string, conjecture: string): seq<Op> {
    if conjecture == "" || conjecture == question then [] else [Add(ConjectureStep(question, conjecture))]
  }

  function SubQuestionOps(parent: string, depth: nat, questions: seq<string>): seq<Op> {
    if questions == [] then []
    else [Add(SubQuestionStep(parent, depth, questions[0]))] + SubQuestionOps(parent, depth, questions[1..])
  }

  function FirstThree(questions: seq<string>): seq<string> {
    if |questions| <= 3 then questions else questions[..3]
  }

  function DecomposeOps(entry: Step, c: Choice, maxDepth: nat): seq<Op> {
    if c.verdict != Inconclusive || entry.depth >= maxDepth || c.subQuestions == [] then []
    else SubQuestionOps(entry.content, entry.depth + 1, FirstThree(c.subQuestions)) + [Mark(entry.content, Decomposed)]
  }

  /** The store operations of one round on `entry`, in order. */
  function RoundOps(entry: Step, c: Choice, maxDepth: nat): seq<Op> {
    ConjectureOps(entry.content, c.conjecture)
    + [Mark(entry.content, Testing)]
    + c.run
    + [Judge(entry.content, c.verdict), Add(ExperimentStep(entry.content, c.note))]
    + DecomposeOps(entry, c, maxDepth)
  }

  /** Rounds while enough candidates are open: the new state and the entries explored. */
  function Cycle(s: StoreState, choices: seq<Choice>, cfg: Config, words: Words): (StoreState, seq<Step>)
    decreases choices
  {
    var candidates := OpenCandidates(s.memories);
    if choices == [] || candidates == [] || |candidates| < cfg.minOpen then (s, [])
    else
      var entry := candidates[0];
      var (t, explored) :=
        Cycle(ApplyAll(s, RoundOps(entry, choices[0], cfg.maxDepth), words), choices[1..], cfg, words);
      (t, [entry] + explored)
  }

  lemma CycleGoesOn(s: StoreState, choices: seq<Choice>, cfg: Config, words: Words)
    ensures var candidates := OpenCandidates(s.memories);
            if choices == [] || candidates == [] || |candidates| < cfg.minOpen then
              Cycle(s, choices, cfg, words) == (s, [])
            else
              var (t, more) :=
                Cycle(ApplyAll(s, RoundOps(candidates[0], choices[0], cfg.maxDepth), words), choices[1..], cfg, words);
              Cycle(s, choices, cfg, words) == (t, [candidates[0]] + more)
  {
    hide OpenCandidates, ApplyAll, RoundOps;
  }

  class SelfEvolutionDirector {
    const memory: MemoryStore
    const cfg: Config

    constructor (memory: MemoryStore, cfg: Config)
      ensures this.memory == memory && this.cfg == cfg
    {
      this.memory, this.cfg := memory, cfg;
    }

    /** `choices` holds one entry per round the cycle may run. A minimum of no open questions is an
        index error in the code as soon as none is open: the cycle breaks off there. */
    method RunCycle(choices: seq<Choice>) returns (explored: seq<Step>, failed: bool)
      modifies memory
      ensures var (end, all) := Cycle(old(memory.View()), choices, cfg, memory.words);
              memory.View() == end && explored == all
      ensures failed <==> cfg.minOpen == 0 && |explored| < |choices|
    {
      hide OpenCandidates, ApplyAll, RoundOps, Cycle;
      explored, failed := [], false;
      var k := 0;
      while k < |choices|
        invariant 0 <= k == |explored| <= |choices|
        invariant var (t, more) := Cycle(memory.View(), choices[k..], cfg, memory.words);
                  var (end, all) := Cycle(old(memory.View()), choices, cfg, memory.words);
                  t == end && explored + more == all
      {
        var candidates := OpenCandidates(memory.memories);
        CycleGoesOn(memory.View(), choices[k..], cfg, memory.words);
        if |candidates| < cfg.minOpen {
          break;
        }
        if candidates == [] {
          return explored, true;
        }
        assert choices[k..][1..] == choices[k + 1..];
        memory.ExecuteAll(RoundOps(candidates[0], choices[k], cfg.maxDepth));
        explored := explored + [candidates[0]];
        k := k + 1;
      }
      CycleGoesOn(memory.View(), choices[k..], cfg, memory.words);
    }
  }
}
