/** The agent's memory: steps, and what each store operation does to the list of steps, the batch
    depth and the backend. `words` stands for the tokeniser (lower-cased words without stop words). */
module Memory {
  import opened Lists
  import opened Text

  datatype StepKind = TaskStep | ActionStep | ObservationStep | PlanningStep | MemoryStep | ReflectionStep
  datatype Scope = ShortTerm | LongTerm
  datatype Status = Open | Testing | Resolved | Decomposed
  datatype Verdict = Supported | Refuted | Inconclusive

  /** `content` is the content of memories and reflections, `body` the printed action or observation,
      `stamp` everything the store never looks into (source, evidence, creation time, ...). */
  datatype Step = Step(
    stepKind: StepKind, kind: string, scope: Scope, tags: seq<string>, content: string, body: string,
    credibility: real, status: Status, relation: string, depth: nat, supported: nat, refuted: nat, stamp: string)

  type Words = string -> set<string>

  // ---- Merging on add ----

  predicate IsQuestion(kind: string) {
    kind == "question" || kind == "contradiction"
  }

  predicate IsMergeable(kind: string) {
    kind == "theory" || kind == "verification" || kind == "experiment"
  }

  /** Word overlap of at least three quarters. */
  predicate Overlaps(a: set<string>, b: set<string>) {
    4 * |a * b| >= 3 * |a + b|
  }

  /** The new long-term step `m` restates the existing step `e`. */
  predicate Restates(m: Step, e: Step, words: Words) {
    && m.scope == LongTerm && m.content != ""
    && e.scope == LongTerm && e.kind == m.kind
    && if IsQuestion(m.kind) then e.content == m.content
       else && IsMergeable(m.kind) && words(m.content) != {}
            && (e.content == m.content
                || (words(e.content) != {} && Overlaps(words(m.content), words(e.content))))
  }

  function FindMergeable(m: Step, ms: seq<Step>, words: Words): Option<nat> {
    if ms == [] then None
    else if Restates(m, ms[0], words) then Some(0)
    else match FindMergeable(m, ms[1..], words) case None => None case Some(i) => Some(i + 1)
  }

  function Min(a: real, b: real): real {
    if a < b then a else b
  }

  function Clamp(x: real): real {
    if x < 0.0 then 0.0 else Min(1.0, x)
  }

  function Corroborated(e: Step): Step {
    e.(credibility := Min(1.0, e.credibility + 0.1),
       tags := if "corroborated" in e.tags then e.tags else e.tags + ["corroborated"])
  }

  function Added(m: Step, ms: seq<Step>, words: Words): seq<Step> {
    match FindMergeable(m, ms, words)
    case None => ms + [m]
    case Some(i) => if i < |ms| then ms[i := Corroborated(ms[i])] else ms
  }

  // ---- Pruning and compaction ----

  function PruneFilter(scope: Option<Scope>, tag: string): Step -> bool {
    (m: Step) => (scope.None? || m.scope == scope.value) && (tag == "" || tag in m.tags)
  }

  /** How many of `matches` matching steps go when the last `keepLast` are kept. */
  function PruneCount(matches: nat, keepLast: int): nat {
    if keepLast <= 0 then matches else if matches <= keepLast then 0 else matches - keepLast
  }

  function Pruned(ms: seq<Step>, scope: Option<Scope>, tag: string, keepLast: int): seq<Step> {
    var p := PruneFilter(scope, tag);
    RemoveFirst(ms, PruneCount(|Filter(ms, p)|, keepLast), p)
  }

  /** Short-term steps under the tag, except the task statement. */
  function Candidate(tag: Option<string>): Step -> bool {
    (m: Step) => m.scope == ShortTerm && (tag.None? || tag.value in m.tags) && m.stepKind != TaskStep
  }

  /** `len(str(content or action or observation))`, where a missing text prints as "None". */
  function StepChars(m: Step): nat {
    if m.content != "" then |m.content|
    else if m.body != "" then |m.body|
    else if m.stepKind == ObservationStep then 0 else 4
  }

  function SumChars(ms: seq<Step>): nat {
    if ms == [] then 0 else StepChars(ms[0]) + SumChars(ms[1..])
  }

  datatype Limits = Limits(maxSteps: nat, maxChars: nat)

  /** How many of the newest candidates compaction keeps, if it runs at all. */
  function Keep(candidates: seq<Step>, limits: Limits): Option<nat> {
    if |candidates| > limits.maxSteps then Some(limits.maxSteps)
    else if SumChars(candidates) > limits.maxChars && |candidates| > 1 then Some(|candidates| / 2)
    else None
  }

  function Joined(ms: seq<Step>): string {
    if ms == [] then ""
    else
      var text := if ms[0].content != "" then ms[0].content else ms[0].body;
      var rest := Joined(ms[1..]);
      if text == "" then rest else if rest == "" then text else text + "; " + rest
  }

  /** The brain's summary, or the deterministic digest when it gave none. */
  function SummaryText(summary: string, older: seq<Step>): string {
    if summary != "" then summary
    else
      var joined := Joined(older);
      "Compacted: " + if |joined| > 200 then joined[..197] + "..." else joined
  }

  function SummaryStep(tag: Option<string>, text: string): Step {
    Step(MemoryStep, "experience", LongTerm,
         if tag.Some? && tag.value != "" then [tag.value, "compact"] else ["compact"],
         text, "", 0.5, Open, "", 0, 0, 0, "")
  }

  function Compacted(ms: seq<Step>, tag: Option<string>, limits: Limits, summary: string, words: Words): seq<Step> {
    var candidates := Filter(ms, Candidate(tag));
    match Keep(candidates, limits)
    case None => ms
    case Some(keep) =>
      var n := if keep <= |candidates| then |candidates| - keep else 0;
      Added(SummaryStep(tag, SummaryText(summary, candidates[..n])), RemoveFirst(ms, n, Candidate(tag)), words)
  }

  // ---- Changing entries in place ----

  function Marked(m: Step, hypothesis: string, status: Status): Step {
    if m.stepKind == ReflectionStep && IsQuestion(m.kind) && m.content == hypothesis then m.(status := status) else m
  }

  function SetStatus(ms: seq<Step>, hypothesis: string, status: Status): seq<Step> {
    seq(|ms|, i requires 0 <= i < |ms| => Marked(ms[i], hypothesis, status))
  }

  function Delta(verdict: Verdict): real {
    match verdict case Supported => 0.2 case Refuted => -0.3 case Inconclusive => 0.0
  }

  /** A verdict on `question` moves the conjectures recorded for it. */
  function Judged(m: Step, question: string, verdict: Verdict): Step {
    if m.kind == "conjecture" && m.relation == question && verdict != Inconclusive then
      m.(credibility := Clamp(m.credibility + Delta(verdict)),
         supported := m.supported + (if verdict == Supported then 1 else 0),
         refuted := m.refuted + (if verdict == Refuted then 1 else 0))
    else m
  }

  function JudgeAll(ms: seq<Step>, question: string, verdict: Verdict): seq<Step> {
    seq(|ms|, i requires 0 <= i < |ms| => Judged(ms[i], question, verdict))
  }

  /** The reflector's relevance channel: skips reflections and conjectures. */
  function Believed(m: Step, supported: bool): Step {
    if m.stepKind != MemoryStep || m.kind == "conjecture" then m
    else
      m.(credibility := Clamp(m.credibility + if supported then 0.1 else -0.2),
         supported := m.supported + (if supported then 1 else 0),
         refuted := m.refuted + (if supported then 0 else 1))
  }

  /** `chosen` holds the positions that keyword relevance selected. */
  function BelieveAll(ms: seq<Step>, chosen: set<nat>, supported: bool): seq<Step> {
    seq(|ms|, i requires 0 <= i < |ms| => if i in chosen then Believed(ms[i], supported) else ms[i])
  }

  /** Some credibility among the first `n` steps differs, of a step that has content to report. */
  predicate CredibilityMoved(before: seq<Step>, after: seq<Step>, n: nat)
    requires n <= |before| == |after|
  {
    && n > 0
    && (|| CredibilityMoved(before, after, n - 1)
        || (before[n - 1].content != "" && before[n - 1].credibility != after[n - 1].credibility))
  }

  // ---- The store as a state machine ----

  datatype StoreState = StoreState(memories: seq<Step>, batchDepth: nat, disk: Option<seq<Step>>)

  datatype Op =
    | Add(step: Step)
    | AddSteps(steps: seq<Step>)
    | Prune(scope: Option<Scope>, tag: string, keepLast: int)
    | Compact(compactTag: Option<string>, limits: Limits, summary: string)
    | Mark(hypothesis: string, status: Status)
    | Judge(question: string, verdict: Verdict)
    | Believe(chosen: set<nat>, supports: bool)
    | Batch(body: seq<Op>)  // also what a run that raises leaves: the operations up to the exception

  function Save(s: StoreState): StoreState {
    if s.batchDepth > 0 then s else s.(disk := Some(s.memories))
  }

  function SaveWith(s: StoreState, ms: seq<Step>): StoreState {
    Save(s.(memories := ms))
  }

  function Apply(s: StoreState, op: Op, words: Words): StoreState
    decreases op, 1
  {
    match op
    case Add(m) => SaveWith(s, Added(m, s.memories, words))
    case AddSteps(steps) => SaveWith(s, s.memories + steps)
    case Prune(scope, tag, keepLast) => SaveWith(s, Pruned(s.memories, scope, tag, keepLast))
    case Compact(tag, limits, summary) =>
      if Keep(Filter(s.memories, Candidate(tag)), limits).None? then s
      else SaveWith(s, Compacted(s.memories, tag, limits, summary, words))
    case Mark(hypothesis, status) => SaveWith(s, SetStatus(s.memories, hypothesis, status))
    case Judge(question, verdict) =>
      if verdict == Inconclusive then s else SaveWith(s, JudgeAll(s.memories, question, verdict))
    case Believe(chosen, supports) =>
      var after := BelieveAll(s.memories, chosen, supports);
      if CredibilityMoved(s.memories, after, |after|) then SaveWith(s, after) else s.(memories := after)
    case Batch(body) =>
      var inside := ApplyAll(s.(batchDepth := s.batchDepth + 1), body, words);
      Save(inside.(batchDepth := s.batchDepth))
  }

  function ApplyAll(s: StoreState, ops: seq<Op>, words: Words): StoreState
    decreases ops, 0
  {
    if ops == [] then s else ApplyAll(Apply(s, ops[0], words), ops[1..], words)
  }

  // ---- The agent's loop: persist the action and its observation, then compact ----

  datatype Persisted = Persisted(action: Step, observation: Step, summary: string)

  function Persist(s: StoreState, task: string, step: Persisted, limits: Limits, words: Words): StoreState {
    Apply(Apply(s, AddSteps([step.action, step.observation]), words), Compact(Some(task), limits, step.summary), words)
  }

  function PersistAll(s: StoreState, task: string, steps: seq<Persisted>, limits: Limits, words: Words): StoreState
    decreases steps
  {
    if steps == [] then s else PersistAll(Persist(s, task, steps[0], limits, words), task, steps[1..], limits, words)
  }
}
