/** What each store operation leaves in the list of steps, in figures: which entry moves, by how much,
    and which entries go. */
module StoreEffects {
  import opened Lists
  import opened Memory
  import opened MemoryTheorems
  import opened Text

  // ---- Adding ----

  /** Of all the words of the two texts at least 75 in a hundred are in both. */
  predicate MostlyShared(a: set<string>, b: set<string>) {
    100 * |a * b| >= 75 * |a + b|
  }

  /** `m` says what the stored `e` says: the same question or contradiction to the letter, or the same theory,
      verification or experiment in the same or mostly the same words. */
  predicate Repeats(m: Step, e: Step, words: Words) {
    && m.scope == LongTerm && e.scope == LongTerm && e.kind == m.kind && m.content != ""
    && if m.kind == "question" || m.kind == "contradiction" then e.content == m.content
       else if m.kind == "theory" || m.kind == "verification" || m.kind == "experiment" then
         words(m.content) != {} &&
         (e.content == m.content || (words(e.content) != {} && MostlyShared(words(m.content), words(e.content))))
       else false
  }

  lemma RepeatsIsRestates(m: Step, e: Step, words: Words)
    ensures Repeats(m, e, words) <==> Restates(m, e, words)
  {
  }

  /** An entry that has been said again: a tenth more credible, up to 1, and tagged. */
  predicate SaidAgain(before: Step, after: Step) {
    && after == before.(credibility := after.credibility, tags := after.tags)
    && after.credibility == (if before.credibility + 0.1 > 1.0 then 1.0 else before.credibility + 0.1)
    && after.tags == (if "corroborated" in before.tags then before.tags else before.tags + ["corroborated"])
  }

  /** Adding appends the step, or strengthens the first stored entry that says the same and nothing else. */
  lemma AddGives(s: StoreState, m: Step, words: Words)
    ensures var ms, ns := s.memories, Apply(s, Add(m), words).memories;
            if forall e :: e in ms ==> !Repeats(m, e, words) then ns == ms + [m]
            else exists k :: && 0 <= k < |ms| && Repeats(m, ms[k], words)
                             && (forall j :: 0 <= j < k ==> !Repeats(m, ms[j], words))
                             && |ns| == |ms| && SaidAgain(ms[k], ns[k])
                             && forall j :: 0 <= j < |ms| && j != k ==> ns[j] == ms[j]
  {
    hide FindMergeable, Restates, Repeats;
    var ms, ns := s.memories, Apply(s, Add(m), words).memories;
    FindMergeableSound(m, ms, words);
    FirstFound(m, ms, words);
    forall e ensures Repeats(m, e, words) <==> Restates(m, e, words) { RepeatsIsRestates(m, e, words); }
    if FindMergeable(m, ms, words).Some? {
      var k := FindMergeable(m, ms, words).value;
      assert ms[k] in ms;
      assert SaidAgain(ms[k], ns[k]);
    }
  }

  lemma {:induction false} FirstFound(m: Step, ms: seq<Step>, words: Words)
    ensures var k := FindMergeable(m, ms, words);
            k.Some? ==> forall j :: 0 <= j < k.value && j < |ms| ==> !Restates(m, ms[j], words)
  {
    hide Restates;
    if ms != [] { FirstFound(m, ms[1..], words); }
  }

  // ---- Changing entries in place ----

  /** Only reflections that ask this question, or note this contradiction, get the status. */
  lemma MarkGives(s: StoreState, hypothesis: string, status: Status, words: Words)
    ensures var ms, ns := s.memories, Apply(s, Mark(hypothesis, status), words).memories;
            && |ns| == |ms|
            && forall i :: 0 <= i < |ms| ==>
                 var m := ms[i];
                 ns[i] == if m.stepKind == ReflectionStep && (m.kind == "question" || m.kind == "contradiction")
                             && m.content == hypothesis
                          then m.(status := status) else m
  {
  }

  /** A verdict moves only the conjectures on its question: up by 0.2 to at most 1 when it supports them, down by
      0.3 to no less than 0 when it refutes them, and it is counted. */
  lemma JudgeGives(s: StoreState, question: string, verdict: Verdict, words: Words, i: nat)
    requires i < |s.memories|
    ensures var t := Apply(s, Judge(question, verdict), words).memories;
            |t| == |s.memories| && var before, after := s.memories[i], t[i];
            if before.kind == "conjecture" && before.relation == question then
              0.0 <= before.credibility <= 1.0 ==>
                match verdict
                case Supported =>
                  after == before.(credibility := if before.credibility <= 0.8 then before.credibility + 0.2 else 1.0,
                                   supported := before.supported + 1)
                case Refuted =>
                  after == before.(credibility := if before.credibility >= 0.3 then before.credibility - 0.3 else 0.0,
                                   refuted := before.refuted + 1)
                case Inconclusive => after == before
            else after == before
  {
    hide Judged;
    JudgedGives(s.memories[i], question, verdict);
  }

  lemma JudgedGives(before: Step, question: string, verdict: Verdict)
    ensures var after := Judged(before, question, verdict);
            if before.kind == "conjecture" && before.relation == question then
              0.0 <= before.credibility <= 1.0 ==>
                match verdict
                case Supported =>
                  after == before.(credibility := if before.credibility <= 0.8 then before.credibility + 0.2 else 1.0,
                                   supported := before.supported + 1)
                case Refuted =>
                  after == before.(credibility := if before.credibility >= 0.3 then before.credibility - 0.3 else 0.0,
                                   refuted := before.refuted + 1)
                case Inconclusive => after == before
            else after == before
  {
  }

  /** A belief update moves only the chosen memories that are no conjectures: up by 0.1 to at most 1, or down by 0.2
      to no less than 0, and it is counted. */
  lemma BelieveGives(s: StoreState, chosen: set<nat>, supports: bool, words: Words, i: nat)
    requires i < |s.memories|
    ensures var t := Apply(s, Believe(chosen, supports), words).memories;
            |t| == |s.memories| && var before, after := s.memories[i], t[i];
            if i in chosen && before.stepKind == MemoryStep && before.kind != "conjecture" then
              0.0 <= before.credibility <= 1.0 ==>
                after == if supports then
                           before.(credibility := if before.credibility <= 0.9 then before.credibility + 0.1 else 1.0,
                                   supported := before.supported + 1)
                         else
                           before.(credibility := if before.credibility >= 0.2 then before.credibility - 0.2 else 0.0,
                                   refuted := before.refuted + 1)
            else after == before
  {
    hide CredibilityMoved;
  }

  // ---- Removing ----

  lemma {:induction false} FilterAlike(ms: seq<Step>, p: Step -> bool, q: Step -> bool)
    requires forall m :: p(m) <==> q(m)
    ensures Filter(ms, p) == Filter(ms, q)
  {
    if ms != [] { FilterAlike(ms[1..], p, q); }
  }

  function Not(p: Step -> bool): Step -> bool {
    (m: Step) => !p(m)
  }

  function LastOnes(ms: seq<Step>, n: nat): seq<Step> {
    if n < |ms| then ms[|ms| - n..] else ms
  }

  /** Of the given scope, if one is given, and with the given tag, if one is given. */
  function Matches(scope: Option<Scope>, tag: string): Step -> bool {
    (m: Step) => (scope == None || scope == Some(m.scope)) && (tag != "" ==> tag in m.tags)
  }

  /** Pruning leaves the newest `keepLast` of the matching steps, none if that is not positive, and every other. */
  lemma PruneGives(s: StoreState, scope: Option<Scope>, tag: string, keepLast: int, words: Words)
    ensures var p := Matches(scope, tag);
            var ns := Apply(s, Prune(scope, tag, keepLast), words).memories;
            && Filter(ns, p) == LastOnes(Filter(s.memories, p), if keepLast > 0 then keepLast else 0)
            && Filter(ns, Not(p)) == Filter(s.memories, Not(p))
  {
    hide Filter, RemoveFirst;
    var p, q := PruneFilter(scope, tag), Matches(scope, tag);
    var n := PruneCount(|Filter(s.memories, p)|, keepLast);
    var ns := RemoveFirst(s.memories, n, p);
    RemoveFirstFilter(s.memories, n, p);
    RemoveFirstOthers(s.memories, n, p, Not(q));
    FilterAlike(s.memories, p, q);
    FilterAlike(ns, p, q);
  }

  // ---- Compaction ----

  /** What compaction may take: short-term steps with the tag, if one is given, and never the task. */
  function Compactable(tag: Option<string>): Step -> bool {
    (m: Step) => m.scope == ShortTerm && m.stepKind != TaskStep && (tag == None || tag.value in m.tags)
  }

  /** What a step prints as: its content, else its action or observation, else the word for nothing. */
  function PrintOf(m: Step): string {
    if m.content != "" then m.content
    else if m.body != "" || m.stepKind == ObservationStep then m.body
    else "None"
  }

  function PrintsOf(ms: seq<Step>): seq<string> {
    seq(|ms|, i requires 0 <= i < |ms| => PrintOf(ms[i]))
  }

  /** The content, or else action or observation, of each step that has one. */
  function TextsOf(ms: seq<Step>): seq<string> {
    if ms == [] then []
    else
      var text := if ms[0].content != "" then ms[0].content else ms[0].body;
      (if text == "" then [] else [text]) + TextsOf(ms[1..])
  }

  lemma {:induction false} SumCharsIs(ms: seq<Step>)
    ensures SumChars(ms) == |Join(PrintsOf(ms), "")|
  {
    if ms != [] {
      SumCharsIs(ms[1..]);
      assert PrintsOf(ms)[1..] == PrintsOf(ms[1..]);
      JoinHead(PrintsOf(ms), "");
    }
  }

  lemma {:induction false} JoinedIs(ms: seq<Step>)
    ensures Joined(ms) == Join(TextsOf(ms), "; ")
    ensures Joined(ms) == "" <==> TextsOf(ms) == []
  {
    hide Join;
    if ms == [] {
      JoinHead(TextsOf(ms), "; ");
    } else {
      var texts := TextsOf(ms[1..]);
      JoinedIs(ms[1..]);
      var text := if ms[0].content != "" then ms[0].content else ms[0].body;
      assert TextsOf(ms) == (if text == "" then [] else [text]) + texts;
      assert ([text] + texts)[1..] == texts == [] + texts;
      JoinHead(TextsOf(ms), "; ");
    }
  }

  /** The brain's summary, or the texts compacted: in full up to 200 characters, else the first 197 and dots. */
  predicate IsSummary(text: string, summary: string, older: seq<Step>) {
    if summary != "" then text == summary
    else
      var all := Join(TextsOf(older), "; ");
      if |all| <= 200 then text == "Compacted: " + all
      else |text| == 11 + 200 && text[..11] == "Compacted: " && text[11..208] == all[..197] && text[208..] == "..."
  }

  /** Compaction runs exactly when there are more than `maxSteps` candidates, or more than one and more than
      `maxChars` characters. It leaves the newest `maxSteps`, or the newer half, of them and every other step, and
      appends one long-term summary of those it took. */
  lemma CompactGives(s: StoreState, tag: Option<string>, limits: Limits, summary: string, words: Words)
    ensures var p := Compactable(tag);
            var before := Filter(s.memories, p);
            var ns := Apply(s, Compact(tag, limits, summary), words).memories;
            if |before| > limits.maxSteps || (|before| > 1 && |Join(PrintsOf(before), "")| > limits.maxChars) then
              var keep := if |before| > limits.maxSteps then limits.maxSteps else |before| / 2;
              && Filter(ns, p) == LastOnes(before, keep)
              && ns != [] && IsDigest(ns[|ns| - 1], tag, summary, before[..|before| - keep])
              && Filter(ns, Not(p)) == Filter(s.memories, Not(p)) + [ns[|ns| - 1]]
            else ns == s.memories
  {
    hide Filter, RemoveFirst, Added, SummaryText, Keep, Join, IsDigest, Candidate, Compactable, Not, SummaryStep;
    var before := Filter(s.memories, Candidate(tag));
    CandidatesAreCompactable(tag);
    FilterAlike(s.memories, Candidate(tag), Compactable(tag));
    KeepIs(before, limits);
    if Keep(before, limits).Some? {
      CompactLeaves(s.memories, tag, |before| - Keep(before, limits).value, summary, words);
    }
  }

  lemma KeepIs(before: seq<Step>, limits: Limits)
    ensures Keep(before, limits) ==
            if |before| > limits.maxSteps then Some(limits.maxSteps)
            else if |before| > 1 && |Join(PrintsOf(before), "")| > limits.maxChars then Some(|before| / 2)
            else None
    ensures Keep(before, limits).Some? ==> Keep(before, limits).value < |before|
  {
    hide Join, SumChars;
    SumCharsIs(before);
  }

  lemma CompactLeaves(ms: seq<Step>, tag: Option<string>, n: nat, summary: string, words: Words)
    requires n <= |Filter(ms, Candidate(tag))|
    ensures var p, q := Candidate(tag), Compactable(tag);
            var before := Filter(ms, p);
            var m := SummaryStep(tag, SummaryText(summary, before[..n]));
            var ns := Added(m, RemoveFirst(ms, n, p), words);
            && Filter(ns, q) == before[n..]
            && ns != [] && m == ns[|ns| - 1] && IsDigest(m, tag, summary, before[..n])
            && Filter(ns, Not(q)) == Filter(ms, Not(q)) + [m]
  {
    hide Filter, RemoveFirst, Added, SummaryText, Join, IsSummary, Candidate, Compactable, NotCandidate, Not;
    var p, q := Candidate(tag), Compactable(tag);
    var older := Filter(ms, p)[..n];
    var m := SummaryStep(tag, SummaryText(summary, older));
    var left := RemoveFirst(ms, n, p);
    CandidatesAreCompactable(tag);
    SummaryIsLongTerm(tag, SummaryText(summary, older));
    SummaryIsAppended(tag, SummaryText(summary, older), left, words);
    RemovalThenAppend(ms, n, tag, m);
    FilterAlike(left + [m], p, q);
    FilterAlike(left + [m], NotCandidate(tag), Not(q));
    FilterAlike(ms, NotCandidate(tag), Not(q));
    SummaryIs(summary, older);
  }

  lemma CandidatesAreCompactable(tag: Option<string>)
    ensures forall m :: Candidate(tag)(m) <==> Compactable(tag)(m)
    ensures forall m :: NotCandidate(tag)(m) <==> Not(Compactable(tag))(m)
  {
  }

  lemma SummaryIsLongTerm(tag: Option<string>, text: string)
    ensures !Candidate(tag)(SummaryStep(tag, text))
  {
  }

  predicate IsDigest(m: Step, tag: Option<string>, summary: string, older: seq<Step>) {
    && m.stepKind == MemoryStep && m.kind == "experience" && m.scope == LongTerm && m.credibility == 0.5
    && m.tags == (if tag.Some? && tag.value != "" then [tag.value] else []) + ["compact"]
    && IsSummary(m.content, summary, older)
  }

  lemma SummaryIs(summary: string, older: seq<Step>)
    ensures IsSummary(SummaryText(summary, older), summary, older)
  {
    hide Join, Joined;
    JoinedIs(older);
  }
}
