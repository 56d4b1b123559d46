# SwayBot: a verified model of its deterministic core

SwayBot is an LLM agent. Models and tools are unpredictable; the machinery around them is not. This
project models that machinery in Dafny and proves what it promises. Model calls, tool bodies, clocks,
random choices and text heuristics are parameters, so every theorem holds whatever they answer.

Code that changes things in place is a class or a loop, proved equal to a specification function;
theorems are then proved about that function for every input, run or interleaving.

| part | files |
|---|---|
| Conversation grammar, context trimming, the half-duplex turn machine | `Conversation`, `Trim`, `TrimTheorems`, `TurnMachine`, `TurnTheorems`, `TurnReadings` |
| Canonical call arguments, the repeat-call and the non-convergence guard | `Json`, `Escapes`, `Canonical`, `RepeatGuard`, `Convergence` |
| Memory store, pruning, compaction, batched saves | `Lists`, `Memory`, `Store`, `MemoryTheorems`, `StoreEffects` |
| Self-evolution: experiments, decomposition, the life loop, the evidence ledger | `Evolution`, `Candidates`, `EvolutionTheorems`, `Gates`, `Rounds`, `Life`, `Ledger` |
| Batches of tool calls with concurrent groups | `Batch`, `ToolBatch` |
| File edits under per-path locks, and when their order matters | `Edits`, `Locks`, `FileTools`, `FileRaces` |
| The job scheduler | `Jobs`, `Scheduler`, `SchedulerTheorems`, `SchedulerLiveness` |
| Goals shared by a coordinator and its workers | `Goals`, `Coordinator`, `GoalRaces` |
| The three storage backends | `Lines`, `RawBreaks`, `Streams`, `Backends` |
| Stratified sampling and generations | `Sampling` |
| Options, decimal numbers, joined texts, distinct lists | `Text` |

`dafny verify dfyconfig.toml` checks everything.

## What turned out to be false

The code is modelled as it is. Where a promise of its documentation does not hold, a lemma shows the
input, and where it could be found, the exact condition is proved.

- `edit_file` says it rejects an `old_string` that appears more than once. It counts matches that do
  not overlap, so a pattern that can overlap itself slips through; the promise holds for a pattern
  exactly when no proper suffix of it is a prefix of it (`Edits.RejectsAmbiguityIff`).
- `write_file` and `edit_file` keep the default `concurrency_safe=True`. Two actions that write different texts to
  one file need not end as left-to-right (`FileRaces.WriteFileIsNotSafe`). Under the path locks any number of file
  calls leave the same files and get the same replies for every schedule exactly when they do so in every order one
  after another (`FileRaces.AllSchedulesAgreeIff`): writes, when writes of one file write the same text
  (`FileRaces.WritesAgreeIff`); two calls, when they name different files or commute (`FileRaces.TwoCallsAgreeIff`).
- An unknown tool name does not stop a batch at its own place: the whole concurrent group in front of it
  does not run either (`Batch.UnknownStopsItsGroup`).
- `stop` resets every `running_count`; the counters are right afterwards exactly when the cancelled tasks
  have ended by then (`SchedulerTheorems.StopCountsIffDrained`). Otherwise a one-shot job can be entered
  again after a restart while its first run is still under way (`SchedulerTheorems.UndrainedStopRunsTwice`), from a
  state that an allowed run reaches (`SchedulerTheorems.UndrainedStopIsReached`). A `start` during the `stop` restarts
  the scheduler, and then the reset hits it: again right exactly when the tasks have ended
  (`SchedulerTheorems.StartDuringStopCountsIffDrained`).
- A one-shot job is not always started by the first pass after it is added: `start` loads the times saved under its
  id, and a later one overrules (`SchedulerLiveness.SavedTimeDelaysOneShot`). With that state counted in, a pass starts
  exactly what is due (`SchedulerLiveness.PassStartsByHistory`).
- A resumed goal can end "done" with a subtask left in progress; "done" means all done, whatever the agent
  does, exactly when no subtask was in progress (`Goals.ResumeDoneIff`).
- After a timed-out subtask, the stored goal is the returned one exactly when no worker saves after the
  end (`GoalRaces.StoredIffNoLateSave`).
- "From some point on nothing new is asked" does not end the life loop: a question that is wondered again
  is merged, yet restarts the dry streak, so a life that always wonders about settled questions never ends
  (`Life.RepeatedWonderNeverEnds`). Life ends exactly when three passes in a row leave nothing open and wonder
  nothing (`Life.LifeEndsIff`); once nothing more is added, every pass from some point on leaves nothing open,
  so it never ends exactly if it comes to a season from which on no three in a row are silent
  (`Life.QuietLifeNeverEndsIff`).
- "Converges by construction" needs the questions to be reflections. A candidate that is a plain memory has no
  status to set and is explored in every cycle. One comes in when a stored record is loaded that has the kind of a
  question, only fields of a memory, and no `step_kind`, an unknown one or "memory" (swaybot/memory.py:535-543).
  The experiments of runs without new roots are bounded exactly when every candidate is a reflection, with the life
  loop's gate of one open question (`EvolutionTheorems.ConvergesIff`). Behind a gate of any height idle cycles go on
  without end exactly if, dropping reflections as they are explored, a plain memory comes to the front with enough
  candidates beside it (`Gates.IdleNeverEndsIff`).
- Outside a batch the backend does not always hold the store's list: a belief update is saved only if a
  credibility moved, so support for a fact of credibility 1.0 is counted in memory alone
  (`MemoryTheorems.CertainFactIsNotSaved`). The list is saved after every operation exactly when no
  update moves counters alone (`MemoryTheorems.ApplyAllSync`).
- The non-convergence guard promises a notice when the count crosses a threshold, but compares for equality. Whatever
  it observes, every crossing is noticed exactly when no counted action can pass more than one task step
  (`Convergence.CrossingsAreNoticedIff`); `Convergence.SkippedIsUnnoticed` is a run with a skipped step.
- Call ids restart at `call_1` with every session. Over an opening history that already holds such an id they
  collide: they stay distinct over every legal run exactly when the ids so far are distinct and none is one that
  a later turn generates (`TurnTheorems.IdsStayDistinctIff`).
- JSON lines keep a stream line for line, and give its records back, exactly when no string holds U+0085, U+2028 or
  U+2029 (`Lines.StreamRoundTrip`, `RawBreaks.RecordsComeBackIff`), and drop list elements that are no objects
  (`Streams.SavedStreamsAgreeIff`).
- Test and control of one generation are drawn from the same tasks, and some draws put a task in both. They are
  apart for all draws exactly when one of them is wanted empty or no task is left (`Sampling.SameGenerationApartIff`).

## Model

| member | source | states |
|---|---|---|
| `Trim.CollectAnchors` | benchmarks/tau3bench/adapter.py:848-857 | the anchors are the first two user or plain assistant messages among the first three, and the index set marks exactly their positions |
| `Trim.CollectRecent` | benchmarks/tau3bench/adapter.py:858-869 | walking back from the newest message collects the suffix of the non-anchor messages that the budget window describes |
| `Trim.DropOrphanResults` | benchmarks/tau3bench/adapter.py:870-873 | drops exactly the leading tool results |
| `Trim.DropSuperseded` | benchmarks/tau3bench/adapter.py:881-891 | the in-place pop and append loop drops every plain assistant message that another assistant message follows |
| `Trim.TrimMessagesForContext` | benchmarks/tau3bench/adapter.py:823-891 | the loops together compute the specified trimming, and nothing is trimmed up to 60 messages |
| `TrimTheorems.WindowIsMaximal` | benchmarks/tau3bench/adapter.py:858-869 | for any message list the window is the longest suffix of the non-anchors whose text, contents and call arguments together, fits the budget the anchors leave; every longer one exceeds it; the newest message is always taken |
| `TrimTheorems.WindowOfHistory` | benchmarks/tau3bench/adapter.py:848-869 | on a well-formed history the window is a suffix of the history after its opening, the longest whose text has at most 60,000 characters together with the opening |
| `TrimTheorems.TrimIsMaximal` | benchmarks/tau3bench/adapter.py:848-869 | what a well-formed history of more than 60 messages is trimmed to comes of its opening and the longest stretch at its end that fits 60,000 characters with it, call arguments counted: with one message more it would not |
| `TrimTheorems.TrimShape` | benchmarks/tau3bench/adapter.py:848-891 | what trimming loses on a well-formed history is one stretch after the opening, ending at a block boundary, and then only superseded plain assistant messages |
| `TrimTheorems.SettleLosesOnlyPlain` | benchmarks/tau3bench/adapter.py:876-891 | the repair keeps order, keeps every message that is not plain assistant text, and never grows |
| `TrimTheorems.SettleKeepsBlocks` | benchmarks/tau3bench/adapter.py:876-891 | the repair keeps every call with all its results and leaves no two adjacent assistant messages |
| `TrimTheorems.TrimKeepsHistory` | benchmarks/tau3bench/adapter.py:831-891 | trimming a well-formed history gives a well-formed history that is a subsequence of it, without adjacent assistant messages when it trims, losing beyond an older stretch only plain assistant messages |
| `TrimTheorems.TrimBoundsSize` | benchmarks/tau3bench/adapter.py:837-891 | when it trims, the text of the output, contents and call arguments, has at most 60,000 characters, or no more than that of the opening and the newest message |
| `TrimTheorems.TrimFixed` | benchmarks/tau3bench/adapter.py:823-891 | a well-formed history without adjacent assistants whose text has at most 60,000 characters is left alone |
| `TrimTheorems.TrimIdempotent` | benchmarks/tau3bench/adapter.py:823-891 | trimming a trimmed well-formed history changes nothing |
| `TurnMachine.HalfDuplexAgent.constructor` | benchmarks/tau3bench/adapter.py:943-951 | a session starts from the converted history with all counters, flags and directives empty |
| `TurnMachine.HalfDuplexAgent.Queue` | benchmarks/tau3bench/adapter.py:674-681 | a tool found in text is queued with zero turns unless it was prompted before |
| `TurnMachine.HalfDuplexAgent.QueueErrorDirectives` | benchmarks/tau3bench/adapter.py:690-738 | every result may queue a not-given and then a not-unlocked directive, in order |
| `TurnMachine.HalfDuplexAgent.TakeIn` | benchmarks/tau3bench/adapter.py:959-1002 | the whole intake: step counter, converted messages, error directives, search count and the sticky exhaustion |
| `TurnMachine.HalfDuplexAgent.CountKbResult` | benchmarks/tau3bench/adapter.py:985-997 | a search result is counted, its last tool content may queue directives, and the 14th exhausts the search |
| `TurnMachine.HalfDuplexAgent.RefreshHints` | benchmarks/tau3bench/adapter.py:1030-1042 | satisfied directives and those with six turns go, the others age by one turn, in order |
| `TurnMachine.HalfDuplexAgent.GenerateNextMessage` | benchmarks/tau3bench/adapter.py:953-1226 | one turn of the agent changes every session field, answers and hands messages to the brain as the turn function says |
| `TurnTheorems.ReceivedIsHistory` | benchmarks/tau3bench/adapter.py:965-967 | an accepted user message or complete answer to the pending call completes the conversation into a well-formed history |
| `TurnTheorems.RunKeepsProtocol` | benchmarks/tau3bench/adapter.py:953-1226 | over every legal run the conversation stays well formed and every list handed to the brain satisfies the protocol |
| `TurnTheorems.CallIdInjective` | benchmarks/tau3bench/adapter.py:1181 | two steps never print the same call id |
| `TurnTheorems.RunKeepsIdsDistinct` | benchmarks/tau3bench/adapter.py:1181-1211 | if the ids in use are distinct and none is one that a later turn generates, then whatever comes in, that stays so over a run |
| `TurnTheorems.IdsStayDistinctIff` | benchmarks/tau3bench/adapter.py:943-1211 | from a session that may call a tool on its next turn, whatever that takes in, ids stay distinct over every legal run exactly under that premise |
| `TurnTheorems.RunRespectsCap` | benchmarks/tau3bench/adapter.py:985-1060 | at most 14 assistant messages ever carry a search if the opening history keeps to it, and a capped session stays capped and emits no calls |
| `TurnTheorems.NoCallsOnceCapped` | benchmarks/tau3bench/adapter.py:1045-1154 | from the turn after the cap is reached no reply carries any tool call, wherever in the run that is |
| `TurnTheorems.FreeTurnReplies` | benchmarks/tau3bench/adapter.py:1157-1226 | on a turn that need not be the last a final answer says the brain's `answer`, an echo its `message`, "done" and no name its `text`, empty text becomes "Done.", a registered tool is called once with its normalised arguments, and an unregistered one is named in text |
| `TurnTheorems.ForcedTurnReplies` | benchmarks/tau3bench/adapter.py:1120-1226 | on a turn that must be the last the brain's own answer goes out unless it wants a tool by name or by its text; then the answer made up from the conversation does |
| `TurnTheorems.RunKeepsBooks` | benchmarks/tau3bench/adapter.py:652-738 | over every run each discoverable tool is queued at most once and its directive injected on at most six turns |
| `TurnTheorems.NoInjectionOnceHanded` | benchmarks/tau3bench/adapter.py:740-752 | no directive is injected once a give or unlock call naming its tool is in the history, be it of the opening history or of an earlier turn |
| `TurnReadings.WhatComesInIsKept` | benchmarks/tau3bench/adapter.py:305-452 | the user's text comes in as it is, and of each result what is stored of it under the name of the one call it answers, be that call of the opening history or of this session |
| `TurnReadings.NewSessionIsInOrder` | benchmarks/tau3bench/adapter.py:943-951 | a new session over a well-formed opening whose call ids are distinct, not empty and not of the generated form meets what the theorems on its runs ask |
| `TurnReadings.SearchesAreCounted` | benchmarks/tau3bench/adapter.py:976-1060 | over every legal run the search count is the number of turns that brought the answer of a call whose name begins with "KB_search", and a turn must be the last exactly when fourteen have, or fourteen messages hold such calls |
| `TurnReadings.AtMostFourteenSearches` | benchmarks/tau3bench/adapter.py:985-1154 | from the turn on that brings the fourteenth answer of a search no reply calls a tool, and no conversation gets beyond fourteen messages with searches |
| `TurnReadings.WhatIsQueued` | benchmarks/tau3bench/adapter.py:652-738 | a message queues, in order and each tool once in a conversation, what the errors of its results ask for and then, if it answers a search, what the text kept of its last result asks for |
| `TurnReadings.InjectedIff` | benchmarks/tau3bench/adapter.py:740-752 | a directive is injected on a turn exactly when its tool was queued by then, it was injected on fewer than six turns before, and no call so far gives or unlocks the tool |
| `Json.PrintUnique` | swaybot/loop_guards.py:50-52 | two values whose printed texts agree in front of delimited text are the same value in front of the same text |
| `Json.PrintInjective` | swaybot/loop_guards.py:50-52 | `json.dumps` prints different values differently, escapes and surrogate pairs included |
| `Escapes.PrintedStringReads` | swaybot/loop_guards.py:50-52 | a string as `json.dumps` prints it between the quotes is read back by the escapes of section 7 of RFC 8259, surrogate pairs included, with and without ASCII only |
| `Canonical.CanonicalExact` | swaybot/loop_guards.py:40-52 | the canonical texts of two argument values are equal exactly when the values are equal up to key order at every depth |
| `Canonical.KeyLessMeans` | swaybot/loop_guards.py:50-52 | keys are sorted as Python orders strings: a proper prefix first, else by the first character that differs |
| `RepeatGuard.KeyExact` | swaybot/loop_guards.py:152-154 | two calls have the same key exactly when they have the same name and arguments equal up to key order |
| `RepeatGuard.RepeatRunIsLongest` | swaybot/loop_guards.py:156-162 | the exact count is the length of the longest suffix of calls equal to the last one |
| `RepeatGuard.NameRunIsLongest` | swaybot/loop_guards.py:171-177 | the name count is the length of the longest suffix of calls with the last one's name |
| `RepeatGuard.RepeatNeverExceedsName` | swaybot/loop_guards.py:13-26 | an exact repeat is always a name repeat |
| `RepeatGuard.RepeatCallGuard.Reset` | swaybot/loop_guards.py:136-141 | both chains start over |
| `RepeatGuard.RepeatCallGuard.Observe` | swaybot/loop_guards.py:143-187 | both counts are the run lengths of the calls since the reset, and the notice follows from them and the thresholds, exact repeats first, with the arguments cut to the preview length |
| `RepeatGuard.NoticeMeans` | swaybot/loop_guards.py:163-187 | a run as long as some threshold gets a notice, gentle at the smallest threshold and with tool, length and arguments at the others, a run of equal calls before a run of one name; no other run does |
| `Convergence.NonConvergenceGuard.Reset` | swaybot/loop_guards.py:240-244 | nothing is counted and no step is set afterwards |
| `Convergence.NonConvergenceGuard.SetStep` | swaybot/loop_guards.py:246-253 | the task step is remembered for the next action; the count is left alone |
| `Convergence.NonConvergenceGuard.Observe` | swaybot/loop_guards.py:255-286 | an answer restarts the count in silence; any other action is counted and gets the notice of the count it reaches |
| `Convergence.CountIsStepsTaken` | swaybot/loop_guards.py:220-228 | while the task step rises the count is the number of task steps since the last answer, skipped ones included |
| `Convergence.NoActionGoesUncounted` | swaybot/loop_guards.py:268-278 | whatever steps are set, the count is at least the number of actions since the last answer |
| `Convergence.NudgeMeans` | swaybot/loop_guards.py:276-286 | only a count that is a threshold gets a notice, a gentle one at the smallest and one that says the count at the others; an answer never does |
| `Convergence.CrossingsAreNoticedIff` | swaybot/loop_guards.py:210-280 | over all observations, every crossing of a threshold gets its notice when it happens exactly when no counted action can pass more than one step |
| `Convergence.SkippedIsUnnoticed` | swaybot/loop_guards.py:271-280 | the failing run: one step below a threshold, and then two steps on |
| `Lists.RemoveEachIsOldest` | swaybot/memory.py:501-502 | removing the n oldest matches one by one by equality is removing the first n matches by position |
| `Lists.DeleteMatches` | swaybot/memory.py:428-432 | deleting matching indices from the back removes exactly the first n matches |
| `Store.MemoryStore.constructor` | swaybot/memory.py:199-203 | a store starts outside any batch, with what the backend holds under its key, or empty |
| `Store.MemoryStore.SaveNow` | swaybot/memory.py:388-391 | writes the list, unless inside a batch |
| `Store.MemoryStore.FindDuplicate` | swaybot/memory.py:228-265 | finds the first entry that the new one restates |
| `Store.MemoryStore.AddStep` | swaybot/memory.py:212-226 | corroborates the restated entry in place or appends, then saves |
| `Store.MemoryStore.Extend` | swaybot/memory.py:267-270 | appends all steps without merging, then saves |
| `Store.MemoryStore.PruneSteps` | swaybot/memory.py:410-434 | removes all matching steps but the last kept ones and returns how many went |
| `Store.MemoryStore.CompactSteps` | swaybot/memory.py:458-513 | removing the oldest candidates by equality and adding a summary does what compaction by position says, and reports whether it ran |
| `Store.MemoryStore.MarkQuestions` | swaybot/evolution.py:561-572 | every reflection that asks this question gets the status, nothing else changes |
| `Store.MemoryStore.UpdateConjectures` | swaybot/evolution.py:430-452 | a decisive verdict moves exactly the conjectures recorded for the question |
| `Store.MemoryStore.UpdateBeliefs` | swaybot/reflection.py:128-171 | relevant entries move by +0.1 or -0.2, reflections and conjectures excepted, and it saves only if the credibility of some entry with content moved |
| `Store.MemoryStore.PersistRun` | swaybot/agent.py:297-325 | each action and observation is appended under its task tag and compaction follows |
| `Store.MemoryStore.ExecuteBatch` | swaybot/memory.py:393-408 | a body inside a batch writes once, at the end of the outermost batch |
| `Store.MemoryStore.EnterBatch` | swaybot/memory.py:402 | the batch depth goes up by one and nothing is written |
| `Store.MemoryStore.ExitBatch` | swaybot/memory.py:405-408 | the batch depth goes down by one, and the outermost exit writes the list |
| `MemoryTheorems.FindMergeableSound` | swaybot/memory.py:228-265 | the entry found is restated by the new one, and none is when nothing is found |
| `MemoryTheorems.ApplyAllKeepsTidy` | swaybot/memory.py:205-265 | over any operations no two long-term questions share a non-empty content, no two entries of a mergeable kind overlap by three quarters, and credibilities stay in [0, 1] |
| `MemoryTheorems.ApplySync` | swaybot/memory.py:388-408 | one operation outside a batch leaves backend and list in agreement exactly if it is no belief update that moves counters alone |
| `MemoryTheorems.ApplyAllSync` | swaybot/memory.py:388-408 | nothing is written inside any nesting of batches, the depth comes back, and outside the backend holds the list after every operation exactly if no belief update moves counters alone |
| `MemoryTheorems.CertainFactIsNotSaved` | swaybot/reflection.py:143-171 | support for a fact of credibility 1.0 is counted in memory and not saved |
| `MemoryTheorems.CompactKeepsNewest` | swaybot/memory.py:458-513 | exactly the newest candidates survive in order, every other step is untouched, one summary is appended and the candidates strictly shrink |
| `MemoryTheorems.RunBound` | swaybot/agent.py:297-325 | after every persisted step of a run at most `max_steps` candidates carry its task tag |
| `StoreEffects.AddGives` | swaybot/memory.py:205-265 | a step is appended, or the first stored entry that says the same becomes a tenth more credible, up to 1, and is tagged; the same is the same question to the letter, or a theory, verification or experiment in the same words or with 75 in a hundred of all words shared |
| `StoreEffects.MarkGives` | swaybot/evolution.py:561-572 | exactly the reflections that ask the question, or note it as a contradiction, get the status |
| `StoreEffects.JudgeGives` | swaybot/evolution.py:430-452 | support moves a conjecture on the question up by 0.2 to at most 1, refutation down by 0.3 to no less than 0, each counted; no other entry moves |
| `StoreEffects.BelieveGives` | swaybot/reflection.py:128-171 | a relevant memory moves up by 0.1 to at most 1 or down by 0.2 to no less than 0, counted; reflections, conjectures and all others stay |
| `StoreEffects.PruneGives` | swaybot/memory.py:410-434 | of the steps with the scope and tag given the newest `keep_last` stay, none if that is not positive, and every other step does |
| `StoreEffects.CompactGives` | swaybot/memory.py:458-533 | compaction runs exactly for more than `max_steps` candidates, or more than one and too many characters; the newest `max_steps`, or the newer half, stay and one tagged summary of the others is appended, the brain's or their texts, cut at 200 characters to 197 and dots |
| `Evolution.SelfEvolutionDirector.RunCycle` | swaybot/evolution.py:249-305 | the rounds of a cycle, with their gate and their order of store operations, and the entries explored; with a minimum of 0 it fails exactly when nothing is open before the rounds are up |
| `EvolutionTheorems.TreeWeightClosed` | swaybot/evolution.py:454-496 | a question at depth d costs at most (3^(D-d+1) - 1) / 2 experiments, itself included |
| `EvolutionTheorems.ApplyAllKeepsSettled` | swaybot/memory.py:235-244 | no question that left "open" becomes open again, whatever operations follow |
| `Candidates.ApplyAllKeepsCandidates` | swaybot/evolution.py:307-324 | while questions come in as reflections, no operation makes a plain memory a candidate, the window of the newest 50 included |
| `EvolutionTheorems.RoundLowersTotal` | swaybot/evolution.py:258-305 | one experiment on a reflection lowers the weight of the open questions by at least one, up to the roots its run adds |
| `EvolutionTheorems.RoundSettles` | swaybot/evolution.py:258-305 | an experiment leaves its question settled |
| `Rounds.CandidatesAre` | swaybot/evolution.py:307-324 | the candidates are the open ones among the fifty newest contradictions and the fifty newest questions: shallow before deep, at one depth contradictions first and old before new |
| `Rounds.InconclusiveSplits` | swaybot/evolution.py:258-305 | after an inconclusive verdict above the depth bound each of the first three sub-questions is stored as a long-term question, open, one level deeper and related to its parent, unless it was stored before, and every reflection that asks the explored question is decomposed |
| `Rounds.OtherwiseNothingIsSplit` | swaybot/evolution.py:294-298 | on any other verdict, at the depth bound, or with nothing offered, the long-term questions and contradictions are those the run left, each with its status |
| `Rounds.RoundIsRecorded` | swaybot/evolution.py:281-293 | whatever the verdict, a round leaves an experiment on the explored question with its note, unless one in mostly the same words was stored |
| `EvolutionTheorems.CycleLowersTotal` | swaybot/evolution.py:249-305 | while every candidate is a reflection, a cycle's experiments are paid for by the weight it removes, and the candidates stay reflections |
| `EvolutionTheorems.EvolutionBound` | swaybot/evolution.py:249-324 | from an empty store, over any number of cycles with anything in between, experiments are at most (3^(D+1) - 1) / 2 per root ever added, and no question lies deeper than D |
| `EvolutionTheorems.ThirteenPerRoot` | swaybot/evolution.py:237 | at the default depth bound of 2 that is 13 |
| `EvolutionTheorems.EvolveNeverRepeats` | swaybot/evolution.py:307-324 | no question with a non-empty content is explored twice in a whole life |
| `EvolutionTheorems.PlainMemoryIsExploredForever` | swaybot/evolution.py:561-572 | in any store with a candidate that is a plain memory, any number of cycles that add nothing all run an experiment |
| `EvolutionTheorems.ConvergesIff` | swaybot/evolution.py:20-21 | with a gate of at most one, the experiments of all runs without new roots have a bound exactly when every candidate is a reflection |
| `Gates.CandidatesAfterIdle` | swaybot/evolution.py:307-324 | a round that stores nothing but its record drops from the candidates exactly the reflections that ask its question, and keeps the order of the rest |
| `Gates.PlainMemoryPassesAnyGate` | swaybot/evolution.py:258-264 | behind any gate, a plain memory that comes first and keeps enough candidates beside it is the one explored in every cycle |
| `Gates.IdleNeverEndsIff` | swaybot/evolution.py:258-324 | behind any gate, exactly which candidates keep idle cycles exploring without end |
| `Gates.BoundedAtAnyGate` | swaybot/evolution.py:20-21 | at any gate the experiments are bounded if every candidate is a reflection, and not if idle cycles alone never end |
| `Life.PassLowersTotal` | swaybot/evolution.py:760-784 | a pass's experiments are paid for by weight and by what its runs, wondering and dream really add; only a pass that leaves nothing open runs none |
| `Life.LifeEndsIff` | swaybot/evolution.py:772-778 | for any outside world life has ended by itself exactly if three passes in a row left nothing open and wondered nothing |
| `Life.QuietLifeWeight` | swaybot/evolution.py:752-784 | once nothing more is added, the passes that leave something open are at most the weight of the open questions then |
| `Life.QuietLifeSettles` | swaybot/evolution.py:752-784 | so from some pass on nothing is left open and a pass is dry exactly when it wonders nothing |
| `Life.QuietLifeEnds` | swaybot/evolution.py:752-784 | and such a life ends if three silent seasons in a row come again and again |
| `Life.QuietLifeNeverEndsIff` | swaybot/evolution.py:752-784 | a quiet life never ends exactly if it comes to a season that wonders something and from which on no three in a row are silent |
| `Life.LifeRunner.Live` | swaybot/evolution.py:752-784 | the loop ends under these premises, at the store and in the way the specified life ends, with nothing open unless it was told to stop |
| `Life.RepeatedWonderNeverEnds` | swaybot/evolution.py:772-778 | a life that always wonders something, but only questions stored and closed before, adds nothing by wondering and never ends |
| `Life.HighGateNeverEnds` | swaybot/evolution.py:262-263 | with a gate above the number of open questions nothing is ever explored and life never ends by itself |
| `Ledger.CredibilityIsTheFold` | swaybot/evolution.py:430-452 | over any operations that prune only short-term steps a stored conjecture's credibility is the fold of the verdicts on its question, +0.2 for support and -0.3 for refutation within [0, 1] and nothing when inconclusive, its counters count them, and no other channel touches it |
| `Ledger.RecordedConjectureLedger` | swaybot/evolution.py:408-428 | a recorded conjecture starts at 0.3 with empty counters, and from then on its entry is that fold |
| `Batch.EveryScheduleAgrees` | swaybot/tools/__init__.py:346-354 | if safe calls in states that the batch's actions can come to commute step by step, every interleaving of a group's threads ends with the world and results of running its calls one after another |
| `Batch.StepAbsorbed` | swaybot/tools/__init__.py:346-354 | one atomic step of any thread leaves the left-to-right outcome as it was |
| `FileRaces.AllSchedulesAgreeIff` | swaybot/tools/fs.py:64-148 | any number of file calls in threads under the path locks leave the same files and get the same replies for every schedule exactly when they do so in every order one after another |
| `FileRaces.WritesAgreeIff` | swaybot/tools/fs.py:64-78 | a group of writes agrees for every schedule exactly when writes of one file write the same text |
| `FileRaces.DifferentFilesAgree` | swaybot/tools/fs.py:64-148 | calls on different files agree for every schedule |
| `FileRaces.TwoCallsAgreeIff` | swaybot/tools/fs.py:64-148 | two file calls agree for every schedule, in files and replies, exactly when they name different files or commute on the one they name |
| `FileRaces.TwoWritesCommuteIff` | swaybot/tools/fs.py:64-70 | two writes of one file commute exactly when they write the same text |
| `FileRaces.WriteAndEditCommuteIff` | swaybot/tools/fs.py:64-138 | a write and an edit of one file commute exactly when the edit leaves the written text as it is and replies on it as on the file before |
| `FileRaces.EditKeepsIff` | swaybot/tools/fs.py:138 | an accepted single edit leaves the text as it is exactly when it replaces the pattern by itself |
| `FileRaces.EditsRace` | swaybot/tools/fs.py:112-138 | two edits of one file need not commute: one may make what the other looks for |
| `FileRaces.RepliesRace` | swaybot/tools/fs.py:64-138 | a write and an edit may leave one text in both orders and yet different replies |
| `FileRaces.SecondFirstIff` | swaybot/tools/__init__.py:346-354 | when the second of two file actions of a group goes first, files and replies end as left-to-right exactly when the two commute |
| `FileRaces.WriteFileIsNotSafe` | swaybot/tools/fs.py:64-78 | two actions that write different texts to one file have a legal run that does not end as left-to-right, so declared safe they break the promise |
| `Batch.BatchIsLeftToRight` | swaybot/tools/__init__.py:310-356 | with known names a batch answers each action's own left-to-right result, or the first error in action order, and without errors leaves the left-to-right world |
| `Batch.UnknownStopsItsGroup` | swaybot/tools/__init__.py:332-343 | an unknown or missing name raises before the concurrent group in front of it runs; exactly the actions before that group ran |
| `Batch.GroupIsLongest` | swaybot/tools/__init__.py:332-343 | a group takes in every neighbour that is registered, not exclusive and concurrency-safe, and no other action |
| `Batch.AloneNeverOverlaps` | swaybot/tools/__init__.py:327-330 | in an orderly trace an exclusive or unsafe action never overlaps any other |
| `ToolBatch.ToolRegistry.Execute` | swaybot/tools/__init__.py:270-308 | an action run alone takes its steps until it returns |
| `ToolBatch.ToolRegistry.RunGroup` | swaybot/tools/__init__.py:346-352 | whatever thread goes on at each turn, the group ends as left-to-right execution, each action begun and ended once |
| `ToolBatch.ToolRegistry.GatherGroup` | swaybot/tools/__init__.py:332-343 | a group is the longest run of known, concurrency-safe actions |
| `ToolBatch.ToolRegistry.ExecuteGroup` | swaybot/tools/__init__.py:346-354 | results are stored in action order once the whole group is over, up to the first error |
| `ToolBatch.ToolRegistry.ExecuteAlone` | swaybot/tools/__init__.py:327-330 | an exclusive or unsafe action runs with nothing beside it and stores its result, or is the error of the batch |
| `ToolBatch.ToolRegistry.ExecuteBatch` | swaybot/tools/__init__.py:310-356 | the batch loop answers and changes the world as specified for every schedule; every action that ran began and ended exactly once, after all earlier ones it may not overlap |
| `Edits.CountOneIsOnce` | swaybot/tools/fs.py:130-137 | for a pattern that cannot overlap itself the tool counts one occurrence exactly when there is one |
| `Edits.RejectsAmbiguityIff` | swaybot/tools/fs.py:118-137 | accepted single edits always replace a unique occurrence exactly for patterns that cannot overlap themselves |
| `Edits.SingleEdit` | swaybot/tools/fs.py:138 | an accepted single edit replaces the first occurrence and nothing else |
| `Edits.EditIsSplitAndJoin` | swaybot/tools/fs.py:118-148 | an edit splits the text at the matches found from the left and joins it with the new text in their place, and reports how many there were; without one it reports stale text, and with several it changes nothing unless told to replace all |
| `Edits.EmptyPatternGoesBetween` | swaybot/tools/fs.py:118-148 | an empty pattern is found before every character and at the end |
| `Edits.ReplaceEachLength` | swaybot/tools/fs.py:138-144 | replacing all changes the length by the reported count times the difference in length |
| `Locks.OneInside` | swaybot/tools/file_locks.py:30-34 | two threads inside the critical section of equal resolved paths are the same thread |
| `Locks.MutualExclusion` | swaybot/tools/file_locks.py:22-34 | in every reachable state at most one thread is inside a path's critical section, and threads share a lock object exactly when their resolved paths are equal |
| `Locks.LocksOnlyGrow` | swaybot/tools/file_locks.py:25-29 | over every run the lock map only grows and never changes an entry |
| `Locks.EditsAreSerialisable` | swaybot/tools/fs.py:65-148 | under every interleaving the files and every reply are those of the calls run one after another in lock-acquisition order; no update is lost |
| `Locks.OneMoreCall` | swaybot/tools/fs.py:64-148 | one more call in an order touches only the file its path resolves to; a write leaves its text and reports its length, an edit leaves and reports what it makes of the text |
| `Locks.NoDeadlock` | swaybot/tools/file_locks.py:22-34 | in every reachable state some unfinished call can move, and every move of any call brings the end one turn nearer |
| `FileTools.PathLockManager.Step` | swaybot/tools/file_locks.py:22-34 | one atomic step of one thread changes the shared tables and files as the state machine says, or is blocked |
| `FileTools.PathLockManager.Drive` | swaybot/tools/fs.py:112-148 | any schedule of turns drives the tools to the state of the corresponding run |
| `Scheduler.JobScheduler.AddJob` | swaybot/goals/scheduler.py:78-103 | a fresh job object takes the place of one with its id, or the last place, with its next run computed |
| `Scheduler.JobScheduler.RemoveJob` | swaybot/goals/scheduler.py:105-113 | the job leaves the table, every task of that name is told to cancel, the rest is saved |
| `Scheduler.JobScheduler.ScheduleRun` | swaybot/goals/scheduler.py:204-210 | one more running and one new task that has not started |
| `Scheduler.JobScheduler.VisitJob` | swaybot/goals/scheduler.py:171-179 | a job is started, and its next run computed, exactly if it is enabled, below its limit and due |
| `Scheduler.JobScheduler.LoopPass` | swaybot/goals/scheduler.py:168-179 | a pass visits a snapshot of the jobs in order and starts those that are enabled, below their limit and due |
| `Scheduler.JobScheduler.RunJobNow` | swaybot/goals/scheduler.py:158-165 | starts a job outside its schedule under the same limit |
| `Scheduler.JobScheduler.EnterTask` | swaybot/goals/scheduler.py:212-217 | a task enters its job's body, unless it was cancelled before its first step |
| `Scheduler.JobScheduler.LeaveTask` | swaybot/goals/scheduler.py:220-226 | the count goes down, the time is noted, a one-shot job is disabled, the state is saved |
| `Scheduler.JobScheduler.LoadState` | swaybot/goals/scheduler.py:279-290 | registered jobs that were saved get their times back and a count of zero |
| `Scheduler.JobScheduler.PersistState` | swaybot/goals/scheduler.py:268-277 | the loop saves the times of exactly the registered jobs under their ids |
| `Scheduler.JobScheduler.Start` | swaybot/goals/scheduler.py:130-137 | a scheduler that is not running loads the saved times and becomes active, also while a stop is under way; a running one is left alone |
| `Scheduler.JobScheduler.StopBegin` | swaybot/goals/scheduler.py:141-146 | an active scheduler starts to stop and tells every task to cancel |
| `Scheduler.JobScheduler.StopEnd` | swaybot/goals/scheduler.py:154-156 | every registered job's count is reset and the state saved; one restarted meanwhile stays active |
| `SchedulerTheorems.RunningCountIsLive` | swaybot/goals/scheduler.py:158-226 | in every interleaving an active scheduler's `running_count` is the job's number of live tasks and never exceeds `max_running` |
| `SchedulerTheorems.StopCountsIffDrained` | swaybot/goals/scheduler.py:139-156 | `stop` leaves the counters right exactly when every task of a registered job has ended before the reset |
| `SchedulerTheorems.StartDuringStopCountsIffDrained` | swaybot/goals/scheduler.py:130-156 | after a `start` during a `stop` the scheduler is active and counts right exactly when every task of a registered job has ended before the reset |
| `SchedulerTheorems.OneShotRunsOnce` | swaybot/goals/scheduler.py:212-226 | over every interleaving, stops and restarts included, a one-shot job with `max_running` 1 enters its body at most once |
| `SchedulerTheorems.UndrainedStopRunsTwice` | swaybot/goals/scheduler.py:139-156 | a one-shot body that outlives `stop` does not keep the job from being entered again after a restart, while the first run is still under way |
| `SchedulerTheorems.UndrainedStopIsReached` | swaybot/goals/scheduler.py:139-165 | an allowed run leads to such a body: added, started by hand, entered, and then `stop` |
| `SchedulerTheorems.IntervalRunsKeepApart` | swaybot/goals/scheduler.py:228-246 | over every interleaving, reloads included, two loop-started runs of an interval job are at least `seconds` apart |
| `SchedulerLiveness.PassStartsWhatIsDue` | swaybot/goals/scheduler.py:167-246 | over every legal run a registered, enabled job below its limit, not started since its next run was computed, is started by a pass exactly when the time has come: at once for a one-shot, its seconds after the later of last run and computation for an interval job, at the next time its expression gives for a cron job |
| `SchedulerLiveness.PassStartsByHistory` | swaybot/goals/scheduler.py:78-290 | over every legal run a pass starts a job, with one task, exactly when it is registered and enabled, has fewer live tasks than `max_running`, and its own history, loaded state included, says that it is due |
| `SchedulerLiveness.SavedTimeDelaysOneShot` | swaybot/goals/scheduler.py:230-231 | a saved next run under its id keeps a one-shot job that was added for an earlier time from being started |
| `Goals.WalkSettles` | swaybot/goals/coordinator.py:200-204 | each open subtask ends with its own outcome, every other one as it was |
| `Goals.WalkExecutes` | swaybot/goals/coordinator.py:216-218 | exactly the pending and failed subtasks are executed, each once, in order |
| `Goals.EachRunIsSaved` | swaybot/goals/coordinator.py:242-278 | each execution is saved three times: under way in a running goal, then with its status and result, then with the goal between subtasks |
| `Goals.FreshSavesAreOrderly` | swaybot/goals/coordinator.py:200-204 | in every copy saved by a fresh run at most one subtask is in progress, finished ones before it, untouched ones after it |
| `Goals.SavesLoseNothing` | swaybot/goals/coordinator.py:242-314 | every save by coordinator or worker carries over all that was stored but the one subtask it is about |
| `Goals.FreshDoneIffAllDone` | swaybot/goals/coordinator.py:206-209 | a fresh run ends "done" exactly when every subtask is done, and "failed" otherwise |
| `Goals.ResumeDoneIff` | swaybot/goals/coordinator.py:211-223 | a resumed goal's "done" means all done, whatever the agent does, exactly when no subtask was left in progress |
| `Goals.RetryKeepsDone` | swaybot/goals/coordinator.py:225-234 | a retry never runs a done subtask again or changes it, and gives every failed or pending one exactly one new outcome |
| `Goals.RetryOfDoneRunsNothing` | swaybot/goals/coordinator.py:225-234 | retrying a goal whose subtasks are all done runs nothing, saves no subtask and changes none |
| `Coordinator.GoalCoordinator.SubtaskJob` | swaybot/goals/coordinator.py:280-314 | the worker loads its own copy, runs the subtask with that id and saves the copy with the result; an unknown subtask fails without saving, an unknown goal raises |
| `Coordinator.GoalCoordinator.PlanGoal` | swaybot/goals/coordinator.py:188-199 | the four copies that creating, planning and starting a goal save, one subtask standing in for an empty plan |
| `Coordinator.GoalCoordinator.ExecuteSubtask` | swaybot/goals/coordinator.py:242-278 | marks, waits for the worker and records: three saves, one execution |
| `Coordinator.GoalCoordinator.WalkSubtasks` | swaybot/goals/coordinator.py:200-204 | the loop over the subtasks saves, executes and returns what the walk says, touching no other goal |
| `Coordinator.GoalCoordinator.RunGoal` | swaybot/goals/coordinator.py:188-209 | a fresh goal is created, planned (one subtask if the plan is empty), walked over and concluded, with every copy it saves |
| `Coordinator.GoalCoordinator.Resume` | swaybot/goals/coordinator.py:211-223 | walks over a stored goal and concludes it, or raises for an unknown id without any change |
| `Coordinator.GoalCoordinator.Retry` | swaybot/goals/coordinator.py:225-234 | resets the failed subtasks, saves, and resumes |
| `GoalRaces.EveryInterleavingIsTheWalk` | swaybot/goals/coordinator.py:242-314 | without timeouts every interleaving of coordinator and workers ends with the goal of the sequential walk, stored and returned |
| `GoalRaces.ReturnedGoalIsTheWalk` | swaybot/goals/coordinator.py:242-278 | for every interleaving and whatever waits time out, the returned goal is the sequential walk with the outcome "subtask timed out" in place of each that did |
| `GoalRaces.NoUpdateIsLost` | swaybot/goals/coordinator.py:242-314 | without timeouts no atomic step of any interleaving changes more than one stored subtask |
| `GoalRaces.ReturnedGoalIsRight` | swaybot/goals/coordinator.py:206-209 | even with timeouts the goal a fresh run returns is "done" exactly when all its subtasks are |
| `GoalRaces.NoLateSaveIsStored` | swaybot/goals/coordinator.py:263-278 | whatever workers start when, as long as none saves after the end the stored goal is the returned one |
| `GoalRaces.StoredIffNoLateSave` | swaybot/goals/coordinator.py:263-278 | if no worker starts after the end, the stored goal is the returned one exactly when none saves after the end; one that does puts it back under way |
| `Lines.FramingRoundTrip` | swaybot/storage.py:201-206 | lines written one after another come back from `splitlines` as they were exactly when none holds a line separator |
| `Lines.LinesComeBackIff` | swaybot/storage.py:201-223 | lines come back as they were written exactly when none holds one of the ten characters at which Python ends a line |
| `Lines.CarriageReturnNewline` | swaybot/storage.py:223 | a carriage return with a newline after it ends one line, not two |
| `Lines.BlankLinesAreSkipped` | swaybot/storage.py:223-226 | lines of nothing but white space are as if they were not there |
| `Lines.PrintNoBreak` | swaybot/storage.py:204-205 | a printed record holds no line separator exactly when no string in it, keys included, holds U+0085, U+2028 or U+2029 |
| `Lines.StreamRoundTrip` | swaybot/storage.py:198-235 | a stream of records keeps its lines exactly when every record is clean, and then loads as it was saved |
| `RawBreaks.LoadedIsClean` | swaybot/storage.py:215-235 | whatever values are written, every record read from the pieces of their lines is clean |
| `RawBreaks.RecordsComeBackIff` | swaybot/storage.py:198-235 | a stream of records loads as it was saved exactly when every record is clean |
| `RawBreaks.HonestParserExists` | swaybot/storage.py:228 | a parser exists that reads printed values back and takes raw separators only from texts that hold them |
| `Lines.ParserExists` | swaybot/storage.py:228 | a parser that reads every printed value back exists, since printing is injective |
| `Streams.LimitMeans` | swaybot/storage.py:176-177 | a positive limit gives the newest records, 0 gives all, a negative one skips the oldest |
| `Streams.LegalKeyMeans` | swaybot/storage.py:71-78 | a key is legal exactly when it is not empty and replacing every other character than ASCII letters, digits, underscore and hyphen by an underscore leaves it as it is |
| `Streams.SavedStreamsAgreeIff` | swaybot/storage.py:127-135 | a saved list or object loads as the same stream from JSON lines as from the others exactly when every list element is an object and no string holds a raw separator |
| `Streams.QueryMeans` | swaybot/storage.py:180-187 | a query answers with exactly the objects of the stream that hold, for every filter, a value equal to the one asked for, a missing key holding null, in the order of the stream |
| `Backends.JSONBackend.Append` | swaybot/storage.py:159-170 | a list grows, a missing value becomes a list, any other value is an error |
| `Backends.JSONBackend.Save` | swaybot/storage.py:150-157 | a legal key holds the value from then on, an illegal one is an error without effect |
| `Backends.JSONBackend.Delete` | swaybot/storage.py:113-115 | a legal key is gone, whether or not it was there |
| `Backends.JSONBackend.LoadStream` | swaybot/storage.py:172-178 | the normalised stream under the key, cut by the limit |
| `Backends.JSONBackend.Query` | swaybot/storage.py:180-187 | the objects of the stream that meet every filter, in order |
| `Backends.InMemoryBackend.Append` | swaybot/storage.py:281-289 | a list grows, a missing or null value becomes a list, any other value is an error; only the empty key is refused |
| `Backends.InMemoryBackend.Query` | swaybot/storage.py:303-310 | the objects of the stream that meet every filter, in order |
| `Backends.JSONLBackend.Append` | swaybot/storage.py:208-213 | one printed line is added at the end of the file |
| `Backends.JSONLBackend.Query` | swaybot/storage.py:237-243 | the records read from the file that meet every filter, in order |
| `Backends.JSONBackend.Do` | swaybot/storage.py:138-187 | each legal operation answers and changes the files as the abstract map of streams does |
| `Backends.JSONLBackend.Save` | swaybot/storage.py:198-206 | writes one printed line a record |
| `Backends.JSONLBackend.LoadStream` | swaybot/storage.py:215-235 | reads the objects on the file's lines, skipping blank, broken and other ones, then applies the limit |
| `Backends.JSONLBackend.Do` | swaybot/storage.py:190-243 | each legal operation answers and changes the text files as the abstract map of streams does |
| `Backends.InMemoryBackend.Do` | swaybot/storage.py:246-310 | each legal operation answers and changes the dictionary as the abstract map of streams does |
| `Backends.DoAll` | swaybot/storage.py:138-310 | any sequence of legal operations gets the same answers from all three backends, those of one map from key to records |
| `Sampling.BuildPools` | experiments/tau3-improve-20261024/run_rsi.py:52-57 | the pools hold the tasks that are not excluded, by stratum, and the keys are the strata that occur, sorted |
| `Sampling.StratifiedSample` | experiments/tau3-improve-20261024/run_rsi.py:50-67 | the loop returns the sample that the generator's draws make |
| `Sampling.SampleOfIsSample` | experiments/tau3-improve-20261024/run_rsi.py:50-67 | whatever is drawn, the sample holds exactly min(n, eligible) eligible tasks dealt round-robin; the loop divides by zero exactly when tasks are wanted and none is eligible |
| `Sampling.RoundRobinIsBalanced` | experiments/tau3-improve-20261024/run_rsi.py:60-66 | a stratum with tasks left has at most one pick fewer than any other |
| `Sampling.SampleIsDistinct` | experiments/tau3-improve-20261024/run_rsi.py:53-56 | a sample of distinct tasks is distinct and holds no excluded task |
| `Sampling.PicksFit` | experiments/tau3-improve-20261024/run_rsi.py:63-66 | picks never exceed what is eligible, and the pools are empty exactly when all has been picked |
| `Sampling.AheadFalls` | experiments/tau3-improve-20261024/run_rsi.py:60-64 | a skipped turn brings the next stratum with tasks one turn nearer, so the loop ends |
| `Sampling.RunGenerations` | experiments/tau3-improve-20261024/run_rsi.py:199-204 | every generation's batches are samples of what earlier generations left; the experiment fails exactly when a batch is wanted empty or none is left for a generation still to come, and otherwise no batch is empty |
| `Sampling.GenerationsAreDisjoint` | experiments/tau3-improve-20261024/run_rsi.py:190-201 | batches of different generations share no task |
| `Sampling.SameGenerationApartIff` | experiments/tau3-improve-20261024/run_rsi.py:200-201 | test and control of one generation share no task for all draws exactly when one is wanted empty or nothing is left |
| `Sampling.MoreThanLeftOverlaps` | experiments/tau3-improve-20261024/run_rsi.py:200-201 | they share a task for all draws when together they want more than are left |

## Left out

- Model backends, HTTP API, command line, web, shell and git tools, prompts, logging, metrics and benchmark drivers: their answers are parameters.
- The regular expressions and summarisers of the adapter: functions on opaque text; plans, order payments and guidance texts do not influence the modelled state. A missing or null `content` is the empty string; tool arguments that are no dictionary, which crash the turn, are not modelled.
- Lone surrogates in strings: Dafny characters are Unicode scalar values. A number is held as the text Python prints for it.
- `RepeatGuard.RepeatCallGuard.Observe`: the constructors' errors for bad thresholds and preview lengths are preconditions, for both guards.
- `TurnMachine.HalfDuplexAgent.TakeIn`: remembering the task, the orders' payment methods and the last search content are left out; no other modelled field depends on them.
- `TurnMachine.HalfDuplexAgent.GenerateNextMessage`: the perception leaves out guidance texts, the plan and the shell nudges.
- `Store.MemoryStore.UpdateConjectures`: the time of the last verification is not modelled.
- `Store.MemoryStore.UpdateBeliefs`: neither that time nor the reflection it returns is modelled.
- Store steps are values: `last_verified_at`, evidence lists and sharing of one step object by two lists are not modelled. `effective_credibility` (wall-clock decay) is left out.
- `Evolution.SelfEvolutionDirector.RunCycle`: what the agent does inside a round is an arbitrary list of store operations; the theorems ask that questions come in as reflections, that `add_steps` brings short-term steps, that pruning keeps to them and that no status is set back to open. A question stored as a task, action, observation or planning step has no content and raises when explored; in the model its content is empty.
- `EvolutionTheorems.ConvergesIff`: the equivalence over all runs is for a gate of at most one open question, the life loop's; behind a higher gate, the director's default, `Gates.BoundedAtAnyGate` and the equivalence for idle cycles hold.
- `Life.LifeRunner.Live`: when a dream is due depends on an event count that does not count rounds; here dreams come when they come. Seeding the questions and writing the sediment views are left out.
- `ToolBatch.ToolRegistry.Execute`: argument validation and the dispatch to providers are part of the body's outcome.
- `ToolBatch.ToolRegistry.ExecuteBatch`: each call's steps are bounded by its own state (tools return); argument validation is part of a body's outcome; tool providers are part of the registry.
- `Locks.EditsAreSerialisable`: write errors other than an unreadable file, text encodings and the code-quality hooks are left out; the locks serve one process, as in the source.
- The scheduler's clock is an integer, `croniter` a function. Runs by hand only while it is active, `start` only outside a `stop` under way, and `stop` waiting for its tasks are what the theorems over whole runs ask of callers. A body in a worker thread may still be at work after its task was cancelled.
- `GoalRaces.StoredIffNoLateSave`: asks that no worker starts after the goal has ended, which `stop` sees to for a scheduler of the coordinator's own; under a shared one only `GoalRaces.NoLateSaveIsStored` is proved. `cancel` edits another copy of the goal and never reaches a running one; it is left out.
- The coordinator's subtask ids are distinct, as random ids are meant to be. A failing agent factory is a timeout.
- `Lines.StreamRoundTrip`: `json.loads` is any function that reads printed values back (and, where records that are not clean matter, takes separators only from texts that hold them); the indented text of the JSON backend is held as its value. `create` and `list_keys` are left out.
- `Streams.SavedStreamsAgreeIff`: leaves out a bare string, no list and no object, that holds a raw line separator; what becomes of its fragments depends on the parser.
- `Backends.InMemoryBackend.Append`: the caller's list, which the in-memory backend keeps and appends to, is not shared in the model.
- `Sampling.StratifiedSample`: the random generator is any function from draws to numbers; workflow and persona are any function of the task.
- `swaybot/parsing.py`, `AsyncAgent`, `MessageBus`, permission and todo tools: lenient text recovery and facts of one branch.
