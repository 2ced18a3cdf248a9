# Verified model of the stress-test robot's core

A Dafny model of the parts of the robot stress-testing system whose correctness does not show from
reading one function: the condition language, the compiled heartbeat layout, the copy-on-write state
tree, the flow executor, the connection and owner protocols, the robot manager, the command log with its
delivery, and the metrics windows. Every statement below is for all inputs, all runs or all
interleavings of the model; nothing here executes the program.

`dafny verify dfyconfig.toml` checks the whole project.

## How the model is laid out

| files | what they model |
|---|---|
| `Values`, `Bytes` | 64-bit integers that wrap, Go's truncating division, dynamic values, trimming, little-endian bytes |
| `Tokenizer`, `Grammar`, `Program`, `Evaluator`, `Compiler` | condition text to tokens, to a syntax tree, to a flat node array, to a value |
| `ConditionMeaning`, `ConditionTexts` | what each operator computes in mathematical terms, and what whole texts answer |
| `Heartbeat`, `HeartbeatRuns` | the append-based heartbeat builder, the compiled layout that reuses one buffer, and whole runs of ticks |
| `HeartbeatMeaning` | what the bytes of each field are, told from the store, counters and readings before the tick |
| `StateTree`, `StateWrites` | lazily navigated messages, overlays with tombstones, and path reads and writes against the plain tree |
| `StateMeaning` | which paths are writable and what a write leaves, in terms of the plain tree alone |
| `FlowRuns`, `Executor` | the node-graph interpreter with its break, continue and skip signals, retries and weighted choice; every answer it was given is recorded in the run |
| `FlowMeaning` | which way each recorded answer sends a node, and which part of the world it was read from |
| `ListenQueue` | the ring queue with its wake token, and the owner's nested wait loop against the network |
| `ResponseChannels`, `Lifecycle`, `Framing` | one-shot response channels, close callbacks, and cutting a byte stream into frames |
| `DoneGate` | when the manager's done channel closes, in single atomic steps and across stage resets |
| `Cleanup`, `RobotManager` | merging cleanup results, the swap-deleted robot list, and what a stop counts |
| `CommandLog`, `CommandDelivery` | the in-memory command log and delivery to an agent over a session |
| `MetricsRecord`, `MetricsWindows` | what one record adds, and cumulative totals against report windows under concurrency |
| `MetricsMeaning` | each counter's share of a record told from the record itself, and what a history holds |

Concurrent protocols are state machines: `Enabled` says when an atomic step may happen, `Next` what it does,
and `Behaviour` is a run from the start state. A mutex-protected section is one step; separate atomic
operations, and code before and after a lock, are separate steps. Code that updates fields in place is a class
whose methods are proved against functions on values.

Inputs from outside are parameters or arbitrary choices: clock readings and random draws are numbered
answers of an oracle (`Heartbeat.Setting`), floating-point operations are uninterpreted (`Values.FloatOps`),
messages that can only be navigated are a record of functions with stated laws (`StateTree.Bases`,
`StateTree.Lawful`), the answers of conditions, outcomes of actions and draws in the executor are read off a
`FlowRuns.World`, while its sleeps, listen registrations and cancellation end anyhow.

## Results that need a condition

- **The done channel.** At the code's own atomics it can close while a robot lives, and across a stage reset its
  completion can be lost for good. `DoneGate.EarlyCloseHappens`, `EarlyCloseAfterReset` and `CompletionCanBeLost` are
  whole runs from the start. The conditions are exact. Adding a robot can lead to an early close if and only if a
  callback that saw the count at zero has not yet read the flag or closed (`AddIsSafeExactly`). Zeroing the count in a
  reset can lead to a lost completion, and to an early close, if and only if a callback of the older stage has passed
  its generation check and not yet decremented (`ZeroIsSafeExactly`). Runs that avoid the second never miss completion
  (`CompletionIsNeverMissed`, which covers every run without a reset); runs that avoid both never close on the living
  (`OnlyStopClosesOnTheLiving`). The comments at `robot/manager.go:83-90` claim both without a condition.
- **Merging cleanup results in parts.** `Cleanup.NestedMerge` gives the result for every input: one merge of
  everything if the merged part counts a robot, and otherwise the part is dropped, including any
  unknown state it carried (`ZeroRobotPartIsForgotten`). Results of robots always count one.
- **Reading back a write.** The value comes back if and only if the plain tree before the write lets the path be
  written (`StateMeaning.ReadBackExactly`): names go anywhere but into a list and create what is missing, indices go to
  elements a list has, and on the way only to maps and lists. A path of names that meets no list always reads back.
- **Apdex counts across windows.** At every report the closed windows hold the cumulative count plus a drift, so they
  agree if and only if the drift is zero (`MetricsWindows.ReportsAddUp`). Only the two Apdex counts can drift, and a
  request contributes exactly when the two thresholds it was rated with put it into different classes
  (`MetricsRecord.SameClassExactly`). `ReportCanDisagree` is a run whose report disagrees.
- **Heartbeat ticks after compilation.** The comment at `engine/heartbeat_plan.go:56-59` says a compiled layout can only
  skip for missing state. `HeartbeatRuns.CompiledOutcome` decides every tick from the store before it: a failure exactly
  when the first state field in trouble holds no number, or is missing without the skip option, a skip exactly when it
  is missing with the option. `CompiledCanFail` gives both failures.
- **Waking a blocked owner.** `ListenQueue.NoLostWakeUp` holds exactly while the connection is open; after a close the
  owner can be left blocked on a message (`CloseStrandsAMessage`), until its deadline or cancellation.

## Model

| member | source | states |
|---|---|---|
| `Values.ParseDecimal` | flow/condition_compile.go:376-389 | every 64-bit integer is read back from its decimal text, also with a plus sign or a zero in front, and nothing beyond 64 bits is read |
| `Tokenizer.ScanOne` | flow/condition_tokenizer.go:35-152 | one scanning step by index equals the token the specification scans there, or the same refusal |
| `Tokenizer.SkipPathTail` | flow/condition_tokenizer.go:74-104 | the loop over `.name` and `[N]` continuations finds the end of the longest path |
| `Tokenizer.Tokenize` | flow/condition_tokenizer.go:31-155 | the index-driven scanner returns exactly the tokens of the text and one EOF, or fails exactly when the text has none |
| `Tokenizer.LexSound` | flow/condition_tokenizer.go:31-155 | accepted tokens are spelled by the text in order, none cut short, with nothing but blanks between them |
| `Tokenizer.LexComplete` | flow/condition_tokenizer.go:31-155 | every such spelling, with or without blanks, is read back as those tokens |
| `Tokenizer.LexExactly` | flow/condition_tokenizer.go:31-155 | a text is accepted as a token list if and only if it spells it |
| `Tokenizer.LexRenderRoundTrip` | flow/condition_tokenizer.go:31-155 | printing any valid tokens and scanning the text gives the same tokens |
| `Grammar.ParseSound` | flow/condition_compile.go:219-374 | whatever is parsed at a rule derives exactly the tokens consumed, at that rule's precedence |
| `Grammar.ParseComplete` | flow/condition_compile.go:219-374 | every derivation followed by a token that cannot extend it is found by the parser |
| `Grammar.SpineComplete` | flow/condition_compile.go:219-233 | the repetition loop rebuilds exactly the left-leaning tree of a chain |
| `Grammar.AcceptsExactly` | flow/condition_compile.go:117-174 | a token list is accepted as a tree if and only if it is that tree's derivation in the grammar |
| `Grammar.Unambiguous` | flow/condition_compile.go:219-374 | no token list has two derivations |
| `Grammar.GroupedIsSameTree` | flow/condition_compile.go:219-374 | adding the parentheses a tree needs makes it derivable and changes nothing else |
| `Program.ConditionParser.AddUnary` | flow/condition_compile.go:201-208 | the new node represents the prefixed tree and its child index is smaller than its own |
| `Program.ConditionParser.AddBinary` | flow/condition_compile.go:210-217 | the new node represents the joined tree and both child indices are smaller than its own |
| `Program.ConditionParser.ParseOr` | flow/condition_compile.go:219-233 | the loop consumes what the grammar's `or` rule does, appends nodes that represent its tree and keeps every earlier node, or gives the same error |
| `Program.ConditionParser.ParseAnd` | flow/condition_compile.go:235-249 | the same for `and` |
| `Program.ConditionParser.ParseUnary` | flow/condition_compile.go:251-261 | the same for the prefix `!`, which sits above comparison |
| `Program.ConditionParser.ParseComparison` | flow/condition_compile.go:263-282 | the same for comparison, at most one |
| `Program.ConditionParser.ParseArithmetic` | flow/condition_compile.go:284-305 | the same for `+` and `-` |
| `Program.ConditionParser.ParseTerm` | flow/condition_compile.go:307-331 | the same for `*`, `/` and `%` |
| `Program.ConditionParser.ParseFactor` | flow/condition_compile.go:333-374 | the same for literals, paths, parentheses and unary minus |
| `Evaluator.CompareNumbersExact` | flow/condition_compare.go:83-131 | integers compare by mathematical value whatever their signedness, beyond int64 included |
| `Evaluator.EvalContext.EffectiveBool` | flow/condition.go:18-35 | an erroring or non-boolean operand counts as false and is recorded only if it is the first error |
| `Evaluator.EvalNode` | flow/condition.go:71-106 | evaluating a node that represents a tree gives the tree's denotation and the first error recorded along the way; child indices bound the recursion |
| `Evaluator.EvalUnary` | flow/condition.go:108-125 | the same for negations |
| `Evaluator.EvalBinary` | flow/condition.go:127-166 | a connective, comparison or arithmetic node gives its tree's denotation and first error, whose meaning the lemmas of `ConditionMeaning` tell |
| `Evaluator.Eval` | flow/condition.go:53-69 | a program is true exactly when its tree denotes true, and logs its tree's first error |
| `Evaluator.DenoteBare` | flow/condition.go:71-166 | parentheses do not change the meaning |
| `Evaluator.NeverInternal` | flow/condition.go:71-106 | no tree ever evaluates to, or records, a bad-index or unknown-operator error |
| `Compiler.CompileExpression` | flow/condition_compile.go:153-173 | the compiled program has only smaller child indices and represents the tree the text reads as, or the same error is reported |
| `Compiler.CompileCondition` | flow/condition_compile.go:117-174 | blank, script and state conditions compile to what the text stands for |
| `Compiler.ConditionCompiler.Compile` | flow/condition_compile.go:83-95 | a remembered program is as good as a fresh one; only successes are remembered, under the trimmed text |
| `Compiler.EvalState` | flow/condition.go:38-51 | running a compiled condition on any store gives its text's denotation; scripts are false here |
| `Compiler.PrintReadRoundTrip` | flow/condition_compile.go:117-374 | every expression tree, printed and compiled, is read as the same tree with the parentheses it needs |
| `Compiler.PrintKeepsMeaning` | flow/condition.go:53-166 | printing and reading back keeps the value and the first error on every store, for any float operations |
| `Compiler.ReadsExactly` | flow/condition_compile.go:117-174 | a text is accepted as a tree if and only if it spells a derivation of that tree |
| `Compiler.AcceptedTextNeverFailsInternally` | flow/condition.go:71-106 | the internal errors of the evaluator are unreachable from any accepted text |
| `ConditionMeaning.IntegersCompare` | flow/condition_compare.go:83-201 | each of the six comparisons of two integers of any signedness is true if and only if the relation holds between the integers |
| `ConditionMeaning.FloatsCompare` | flow/condition_compare.go:83-201 | with a float among them numbers compare by the float order, left before right; equal means neither is less |
| `ConditionMeaning.OthersCompare` | flow/condition_compare.go:147-201 | texts and bools know only equality; every other pair is the error of its kind |
| `ConditionMeaning.IntegersAdd` | flow/condition_compare.go:237-241 | the sum of int64 operands is the int64 congruent to it modulo 2^64 |
| `ConditionMeaning.IntegersSubtract` | flow/condition_compare.go:242-246 | so is left minus right |
| `ConditionMeaning.IntegersMultiply` | flow/condition_compare.go:232-236 | so is the product |
| `ConditionMeaning.IntegersDivide` | flow/condition_compare.go:213-231 | left == right·q + r with abs(r) < abs(right) and r of the left operand's sign, only the least integer by -1 wraps; division by zero is an error |
| `ConditionMeaning.FloatsCalculate` | flow/condition_compare.go:203-249 | any other two numbers are the matching float operation, left before right; `%` needs integers and float division by zero is an error |
| `ConditionMeaning.OnlyNumbersCalculate` | flow/condition_compare.go:203-208 | arithmetic on anything but numbers is an error |
| `ConditionMeaning.MinusMeans` | flow/condition_compare.go:251-265 | unary minus wraps int64, refuses larger integers and negates floats |
| `ConditionMeaning.ConnectivesMean` | flow/condition.go:108-142 | the connectives and `!` always answer, by which operands are the value true; anything else affirms nothing |
| `ConditionMeaning.ErrorsPass` | flow/condition.go:119-158 | every other operator fails with its first failing operand |
| `ConditionMeaning.FirstErrorIsFirst` | flow/condition.go:18-35 | what is recorded is the first of all errors met in evaluation order, operands not needed left out |
| `ConditionTexts.ComparisonTexts` | flow/condition_compile.go:117-174 | a text of two numerals around one of the six symbols answers whether that relation holds between the numbers |
| `ConditionTexts.ArithmeticTexts` | flow/condition_compile.go:117-174 | around `+`, `-` or `*` it answers that result, wrapped |
| `ConditionTexts.DivisionTexts` | flow/condition_compile.go:117-174 | around `/` or `%` it answers quotient or remainder, or division by zero |
| `ConditionTexts.StringTexts` | flow/condition_tokenizer.go:60-72 | anything without a quote between two quotes reads as that text |
| `ConditionTexts.PathTexts` | flow/condition_tokenizer.go:74-104 | a name, and a name followed by `.field` or `[n]`, reads as the path spelled that way |
| `ConditionTexts.OtherNumerals` | flow/condition_compile.go:376-389 | a numeral with a fraction goes through the float parser; a whole one beyond int64 fails when it is needed |
| `ConditionTexts.LeavesMean` | flow/condition.go:71-106 | a text is worth itself, a path what the store holds there, and a missing path or store is an error |
| `ConditionTexts.ChainsGroup` | flow/condition_compile.go:219-331 | of two operators in a row the tighter binds, of equals the left one, and two comparisons in a row are refused |
| `ConditionTexts.BangGroups` | flow/condition_compile.go:251-261 | `!` takes a whole comparison but only the left operand of a connective |
| `ConditionTexts.MinusGroups` | flow/condition_compile.go:333-374 | unary minus takes a single factor |
| `ConditionTexts.PrefixesMean` | flow/condition_compile.go:117-140 | a blank condition is always true, `lua:` names a script, and other text without `state:` is refused |
| `Bytes.LittleEndianTruncates` | engine/heartbeat_plan.go:191-202 | the bytes written read back as the value modulo 256 to the width |
| `Bytes.PutLittleEndian` | engine/heartbeat_plan.go:191-202 | writing in place changes exactly the slot's bytes to the little-endian value |
| `Heartbeat.Environment.ResolveField` | engine/heartbeat.go:149-227 | the switch over sources reads and advances store, counters and stream in place, with the specification's errors and skips; `HeartbeatMeaning.BodyMeans` tells its values |
| `Heartbeat.Environment.ResolveFloatField` | engine/heartbeat.go:233-262 | float fields take fixed and state sources only and change nothing |
| `Heartbeat.BuildHeartbeatBody` | engine/heartbeat.go:124-147 | the append loop gives the specified outcome and side effects, stopping at the first skip or error; `HeartbeatMeaning.BodyMeans` tells the bytes |
| `Heartbeat.CompilePlan` | engine/heartbeat_plan.go:62-100 | compilation succeeds exactly on valid field lists and leaves every fixed field's bytes at its offset and one slot for each other field |
| `Heartbeat.Plan.FillSlot` | engine/heartbeat_plan.go:119-138 | one slot: writes its bytes behind the finished front, or ends the tick as the simple builder would |
| `Heartbeat.Plan.Tick` | engine/heartbeat_plan.go:119-138 | one tick on the reused buffer gives the body, skip, error, store, counters and draws of the simple builder, whatever an earlier tick left behind |
| `HeartbeatRuns.CompileCounters` | engine/heartbeat_plan.go:212-226 | the table lists each counter field once, in order, with its step |
| `HeartbeatRuns.AdvanceCounters` | engine/heartbeat_plan.go:230-234 | the loop advances the counters by the table |
| `HeartbeatRuns.AdvanceOne` | engine/heartbeat_plan.go:212-234 | advancing moves each counter by its own step once and touches no other index |
| `HeartbeatRuns.RunPlan` | robot/robot.go:1828-1897 | over any run of ticks with any store changes between them the compiled plan gives tick by tick the same bodies, skips, errors and packets and ends in the same world as the simple builder |
| `HeartbeatRuns.CounterSequence` | robot/robot.go:1828-1897 | packet number k of any run carries start + k·step truncated to the field width; ticks that send nothing do not count |
| `HeartbeatRuns.CompilesExactly` | engine/heartbeat_plan.go:62-100 | a field list compiles if and only if some store lets the simple builder produce a body |
| `HeartbeatRuns.CompiledOutcome` | engine/heartbeat_plan.go:119-186 | the store before a tick decides it: exactly when a compiled layout fails, with which key, when it skips and when it builds |
| `HeartbeatRuns.BuildDecided` | engine/heartbeat.go:124-262 | from any field on, the first state field in trouble decides the outcome, keys counted up on the way being integers |
| `HeartbeatRuns.CompiledCanFail` | engine/heartbeat_plan.go:56-59 | a compiled layout that fails on a value that is no number even with the skip option, and on a missing key without it |
| `HeartbeatMeaning.BodyMeans` | engine/heartbeat.go:124-262 | every field of every body built holds, at its offset, the little-endian bytes of the fixed value, the key's integer in the store after earlier increments, the incremented counter, the private counter, the clock reading in its unit, a number within the random range, or the float's bit pattern |
| `HeartbeatMeaning.BodyIsFull` | engine/heartbeat.go:124-147 | the body is its fields' bytes and nothing else |
| `HeartbeatMeaning.StoreMeans` | engine/heartbeat.go:185-192 | after a body every key stands exactly as many higher as fields count it up, other keys are untouched |
| `HeartbeatMeaning.EveryNumberIsDrawable` | engine/heartbeat.go:212-222 | every number of a random field's range is sent for some draw |
| `HeartbeatMeaning.CompilesMeans` | engine/heartbeat_plan.go:140-186 | a field compiles if and only if its type and source are known and fit and what the source needs is given |
| `HeartbeatMeaning.PacketMeans` | robot/robot.go:1828-1897 | every packet sent in a run carries what its fields' sources say, by the store, counters and readings its tick started with |
| `HeartbeatMeaning.CounterPackets` | robot/robot.go:1828-1897 | packet number k sent in a run carries start + k·step at the counter's offset, with 0 and 1 for what is not configured |
| `Bytes.LittleEndianDigit` | engine/heartbeat_plan.go:191-202 | byte i is the i-th base-256 digit, the lowest first |
| `StateTree.NavigateMaterializes` | state/overlay.go:33-114 | for any nesting of overlays, tombstones, messages, maps and lists, navigating then materialising equals materialising then navigating |
| `StateTree.NotFoundIsNil` | state/overlay.go:33-72 | "not found" coincides with nil in the plain tree |
| `StateTree.EagerBasesAreLawful` | state/store.go:30-42 | the laws asked of messages can be met |
| `StateWrites.WriteBelow` | state/store.go:290-328 | the descending loop, which puts every new or wrapped container in place before going on, ends in the specified tree, also when it gives up half way |
| `StateWrites.Store.SetPath` | state/store.go:259-329 | a write changes one top-level entry to the specified tree and keeps the store well formed; an empty path changes nothing; `StateMeaning.WrittenTree` tells the tree |
| `StateWrites.Store.GetPath` | state/store.go:545-580 | the read loop equals lazy navigation of the whole path |
| `StateWrites.SetInWellFormed` | state/overlay.go:119-176 | writes never store nil as a live override |
| `StateWrites.ReadBack` | state/store.go:259-381 | reading at or below a written path reads the written value, and nothing if the path was not writable |
| `StateWrites.ReadYourWrite` | state/store.go:259-381 | the written value comes back if and only if every step of the descent finds a way; `StateMeaning.ReadBackExactly` says which do |
| `StateWrites.ReadAfterErase` | state/overlay.go:166-176 | after writing nil the path reads nil |
| `StateWrites.WriteElsewhere` | state/store.go:259-381 | every path that parts ways with the written one reads the same plain tree as before, siblings inside a freshly wrapped message included |
| `StateMeaning.ReadBackExactly` | state/store.go:259-381 | a written value is read back if and only if the plain tree before the write lets the path be written: names into anything but a list, indices to elements a list has, on the way only to containers |
| `StateMeaning.WrittenTree` | state/store.go:259-381 | decoding the store after a write is writing into the decoded tree, also when the write gets stuck; every other entry stays |
| `StateMeaning.WriteMaterializes` | state/overlay.go:119-176 | the same below any container, for any nesting of messages, overlays, maps and lists |
| `StateMeaning.WritableIsCanWrite` | state/store.go:290-328 | the descent finds its way exactly where the plain tree lets it |
| `StateMeaning.NamesReadBack` | state/store.go:301-307 | every path of names that meets no list reads back, whatever is missing on the way |
| `StateMeaning.ReadsMean` | state/store.go:582-606 | `[n]` reads element n of a list, a name its entry of a map, and there is nothing below a scalar |
| `FlowRuns.TotalWeight` | engine/executor.go:611-620 | the loop sums the clamped weights |
| `FlowRuns.Pick` | engine/executor.go:627-642 | a draw below the total selects the one option whose share it falls into, so the loop never falls through |
| `FlowRuns.SelectsOne` | engine/executor.go:606-643 | a draw selects at most one option |
| `FlowRuns.WeightedChoiceIsExact` | engine/executor.go:606-643 | exactly max(w, 0) of the draws below the total select an option |
| `FlowRuns.SignalsAreJustified` | engine/executor.go:106-168 | in every legal run of any graph a break or continue leaves a node only along a walk that enters no loop body, and a skip only along waits from an action that skips |
| `Executor.ExecuteNode` | engine/executor.go:106-149 | in every world and under every schedule the interpreter's run is legal, it records exactly what the world told it in order, and it gives up for lack of fuel only at the end of a chain of that many calls or rounds |
| `Executor.ExecuteSequence` | engine/executor.go:151-178 | children run in order, each but the last to completion, and a skip ends the sequence normally |
| `Executor.ExecuteBoolean` | engine/executor.go:512-541 | the branch of the recorded answer is followed, its skip caught |
| `Executor.ExecuteLoop` | engine/executor.go:196-248 | rounds go on while the body ends normally or continues, within the count and both conditions' recorded answers |
| `Executor.ExecuteSwitch` | engine/executor.go:547-587 | the first case whose recorded answer holds is taken, else the default |
| `Executor.ExecuteWeighted` | engine/executor.go:606-643 | the option whose share holds the recorded draw is run |
| `Executor.ExecuteWait` | engine/executor.go:646-680 | after the sleep the next node's signal, skip included, passes through |
| `Executor.ExecuteAction` | engine/executor.go:250-302 | between one and 1 + maxRetries calls, each but the last a retriable failure whose handler passed, and the strategy decides the rest |
| `Executor.RunFlow` | engine/executor.go:91-104 | break, continue and skip leave a whole run only along such paths from the entry node |
| `FlowMeaning.BooleanMeans` | engine/executor.go:512-541 | the true branch is taken if and only if the recorded answer held; only prepared conditions are asked, and only unprepared ones fail without asking |
| `FlowMeaning.SwitchMeans` | engine/executor.go:547-587 | cases are answered in order, the first that holds is taken, and the default exactly when all have failed |
| `FlowMeaning.WeightedMeans` | engine/executor.go:606-643 | the option run is one whose share holds the recorded draw; without a positive weight the node fails |
| `FlowMeaning.RoundsMean` | engine/executor.go:206-246 | every round followed an answer that held, and another round only a body that ended normally or continued and a break condition that did not hold |
| `FlowMeaning.LoopMeans` | engine/executor.go:196-248 | a loop ends only because its body left it, a condition's answer said so, the count is reached, or from outside; failures pass through, breaks and skips do not |
| `FlowMeaning.SequenceMeans` | engine/executor.go:151-178 | children run in the order listed, none after one that did not end normally, whose signal the sequence ends with unless it is a skip |
| `FlowMeaning.WaitMeans` | engine/executor.go:646-680 | a wait sleeps the fixed time, the lower end, or a drawn time within the range, nothing if that is not positive, and then ends as the next node does |
| `FlowMeaning.CallsMean` | engine/executor.go:250-302 | a call is followed by another if and only if it failed with no ignored code, its handler passed, retries are left and the pause was slept through |
| `FlowMeaning.FailureMeans` | engine/executor.go:274-302 | a failure not tried again ends as its handler, a cancellation or, after the delay, its strategy says: abort fails, skip skips, resume goes on |
| `FlowMeaning.SuccessMeans` | engine/executor.go:304-384 | success and ignored codes register the listens and wait out the delay; a refused registration ends by the strategy after a delay of its own |
| `FlowMeaning.DelaysMean` | engine/executor.go:682-691 | every delay is the node's, else the flow's, else a second; a negative one is not slept |
| `FlowMeaning.EnteredMeans` | engine/executor.go:106-149 | only break, continue, unknown and missing nodes end without doing anything, each with its own signal |
| `FlowMeaning.BooleanIsTold` | engine/executor.go:512-541 | a prepared condition takes the branch of the world's next answer, and the branch is told what comes after it |
| `FlowMeaning.SwitchIsTold` | engine/executor.go:547-587 | the answers of the cases are the world's next answers in order |
| `FlowMeaning.WeightedIsTold` | engine/executor.go:626-642 | the draw is the world's next number modulo the total |
| `FlowMeaning.SequenceIsTold` | engine/executor.go:151-178 | children are told one after the other, without gap or overlap |
| `FlowMeaning.LoopIsTold` | engine/executor.go:196-248 | rounds are told one after the other, each the answer of its condition, its body's replies and the answer of its break condition |
| `FlowMeaning.ActionIsTold` | engine/executor.go:250-302 | calls are told their outcomes one after the other, each followed by its handler's replies |
| `ListenQueue.RingQueue.Push` | network/listen_queue.go:71-89 | a ring with room keeps all its messages and appends; a full one, and only that, loses its oldest and counts it; the wake token is set |
| `ListenQueue.RingQueue.Pop` | network/listen_queue.go:91-107 | takes the oldest message, keeps the rest, clears the token with the last one and counts no loss |
| `ListenQueue.RingQueue.Clear` | network/listen_queue.go:117-127 | empties the ring and the token and leaves the loss count |
| `ListenQueue.PushKeepsValid` | network/listen_queue.go:71-89 | after a push, pushed = popped + dropped + cleared + size, the contents are the newest pushed and the newest is last |
| `ListenQueue.PushMeans` | network/listen_queue.go:71-89 | a push logs its message, sets the token, and drops one message, the oldest, if and only if the queue was full |
| `ListenQueue.TakingMeans` | network/listen_queue.go:91-127 | a pop takes the first message and a clear all of them; neither raises the loss count nor changes the log |
| `ListenQueue.PopIsFifo` | network/listen_queue.go:91-107 | what is popped is the oldest message not yet gone |
| `ListenQueue.RunsKeepInvariant` | robot/scheduler.go:80-138 | in every interleaving of pushes, clears, closes and nested waits the queues stay accounted for and an owner blocked on an open connection overlooks nothing |
| `ListenQueue.RunsKeepQueues` | robot/scheduler.go:80-138 | no run loses a queue |
| `ListenQueue.StepAccounts` | network/listen_queue.go:71-127 | at every step of every run the losses grow by one exactly at a push on a full queue, the taken count only at the owner's takes, the cleared count only at a clear, and the token follows |
| `ListenQueue.RunsAccount` | network/listen_queue.go:21-31 | in every run the losses are exactly the pushes that found the queue full, the log is what was pushed and the taken count the owner's takes |
| `ListenQueue.TakenInOrder` | network/listen_queue.go:91-107 | in every run a message taken later was pushed later: nothing comes out of order or twice |
| `ListenQueue.NoLostWakeUp` | robot/scheduler.go:80-138 | an owner blocked on a non-empty queue's token can take it and its next check returns the oldest message, if and only if the connection is open |
| `ListenQueue.CloseStrandsAMessage` | network/connection.go:552-564 | a run in which a close leaves the owner blocked on a message without a token |
| `ResponseChannels.ChannelsAreSafe` | network/connection.go:297-413 | in every interleaving nothing is sent on a closed channel, no channel closes twice and no message has two consumers |
| `ResponseChannels.RegistrationLasts` | network/connection.go:345-413 | a registration lasts until its own request closes or the route is registered anew; closing an overwritten request leaves it |
| `ResponseChannels.ResponseReachesTheLatest` | network/connection.go:1023-1092 | a message dispatched meanwhile goes to that request and nobody else |
| `ResponseChannels.RunsKeepInvariant` | network/connection.go:297-413 | every mapped channel is open and belongs to its route, in every reachable state |
| `ResponseChannels.SendMeans` | network/connection.go:297-352 | a request takes over its route, whoever held it, and changes no other route or request |
| `ResponseChannels.DispatchMeans` | network/connection.go:1041-1092 | a message goes to the route's request if its slot is free, is lost if not, and without a request goes to the listener or nobody |
| `ResponseChannels.ReceiveMeans` | network/connection.go:352-359 | receiving empties the slot and nothing else, also after the channel was closed |
| `ResponseChannels.CloseMeans` | network/connection.go:398-413 | a close frees the route only if its own request still holds it and closes its channel once |
| `ResponseChannels.ReceivedWasAnswered` | network/connection.go:1023-1065 | in every interleaving whatever a request receives was dispatched to it, on its own route |
| `ResponseChannels.ClosedTakesNothing` | network/connection.go:1023-1026 | a closed connection stays closed and dispatches nothing that arrives later |
| `Lifecycle.OneCloserWins` | network/connection.go:980-1009 | at most one of any number of active and passive closes wins, and stays the winner |
| `Lifecycle.ClosedCallbackRunsOnce` | network/connection.go:177-216 | the closed callback never runs twice, not before the event, and is due once as soon as event and callback both exist |
| `Lifecycle.DisconnectOnlyWhenPassive` | network/connection.go:163-202 | the disconnect callback runs at most once, only if the passive side won, and then is due |
| `Lifecycle.CallsAreFinal` | network/connection.go:163-216 | what has run is never run again |
| `Lifecycle.StepMeans` | network/connection.go:163-216 | the callback that runs is the one set when its delivery was decided, and each step sets, decides or calls exactly what it names |
| `Lifecycle.CloserGetsThrough` | network/connection.go:969-1009 | whichever side finds the connection open wins and can always finish its steps; later closes do nothing |
| `Framing.Inbound.OnTraffic` | network/gnet.go:186-285 | the loop delivers exactly the frames of the buffer, leaves the rest, asks to close exactly on a bad length, and accounts for every byte received |
| `Framing.SplitMore` | network/gnet.go:186-285 | later bytes only continue from what was left over |
| `Framing.PiecesDoNotMatter` | network/gnet.go:186-285 | feeding in pieces equals feeding whole: frames, leftover and close decision |
| `Framing.ChunkingIsIrrelevant` | network/gnet.go:186-285 | any two ways to cut the same stream end in the same state |
| `Framing.SplitKeepsBytes` | network/gnet.go:186-285 | no byte is lost, invented or reordered |
| `Framing.SplitGivesFrames` | network/gnet.go:186-285 | only whole frames of an allowed length are delivered |
| `Framing.FramesComeBack` | network/gnet.go:186-285 | frames sent back to back come out as they were |
| `Framing.ClosesExactly` | network/gnet.go:186-223 | the stream is closed if and only if what is left starts with a complete header of a bad length; otherwise it is the start of a frame not all there |
| `DoneGate.CompletionIsNeverMissed` | robot/manager.go:475-523 | unless a reset zeroes the count inside an older callback's gap: once creation ended and the current generation's callbacks ran, the channel is closed exactly once, start failures included, whatever older robots still do |
| `DoneGate.RunsStaySound` | robot/manager.go:207-226 | in those runs the active count is the current generation's living, and an empty finished gate is closed or one of its robots is about to close it |
| `DoneGate.OnlyStopClosesOnTheLiving` | robot/manager.go:451-523 | in careful runs, across resets, only a stop closes the channel while a robot of the current generation lives |
| `DoneGate.CarefulRunsStaySafe` | robot/manager.go:451-523 | careful runs from any sound state stay sound and never close early |
| `DoneGate.AddIsSafeExactly` | robot/manager.go:207-226 | adding a robot can be followed by a careful run into an early close if and only if some callback that saw zero is not through |
| `DoneGate.ZeroIsSafeExactly` | robot/manager.go:451-472 | zeroing the count can be followed by a careful run into a lost completion, and into an early close, if and only if an older callback is between its check and its decrement |
| `DoneGate.LostForGood` | robot/manager.go:485-523 | a lost completion stays lost under every step but a stop |
| `DoneGate.CompletionCanBeLost` | robot/manager.go:451-491 | a run from the start whose completion is lost |
| `DoneGate.EarlyCloseHappens` | robot/manager.go:485-491 | a run without reset in which the channel closes while a robot lives |
| `DoneGate.EarlyCloseAfterReset` | robot/manager.go:451-491 | a run in which a stale decrement closes the channel on the next stage's robot |
| `DoneGate.UninterruptedCallbacksAreCareful` | robot/manager.go:475-492 | callbacks that are through or not begun whenever a robot is added or the count zeroed make a run careful |
| `DoneGate.ClosedExactly` | robot/manager.go:482-523 | in every run the gate is closed, once, if and only if a stop or a close attempt has happened |
| `DoneGate.CallbacksGetThrough` | robot/manager.go:475-492 | a callback can always take its next step, which brings it nearer its end and moves no other; older generations stop at the check, and with creation over the decrement that leaves zero closes |
| `DoneGate.FailedStartEnds` | robot/manager.go:207-226 | a failed start gives back its count and leaves the creator nothing but to end creation |
| `Cleanup.CleanupOK` | robot/cleanup.go:57-67 | counts one robot, cleaned, its runtime returned |
| `Cleanup.CleanupTimeout` | robot/cleanup.go:69-80 | counts one robot, timed out, its runtime kept back, with its issue |
| `Cleanup.MergeCleanupStatus` | robot/cleanup.go:91-134 | the loop gives the sums, the longest duration, the worst status and the first twenty issues, or the empty summary |
| `Cleanup.WorstMeans` | robot/cleanup.go:107-118 | the merged status is a timeout exactly when some part timed out, and clean exactly when no part was worse |
| `Cleanup.FirstBadDecides` | robot/cleanup.go:107-118 | without a timeout the first part that was not clean decides between partial and unknown |
| `Cleanup.LongestMeans` | robot/cleanup.go:100-102 | the duration is at least every part's, and is zero or some part's |
| `Cleanup.MergeMeans` | robot/cleanup.go:91-134 | a merge that counts a robot has the sums, the worst status with its message, and the longest duration; one that counts none carries nothing but its message |
| `Cleanup.MergedIssues` | robot/cleanup.go:103-106 | its issues are the first twenty of all parts, in order |
| `Cleanup.NestedMerge` | robot/cleanup.go:91-134 | merging a merged part, on either side, is one merge of everything if the part counts a robot, and drops the part otherwise |
| `Cleanup.ZeroRobotPartIsForgotten` | robot/cleanup.go:120-122 | an unknown result that counts no robot is lost by a second merge |
| `Cleanup.RecordingIsOneMerge` | robot/manager.go:525-531 | recording robot results one by one equals one merge of them all |
| `RobotManager.SwapDeleteRemovesOne` | robot/manager.go:496-510 | moving the last robot into the gap removes exactly one robot |
| `RobotManager.Manager.Register` | robot/manager.go:207-211 | the new robot is listed and indexed |
| `RobotManager.Manager.Remove` | robot/manager.go:496-510 | list and index keep agreeing; an unknown robot is left alone |
| `RobotManager.Manager.RecordCleanup` | robot/manager.go:525-531 | the first result is taken as it is, later ones are merged in |
| `RobotManager.Manager.FinishRobot` | robot/manager.go:475-483 | a finished robot leaves the list and enters the summary in one step, and no robot is in both or in neither |
| `RobotManager.CloseRobots` | robot/manager.go:370-410 | results received in time plus one stand-in for each missing robot, merged |
| `RobotManager.Manager.StopAll` | robot/manager.go:423-445 | the result is one merge of every registered robot's own result: total is the number registered, and cleaned plus timed out is total |
| `RobotManager.StopMerges` | robot/manager.go:423-445 | prior summary and closing results merge to what all single results merge to |
| `CommandLog.MemoryStore.MakeRoom` | admin/command/memory.go:91-106 | forgets exactly the overflow of oldest finished commands, or nothing if there are too few |
| `CommandLog.MemoryStore.ValidateBatch` | admin/command/memory.go:55-70 | the first problem of the batch, in order |
| `CommandLog.MemoryStore.CreateBatch` | admin/command/memory.go:49-89 | all or nothing, with numbers given out in order |
| `CommandLog.MemoryStore.PendingFor` | admin/command/memory.go:124-143 | binary search and one slice give the first `limit` elements of a linear filter |
| `CommandLog.FirstAbove` | admin/command/memory.go:134-136 | the search finds exactly where a sorted queue passes the cursor |
| `CommandLog.MemoryStore.AcknowledgeCommand` | admin/command/memory.go:147-167 | finishes a pending command, repeats are ignored, unknown ids and statuses are errors that change nothing |
| `CommandLog.MemoryStore.RemovePending` | admin/command/memory.go:169-186 | takes exactly the target out of its queue and drops an empty queue |
| `CommandLog.CreateAcceptsExactly` | admin/command/memory.go:49-106 | a batch is accepted if and only if every command is well formed and new and the unfinished commands leave room |
| `CommandLog.CreateKeepsValid` | admin/command/memory.go:49-106 | each command stays in exactly one of pending and finished, queues sorted, total within capacity; a failed batch changes nothing |
| `CommandLog.EvictKeepsValid` | admin/command/memory.go:91-106 | eviction never touches a pending command |
| `CommandLog.CreateAppends` | admin/command/memory.go:74-88 | an accepted batch only appends to each agent's queue, with numbers never used before |
| `CommandLog.AcknowledgeKeepsValid` | admin/command/memory.go:147-186 | acknowledging keeps all of that |
| `CommandLog.AcknowledgeCuts` | admin/command/memory.go:147-186 | acknowledging removes that command and no other, in order |
| `CommandLog.EvictMeans` | admin/command/memory.go:91-106 | making room forgets the commands that finished first and nothing else |
| `CommandLog.CreateMeans` | admin/command/memory.go:49-106 | an accepted batch is in, pending, with consecutive fresh numbers, every other command is unchanged, and just as many of the oldest finished went as it took |
| `CommandLog.RefusalMeans` | admin/command/memory.go:55-70 | a refused batch names what is wrong with its first bad command: a missing name, then a missing body, then a taken id |
| `CommandLog.StoreFullExactly` | admin/command/memory.go:71-73 | a batch is refused for room if and only if all of it is fine and the unfinished commands leave too little |
| `CommandLog.AcknowledgeMeans` | admin/command/memory.go:147-167 | the first acknowledgement of a pending command decides its status for good; no other command changes |
| `CommandLog.PageMeans` | admin/command/memory.go:124-143 | a page is a run of the queue that starts right above the cursor and is cut only at the limit, 256 unless 1 to 256 is asked |
| `CommandDelivery.RunsKeepInvariant` | admin/command/bus.go:99-115 | the delivery invariant holds in every run of creations, acknowledgements, reads, hand-outs, releases and reconnects |
| `CommandDelivery.DeliveredWithoutGaps` | admin/command/bus.go:96-115 | each unfinished command up to the cursor was handed out in this session, in strictly increasing order, within the window |
| `CommandDelivery.HandedOutIsInFlight` | admin/command/bus.go:99-115 | in every run a command handed out counts against the window until it is released or the session ends |
| `CommandDelivery.InFlightWasHandedOut` | admin/command/bus.go:99-115 | nothing else counts against the window |
| `CommandDelivery.CaughtUp` | admin/command/bus.go:99-115 | an empty read with room in the window means every unfinished command was handed out |
| `CommandDelivery.ReconnectResendsUnfinished` | admin/command/bus.go:96-115 | in a session that has caught up, whatever changed meanwhile, the part of what it handed out that is still unfinished is exactly the agent's queue in order, and nothing finished before the session went out; on an unchanged log it is exactly the unfinished commands |
| `MetricsRecord.Collector.RecordAction` | monitor/collector.go:496-638 | by single additions, adds to every counter exactly what the record is worth, which is defined per counter without regard to how it is recorded |
| `MetricsRecord.Collector.RecordClient` | monitor/collector.go:516-564 | duration samples, client cost and stages, none for a cancellation that never ran, refusals counted |
| `MetricsRecord.Collector.RecordRequests` | monitor/collector.go:565-581 | each measured request is counted once and rated against the threshold read for it |
| `MetricsRecord.Collector.RecordOutcome` | monitor/collector.go:616-634 | one verdict, the timeout's time, and its error code |
| `MetricsRecord.OneVerdict` | monitor/collector.go:507-634 | every record counts under exactly one verdict, the finished ones in the total, and each client cost is a duration or a refusal |
| `MetricsRecord.RatedShares` | monitor/collector.go:565-581 | satisfied, tolerating and frustrated requests share out the measured ones |
| `MetricsRecord.SameClassExactly` | monitor/collector.go:574-580 | two thresholds add the same to both Apdex counts if and only if the request is not counted or they rate it alike |
| `MetricsMeaning.VerdictFields` | monitor/collector.go:507-634 | which verdict, total and running count a record adds to |
| `MetricsMeaning.ErrorFields` | monitor/collector.go:616-634 | an error code counts only with a failure or a timeout, and a timeout adds its time |
| `MetricsMeaning.ClientFields` | monitor/collector.go:529-542 | the client's share is the wall clock without the round trips, never negative; only a cancellation that never ran leaves no sample |
| `MetricsMeaning.StageFields` | monitor/collector.go:543-563 | a stage adds its time, and counts unless it was never taken or negative |
| `MetricsMeaning.InvalidField` | monitor/collector.go:538-573 | the refused samples are the negative ones, each once |
| `MetricsMeaning.RequestFields` | monitor/collector.go:565-581 | measured, satisfied and tolerating requests are the sizes of the sets of requests that are measured and rated so |
| `MetricsMeaning.RateMeans` | monitor/collector.go:574-580 | below T satisfies, below 4T is tolerated, the rest frustrates |
| `MetricsMeaning.TrafficFields` | monitor/collector.go:582-614 | failed requests, listens and bytes; what is not positive adds nothing |
| `MetricsMeaning.OtherFields` | monitor/collector.go:496-638 | a record touches no other action and no other field |
| `MetricsWindows.RunsStayBalanced` | monitor/collector.go:384-415 | in every interleaving of recorders, reports and resets, what is counted plus what is still owed is what the history is worth, in total and over the windows |
| `MetricsWindows.ReportsAddUp` | monitor/snapshot.go:567-623 | after every report each cumulative count is the worth of the history since the last reset, and the closed windows hold that plus the drift, so they agree if and only if the drift is zero |
| `MetricsWindows.OnlyApdexDrifts` | monitor/snapshot.go:567-623 | every count but the two Apdex ones agrees at every report, whatever the thresholds did |
| `MetricsWindows.AlikeDoesNotDrift` | monitor/collector.go:574-580 | records whose requests both thresholds rate alike drift on no counter |
| `MetricsWindows.ReportMeans` | monitor/snapshot.go:567-623 | the reported verdicts, total, round trips, bytes and durations are the counts and sums over the history's records, and no more requests are rated than measured |
| `MetricsMeaning.HistoryMeans` | monitor/collector.go:384-415 | the history of a state is what was begun since the last reset |
| `MetricsMeaning.OtherEvents` | monitor/collector.go:434-494 | what cancellations, transfers and starts are worth, in total and to a window |
| `MetricsMeaning.ResetAndReport` | monitor/collector.go:384-415 | a reset starts from nothing; a report hands over its window, begins a new one and keeps the totals |
| `MetricsMeaning.WorthAddsUp` | monitor/snapshot.go:567-623 | what a history is worth is the sum over its events |
| `MetricsMeaning.RecordersGetThrough` | monitor/collector.go:384-415 | no report or reset comes between a record's additions, and a recorder can always go on |
| `MetricsWindows.ClosedWindowsStay` | monitor/snapshot.go:579-583 | a closed window is never touched again before the next reset |
| `MetricsWindows.ReportCanDisagree` | monitor/collector.go:420-432 | a run whose report disagrees with its windows after the threshold changed during a record |

## Left out

- Sockets, gRPC, HTTP, databases, files, real timers and logging; only their possible outcomes appear.
- The Lua VM and scripts, protobuf scanning, codecs and latency sketches; a sample is refused exactly when it is negative.
- Splitting a path text into segments and the trimming of segments on reads but not on writes (`state/store.go:582-584`); paths are sequences of segments without surrounding blanks.
- Aliasing between Go maps and lists that are reachable twice; the store is a tree of values, and an in-place change is a change at its place in that tree.
- Positions and texts of error messages; errors are told apart by kind. Condition texts are sequences of characters, not bytes.
- Node indices beyond 32 bits.
- Executor.ExecuteNode: a `fuel` bounds the depth of node calls and the rounds of each loop, because a cyclic graph need not end; runs that never end are not covered, and runs that end are covered by enough fuel.
- The executor's bookkeeping of canceled remaining nodes (`engine/executor.go:180-192`).
- Back-pressure on a full inbound channel, and unregistered connections, in the framing loop.
- The bus's cache of recent commands and the matching of acknowledgements against it (`admin/command/bus.go:69-82`, `118-133`).
- Stage resets in the robot list and the cleanup totals; the done gate has them.
- Overflow of the 64-bit command sequence and of 64-bit counters.
- MetricsWindows.RunsStayBalanced: an action start is one step, so a start that looks up its action before a reset and counts after it is not modelled; only the running count is concerned.
- FlowRuns.TotalWeight: sums of weights do not overflow.
- Averages, rates, quantiles and the merging of snapshots of several agents; they are field copying or floating-point ratios.
- Task transitions and reports of the administration server, configuration loading, exports and the front end.
