# A verified model of the WitcherScript language server

The WitcherScript language server analyses scripts, refactors them and keeps editors up to date.
This project models the parts of it whose correctness spans many steps, and proves what they are for.

**Reaching definitions and inline variable.** `ReachingDefs` says what one structured gen/kill walk computes;
`Analyzers` holds the walk itself, a class that updates its masks in place, proved to compute exactly that.
`Executions` gives the statement language an operational semantics of its own (which regions run, in which order, with
free choice at every condition), and `Soundness`, `Exactness` and `GenKill` relate the two: the recorded mask has every
definition that can be in force at a read; where nothing is dead it has nothing else; and one learning pass over a loop
body is the least fixpoint. `UnmodelledReads` and `ReachingLaws` say what the walk makes of the rest: reads in statements it
does not know, definitions in conditions, and code that is dead. `Window`, `InlineSafety`, `InlineValue` and `InlinePlan`
carry that to the refactoring: a read that the plan calls verified evaluates, after the rewrite, to the value the variable
held. `InlineCalls` counts how often the calls in that value are made.

Both promises have exceptions, and these are measured exactly, for every program. `Collecting` computes what any finite
observer of executions can have seen at each way out of a statement and at a read, and proves it neither misses nor makes
up anything. `TrueFlow` observes the definition in force, `InlineTrail` whether something a value reads may have been
written since. `WalkGaps`, `ForwardText`, `InlineExact` and `InlineLimits` say from that where the code does less than its
documentation promises, and where it does not.

**Traversal and symbols.** `Walk` proves the cursor loop equal to the recursion it replaces, for every visitor that may
prune; `Fused` proves that running two visitors in one traversal gives each its solo result; `Extractor` proves the
frame-stack symbol extractor equal to a recursive descent; `SymbolSet` says over the tree alone which symbols a document has
and what each of them is. `SymbolTable` and `SymbolLookup` prove the resulting table well formed and its two lookups equal to
scanning it, and `LocalSet` what the locals of a callable are in the document. `Paths` names the nodes of a tree.

**Concurrency.** `EditQueue`, `ViewRefresh` and `InitialIndex` are state machines over program counters, one shared action
at a time. `notify_one` leaves at most one stored permit; `notify_waiters` leaves none. `EditProgress` proves that the edit
queue gets on: handlers finish, nothing deadlocks, and every run without new messages ends with everything published.
`DocumentSync` joins the edit queue with the content changes of `LineIndex`: in every interleaving the server's text is what was
typed, and at rest that is what is published.

**Diagnostics cache.** `Subscriptions` proves the inverted tables of the subscription registry exact; `DiagnosticsCache`
proves that a cached entry that would hit equals recomputation, and `PullRaces` exactly when that survives pulls that
overlap with publishes and with each other.

**Text.** `Types` (annotation parser and printer; `AnnotationReading` and `PrimitiveNames` say what each spelling means),
`Splices` (two ways to apply edits, and where an offset lands), `LineIndex` (UTF-16 positions and content changes; `Unicode`
has the encodings they count), `SemanticTokens` (collecting, encoding, diffing; `TokenSet` says which tokens there are) and
`NativeLayout` (spans reported while rendering built-ins; `LayoutReading` reads the rendered text back).

`dafny verify dfyconfig.toml` checks everything.

## Where the code and its promises differ

- The module documentation of the analysis says that every reaching definition is reported. For every program at all,
  `TrueFlow.MaskSoundIff` says exactly when the mask of a read has every definition that some execution brings,
  `TrueFlow.MaskExactIff` when it has no others either, and `WalkGaps.ExitSoundIff` the same for the exit of a statement.
  It can fail in two ways.
  - The exit state of a do-while leaves out the state at `continue` (`src/resolve/reaching_defs.rs:293-298`).
    `WalkGaps.DoWhileExitSoundIff` gives the condition in terms of the walk's own states, and
    `WalkGaps.ContinueInDoIsMissed` a program whose read is given the wrong sole definition.
  - Definitions inside a condition are never applied. With a definition in the condition the exit is sound exactly as
    `WalkGaps.IfExitSoundIff`, `SwitchExitSoundIff`, `WhileExitSoundIff`, `DoExitSoundIff` and `LoopExitSoundIff` (for
    `for`) say in terms of the walk's own states.
- Stability of a value is a test on positions in the text (`src/resolve/body_model/mod.rs:509-556`). For every program,
  `InlineTrail.KeptWhenInForceIff` says exactly when a value keeps at a read in all executions.
  - A value of which nothing is written later in the text keeps when its definition is in no loop and in no case value,
    under however many branches (`InlineExact.StraightDefinitionKeeps`). With the declaration in a loop it can change,
    whether the read is in the loop too (`InlineLimits.NestedDeclarationLosesValue`) or comes after it
    (`InlineLimits.LoopBeforeReadLosesValue`).
  - Fields in the value are not checked at all. A stable value of such a definition keeps exactly if no execution evaluates,
    between definition and read, a place where a field it reads is written (`InlineExact.StraightValueKeptIff`,
    `InlineExact.StableValueKeptIff`; `InlineLimits.FieldOperandIsUnchecked` is an instance). A field that a call writes
    counts as written where the call stands.
  - For a read that inlining answers verified, `InlineExact.VerifiedReadKeptIff` puts the two together.
- Inlining is called verified with the variable's only read rewritten and its value moved there
  (`src/resolve/inline_var.rs:113-116`), wherever that read is. `InlineCalls.VerifiedSingleCallsAsOftenIff` and
  `InlineCalls.VerifiedAllCallsAsOftenIff`: for every body, such a rewrite makes each call as often as before, and in step with
  the original, exactly if no execution reaches a way out having evaluated definition and read out of turn.
  `InlineCalls.SkippedReadDropsCall` has the read in a branch, so that the call can be lost, and `InlineCalls.LoopRepeatsCall` in
  a loop, so that it is repeated.
- A cancelled diagnostics pull commits what it computed to the cache, while its caller drops the result and with it the
  subscriptions (`src/bin/witcherscript-lsp/diagnostics_publish.rs:278-280`). `DiagnosticsCache.PullHarmlessIff`: whatever
  the rules make of the keys they look up and whatever is published next, that is harmless exactly if each file it computed
  was already subscribed to every key it looked up. `DiagnosticsCache.CancelledPullGoesStale` shows a stale hit.
- Neither the commit of a pull nor the registration after it looks at the state version again.
  `PullRaces.LandsHarmlessIff` and `PullRaces.RegisterHarmlessIff` say exactly when a pull that was overtaken does no harm,
  and `PullRaces.GapHarmlessIff` when a publish between its commit and its registration does none: each file it computed is
  evicted by that publish, or nothing it looked up differs from the snapshot. `PullRaces.OvertakenPullGoesStale` and
  `PullRaces.LateRegistrationGoesStale` are runs in which it does harm.
- An insertion and a replacement from the same start are not applied cleanly by `apply_splices`: in-bounds edits agree with
  the left-to-right copy for all texts exactly if their ranges are disjoint and start apart
  (`Splices.AgreeForAllTextsIff`, `Splices.InsertAndReplaceAgreeIff`), and the caret is on the replacement exactly if
  something is replaced and the insertion is not at its start (`Splices.CaretIsOnReplacementIff`).
- A back edge of a `for` loop that is never taken is joined in all the same, so that the state at its top need not be the
  least (`GenKill.OneLearningPassIsLeastForIff`).
- A position one past a line's last unit is found, as the start of the next line (`LineIndex.PositionFoundIff`).

## Model

| member | source | states |
|---|---|---|
| ReachingDefs.SoleDef | src/resolve/reaching_defs.rs:109-113 | a definition is named exactly if the mask has no other bit |
| ReachingDefs.LastIn | src/resolve/reaching_defs.rs:233-242 | of the definitions in a region the textually last one wins, the later index on a tie |
| Analyzers.Analyzer.RecordRegion | src/resolve/reaching_defs.rs:217-227 | a recording pass adds the state to the masks of the reads in the region and to no other; a learning pass adds nothing |
| Analyzers.Analyzer.EvalLeaf | src/resolve/reaching_defs.rs:211-215 | a leaf's reads see the state before it, its last definition replaces the state |
| Analyzers.Analyzer.EvalStmt | src/resolve/reaching_defs.rs:170-209 | the in-place walk returns the specified flow, the same in both passes, and adds exactly the specified marks |
| Analyzers.Analyzer.EvalBlock | src/resolve/reaching_defs.rs:155-168 | a block stops at the first statement without a normal exit and joins the other exits |
| Analyzers.Analyzer.EvalIf | src/resolve/reaching_defs.rs:244-263 | both branches start from the state at the condition; every exit channel is joined |
| Analyzers.Analyzer.EvalWhile | src/resolve/reaching_defs.rs:265-281 | the recording pass runs from the entry state joined with what one learning pass brings back |
| Analyzers.Analyzer.EvalDoWhile | src/resolve/reaching_defs.rs:283-299 | the exit is the second pass's normal and `break` states, without its `continue` state |
| Analyzers.Analyzer.EvalFor | src/resolve/reaching_defs.rs:301-328 | the back edge runs through the iteration part |
| Analyzers.Analyzer.EvalSwitch | src/resolve/reaching_defs.rs:330-380 | labels join the head state to the fall-through state; without a default the head state also leaves |
| Analyzers.Analyze | src/resolve/reaching_defs.rs:38-64 | per read, the sole definition of its mask; nothing is named when there are more than 128 definitions |
| UnmodelledReads.UnmodelledReadIsUnnamed | src/resolve/reaching_defs.rs:203-231 | in every placed program a read inside an unmodelled statement gets no sole definition: its mask is empty or holds all 128 bits |
| ReachingLaws.ConditionsDefineNothing | src/resolve/reaching_defs.rs:170-209 | every exit state is that of the statement without its conditions, switch heads, case values and unmodelled parts |
| ReachingLaws.DeadStatementsAreSkipped | src/resolve/reaching_defs.rs:155-168 | after a statement that cannot be completed the rest of a block changes no exit and marks no read |
| ReachingLaws.DeadCodeIsLabelled | src/resolve/reaching_defs.rs:330-380 | code in a switch block that nothing falls into is walked as if a label stood before it |
| ReachingLaws.DeadTestSeesEntry | src/resolve/reaching_defs.rs:283-299 | a do-while test that the body never gets to is read on the state before the loop |
| ReachingLaws.DeadStepSeesHeader | src/resolve/reaching_defs.rs:301-328 | an iteration part that the body never gets to is read on the state at the top of the loop |
| GenKill.SummaryDescribesWalk | src/resolve/reaching_defs.rs:155-388 | every exit channel of every statement is dead or of the form S to G + (S or nothing), and so is every read's mask |
| GenKill.OneLearningPassIsLeastFixpoint | src/resolve/reaching_defs.rs:265-299 | the loop entry after one learning pass is closed under the body and is the least such state above the entry |
| GenKill.OneLearningPassClosesFor | src/resolve/reaching_defs.rs:301-328 | the state at the top of a `for` loop after one learning pass is closed under its body and iteration part |
| GenKill.OneLearningPassIsLeastForIff | src/resolve/reaching_defs.rs:301-328 | it is the least such state exactly if the body can end or the iteration part defines nothing new |
| GenKill.WhileIsBareFor | src/resolve/reaching_defs.rs:265-328 | a `while` is a `for` without its init and iteration parts |
| Executions.LastOfRegion | src/resolve/reaching_defs.rs:233-242 | running a region puts its textually last definition in force |
| Soundness.ExecutionAccounted | src/resolve/reaching_defs.rs:155-388 | for every statement and execution, the definition in force at each kind of exit is in the state of that exit channel, and at a read in its mask |
| Soundness.RecordedMaskIsSound | src/resolve/reaching_defs.rs:1-7 | whatever definition is in force at a read, in any execution, is in the recorded mask, so a sole definition is the one in force |
| Soundness.DeadExitsAreDead | src/resolve/reaching_defs.rs:115-145 | a missing normal exit means that no execution completes normally |
| Exactness.SummariesProper | src/resolve/reaching_defs.rs:155-388 | a live exit always offers some definition or passes the old one through |
| Exactness.Deliver | src/resolve/reaching_defs.rs:155-388 | every definition that an exit channel or mask offers is brought there by a constructed execution |
| Exactness.MaskIsMeetOverAllPaths | src/resolve/reaching_defs.rs:1-7 | a definition is in the mask of a read outside unmodelled statements if and only if some execution brings it there |
| Collecting.CollectIsExact | src/resolve/reaching_defs.rs:155-388 | for any finite observer and every program, a state is collected at a way out or a read if and only if some execution leaves the observer in it there |
| TrueFlow.MaskSoundIff | src/resolve/reaching_defs.rs:1-7 | for every program, a read's mask has all that executions bring exactly if it has all that is collected |
| TrueFlow.MaskExactIff | src/resolve/reaching_defs.rs:1-7 | for every program, it has nothing else either exactly if the two are equal |
| TrueFlow.WalkIsTrue | src/resolve/reaching_defs.rs:155-388 | without definitions in conditions and without dead code the walk's states and masks are what is collected |
| WalkGaps.ExitSoundIff | src/resolve/reaching_defs.rs:155-388 | for every statement, the exit state is sound exactly if it has all that is collected there |
| WalkGaps.IfExitSoundIff | src/resolve/reaching_defs.rs:244-263 | an `if` with a definition in its condition has a sound exit exactly if what its branches make of that definition alone is in the exit state |
| WalkGaps.SwitchExitSoundIff | src/resolve/reaching_defs.rs:330-380 | the same for a definition in a switch head |
| WalkGaps.LoopExitSoundIff | src/resolve/reaching_defs.rs:301-328 | a `for` with a definition in its condition has a sound exit exactly if that definition and what `break` carries from it are in the exit state |
| WalkGaps.WhileExitSoundIff | src/resolve/reaching_defs.rs:265-281 | the same for a `while` |
| WalkGaps.DoExitSoundIff | src/resolve/reaching_defs.rs:283-299 | the same for a do-while, where the condition is only reached if the body comes back |
| WalkGaps.DoWhileExitSoundIff | src/resolve/reaching_defs.rs:283-299 | a do-while's exit state is sound exactly when the body's `continue` state adds nothing to its normal and `break` states |
| WalkGaps.ContinueInDoIsMissed | src/resolve/reaching_defs.rs:294 | a concrete program whose last read is given one sole definition although an execution brings another |
| WalkGaps.ConditionExitSoundIff | src/resolve/reaching_defs.rs:244-263 | the exit of an `if` with empty branches is sound exactly when the condition's last definition was in the state already |
| Stops.EveryVisitIsAStop | src/resolve/reaching_defs.rs:155-388 | every region an execution evaluates is one where it could have been stopped, so statements about stops cover all reads |
| Window.ExecutionInside | src/resolve/reaching_defs.rs:155-388 | an execution stays within the statement's text |
| Window.SoleDefinitionWindow | src/resolve/reaching_defs.rs:155-388 | if only definition i reaches a point, everything evaluated since i took effect lies later in the text than i |
| InlineSafety.SoleDefinitionIsInForce | src/resolve/inline_var.rs:60-80 | after a declaration in the body's own list, a sole definition is in force and only later text ran since |
| InlineValue.ValueStability | src/resolve/body_model/mod.rs:509-556 | the loop over the value's identifiers refuses the target, and calls the value stable exactly if none is unsettled |
| InlineValue.StableReadKeepsValue | src/resolve/inline_var.rs:60-80 | a stable value of the sole definition, of which no field is written later in the text, evaluates at the read to what the variable holds, in every lawful execution |
| InlineTrail.TouchedLoses | src/resolve/body_model/mod.rs:509-556 | whenever something the value reads may have been written since, a lawful execution along the same trace makes it differ |
| InlineTrail.KeptWhenInForceIff | src/resolve/body_model/mod.rs:509-556 | for every program, a value keeps at a read wherever its definition is in force exactly if no trail on which it may have been touched is collected there |
| InlineTrail.AlwaysKeptIff | src/resolve/body_model/mod.rs:509-556 | for a sole definition, it keeps in all executions exactly if only current trails are collected |
| ForwardText.MovesForward | src/resolve/inline_var.rs:60-80 | after a definition that is in no loop and in no case value everything that runs lies later in the text, until something else defines |
| InlineExact.StraightDefinitionKeeps | src/resolve/body_model/mod.rs:509-556 | a stable value of which no field is written later in the text keeps wherever its definition, in no loop and in no case value, is in force |
| InlineExact.StableValueKeptIff | src/resolve/body_model/mod.rs:532-536 | after a declaration in the body's own list, a stable value keeps in all executions exactly if none evaluates, between definition and read, a place where a field of the value is written |
| InlineExact.StraightValueKeptIff | src/resolve/body_model/mod.rs:532-536 | the same for a definition anywhere outside loops and case values, where it is in force |
| InlineExact.ModelledMaskIsSound | src/resolve/reaching_defs.rs:1-7 | without definitions in conditions and without `continue` in a do-while, a read's mask has all that executions bring |
| InlineExact.PlannedReadKeptIff | src/resolve/inline_var.rs:60-80 | for a read that the plan keeps, whose sole definition is the one the analysis of the body names with a sound mask: its value keeps in all executions exactly if they bring only current trails |
| InlineExact.VerifiedReadKeptIff | src/resolve/inline_var.rs:178-202 | when inlining such a read answers verified and its definition is in no loop and in no case value: the value keeps in all executions exactly if the definition has run in each and no field of the value is written in between |
| InlineLimits.NestedDeclarationHasEarlierWork | src/resolve/body_model/mod.rs:509-556 | with the declaration in a loop, text before it runs between definition and read |
| InlineLimits.NestedDeclarationLosesValue | src/resolve/body_model/mod.rs:509-556 | there, a stable value of locals of the sole definition differs at the read in a lawful execution |
| InlineLimits.LoopBeforeReadLosesValue | src/resolve/body_model/mod.rs:509-556 | the same when the read comes after the loop |
| InlineLimits.FieldOperandIsUnchecked | src/resolve/body_model/mod.rs:532-536 | a value that reads a field is stable although the field is assigned before the read, and evaluates differently there |
| InlinePlan.PlanInline | src/resolve/inline_var.rs:48-89 | the entries are those of the reads with a sole, plain, target-free value; what teardown needs and drops |
| InlinePlan.DuplicatesACallOrConstruct | src/resolve/inline_var.rs:91-97 | the counting loop answers true exactly if two entries repeat one definition's call |
| InlinePlan.InlineAllReads | src/resolve/inline_var.rs:148-176 | refused exactly if a read or the teardown cannot be done; verified exactly if the teardown is clean, every entry is verified and no two entries repeat a definition's call |
| InlinePlan.FindRead | src/resolve/inline_var.rs:178-179 | the first entry at the range, or none exactly if no entry has it |
| InlinePlan.PlannedIff | src/resolve/inline_var.rs:48-89 | an entry is in the plan exactly if some read has it: its sole definition, the facts of that, and verified exactly if the value has no unresolved name and every write to a local it reads lies before it or in the value |
| InlinePlan.InlineSingleRead | src/resolve/inline_var.rs:178-202 | none exactly if no entry has the range or the only read cannot be torn down; verified only if the read is the only one and the teardown clean, or the value calls nothing |
| InlinePlan.FullPlanCoversEveryRead | src/resolve/inline_var.rs:148-151 | a plan as long as the list of reads has the entry of every read |
| InlinePlan.VerifiedInlineAllKeepsEveryRead | src/resolve/inline_var.rs:148-176 | when inlining all reads answers verified, every read keeps its value in every execution |
| InlinePlan.VerifiedInlineSingleKeepsRead | src/resolve/inline_var.rs:178-202 | when inlining one read answers verified, it keeps its value in every execution |
| InlineCalls.SingleReadVerdictIff | src/resolve/inline_var.rs:178-202 | with the declaration left in place, verified exactly if the value may be evaluated twice; without it, exactly if entry and teardown allow |
| InlineCalls.TornDownIff | src/resolve/inline_var.rs:105-127 | for every body: with its definition torn down, a calling value is evaluated as often as before, and in step, in all executions exactly if only even turns are collected at the ways out |
| InlineCalls.VerifiedSingleCallsAsOftenIff | src/resolve/inline_var.rs:178-202 | a verified rewrite of one read makes the value's calls as often as before, and in step, exactly if there are none or that condition holds |
| InlineCalls.VerifiedAllCallsAtOneRead | src/resolve/inline_var.rs:91-97 | after a verified rewrite of all reads, all calls of one definition are made at one read |
| InlineCalls.VerifiedAllCallsAsOftenIff | src/resolve/inline_var.rs:148-176 | so they are made as often as before exactly under the same condition |
| InlineCalls.SkippedReadDropsCall | src/resolve/inline_var.rs:113-116 | a concrete program whose verified rewrite loses a call |
| InlineCalls.LoopRepeatsCall | src/resolve/inline_var.rs:113-116 | and one whose verified rewrite repeats a call |
| Walk.TreeCursor.GotoFirstChild | src/cst/walk.rs:17-35 | a cursor descends to the first child exactly if there is one, and remembers the way back |
| Walk.TreeCursor.GotoNextSibling | src/cst/walk.rs:17-35 | a cursor moves right exactly if it is not at its root or a last child |
| Walk.TreeCursor.GotoParent | src/cst/walk.rs:17-35 | a cursor goes up exactly if it is not at its root |
| Walk.Walk | src/cst/walk.rs:17-35 | the cursor loop terminates with the state of the recursive traversal, for any visitor and any pruning |
| Walk.EventsPair | src/cst/walk.rs:17-35 | enters and leaves nest like brackets and never name a node outside the root's subtree |
| Fused.FusedVisitor.Enter | src/cst/walk.rs:60-73 | the two visitors and the skip depths change as specified; children are skipped only if both skip |
| Fused.FusedVisitor.Leave | src/cst/walk.rs:75-94 | a skip ends when its node is left |
| Fused.DriveFused | src/cst/walk.rs:17-35 | the cursor loop driving the fused object leaves it in the state of the recursive traversal |
| Fused.FusionIsTransparent | src/cst/walk.rs:39-94 | one fused traversal leaves both visitors as their own traversals would |
| Fused.FusionNests | src/cst/walk.rs:39-94 | the same for three visitors fused in two steps |
| Fused.WalkFused | src/document.rs:79-83 | driving the fused object over a tree gives the two solo results |
| Fused.TrackerKnowsAncestors | src/diagnostics/cst_walker.rs:186-209 | the tracker answers true exactly for error roots and the nodes below them, and is restored on leaving |
| Extractor.EnterKeepsFrames | src/symbols/extract.rs:118-123 | frame depths stay strictly increasing, at most one per open node |
| Extractor.LeaveKeepsFrames | src/symbols/extract.rs:70-80 | leaving drops just the frame of the node left, and depths stay increasing |
| Extractor.VisitorRefinesDescent | src/symbols/extract.rs:63-204 | the stack machine driven by enter and leave does what the descent that passes the mode down does |
| Extractor.ExtractionIsDescent | src/symbols/extract.rs:16-24 | over a document both give the same symbols, ids, containers and annotations |
| Extractor.SymbolExtractor.Enter | src/symbols/extract.rs:64-117 | the class's enter changes symbols, depth and frames as the machine does |
| Extractor.SymbolExtractor.EnterInBody | src/symbols/extract.rs:139-170 | the same for a node in a body, with pending annotations |
| Extractor.SymbolExtractor.EnterDecl | src/symbols/extract.rs:206-353 | the same for type, enum, state and callable declarations |
| Extractor.SymbolExtractor.EnterInEnum | src/symbols/extract.rs:172-189 | the same for a node in an enum |
| Extractor.SymbolExtractor.EnterInCallable | src/symbols/extract.rs:191-204 | the same for a node in a callable: only the first block becomes its body |
| Extractor.SymbolExtractor.PushSymbol | src/symbols/extract.rs:423-468 | the new symbol's id is its place in the list |
| Extractor.SymbolExtractor.Leave | src/symbols/extract.rs:70-80 | the class's leave is the machine's |
| Extractor.DriveExtractor | src/cst/walk.rs:17-35 | the cursor loop driving the object leaves it in the state of the recursive traversal |
| Extractor.ExtractSymbols | src/symbols/extract.rs:16-24 | driving the object over a tree gives the descent's symbols |
| SymbolSet.SymbolsAreDeclarations | src/symbols/extract.rs:98-468 | the symbols of a document are those of its declarations, one each: kind, name, ranges, container, bases and annotations are what node, place and surroundings in the tree say |
| SymbolSet.AnnotationIs | src/symbols/extract.rs:404-413 | an annotation is read exactly if the node has a name: that without its leading at signs, and the first identifier as argument |
| SymbolSet.DirectIs | src/symbols/extract.rs:415-421 | the annotations of a node's annotation children, in order |
| SymbolTable.NodeGrows | src/symbols/extract.rs:98-204 | each node adds symbols inside its own range, below the container it is in |
| SymbolTable.ExtractedTableIsWellFormed | src/symbols/extract.rs:423-468 | ids are places, containers come before their children, ranges are nested or disjoint |
| LocalSet.SymbolsAreInOrder | src/symbols/extract.rs:98-468 | symbols are numbered in the order of their declarations in the document |
| SymbolLookup.SortIsStable | src/symbols/types.rs:488-493 | the index is in order of start, earlier ids first among equals |
| SymbolLookup.EnclosingCallableId | src/symbols/types.rs:541-550 | the loop up the containers finds the nearest callable |
| SymbolLookup.IndexLocals | src/symbols/types.rs:518-532 | under each callable and name stand exactly its locals of that name |
| SymbolLookup.DocumentSymbols.BuildIndexes | src/symbols/types.rs:488-539 | both indexes are built as specified and the table is unchanged |
| SymbolLookup.DocumentSymbols.EnclosingSymbolAt | src/symbols/types.rs:386-402 | from the last symbol to start by the offset upwards, the nearest of the given kinds that does not end before it; it lies in every such symbol whose range holds the offset |
| SymbolLookup.DocumentSymbols.LocalAtByte | src/symbols/types.rs:458-473 | the last local of that name that starts at or before the byte, or none exactly if there is none |
| SymbolLookup.IndexDocument | src/document.rs:79-90 | from a syntax tree to the symbols of the descent with their indexes built |
| SymbolLookup.DocumentSymbols.LocalsComplete | src/symbols/types.rs:518-539 | the index has every such local and nothing else |
| LocalSet.LocalIff | src/symbols/types.rs:518-550 | the locals known under a callable and a name are exactly the variables and parameters of that name declared inside it and in no callable in between |
| EditQueue.WriterKeepsLatest | src/bin/witcherscript-lsp/edit_queue.rs:110-147 | neither the writer's publish nor its version-checked removal changes any document's latest text |
| EditQueue.StepKeepsInv | src/bin/witcherscript-lsp/edit_queue.rs:26-147 | every step of every thread keeps the lock, text, version and wakeup invariants |
| EditQueue.NoTextIsLost | src/bin/witcherscript-lsp/edit_queue.rs:26-38 | in every interleaving the latest text is the fold of all accepted batches |
| EditQueue.BatchDroppedOnlyIfUnusable | src/bin/witcherscript-lsp/text_sync.rs:64-103 | a batch is dropped only if the document is not open or the batch does not apply to its latest text |
| EditQueue.PublishedNeverOlder | src/bin/witcherscript-lsp/edit_queue.rs:154-190 | no step replaces a published parse by an older one |
| EditQueue.PublishedVersionsGrow | src/bin/witcherscript-lsp/edit_queue.rs:154-190 | over any run published versions never decrease |
| EditQueue.NoLostWakeup | src/bin/witcherscript-lsp/edit_queue.rs:61-77 | with something pending the writer is at work, or a permit is stored, or a handler is about to notify |
| EditQueue.PassStep | src/bin/witcherscript-lsp/edit_queue.rs:123-140 | in a quiet pass the writer can step, gets nearer the end, and settles each document it passes |
| EditQueue.WriterCatchesUp | src/bin/witcherscript-lsp/edit_queue.rs:110-147 | from every quiet state the writer alone can publish every latest text and empty the queue |
| EditProgress.HandlerFinishes | src/bin/witcherscript-lsp/text_sync.rs:64-105 | a handler that has the lock, or finds it free, finishes within nine steps of its own and leaves it free; its batch is accepted exactly if the document is open and the batch applies to its latest text |
| EditProgress.EveryStepIsProgress | src/bin/witcherscript-lsp/edit_queue.rs:26-147 | every step of a handler or of the writer brings the queue nearer to rest |
| EditProgress.SomeoneCanStep | src/bin/witcherscript-lsp/edit_queue.rs:26-147 | there is no deadlock: unless all is done, a handler or the writer can step |
| EditProgress.RestIsPublished | src/bin/witcherscript-lsp/edit_queue.rs:110-147 | where nobody can step every handler is done, nothing is pending, and what is published is the opened text with all accepted batches applied |
| EditProgress.ComesToRest | src/bin/witcherscript-lsp/edit_queue.rs:26-147 | from every state that can be reached with the writer running, steps lead there |
| DocumentSync.BatchesAreChanges | src/bin/witcherscript-lsp/text_sync.rs:72-100 | batch after batch is change after change |
| DocumentSync.ServerHoldsWhatWasTyped | src/bin/witcherscript-lsp/text_sync.rs:64-103 | in every interleaving the server's text is the opened text with every accepted change applied in order |
| DocumentSync.RestHoldsWhatWasTyped | src/bin/witcherscript-lsp/edit_queue.rs:110-147 | in every interleaving, whenever nobody can step the published documents are those texts |
| DocumentSync.WriterPublishesWhatWasTyped | src/bin/witcherscript-lsp/edit_queue.rs:110-147 | from every state that can be reached with the writer running, steps of handlers and writer lead there |
| ViewRefresh.NoLostWakeup | src/bin/witcherscript-lsp/view_refresh.rs:26-34 | a version not yet emitted has a permit, an awake refresher, or a bumper before its notify |
| ViewRefresh.RestMeansEmitted | src/bin/witcherscript-lsp/view_refresh.rs:26-34 | at rest the client has been told of the last version |
| ViewRefresh.EmissionsCoalesce | src/bin/witcherscript-lsp/view_refresh.rs:30-34 | emitted versions increase strictly, so there are never more emissions than bumps |
| ViewRefresh.FiveStepsSettle | src/bin/witcherscript-lsp/backend.rs:274-288 | with no notify outstanding the refresher settles within five steps, having emitted the version |
| ViewRefresh.EveryStepIsProgress | src/bin/witcherscript-lsp/view_refresh.rs:26-34 | each step of a bumper or of the refresher leaves less to do |
| ViewRefresh.VersionCounts | src/bin/witcherscript-lsp/view_refresh.rs:26-34 | the version is the number of bumps so far |
| ViewRefresh.RestIsEmitted | src/bin/witcherscript-lsp/backend.rs:274-288 | where nobody can step every bump has been counted and the client told of the last version |
| InitialIndex.NobodyLeftAsleep | src/bin/witcherscript-lsp/lifecycle.rs:308-309 | after the flag and `notify_waiters` nobody is parked and not woken |
| InitialIndex.EveryWaiterReturns | src/bin/witcherscript-lsp/edit_queue.rs:88-98 | from then on every waiter returns within three steps of its own |
| InitialIndex.NobodyReturnsEarly | src/bin/witcherscript-lsp/edit_queue.rs:94-96 | nobody returns before the flag is set |
| InitialIndex.NotificationWakes | src/bin/witcherscript-lsp/lifecycle.rs:308-309 | the notification wakes everybody who has registered and changes nobody else |
| InitialIndex.EveryStepIsProgress | src/bin/witcherscript-lsp/edit_queue.rs:88-98 | each step of the indexer or of a waiter leaves less to do |
| InitialIndex.RestIsReturned | src/bin/witcherscript-lsp/edit_queue.rs:88-98 | where nobody can step the index is there and every waiter has returned |
| Subscriptions.InverseIsUnique | src/resolve/subscription_registry.rs:6-12 | the bucket table is determined by who watches what |
| Subscriptions.InsertAll | src/resolve/subscription_registry.rs:62-71 | after the loop the table inverts the relation with the subscriber's new keys |
| Subscriptions.RemoveAll | src/resolve/subscription_registry.rs:73-86 | after the loop the table inverts the relation without the subscriber, and has no empty bucket |
| Subscriptions.SubscriptionRegistry.Register | src/resolve/subscription_registry.rs:15-28 | the subscriber's keys are replaced, all others kept, all three tables exact |
| Subscriptions.SubscriptionRegistry.Unregister | src/resolve/subscription_registry.rs:30-43 | the subscriber is gone, all others kept, all three tables exact |
| Subscriptions.SubscriptionRegistry.BucketIsExact | src/resolve/subscription_registry.rs:45-59 | a bucket holds exactly the subscribers that observed its key |
| Subscriptions.SubscriptionRegistry.Subscribers | src/resolve/subscription_registry.rs:45-59 | the union of the buckets is the set of subscribers that observed one of the keys |
| Subscriptions.ObservationsAreKeys | src/resolve/subscription_registry.rs:45-59 | observations that hold the same keys are the same |
| DiagnosticsCache.FindHits | src/bin/witcherscript-lsp/cst_cache.rs:56-73 | hits are reported, misses put aside, and every file is one or the other |
| DiagnosticsCache.CstCache.Diagnostics | src/bin/witcherscript-lsp/cst_cache.rs:46-150 | what a pull commits, returns, counts and subscribes, cancelled or not |
| DiagnosticsCache.PullIs | src/bin/witcherscript-lsp/cst_cache.rs:56-132 | an entry that hit stays, a file asked about without one is recomputed if the pull gets to it, every other entry stays |
| DiagnosticsCache.CancelledIff | src/bin/witcherscript-lsp/cst_cache.rs:76-118 | a pull is cancelled exactly if it could not start or leaves a file it was asked about without an entry that hits |
| DiagnosticsCache.PullAgainHits | src/bin/witcherscript-lsp/cst_cache.rs:56-73 | after a pull that was not cancelled, asking again computes nothing |
| DiagnosticsCache.EvictedIff | src/bin/witcherscript-lsp/indexing/open_documents.rs:294-321 | a publish evicts an entry exactly if its file observed a changed key of one of the two sides or was named, and leaves the others as they are |
| DiagnosticsCache.RetainIs | src/bin/witcherscript-lsp/diagnostics_publish.rs:390-396 | a whole-workspace pull keeps just the entries of the files it saw |
| DiagnosticsCache.PublishKeepsInv | src/bin/witcherscript-lsp/indexing/open_documents.rs:294-321 | a publish that evicts the subscribers of its changed keys leaves only current entries |
| DiagnosticsCache.PullKeepsInvIff | src/bin/witcherscript-lsp/diagnostics_publish.rs:267-280 | a pull keeps every entry current and its keys subscribed exactly if it was not cancelled, or each file it computed was subscribed to all it looked up |
| DiagnosticsCache.PullHarmlessIff | src/bin/witcherscript-lsp/diagnostics_publish.rs:267-280 | under all rules that look up the same keys and after every publish the cache still answers right, exactly under that condition |
| DiagnosticsCache.CacheIsCoherent | src/bin/witcherscript-lsp/cst_cache.rs:56-140 | over every run of such pulls, publishes and evictions, an entry that would hit equals recomputation |
| DiagnosticsCache.PullReportsFresh | src/bin/witcherscript-lsp/cst_cache.rs:134-150 | a pull that is not cancelled leaves, for each file asked about, the diagnostics of the rules now |
| DiagnosticsCache.UnsubscribedGoesStale | src/bin/witcherscript-lsp/cst_cache.rs:120-140 | an entry that rests on a key without a subscription is stale after a publish of that key |
| DiagnosticsCache.CancelledPullGoesStale | src/bin/witcherscript-lsp/diagnostics_publish.rs:278-280 | a cancelled pull leads to such an entry: a concrete run |
| PullRaces.LandingIsPull | src/bin/witcherscript-lsp/cst_cache.rs:108-150 | commit and registration with nothing in between since the snapshot are a pull in one step |
| PullRaces.LandsHarmlessIff | src/bin/witcherscript-lsp/cst_cache.rs:120-132 | a pull overtaken by other events lands without harm exactly if nothing its files looked up has changed since and each is registered or was subscribed |
| PullRaces.RegisterHarmlessIff | src/bin/witcherscript-lsp/diagnostics_publish.rs:301-316 | a late registration is harmless exactly if it takes no file a key that its cached entry rests on |
| PullRaces.GapHarmlessIff | src/bin/witcherscript-lsp/diagnostics_publish.rs:267-316 | commit, one publish, then registration is harmless exactly if each computed file is evicted by the publish or nothing it looked up differs from the snapshot |
| PullRaces.OverlappingPullsAreCoherent | src/bin/witcherscript-lsp/cst_cache.rs:56-140 | over every run of commits, later registrations and publishes, in which nothing a commit rests on has changed since its snapshot and no publish changes what an unsubscribed entry that it leaves rests on: every entry stays current and one that would hit equals recomputation |
| PullRaces.OvertakenPullGoesStale | src/bin/witcherscript-lsp/cst_cache.rs:120-132 | a run in which a publish between snapshot and commit leaves a stale hit |
| PullRaces.LateRegistrationGoesStale | src/bin/witcherscript-lsp/diagnostics_publish.rs:301-316 | a run in which an older pull registers last and a later publish leaves a stale hit |
| Types.SplitTypeArgs | src/types/parse.rs:66-82 | the loop yields the text between the commas outside brackets, trimmed |
| Types.PartsCount | src/types/parse.rs:66-82 | there is one part more than there are such commas |
| Types.DbStringIsShow | src/types/mod.rs:48-60 | the lookup key exists exactly for fully known types and is then what is displayed |
| Types.FromGeneric | src/types/parse.rs:43-54 | an annotation with brackets is generic only with the right number of arguments, else a name |
| AnnotationReading.ReadsAsGeneric | src/types/mod.rs:83-95 | from the first opening bracket to a closing one at the end, `array` with one argument and `map` with two are generic types, whatever the spaces, and anything else stays one name |
| AnnotationReading.ReadsAsWord | src/types/parse.rs:35-64 | without a bracket, or with something behind the last one, an annotation is `void`, a primitive or a name |
| AnnotationReading.NothingReadsAsUnknown | src/types/parse.rs:35-64 | an annotation of spaces only is unknown |
| AnnotationReading.SpacesAround | src/types/parse.rs:35-64 | spaces around an annotation make no difference |
| AnnotationReading.MarkersReadAsNames | src/types/mod.rs:69-81 | what is printed for null and for an unknown type reads as an ordinary name |
| AnnotationReading.PlainNamesReadBack | src/types/mod.rs:69-81 | a known type of plain names is read back as printed, however deeply nested |
| PrimitiveNames.AliasIff | src/types/parse.rs:6-25 | a spelling names a primitive exactly if it is its canonical name or its name in the engine, told from what the type is |
| PrimitiveNames.CanonicalIs | src/types/mod.rs:101-118 | canonical names are words in small letters or else the engine's |
| Types.SpacesAre | src/types/mod.rs:83-95 | what is trimmed are the code points with the property White_Space |
| Types.ShowScansAlike | src/types/parse.rs:35-64 | printing what was parsed keeps bracket depth and outer commas, from any depth |
| Types.RoundTripIff | src/types/mod.rs:69-81 | reading back a printed type gives it exactly if its names and arguments can be told apart |
| Types.PrintedFormIsStable | src/types/parse.rs:35-64 | for every string, printing and parsing again gives the same type exactly if nothing in it is unknown |
| Splices.ApplySplices | src/resolve/edit_plan.rs:46-55 | the loop applies the splices in order of falling start, stably |
| Splices.SpliceSubs | src/formatter/action.rs:54-72 | the loop copies the text with the substitutions in order of start |
| Splices.AppliersAgree | src/resolve/edit_plan.rs:46-55 | on disjoint in-bounds edits with distinct starts both appliers give the same text and neither panics |
| Splices.ListOrderIsIrrelevant | src/resolve/edit_plan.rs:46-55 | the order in which such edits are listed makes no difference |
| Splices.AppliedOffset | src/resolve/edit_plan.rs:104-110 | the fold is the shift of the edits before the offset and never underflows |
| Splices.OffsetLandsBetween | src/resolve/edit_plan.rs:104-110 | the shifted offset is where the edited rest of the text begins |
| Splices.CaretIsOnReplacement | src/resolve/edit_plan.rs:112-141 | the replacement text stands at the replaced range's shifted start when the insertion is elsewhere |
| Splices.CaretIsOnReplacementIff | src/resolve/edit_plan.rs:112-141 | it stands there for all texts exactly if something is replaced and the insertion is not at its start |
| Splices.SharedStartOverwrites | src/resolve/edit_plan.rs:112-141 | with a shared start the replacement overwrites the inserted text |
| Splices.SharedStartDisagrees | src/resolve/edit_plan.rs:46-55 | the two appliers then differ: a family of inputs |
| Splices.AgreeForAllTextsIff | src/resolve/edit_plan.rs:46-55 | in-bounds ranges give the same under both appliers for all replacement texts exactly if they are disjoint and start apart |
| Splices.InsertAndReplaceAgreeIff | src/resolve/edit_plan.rs:112-141 | an insertion and a replacement do exactly if the insertion is neither inside the range nor at its start |
| LineIndex.New | src/line_index.rs:31-41 | the loop finds the byte after every newline |
| LineIndex.RowsAreLines | src/line_index.rs:51-60 | a row counts the newlines before a character and starts after the last of them |
| LineIndex.ByteToPositionIs | src/line_index.rs:51-60 | a byte on a character boundary gets its row and its UTF-16 column, each the largest u32 if it does not fit |
| LineIndex.FindByte | src/line_index.rs:62-88 | the loop over a line's characters finds the byte at which exactly the given units have passed |
| LineIndex.BytePositionRoundTrip | src/line_index.rs:51-88 | every character boundary is found again from its position |
| LineIndex.PositionFoundIff | src/line_index.rs:62-88 | a position is found exactly if it is a boundary's own or the end-of-line alias of the next line's start |
| LineIndex.PositionsIncrease | src/line_index.rs:51-60 | later characters have later positions |
| LineIndex.PointsAgree | src/document.rs:127-145 | the point from the index and the point from the text agree on every boundary |
| Unicode.Utf16LenIs | src/line_index.rs:62-88 | a character has as many units as its UTF-16 encoding, which decodes to it |
| Unicode.Utf8LenIs | src/line_index.rs:62-88 | and as many bytes as its UTF-8 encoding, the shortest that decodes to it |
| Unicode.TextsAreMeasured | src/line_index.rs:51-60 | texts are measured in the bytes and units of their encodings |
| LineIndex.ChangeIsExact | src/document.rs:95-125 | a change replaces exactly the characters between its positions and its edit describes that in bytes and points |
| LineIndex.ChangeRefusedIff | src/document.rs:105-109 | a change is refused exactly if a position is nowhere in the text or they are in the wrong order |
| LineIndex.DidChange | src/bin/witcherscript-lsp/text_sync.rs:72-96 | the batch loop folds the changes, each read against an index of the text it applies to |
| LineIndex.ReplacementForgets | src/document.rs:101-103 | a batch that has a change without a range ends as that change's text with the changes after it applied, whatever the text before |
| LineIndex.IncrementalIff | src/bin/witcherscript-lsp/text_sync.rs:72-100 | a batch that is not dropped leaves the previous tree usable exactly if no change lacks a range |
| SemanticTokens.TraverseKeepsOrder | src/semantic_tokens/mod.rs:129-158 | a subtree's tokens come after those so far and end by its end |
| SemanticTokens.CollectedAreOrdered | src/semantic_tokens/mod.rs:88-112 | whatever the classification, tokens are in order and none overlaps the next |
| TokenSet.CollectedExactly | src/semantic_tokens/mod.rs:88-158 | what is collected are exactly the tokens of the classified, one-line, non-empty nodes that overlap the range below named, unclassified nodes that do, once each and in document order, with start, full length and class |
| SemanticTokens.Encode | src/semantic_tokens/mod.rs:323-346 | the loop computes the deltas |
| SemanticTokens.EncodeDefinedIff | src/semantic_tokens/mod.rs:323-346 | encoding underflows exactly on tokens out of order, and yields five numbers a token |
| SemanticTokens.EncodedAt | src/semantic_tokens/mod.rs:323-346 | the five numbers of token k are its line and start counted from the token before, its length, type and modifiers |
| SemanticTokens.DecodeUndoesEncode | src/semantic_tokens/mod.rs:323-346 | decoding gives the tokens back |
| SemanticTokens.EncodeUndoesDecode | src/semantic_tokens/mod.rs:323-346 | and encoding gives any data back |
| SemanticTokens.CollectedRoundTrip | src/semantic_tokens/mod.rs:88-112 | what is collected can be encoded and decodes to itself |
| SemanticTokens.EditsLeadToCurrent | src/bin/witcherscript-lsp/semantic_tokens_cache.rs:22-48 | applying the edits to the previous data gives the current data; no edit exactly if they are equal |
| SemanticTokens.EditIsTight | src/bin/witcherscript-lsp/semantic_tokens_cache.rs:22-48 | there is at most one edit, and at both ends of it the tokens differ |
| SemanticTokens.ClientShowsTokens | src/bin/witcherscript-lsp/semantic_tokens_cache.rs:22-48 | a client that applies the edits decodes the tokens of the current document |
| NativeLayout.LayoutWriter.Push | src/builtins/native_layout.rs:69-77 | the line count and line start stay those of the text |
| NativeLayout.LayoutWriter.MarkHere | src/builtins/native_layout.rs:79-87 | a mark's line and column are the newlines before its byte and the bytes since the last |
| NativeLayout.LayoutWriter.PushSpanned | src/builtins/native_layout.rs:89-96 | the span slices exactly the fragment |
| NativeLayout.RenderMember | src/builtins/native_layout.rs:145-175 | the reported range and selection are true of the text |
| NativeLayout.RenderMembers | src/builtins/native_layout.rs:128-137 | all spans reported so far stay true, disjoint and in order |
| NativeLayout.RenderType | src/builtins/native_layout.rs:109-143 | every span reported for a type is true of the final text |
| NativeLayout.RenderGlobals | src/builtins/native_layout.rs:177-191 | every span reported for the globals is true of the final text |
| NativeLayout.MemberStandsOnItsLine | src/builtins/native_layout.rs:145-149 | without newlines in the parts, member i starts on line i + 1, column 4 |
| LayoutReading.HeaderReadsBack | src/builtins/native_layout.rs:109-126 | the text of a header says whether it is abstract, what kind of type it is, its name and its base |
| LayoutReading.MemberReadsBack | src/builtins/native_layout.rs:145-175 | the text of a member says its kind, its name, and a field's type or an option's value |
| LayoutReading.GlobalReadsBack | src/builtins/native_layout.rs:177-191 | a global function reads like a method |
| LayoutReading.CommasSeparateOptions | src/builtins/native_layout.rs:145-149 | options are separated by commas and nothing else is |
| LayoutReading.BraceCloses | src/builtins/native_layout.rs:139-142 | the type ends with its brace, on a line of its own if there are members |

## Left out

- Tree-sitter, its cursors and its incremental edits are foreign code; trees are ordered nodes with byte ranges.
- Bit patterns: a mask is the set of its bit positions.
- An absent body or `else` is the empty statement and an absent switch block has no sections; the code treats them alike.
- Statements of unknown kinds: executions of the model do nothing in them. What the analysis makes of them and of reads in them is not left out.
- Soundness.ExecutionAccounted: assumes no definitions in conditions, switch heads and case values and no `continue` that belongs to a do-while; for all other programs `TrueFlow.MaskSoundIff` and `WalkGaps.ExitSoundIff` say exactly when it holds.
- Soundness.RecordedMaskIsSound: the same.
- Soundness.DeadExitsAreDead: the same.
- Exactness.MaskIsMeetOverAllPaths: assumes that no code is dead and that the body of a loop with an iteration part or a do-while's condition can complete; the walk gives dead switch code the head state, which no path brings there. `TrueFlow.MaskExactIff` has no such assumption.
- Exactness.Deliver: the same assumption; `Collecting.CollectIsExact` has none.
- InlineValue.StableReadKeepsValue: values are literals, names and operators; calls and other effects in a value are not expressions of the model. It asks that no field in the value is written later in the text and that the declaration is in the body's own list; `InlineTrail.KeptWhenInForceIff` and `InlineExact.StableValueKeptIff` say exactly what happens otherwise.
- InlinePlan.VerifiedInlineSingleKeepsRead: the same; `InlineExact.PlannedReadKeptIff` covers every body with a sound mask.
- InlineTrail.KeptWhenInForceIff: the places where a field is written are given; aliases of objects and what a call writes are not computed.
- InlinePlan.VerifiedInlineAllKeepsEveryRead: says that the substituted values are right; that deleting the stores drops no effect rests on a test of the body model that is not part of this model.
- InlinePlan.PlanInline: the rendering of the substituted text, parentheses and the splices that delete declarations are left out.
- InlinePlan.InlineAllReads: the same for the edits it returns.
- InlineCalls.TornDownIff: a read counts once for each evaluation of the statement or condition it stands in; short-circuit operators inside one are not modelled.
- Fused.FusionIsTransparent: the two visitors inside the fused object are values rather than mutable references, so aliasing between the two is not captured.
- Extractor.SymbolExtractor.PushSymbol: symbols are extracted without documentation comments, specifiers and line ranges.
- Extractor.SymbolExtractor.EnterDecl: and without type annotations, flavours and access levels.
- SymbolTable.ExtractedTableIsWellFormed: assumes that children lie inside their parent in order and that a callable's parameters come before its block.
- LocalSet.SymbolsAreInOrder: the same.
- SymbolLookup.DocumentSymbols.BuildIndexes: the name tables for top-level symbols, types and members are left out; they are plain grouping by name.
- Opening and closing documents and full-document replacement go through indexing functions that are not part of this model; parses are assumed to succeed.
- EditQueue.WriterCatchesUp: has the writer alone step, from a quiet state; `EditProgress` has no such assumption. That the scheduler lets those step who can is not modelled.
- Parse versions, state versions and the depth of nested brackets are unbounded numbers.
- Hash collisions: the database fingerprint stands for what it was computed from.
- DiagnosticsCache.CacheIsCoherent: pulls happen in one step; `PullRaces.OverlappingPullsAreCoherent` has them in three. Pulls under which it is false are excluded by the exact condition of `DiagnosticsCache.PullHarmlessIff`.
- Classification of identifiers against the symbol database and its per-name cache; a node's class is a parameter.
- SemanticTokens.CollectedAreOrdered: assumes a text below 4 GiB and nodes on character boundaries.
- SemanticTokens.CollectedRoundTrip: the same.
- TokenSet.CollectedExactly: the same.
- SemanticTokens.EditsLeadToCurrent: assumes that the lengths of both data fit in u32.
- Marks that exceed u32 make the layout writer panic; the model's marks are unbounded.
- `delete_statement`, `remove_list_entry`, the pretty-printer, individual diagnostic rules, completion, hover, rename, file walking, configuration and telemetry would add only easy or unrelated members.
