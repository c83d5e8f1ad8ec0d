/** Where a verified inlining is not value-preserving: a declaration nested in a loop, and a value that reads a field. */
module InlineLimits {
  import opened Wrappers
  import opened Syntax
  import opened ReachingDefs
  import opened GenKill
  import opened Executions
  import opened Soundness
  import opened Exactness
  import opened Window
  import opened InlineSafety
  import opened InlineValue
  import opened InlineTrail
  import opened InlineExact

  /* `while (c) { y = 3; if (d) var x = y; use(x); }` */

  const WRITE_Y: Stmt := Leaf(Span(12, 18))
  const DECLARE: Stmt := If(Some(Span(20, 21)), Leaf(Span(22, 30)), Nop)
  const USE_X: Stmt := Leaf(Span(32, 40))
  const NESTED: Stmt := While(Some(Span(10, 11)), Block([WRITE_Y, DECLARE, USE_X]))
  const NESTED_OWNERS: seq<Span> := [Span(22, 30)]

  lemma NestedOwner()
    ensures LastIn(NESTED_OWNERS, Span(22, 30), 1) == Some(0)
    ensures LastIn(NESTED_OWNERS, Span(12, 18), 1) == None
    ensures LastIn(NESTED_OWNERS, Span(32, 40), 1) == None
  {
    var o := NESTED_OWNERS;
    assert LastIn(o, Span(22, 30), 0) == None && LastIn(o, Span(12, 18), 0) == None && LastIn(o, Span(32, 40), 0) == None;
  }

  lemma {:induction false} NestedBody(s: Mask)
    ensures FlowOf(NESTED_OWNERS, NESTED.body, s) == Through({0} + s)
    ensures MarkOf(NESTED_OWNERS, NESTED.body, s, Span(34, 35)) == {0} + s
  {
    var o, x := NESTED_OWNERS, Span(34, 35);
    NestedOwner();
    assert FlowOf(o, WRITE_Y, s) == Through(s) && MarkOf(o, WRITE_Y, s, x) == {};
    assert FlowOf(o, DECLARE, s) == Through({0} + s) && MarkOf(o, DECLARE, s, x) == {};
    assert FlowOf(o, USE_X, {0} + s) == Through({0} + s) && MarkOf(o, USE_X, {0} + s, x) == {0} + s;
    assert [WRITE_Y, DECLARE, USE_X][1..] == [DECLARE, USE_X] && [DECLARE, USE_X][1..] == [USE_X] && [USE_X][1..] == [];
    assert FlowOfBlock(o, [USE_X], {0} + s) == Through({0} + s) && MarkOfBlock(o, [USE_X], {0} + s, x) == {0} + s;
    assert FlowOfBlock(o, [DECLARE, USE_X], s) == Through({0} + s) && MarkOfBlock(o, [DECLARE, USE_X], s, x) == {0} + s;
  }

  const NESTED_RUN: Run :=
    Iterate(Chain(Done, Chain(Left(Done), Chain(Done, Done))),
            Iterate(Chain(Done, Chain(Right(Done), Chain(Pause, Done))), Done))

  const FIRST_ROUND: seq<Event> := [Visit(Span(12, 18)), Visit(Span(20, 21)), Visit(Span(22, 30)), Def(0, Span(22, 30)), Visit(Span(32, 40))]
  const SECOND_ROUND: seq<Event> := [Visit(Span(12, 18)), Visit(Span(20, 21))]

  /** A single definition, inside the region. */
  lemma OneDefIn(owners: seq<Span>, region: Span)
    requires |owners| == 1 && region.Contains(owners[0])
    ensures DefsIn(owners, region, 1) == [Def(0, region)]
  {
    assert DefsIn(owners, region, 0) == [];
    assert InsertDef(owners, [], Def(0, region)) == [Def(0, region)];
  }

  /* Executions of blocks and leaves, one statement at a time. */

  lemma BlockStep(owners: seq<Span>, stmt: Stmt, more: seq<Stmt>, first: Run, rest: Run, t: seq<Event>, o: Outcome)
    requires Exec(owners, stmt, first) == Ended(t, Normal) && ExecBlock(owners, more, rest) == o
    ensures ExecBlock(owners, [stmt] + more, Chain(first, rest)) == Before(t, o)
  {
    assert ([stmt] + more)[1..] == more;
  }

  lemma BlockStops(owners: seq<Span>, stmt: Stmt, more: seq<Stmt>, first: Run, rest: Run, t: seq<Event>, exit: Exit)
    requires Exec(owners, stmt, first) == Ended(t, exit) && !exit.Normal?
    ensures ExecBlock(owners, [stmt] + more, Chain(first, rest)) == Ended(t, exit)
  {
  }

  lemma LeafRuns(owners: seq<Span>, r: Span)
    ensures Exec(owners, Leaf(r), Done) == Ended([Visit(r)] + DefsIn(owners, r, |owners|), Normal)
  {
  }

  lemma NoDefIn(owners: seq<Span>, region: Span)
    requires |owners| == 1 && !region.Contains(owners[0])
    ensures DefsIn(owners, region, 1) == []
  {
    assert DefsIn(owners, region, 0) == [];
  }

  lemma DeclareRuns()
    ensures Exec(NESTED_OWNERS, DECLARE, Left(Done))
         == Ended([Visit(Span(20, 21)), Visit(Span(22, 30)), Def(0, Span(22, 30))], Normal)
    ensures Exec(NESTED_OWNERS, DECLARE, Right(Done)) == Ended([Visit(Span(20, 21))], Normal)
  {
    var o, c := NESTED_OWNERS, [Visit(Span(20, 21))];
    OneDefIn(o, Span(22, 30));
    NoDefIn(o, Span(20, 21));
    LeafRuns(o, Span(22, 30));
    assert c + [] == c;
    assert c + ([Visit(Span(22, 30))] + [Def(0, Span(22, 30))]) == [Visit(Span(20, 21)), Visit(Span(22, 30)), Def(0, Span(22, 30))];
  }

  lemma WriteRuns()
    ensures Exec(NESTED_OWNERS, WRITE_Y, Done) == Ended([Visit(Span(12, 18))], Normal)
    ensures Exec(NESTED_OWNERS, USE_X, Done) == Ended([Visit(Span(32, 40))], Normal)
  {
    NoDefIn(NESTED_OWNERS, Span(12, 18));
    NoDefIn(NESTED_OWNERS, Span(32, 40));
    LeafRuns(NESTED_OWNERS, Span(12, 18));
    LeafRuns(NESTED_OWNERS, Span(32, 40));
    assert [Visit(Span(12, 18))] + [] == [Visit(Span(12, 18))] && [Visit(Span(32, 40))] + [] == [Visit(Span(32, 40))];
  }

  lemma NestedStmts()
    ensures [WRITE_Y, DECLARE, USE_X] == [WRITE_Y] + ([DECLARE] + ([USE_X] + []))
  {
  }

  lemma FirstRound()
    ensures Exec(NESTED_OWNERS, NESTED.body, NESTED_RUN.body) == Ended(FIRST_ROUND, Normal)
  {
    var o, use, d := NESTED_OWNERS, [Visit(Span(32, 40))], [Visit(Span(20, 21)), Visit(Span(22, 30)), Def(0, Span(22, 30))];
    DeclareRuns();
    WriteRuns();
    BlockStep(o, USE_X, [], Done, Done, use, Ended([], Normal));
    BlockStep(o, DECLARE, [USE_X] + [], Left(Done), Chain(Done, Done), d, Ended(use + [], Normal));
    BlockStep(o, WRITE_Y, [DECLARE] + ([USE_X] + []), Done, Chain(Left(Done), Chain(Done, Done)), [Visit(Span(12, 18))],
              Ended(d + (use + []), Normal));
    NestedStmts();
    assert [Visit(Span(12, 18))] + (d + (use + [])) == FIRST_ROUND;
  }

  lemma SecondRound()
    ensures Exec(NESTED_OWNERS, NESTED.body, NESTED_RUN.next.body) == Ended(SECOND_ROUND, Reading(Span(32, 40)))
  {
    var o, c := NESTED_OWNERS, [Visit(Span(20, 21))];
    DeclareRuns();
    WriteRuns();
    BlockStops(o, USE_X, [], Pause, Done, [], Reading(Span(32, 40)));
    BlockStep(o, DECLARE, [USE_X] + [], Right(Done), Chain(Pause, Done), c, Ended([], Reading(Span(32, 40))));
    BlockStep(o, WRITE_Y, [DECLARE] + ([USE_X] + []), Done, Chain(Right(Done), Chain(Pause, Done)), [Visit(Span(12, 18))],
              Ended(c + [], Reading(Span(32, 40))));
    NestedStmts();
    assert [Visit(Span(12, 18))] + (c + []) == SECOND_ROUND;
  }

  /** With the declaration inside a loop, the analysis still names it as the only definition to reach the read, but an
      execution evaluates text before the declaration in between: the first statement of the loop's next round.  So the
      textual test of the value's stability says nothing about what happened since. */
  lemma NestedDeclarationHasEarlierWork()
    ensures SoleDef(MarkOfBlock(NESTED_OWNERS, [NESTED], {}, Span(34, 35))) == Some(0)
    ensures exists run: Run, k: int :: EarlierWork(Exec(NESTED_OWNERS, Block([NESTED]), run), Span(34, 35), k)
  {
    NestedMask();
    NestedExecution();
    NestedTrace();
    ShowsEarlierWork(Exec(NESTED_OWNERS, Block([NESTED]), Chain(NESTED_RUN, Done)), NESTED_TRACE, 4, 7);
  }

  lemma ShowsEarlierWork(o: Outcome, trace: seq<Event>, k: nat, m: nat)
    requires o == Ended(trace, Reading(Span(32, 40))) && LastAt(trace, k, 0) && trace[k] == Def(0, Span(22, 30))
    requires k < m < |trace| && trace[m] == Visit(Span(12, 18))
    ensures EarlierWork(o, Span(34, 35), k)
  {
  }

  const NESTED_HEAD: seq<Event> := [Visit(Span(10, 11))]
  const NESTED_TRACE: seq<Event> := NESTED_HEAD + FIRST_ROUND + NESTED_HEAD + SECOND_ROUND

  lemma NestedTrace()
    ensures LastAt(NESTED_TRACE, 4, 0) && NESTED_TRACE[4] == Def(0, Span(22, 30)) && NESTED_TRACE[7] == Visit(Span(12, 18))
    ensures OneDefinition(NESTED_TRACE)
  {
  }

  /** The only definition in the trace is that of the declaration. */
  ghost predicate OneDefinition(trace: seq<Event>) {
    forall j :: 0 <= j < |trace| && trace[j].Def? ==> trace[j] == Def(0, Span(22, 30))
  }

  lemma NestedMask()
    ensures SoleDef(MarkOfBlock(NESTED_OWNERS, [NESTED], {}, Span(34, 35))) == Some(0)
  {
    assert [NESTED][1..] == [];
    NestedBody({});
    NestedBody({0});
    assert LoopEntry(FlowOf(NESTED_OWNERS, NESTED.body, {}), {}) == {0};
    assert MarkOf(NESTED_OWNERS, NESTED, {}, Span(34, 35)) == {0};
  }

  lemma NestedExecution()
    ensures Exec(NESTED_OWNERS, Block([NESTED]), Chain(NESTED_RUN, Done)) == Ended(NESTED_TRACE, Reading(Span(32, 40)))
  {
    var o := NESTED_OWNERS;
    FirstRound();
    SecondRound();
    NoDefIn(o, Span(10, 11));
    assert RegionTrace(o, Some(Span(10, 11))) == NESTED_HEAD;
    LastRoundReads(o, Span(10, 11), NESTED.body, NESTED_RUN.next, SECOND_ROUND, Span(32, 40));
    FirstRoundEnds(o, Span(10, 11), NESTED.body, NESTED_RUN, FIRST_ROUND);
    assert NESTED_HEAD + FIRST_ROUND + (NESTED_HEAD + SECOND_ROUND) == NESTED_TRACE;
    BlockStops(o, NESTED, [], NESTED_RUN, Done, NESTED_TRACE, Reading(Span(32, 40)));
    assert [NESTED] + [] == [NESTED];
  }

  lemma LastRoundReads(owners: seq<Span>, cond: Span, body: Stmt, run: Run, t: seq<Event>, x: Span)
    requires run.Iterate? && Exec(owners, body, run.body) == Ended(t, Reading(x))
    ensures ExecLoop(owners, Some(cond), None, body, run) == Ended(RegionTrace(owners, Some(cond)) + t, Reading(x))
  {
  }

  lemma FirstRoundEnds(owners: seq<Span>, cond: Span, body: Stmt, run: Run, t: seq<Event>)
    requires run.Iterate? && run.next.Iterate? && Exec(owners, body, run.body) == Ended(t, Normal)
    ensures ExecLoop(owners, Some(cond), None, body, run)
         == Before(RegionTrace(owners, Some(cond)) + t, ExecLoop(owners, Some(cond), None, body, run.next))
  {
    var o := RegionTrace(owners, Some(cond)) + t;
    assert o + [] == o;
  }

  /** An execution about to read `x` that evaluated earlier text after its last definition, at position `k`. */
  ghost predicate EarlierWork(o: Outcome, x: Span, k: int) {
    o.Ended? && o.exit.Reading? && o.exit.region.Contains(x) && LastAt(o.trace, k, 0) && !LaterInText(o.trace, k)
  }

  /** `x` is declared as `y`, which is written at byte 12. */
  const NESTED_VALUE: Value := Value(Name(Local(1)), Span(28, 29))
  const NESTED_VARIABLE: Variable := Variable(0, [Source(Some(NESTED_VALUE), 22)], map[Local(1) := [12]])

  lemma NestedValueIsStable()
    ensures StableSource(NESTED_VARIABLE, 0, NESTED_VALUE) && Settled(NESTED_VALUE, 22, NESTED_VARIABLE.writes)
    ensures Touches(NESTED_VALUE, NESTED_VARIABLE.writes, Span(12, 18))
  {
    assert Idents(NESTED_VALUE.expr) == [Local(1)] && Local(1) in Idents(NESTED_VALUE.expr);
    var writes, p := NESTED_VARIABLE.writes, 12;
    assert Local(1) in writes && p in writes[Local(1)];
    assert WritableAt(Local(1), writes, Span(12, 18), p);
    assert !WrittenLater(NESTED_VARIABLE.writes, Local(1), Span(28, 29), 22);
  }

  /** An execution that reads `x` after the earlier write has run again loses the value, though the analysis names the
      definition and the value is stable. */
  lemma {:induction false} LosesNestedValue(body: seq<Stmt>, run: Run, trace: seq<Event>, k: nat, m: nat)
    requires Exec(NESTED_OWNERS, Block(body), run) == Ended(trace, Reading(Span(32, 40)))
    requires LastAt(trace, k, 0) && k < m < |trace| && trace[m] == Visit(Span(12, 18)) && OneDefinition(trace)
    ensures !KeptWhenInForce(NESTED_VARIABLE, 0, NESTED_VALUE, NESTED_OWNERS, body, Span(34, 35))
  {
    NestedValueIsStable();
    TouchedBy(NESTED_VALUE, NESTED_VARIABLE.writes, 0, trace, k, m);
    OneDefinitionFits(trace);
    var acts := TouchedLoses(NESTED_VARIABLE, 0, NESTED_VALUE, trace);
    UnsetIff(NESTED_VALUE, NESTED_VARIABLE.writes, 0, trace);
    assert Courses(NESTED_VARIABLE, NESTED_OWNERS, body, run, Span(34, 35), acts, Zero, Sum);
  }

  lemma OneDefinitionFits(trace: seq<Event>)
    requires OneDefinition(trace)
    ensures Fitted(NESTED_VARIABLE, trace)
  {
    forall j | 0 <= j < |trace| && trace[j].Def?
      ensures FittedDef(NESTED_VARIABLE, trace[j])
    {
    }
  }

  /** A verified inlining that gives a wrong value: the declaration is nested in a loop with the read. */
  lemma NestedDeclarationLosesValue()
    ensures SoleDef(MarkOfBlock(NESTED_OWNERS, [NESTED], {}, Span(34, 35))) == Some(0)
    ensures StableSource(NESTED_VARIABLE, 0, NESTED_VALUE) && Settled(NESTED_VALUE, 22, NESTED_VARIABLE.writes)
    ensures !KeptWhenInForce(NESTED_VARIABLE, 0, NESTED_VALUE, NESTED_OWNERS, [NESTED], Span(34, 35))
  {
    NestedMask();
    NestedExecution();
    NestedTrace();
    NestedValueIsStable();
    LosesNestedValue([NESTED], Chain(NESTED_RUN, Done), NESTED_TRACE, 4, 7);
  }

  /* `while (c) { y = i; if (d) var x = y; } use(x);` */

  const EARLY: Stmt := While(Some(Span(10, 11)), Block([WRITE_Y, DECLARE]))
  const EARLY_BODY: seq<Stmt> := [EARLY, USE_X]
  const EARLY_RUN: Run :=
    Iterate(Chain(Done, Chain(Left(Done), Done)), Iterate(Chain(Done, Chain(Right(Done), Done)), Done))

  /** It is enough that a loop holds the declaration: the read may come after the loop. */
  lemma LoopBeforeReadLosesValue()
    ensures SoleDef(MarkOfBlock(NESTED_OWNERS, EARLY_BODY, {}, Span(34, 35))) == Some(0)
    ensures StableSource(NESTED_VARIABLE, 0, NESTED_VALUE) && Settled(NESTED_VALUE, 22, NESTED_VARIABLE.writes)
    ensures !KeptWhenInForce(NESTED_VARIABLE, 0, NESTED_VALUE, NESTED_OWNERS, EARLY_BODY, Span(34, 35))
  {
    EarlyMask();
    EarlyExecution();
    EarlyTrace();
    NestedValueIsStable();
    LosesNestedValue(EARLY_BODY, Chain(EARLY_RUN, Chain(Pause, Done)), EARLY_TRACE, 4, 6);
  }

  const EARLY_FIRST: seq<Event> := [Visit(Span(12, 18)), Visit(Span(20, 21)), Visit(Span(22, 30)), Def(0, Span(22, 30))]
  const EARLY_TRACE: seq<Event> := NESTED_HEAD + EARLY_FIRST + NESTED_HEAD + SECOND_ROUND + NESTED_HEAD

  lemma EarlyTrace()
    ensures LastAt(EARLY_TRACE, 4, 0) && EARLY_TRACE[6] == Visit(Span(12, 18)) && OneDefinition(EARLY_TRACE)
  {
  }

  lemma EarlyBodyFlow(s: Mask)
    ensures FlowOf(NESTED_OWNERS, EARLY.body, s) == Through({0} + s)
    ensures MarkOf(NESTED_OWNERS, EARLY.body, s, Span(34, 35)) == {}
  {
    var o, x := NESTED_OWNERS, Span(34, 35);
    NestedOwner();
    assert FlowOf(o, WRITE_Y, s) == Through(s) && MarkOf(o, WRITE_Y, s, x) == {};
    assert FlowOf(o, DECLARE, s) == Through({0} + s) && MarkOf(o, DECLARE, s, x) == {};
    assert [WRITE_Y, DECLARE][1..] == [DECLARE] && [DECLARE][1..] == [];
    assert FlowOfBlock(o, [DECLARE], s) == Through({0} + s) && MarkOfBlock(o, [DECLARE], s, x) == {};
  }

  lemma EarlyMask()
    ensures SoleDef(MarkOfBlock(NESTED_OWNERS, EARLY_BODY, {}, Span(34, 35))) == Some(0)
  {
    var o, x := NESTED_OWNERS, Span(34, 35);
    EarlyBodyFlow({});
    EarlyBodyFlow({0});
    assert LoopEntry(FlowOf(o, EARLY.body, {}), {}) == {0};
    assert FlowOf(o, EARLY, {}) == Through({0}) && MarkOf(o, EARLY, {}, x) == {};
    assert EARLY_BODY[1..] == [USE_X] && [USE_X][1..] == [];
    assert MarkOfBlock(o, [USE_X], {0}, x) == {0};
  }

  /** The round that declares and the one that does not, each after its write. */
  lemma EarlyRounds()
    ensures Exec(NESTED_OWNERS, EARLY.body, EARLY_RUN.body) == Ended(EARLY_FIRST, Normal)
    ensures Exec(NESTED_OWNERS, EARLY.body, EARLY_RUN.next.body) == Ended(SECOND_ROUND, Normal)
  {
    EarlyRound(Left(Done), [Visit(Span(20, 21)), Visit(Span(22, 30)), Def(0, Span(22, 30))], EARLY_FIRST);
    EarlyRound(Right(Done), [Visit(Span(20, 21))], SECOND_ROUND);
  }

  lemma EarlyRound(branch: Run, d: seq<Event>, round: seq<Event>)
    requires (branch == Left(Done) && d == [Visit(Span(20, 21)), Visit(Span(22, 30)), Def(0, Span(22, 30))])
          || (branch == Right(Done) && d == [Visit(Span(20, 21))])
    requires round == [Visit(Span(12, 18))] + d
    ensures Exec(NESTED_OWNERS, EARLY.body, Chain(Done, Chain(branch, Done))) == Ended(round, Normal)
  {
    DeclareRuns();
    WriteRuns();
    BlockStep(NESTED_OWNERS, DECLARE, [], branch, Done, d, Ended([], Normal));
    BlockStep(NESTED_OWNERS, WRITE_Y, [DECLARE] + [], Done, Chain(branch, Done), [Visit(Span(12, 18))], Ended(d + [], Normal));
    assert [WRITE_Y, DECLARE] == [WRITE_Y] + ([DECLARE] + []) && d + [] == d;
  }

  lemma EarlyExecution()
    ensures Exec(NESTED_OWNERS, Block(EARLY_BODY), Chain(EARLY_RUN, Chain(Pause, Done))) == Ended(EARLY_TRACE, Reading(Span(32, 40)))
  {
    var o := NESTED_OWNERS;
    EarlyLoop();
    BlockStops(o, USE_X, [], Pause, Done, [], Reading(Span(32, 40)));
    BlockStep(o, EARLY, [USE_X] + [], EARLY_RUN, Chain(Pause, Done), EARLY_TRACE, Ended([], Reading(Span(32, 40))));
    assert EARLY_BODY == [EARLY] + ([USE_X] + []) && EARLY_TRACE + [] == EARLY_TRACE;
  }

  lemma EarlyLoop()
    ensures Exec(NESTED_OWNERS, EARLY, EARLY_RUN) == Ended(EARLY_TRACE, Normal)
  {
    var o, cond := NESTED_OWNERS, Span(10, 11);
    EarlyRounds();
    NoDefIn(o, cond);
    assert RegionTrace(o, Some(cond)) == NESTED_HEAD;
    RoundEnds(o, cond, EARLY.body, EARLY_RUN.next, SECOND_ROUND);
    FirstRoundEnds(o, cond, EARLY.body, EARLY_RUN, EARLY_FIRST);
    assert ExecLoop(o, Some(cond), None, EARLY.body, Done) == Ended(NESTED_HEAD, Normal);
    assert NESTED_HEAD + EARLY_FIRST + (NESTED_HEAD + SECOND_ROUND + NESTED_HEAD) == EARLY_TRACE;
  }

  lemma RoundEnds(owners: seq<Span>, cond: Span, body: Stmt, run: Run, t: seq<Event>)
    requires run.Iterate? && run.next.Done? && Exec(owners, body, run.body) == Ended(t, Normal)
    ensures ExecLoop(owners, Some(cond), None, body, run)
         == Before(RegionTrace(owners, Some(cond)) + t, ExecLoop(owners, Some(cond), None, body, Done))
  {
    var o := RegionTrace(owners, Some(cond)) + t;
    assert o + [] == o;
  }

  /* `var x = f; f = 2; use(x);` where `f` is a field */

  const FIELD_BODY: Body := Body([Span(0, 10)], [], Span(0, 10), [Leaf(Span(12, 20)), Leaf(Span(22, 30))])
  const FIELD_VALUE: Value := Value(Name(Other(0)), Span(8, 9))
  const FIELD_VARIABLE: Variable := Variable(0, [Source(Some(FIELD_VALUE), 0)], map[Other(0) := [12]])
  const FIELD_RUN: Run := Chain(Done, Chain(Done, Chain(Pause, Done)))
  const FIELD_ACTS: seq<Act> := [Visits(Span(0, 10)), Defines(0, Span(0, 10), 1), Visits(Span(12, 20)), Writes(Other(0), 12, 2)]

  function OnesStore(): Store {
    x => 1
  }

  lemma FieldBodyFacts()
    ensures FIELD_BODY.Valid() && FIELD_BODY.Reads(FIELD_RUN, Span(26, 27))
    ensures FIELD_BODY.Trace(FIELD_RUN) == FIELD_TRACE
    ensures SoleDef(FIELD_BODY.MaskFor(Span(26, 27))) == Some(0)
  {
    FieldStmts();
    FieldMask();
    FieldRuns();
    FieldBodyIsValid();
  }

  lemma LeavesAreModelled(owners: seq<Span>, stmts: seq<Stmt>)
    requires forall i :: 0 <= i < |stmts| ==> stmts[i].Leaf?
    ensures Modelled(owners, Block(stmts))
  {
  }

  lemma FieldBodyIsValid()
    ensures FIELD_BODY.Valid()
  {
    FieldStmts();
    FieldPlaces();
    LeavesAreModelled(FIELD_BODY.owners, [Leaf(Span(0, 10)), Leaf(Span(12, 20)), Leaf(Span(22, 30))]);
  }

  const FIELD_TRACE: seq<Event> := [Visit(Span(0, 10)), Def(0, Span(0, 10)), Visit(Span(12, 20))]

  lemma FieldStmts()
    ensures FIELD_BODY.Stmts() == [Leaf(Span(0, 10)), Leaf(Span(12, 20)), Leaf(Span(22, 30))]
  {
  }

  lemma {:induction false} FieldPlaces()
    ensures PlaceBlock([Leaf(Span(0, 10)), Leaf(Span(12, 20)), Leaf(Span(22, 30))], 0).Some?
  {
    var a, b, c := Leaf(Span(0, 10)), Leaf(Span(12, 20)), Leaf(Span(22, 30));
    LeafPlaced(Span(22, 30), [], 20, 30);
    LeafPlaced(Span(12, 20), [c] + [], 10, 30);
    LeafPlaced(Span(0, 10), [b] + ([c] + []), 0, 30);
    assert [a, b, c] == [a] + ([b] + ([c] + []));
  }

  lemma {:induction false} LeafPlaced(region: Span, rest: seq<Stmt>, lo: nat, hi: nat)
    requires lo <= region.start <= region.end && PlaceBlock(rest, region.end) == Some(hi)
    ensures PlaceBlock([Leaf(region)] + rest, lo) == Some(hi)
  {
    var all := [Leaf(region)] + rest;
    assert all[0] == Leaf(region) && all[1..] == rest;
  }

  lemma FieldRuns()
    ensures Exec(FIELD_BODY.owners, Block([Leaf(Span(0, 10)), Leaf(Span(12, 20)), Leaf(Span(22, 30))]), FIELD_RUN)
         == Ended(FIELD_TRACE, Reading(Span(22, 30)))
  {
    var o, a, b, c := FIELD_BODY.owners, Leaf(Span(0, 10)), Leaf(Span(12, 20)), Leaf(Span(22, 30));
    OneDefIn(o, Span(0, 10));
    NoDefIn(o, Span(12, 20));
    LeafRuns(o, Span(0, 10));
    LeafRuns(o, Span(12, 20));
    var ta, tb := [Visit(Span(0, 10))] + [Def(0, Span(0, 10))], [Visit(Span(12, 20))] + [];
    BlockStops(o, c, [], Pause, Done, [], Reading(Span(22, 30)));
    BlockStep(o, b, [c] + [], Done, Chain(Pause, Done), tb, Ended([], Reading(Span(22, 30))));
    BlockStep(o, a, [b] + ([c] + []), Done, Chain(Done, Chain(Pause, Done)), ta, Ended(tb + [], Reading(Span(22, 30))));
    assert [a, b, c] == [a] + ([b] + ([c] + [])) && ta + (tb + []) == FIELD_TRACE;
  }

  lemma {:induction false} FieldMask()
    ensures MarkOfBlock(FIELD_BODY.owners, [Leaf(Span(0, 10)), Leaf(Span(12, 20)), Leaf(Span(22, 30))], {}, Span(26, 27)) == {0}
  {
    var o, x := FIELD_BODY.owners, Span(26, 27);
    var a, b, c := Leaf(Span(0, 10)), Leaf(Span(12, 20)), Leaf(Span(22, 30));
    assert LastIn(o, a.region, 1) == Some(0) && LastIn(o, b.region, 1) == None && LastIn(o, c.region, 1) == None by {
      assert LastIn(o, a.region, 0) == None && LastIn(o, b.region, 0) == None && LastIn(o, c.region, 0) == None;
    }
    assert FlowOf(o, a, {}).normal == Some({0}) && FlowOf(o, b, {0}).normal == Some({0});
    assert MarkOf(o, a, {}, x) == {} && MarkOf(o, b, {0}, x) == {} && MarkOf(o, c, {0}, x) == {0};
    assert [a, b, c][1..] == [b, c] && [b, c][1..] == [c] && [c][1..] == [];
    assert MarkOfBlock(o, [c], {0}, x) == {0};
    assert MarkOfBlock(o, [b, c], {0}, x) == {0};
  }

  lemma FieldIsWrittenLater()
    ensures StabilityOf(FIELD_VALUE, 0, 0, FIELD_VARIABLE.writes).Stable? && !Settled(FIELD_VALUE, 0, FIELD_VARIABLE.writes)
  {
    var p := 12;
    assert Other(0) in FIELD_VARIABLE.writes && p in FIELD_VARIABLE.writes[Other(0)];
    assert Idents(FIELD_VALUE.expr) == [Other(0)] && Other(0) in Idents(FIELD_VALUE.expr);
    assert WrittenLater(FIELD_VARIABLE.writes, Other(0), FIELD_VALUE.span, 0);
  }

  /** A value that reads a field is called stable although the field is assigned on the way to the read, and evaluating it
      there does not give what the variable holds. */
  lemma FieldOperandIsUnchecked(ops: (nat, int, int) -> int)
    ensures FIELD_BODY.Valid() && FIELD_BODY.Reads(FIELD_RUN, Span(26, 27)) && SoleDef(FIELD_BODY.MaskFor(Span(26, 27))) == Some(0)
    ensures StabilityOf(FIELD_VALUE, 0, 0, FIELD_VARIABLE.writes).Stable? && !Settled(FIELD_VALUE, 0, FIELD_VARIABLE.writes)
    ensures Project(FIELD_ACTS) == FIELD_BODY.Trace(FIELD_RUN) && FIELD_VARIABLE.Lawful(FIELD_ACTS, OnesStore(), ops)
    ensures var end := StoreAfter(FIELD_ACTS, OnesStore(), 0);
      Eval(FIELD_VALUE.expr, ops, end) != end(Local(0))
  {
    FieldBodyFacts();
    FieldIsWrittenLater();
    FieldProjects();
    FieldStores(ops);
    FieldIsLawful(ops);
  }

  lemma FieldIsLawful(ops: (nat, int, int) -> int)
    ensures FIELD_VARIABLE.Lawful(FIELD_ACTS, OnesStore(), ops)
  {
    FieldStores(ops);
    forall k | 0 <= k < |FIELD_ACTS|
      ensures FIELD_VARIABLE.LawfulStep(FIELD_ACTS, k, OnesStore(), ops)
    {
    }
  }

  lemma FieldPrefixes()
    ensures var a := FIELD_ACTS;
      a[..3][..2] == a[..2] && a[..2][..1] == a[..1] && a[..1][..0] == []
  {
  }

  lemma FieldProjects()
    ensures Project(FIELD_ACTS) == FIELD_TRACE
  {
    var a := FIELD_ACTS;
    FieldPrefixes();
    assert Project(a[..1]) == [Visit(Span(0, 10))];
    assert Project(a[..2]) == [Visit(Span(0, 10)), Def(0, Span(0, 10))];
    assert Project(a[..3]) == FIELD_TRACE;
  }

  lemma FieldStores(ops: (nat, int, int) -> int)
    ensures StoreAfter(FIELD_ACTS[..1], OnesStore(), 0) == OnesStore() && Eval(FIELD_VALUE.expr, ops, OnesStore()) == 1
    ensures var end := StoreAfter(FIELD_ACTS, OnesStore(), 0);
      end(Local(0)) == 1 && Eval(FIELD_VALUE.expr, ops, end) == 2
  {
    var a := FIELD_ACTS;
    FieldPrefixes();
    assert StoreAfter(a[..1], OnesStore(), 0) == OnesStore();
    var s2 := StoreAfter(a[..2], OnesStore(), 0);
    assert s2(Local(0)) == 1;
    assert StoreAfter(a[..3], OnesStore(), 0) == s2;
    assert StoreAfter(a, OnesStore(), 0) == Set(s2, Other(0), 2);
  }
}
