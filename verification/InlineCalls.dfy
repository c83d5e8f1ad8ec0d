/** How often a value that calls or constructs is evaluated once its variable has been inlined (src/resolve/inline_var.rs). */
module InlineCalls {
  import opened Wrappers
  import opened Syntax
  import opened ReachingDefs
  import opened Executions
  import opened Exactness
  import opened Collecting
  import opened InlinePlan

  /* Counting along a trace of the program as it was. */

  /** How often definition `i` took effect, and so its value was evaluated. */
  function Evaluations(trace: seq<Event>, i: nat): nat {
    if trace == [] then 0
    else Evaluations(trace[..|trace| - 1], i) + if trace[|trace| - 1].Def? && trace[|trace| - 1].index == i then 1 else 0
  }

  /** How often the read was evaluated. */
  function Readings(trace: seq<Event>, x: Span): nat {
    if trace == [] then 0
    else Readings(trace[..|trace| - 1], x) + if trace[|trace| - 1].Visit? && trace[|trace| - 1].region.Contains(x) then 1 else 0
  }

  /** The calls that the value of definition `i` makes, before and after the read `x` has been replaced by it; with the
      definition torn down the value is evaluated at the read alone. */
  function CallsBefore(calls: bool, i: nat, trace: seq<Event>): nat {
    if calls then Evaluations(trace, i) else 0
  }

  function CallsAfter(calls: bool, torn: bool, i: nat, x: Span, trace: seq<Event>): nat {
    if calls then (if torn then 0 else Evaluations(trace, i)) + Readings(trace, x) else 0
  }

  /** One for one: the rewritten program never makes a call the original has not made, is never behind by more than one,
      and in the end has made as many. */
  ghost predicate CallsAsOften(calls: bool, torn: bool, i: nat, x: Span, trace: seq<Event>) {
    && (forall k :: 0 <= k <= |trace| ==>
          CallsAfter(calls, torn, i, x, trace[..k]) <= CallsBefore(calls, i, trace[..k]) <= CallsAfter(calls, torn, i, x, trace[..k]) + 1)
    && CallsAfter(calls, torn, i, x, trace) == CallsBefore(calls, i, trace)
  }

  /** The verdict on rewriting one read.  While the definition stays, it is verified exactly if its value may be evaluated
      once more without making another call. */
  lemma SingleReadVerdictIff(plan: Plan, x: Span)
    requires exists e :: e in plan.eligible && e.range == x
    ensures FindRead(x, plan.eligible).Some?
    ensures var e := FindRead(x, plan.eligible).value;
      InlineSingleRead(x, plan) == Some(true) <==>
        && e.verified
        && if plan.totalReads == 1 then plan.teardownPossible && plan.teardownClean
           else forall trace :: CallsAfter(e.calls, false, e.index, x, trace) == CallsBefore(e.calls, e.index, trace)
  {
    var e := FindRead(x, plan.eligible).value;
    if e.calls {
      var trace := [Visit(x)];
      assert trace[..0] == [];
      assert Readings(trace, x) == Readings([], x) + 1;
      assert CallsAfter(e.calls, false, e.index, x, trace) != CallsBefore(e.calls, e.index, trace);
    }
  }

  /* Torn down: whose turn it is. */

  /** No call is owed; one is, the definition having been evaluated; or it went wrong. */
  datatype Turn = Even | Owed | Uneven

  function NextTurn(i: nat, x: Span, q: Turn, e: Event): Turn {
    match e
    case Def(j, _) => if j != i then q else if q.Even? then Owed else Uneven
    case Visit(r) => if !r.Contains(x) then q else if q.Owed? then Even else Uneven
  }

  function TurnOf(i: nat, x: Span, trace: seq<Event>): Turn {
    Follow((q: Turn, e: Event) => NextTurn(i, x, q, e), Even, trace)
  }

  function Balance(owners: seq<Span>, i: nat, x: Span): Observer<Turn> {
    Observer(owners, x, (q: Turn, e: Event) => NextTurn(i, x, q, e), {Even, Owed, Uneven})
  }

  predicate Counted(i: nat, x: Span, trace: seq<Event>) {
    Readings(trace, x) <= Evaluations(trace, i) <= Readings(trace, x) + 1
  }

  ghost predicate InStep(i: nat, x: Span, trace: seq<Event>) {
    forall k :: 0 <= k <= |trace| ==> Counted(i, x, trace[..k])
  }

  lemma {:induction false} TurnCounts(i: nat, x: Span, trace: seq<Event>)
    ensures TurnOf(i, x, trace).Uneven? <==> !InStep(i, x, trace)
    ensures TurnOf(i, x, trace).Even? ==> Evaluations(trace, i) == Readings(trace, x)
    ensures TurnOf(i, x, trace).Owed? ==> Evaluations(trace, i) == Readings(trace, x) + 1
    decreases |trace|
  {
    assert trace[..|trace|] == trace;
    if trace != [] {
      var prior := trace[..|trace| - 1];
      TurnCounts(i, x, prior);
      StepLonger(i, x, trace);
    }
  }

  lemma {:induction false} StepLonger(i: nat, x: Span, trace: seq<Event>)
    requires trace != []
    ensures InStep(i, x, trace) <==> InStep(i, x, trace[..|trace| - 1]) && Counted(i, x, trace)
  {
    var n, prior := |trace|, trace[..|trace| - 1];
    assert trace[..n] == trace;
    forall k | 0 <= k < n
      ensures prior[..k] == trace[..k]
    {
    }
  }

  lemma EvenIsAsOften(i: nat, x: Span, trace: seq<Event>)
    ensures TurnOf(i, x, trace).Even? <==> CallsAsOften(true, true, i, x, trace)
  {
    TurnCounts(i, x, trace);
    assert forall t :: CallsAfter(true, true, i, x, t) == Readings(t, x) && CallsBefore(true, i, t) == Evaluations(t, i);
    assert CallsAsOften(true, true, i, x, trace) <==> InStep(i, x, trace) && Readings(trace, x) == Evaluations(trace, i);
  }

  /** The run goes through the body to its end or to a `return`. */
  ghost predicate Completes(owners: seq<Span>, body: seq<Stmt>, run: Run) {
    var o := Exec(owners, Block(body), run);
    o.Ended? && (o.exit.Normal? || o.exit.Returns?)
  }

  /** The turns at the ends of a body. */
  function TurnsAtEnd(owners: seq<Span>, body: seq<Stmt>, i: nat, x: Span): set<Turn> {
    var p := Collect(Balance(owners, i, x), Block(body), {Even});
    p.normal + p.returned
  }

  ghost predicate AlwaysAsOften(e: Eligible, torn: bool, owners: seq<Span>, body: seq<Stmt>) {
    forall run :: Completes(owners, body, run) ==> CallsAsOften(e.calls, torn, e.index, e.range, Exec(owners, Block(body), run).trace)
  }

  /** For every body: with its definition torn down, a value that calls is evaluated as often as before, in all executions,
      exactly if no way out of the body is reached out of turn. */
  lemma TornDownIff(e: Eligible, owners: seq<Span>, body: seq<Stmt>)
    requires e.calls
    ensures AlwaysAsOften(e, true, owners, body) <==> TurnsAtEnd(owners, body, e.index, e.range) <= {Even}
  {
    var g := Balance(owners, e.index, e.range);
    var p := Collect(g, Block(body), {Even});
    if AlwaysAsOften(e, true, owners, body) {
      forall q | q in p.normal + p.returned
        ensures q.Even?
      {
        var run := EndReached(e, owners, body, q);
        EvenIsAsOften(e.index, e.range, Exec(owners, Block(body), run).trace);
      }
    }
    if TurnsAtEnd(owners, body, e.index, e.range) <= {Even} {
      forall run | Completes(owners, body, run)
        ensures CallsAsOften(e.calls, true, e.index, e.range, Exec(owners, Block(body), run).trace)
      {
        var o := Exec(owners, Block(body), run);
        NothingIsMissed(g, Block(body), run, Even, {Even});
        assert Follow(g.step, Even, o.trace) in p.normal + p.returned;
        EvenIsAsOften(e.index, e.range, o.trace);
      }
    }
  }

  lemma EndReached(e: Eligible, owners: seq<Span>, body: seq<Stmt>, q: Turn) returns (run: Run)
    requires q in TurnsAtEnd(owners, body, e.index, e.range)
    ensures Completes(owners, body, run) && TurnOf(e.index, e.range, Exec(owners, Block(body), run).trace) == q
  {
    var g := Balance(owners, e.index, e.range);
    var way := if q in Collect(g, Block(body), {Even}).normal then ToNormal else ToReturn;
    var q0;
    q0, run := NothingIsMadeUp(g, Block(body), {Even}, way, q);
  }

  /** Rewriting one read, when verified, changes how often calls are made exactly if the value calls, its only read is
      rewritten, and some way out of the body is reached out of turn. */
  lemma VerifiedSingleCallsAsOftenIff(plan: Plan, x: Span, owners: seq<Span>, body: seq<Stmt>)
    requires InlineSingleRead(x, plan) == Some(true)
    ensures var e := FindRead(x, plan.eligible).value;
      AlwaysAsOften(e, plan.totalReads == 1, owners, body) <==> !e.calls || TurnsAtEnd(owners, body, e.index, x) <= {Even}
  {
    var e := FindRead(x, plan.eligible).value;
    if e.calls {
      TornDownIff(e, owners, body);
    }
  }

  /** The calls that definition `i`'s value makes at the first `n` rewritten reads. */
  function CallsAtReads(eligible: seq<Eligible>, n: nat, i: nat, trace: seq<Event>): nat
    requires n <= |eligible|
  {
    if n == 0 then 0
    else
      var here := if eligible[n - 1].index == i && eligible[n - 1].calls then Readings(trace, eligible[n - 1].range) else 0;
      CallsAtReads(eligible, n - 1, i, trace) + here
  }

  /** Inlining all reads, when verified, leaves a calling value a single place: all its calls are made at one read. */
  lemma VerifiedAllCallsAtOneRead(plan: Plan, k: nat, trace: seq<Event>)
    requires InlineAllReads(plan) == Some(true) && k < |plan.eligible| && plan.eligible[k].calls
    ensures CallsAtReads(plan.eligible, |plan.eligible|, plan.eligible[k].index, trace)
         == CallsAfter(true, true, plan.eligible[k].index, plan.eligible[k].range, trace)
  {
    OnlyReadCalls(plan.eligible, |plan.eligible|, k, trace);
  }

  lemma {:induction false} OnlyReadCalls(eligible: seq<Eligible>, n: nat, k: nat, trace: seq<Event>)
    requires n <= |eligible| && k < |eligible| && eligible[k].calls
    requires forall i, j :: 0 <= i < j < |eligible| && eligible[i].index == eligible[j].index ==> !(eligible[i].calls && eligible[j].calls)
    ensures CallsAtReads(eligible, n, eligible[k].index, trace) == if k < n then Readings(trace, eligible[k].range) else 0
  {
    if n > 0 {
      OnlyReadCalls(eligible, n - 1, k, trace);
    }
  }

  /** So the calls are made as often as before exactly under the same condition. */
  lemma VerifiedAllCallsAsOftenIff(plan: Plan, k: nat, owners: seq<Span>, body: seq<Stmt>)
    requires InlineAllReads(plan) == Some(true) && k < |plan.eligible|
    ensures var e := plan.eligible[k];
      AlwaysAsOften(e, true, owners, body) <==> !e.calls || TurnsAtEnd(owners, body, e.index, e.range) <= {Even}
  {
    if plan.eligible[k].calls {
      TornDownIff(plan.eligible[k], owners, body);
    }
  }

  /* Programs in which a verified rewrite changes the number of calls. */

  const DECLARE: Stmt := Leaf(Span(0, 10))
  const USE: Stmt := Leaf(Span(20, 30))
  const OWNER: seq<Span> := [Span(0, 10)]
  const READ: Span := Span(24, 25)

  /** `var a = Compute(); if (c) { Log(a); }` */
  const MAY_READ: seq<Stmt> := [DECLARE, If(Some(Span(12, 13)), USE, Nop)]

  /** `var a = Compute(); while (c) { Log(a); }` */
  const MANY_READS: seq<Stmt> := [DECLARE, While(Some(Span(12, 13)), USE)]

  /** What planning makes of both: one read, a calling value that nothing changes, a declaration whose value moves. */
  const ONE_CALL: Plan := Plan([Eligible(READ, true, true, 0)], 1, true, true)

  const CALL: Eligible := Eligible(READ, true, true, 0)

  lemma NoDefsHere(region: Span)
    requires !region.Contains(Span(0, 10))
    ensures RegionTrace(OWNER, Some(region)) == [Visit(region)]
  {
    assert DefsIn(OWNER, region, 0) == [];
  }

  lemma DeclareRuns()
    ensures Exec(OWNER, DECLARE, Done) == Ended([Visit(Span(0, 10)), Def(0, Span(0, 10))], Normal)
  {
    assert DefsIn(OWNER, Span(0, 10), 0) == [];
  }

  lemma AfterDeclare(rest: Stmt, run: Run, t: seq<Event>)
    requires Exec(OWNER, rest, run) == Ended(t, Normal)
    ensures Exec(OWNER, Block([DECLARE, rest]), Chain(Done, Chain(run, Done))) == Ended(DECLARED + t, Normal)
  {
    DeclareRuns();
    assert [DECLARE, rest][1..] == [rest] && [rest][1..] == [];
    assert t + [] == t;
    assert ExecBlock(OWNER, [rest], Chain(run, Done)) == Ended(t, Normal);
  }

  const DECLARED: seq<Event> := [Visit(Span(0, 10)), Def(0, Span(0, 10))]
  const TEST: Event := Visit(Span(12, 13))
  const LOG: Event := Visit(Span(20, 30))

  lemma TurnMore(i: nat, x: Span, trace: seq<Event>, e: Event)
    ensures TurnOf(i, x, trace + [e]) == NextTurn(i, x, TurnOf(i, x, trace), e)
  {
    assert (trace + [e])[..|trace|] == trace;
  }

  lemma CallIsOwed()
    ensures TurnOf(0, READ, DECLARED) == Owed
  {
    var first := [] + [Visit(Span(0, 10))];
    TurnMore(0, READ, [], Visit(Span(0, 10)));
    TurnMore(0, READ, first, Def(0, Span(0, 10)));
    assert first + [Def(0, Span(0, 10))] == DECLARED;
  }

  /** The call of a declaration whose read is skipped is made no more, although the rewrite is called verified. */
  lemma {:induction false} SkippedReadDropsCall()
    ensures InlineSingleRead(READ, ONE_CALL) == Some(true) && InlineAllReads(ONE_CALL) == Some(true)
    ensures !AlwaysAsOften(CALL, true, OWNER, MAY_READ)
  {
    var run := Chain(Done, Chain(Right(Done), Done));
    SkipRuns(MAY_READ[1]);
    AfterDeclare(MAY_READ[1], Right(Done), [TEST]);
    CallIsOwed();
    TurnMore(0, READ, DECLARED, TEST);
    EvenIsAsOften(0, READ, DECLARED + [TEST]);
    assert Completes(OWNER, MAY_READ, run);
  }

  lemma SkipRuns(branch: Stmt)
    requires branch == If(Some(Span(12, 13)), USE, Nop)
    ensures Exec(OWNER, branch, Right(Done)) == Ended([TEST], Normal)
  {
    NoDefsHere(Span(12, 13));
    assert [TEST] + [] == [TEST];
  }

  /** And one whose read is in a loop is made again and again. */
  lemma {:induction false} LoopRepeatsCall()
    ensures InlineSingleRead(READ, ONE_CALL) == Some(true) && InlineAllReads(ONE_CALL) == Some(true)
    ensures !AlwaysAsOften(CALL, true, OWNER, MANY_READS)
  {
    var twice := Iterate(Done, Iterate(Done, Done));
    var t := [TEST, LOG, TEST, LOG, TEST];
    TwoRounds(MANY_READS[1], t, twice);
    AfterDeclare(MANY_READS[1], twice, t);
    TwoReadsAreUneven(DECLARED + t);
    EvenIsAsOften(0, READ, DECLARED + t);
    assert Completes(OWNER, MANY_READS, Chain(Done, Chain(twice, Done)));
  }

  lemma TwoRounds(loop: Stmt, t: seq<Event>, twice: Run)
    requires loop == While(Some(Span(12, 13)), USE) && t == [TEST, LOG, TEST, LOG, TEST] && twice == Iterate(Done, Iterate(Done, Done))
    ensures Exec(OWNER, loop, twice) == Ended(t, Normal)
  {
    var c, use := [TEST], [LOG];
    NoDefsHere(Span(12, 13));
    NoDefsHere(Span(20, 30));
    assert ExecLoop(OWNER, loop.cond, None, USE, Done) == Ended(c, Normal);
    assert c + use + [] + c == [TEST, LOG, TEST];
    assert ExecLoop(OWNER, loop.cond, None, USE, Iterate(Done, Done)) == Ended([TEST, LOG, TEST], Normal);
    assert c + use + [] + [TEST, LOG, TEST] == t;
  }

  lemma TwoReadsAreUneven(trace: seq<Event>)
    requires trace == DECLARED + [TEST, LOG, TEST, LOG, TEST]
    ensures TurnOf(0, READ, trace) == Uneven
  {
    CallIsOwed();
    var t1 := DECLARED + [TEST];
    var t2 := t1 + [LOG];
    var t3 := t2 + [TEST];
    var t4 := t3 + [LOG];
    TurnMore(0, READ, DECLARED, TEST);
    TurnMore(0, READ, t1, LOG);
    TurnMore(0, READ, t2, TEST);
    TurnMore(0, READ, t3, LOG);
    TurnMore(0, READ, t4, TEST);
    assert t4 + [TEST] == trace;
  }
}
