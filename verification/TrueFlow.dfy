/** Which definitions executions really bring to each way out of a statement and to a read, for every program: what the
    walk of src/resolve/reaching_defs.rs is measured against, and when it agrees. */
module TrueFlow {
  import opened Wrappers
  import opened Syntax
  import opened ReachingDefs
  import opened GenKill
  import opened Executions
  import opened Soundness
  import opened Exactness
  import opened Collecting

  function NextDef(d: Option<nat>, e: Event): Option<nat> {
    if e.Def? then Some(e.index) else d
  }

  function AsDefs(state: Mask): set<Option<nat>> {
    set k | k in state :: Some(k)
  }

  /** The observer that remembers the definition in force, starting from none or from one in `state`. */
  function InForce(owners: seq<Span>, state: Mask, x: Span): Observer<Option<nat>> {
    Observer(owners, x, NextDef, {None} + AsDefs(BitsBelow(|owners|) + state))
  }

  function Start(state: Mask): set<Option<nat>> {
    {None} + AsDefs(state)
  }

  /** The definitions in force at each way out and at read `x`, over all executions from `state`. */
  function Brought(owners: seq<Span>, stmt: Stmt, state: Mask, x: Span): Places<Option<nat>> {
    Collect(InForce(owners, state, x), stmt, Start(state))
  }

  lemma ObserverIsComplete(owners: seq<Span>, state: Mask, x: Span)
    ensures Complete(InForce(owners, state, x)) && Start(state) <= InForce(owners, state, x).states
  {
  }

  lemma CoveredIsStart(state: Mask, d: Option<nat>)
    requires Covers(state, d)
    ensures d in Start(state)
  {
    assert d.Some? ==> d.value in state && Some(d.value) in AsDefs(state);
  }

  lemma {:induction false} FollowIsLastDef(d: Option<nat>, trace: seq<Event>)
    ensures Follow(NextDef, d, trace) == LastDef(trace, d)
  {
    if trace != [] {
      FollowIsLastDef(d, trace[..|trace| - 1]);
    }
  }

  /** An execution leaves `stmt` that way, started with definition `d` in force, with `e` in force. */
  ghost predicate Leaves(owners: seq<Span>, stmt: Stmt, run: Run, way: Way, x: Span, d: Option<nat>, e: Option<nat>) {
    var o := Exec(owners, stmt, run);
    o.Ended? && Takes(o.exit, way, x) && LastDef(o.trace, d) == e
  }

  ghost predicate SomeRunLeaves(owners: seq<Span>, stmt: Stmt, state: Mask, way: Way, x: Span, e: Option<nat>) {
    exists run: Run, d: Option<nat> :: Covers(state, d) && Leaves(owners, stmt, run, way, x, d, e)
  }

  /** What is brought is exactly what some execution brings, for every program. */
  lemma {:induction false} BroughtIsExact(owners: seq<Span>, stmt: Stmt, state: Mask, way: Way, x: Span, e: Option<nat>)
    ensures e in At(Brought(owners, stmt, state, x), way) <==> SomeRunLeaves(owners, stmt, state, way, x, e)
  {
    var g := InForce(owners, state, x);
    ObserverIsComplete(owners, state, x);
    if e in At(Brought(owners, stmt, state, x), way) {
      var q, run := NothingIsMadeUp(g, stmt, Start(state), way, e);
      FollowIsLastDef(q, Exec(owners, stmt, run).trace);
      assert Leaves(owners, stmt, run, way, x, q, e);
    } else if SomeRunLeaves(owners, stmt, state, way, x, e) {
      var run: Run, d: Option<nat> :| Covers(state, d) && Leaves(owners, stmt, run, way, x, d, e);
      FollowIsLastDef(d, Exec(owners, stmt, run).trace);
      CoveredIsStart(state, d);
      NothingIsMissed(g, stmt, run, d, Start(state));
    }
  }

  /* The masks of reads. */

  /** Whatever an execution has in force when it is about to read `x` is in the recorded mask. */
  ghost predicate MaskSound(owners: seq<Span>, body: seq<Stmt>, x: Span) {
    forall e :: SomeRunLeaves(owners, Block(body), {}, ToRead, x, e) ==> Covers(MarkOfBlock(owners, body, {}, x), e)
  }

  /** The promise of the analysis for one read, measured: for every program at all, the recorded mask is sound exactly if
      it has every definition that collecting brings there. */
  lemma MaskSoundIff(owners: seq<Span>, body: seq<Stmt>, x: Span)
    ensures MaskSound(owners, body, x) <==>
      forall e :: e in Brought(owners, Block(body), {}, x).read ==> Covers(MarkOfBlock(owners, body, {}, x), e)
  {
    forall e
      ensures e in Brought(owners, Block(body), {}, x).read <==> SomeRunLeaves(owners, Block(body), {}, ToRead, x, e)
    {
      BroughtIsExact(owners, Block(body), {}, ToRead, x, e);
    }
  }

  /** And it is exact, so that no definition is reported in vain either, exactly if it has just those. */
  lemma MaskExactIff(owners: seq<Span>, body: seq<Stmt>, x: Span)
    ensures (forall i: nat :: i in MarkOfBlock(owners, body, {}, x) <==> SomeExecutionBrings(owners, body, x, i)) <==>
      AsDefs(MarkOfBlock(owners, body, {}, x)) == Brought(owners, Block(body), {}, x).read - {None}
  {
    var read := Brought(owners, Block(body), {}, x).read - {None};
    var mask := MarkOfBlock(owners, body, {}, x);
    forall i: nat
      ensures Some(i) in read <==> SomeExecutionBrings(owners, body, x, i)
      ensures i in mask <==> Some(i) in AsDefs(mask)
    {
      BroughtIsExact(owners, Block(body), {}, ToRead, x, Some(i));
      BringsIsLeaving(owners, body, x, i);
    }
    if forall i: nat :: i in mask <==> SomeExecutionBrings(owners, body, x, i) {
      forall e
        ensures e in AsDefs(mask) <==> e in read
      {
        assert e.Some? ==> (e.value in mask <==> SomeExecutionBrings(owners, body, x, e.value));
      }
    }
  }

  lemma BringsIsLeaving(owners: seq<Span>, body: seq<Stmt>, x: Span, i: nat)
    ensures SomeExecutionBrings(owners, body, x, i) <==> SomeRunLeaves(owners, Block(body), {}, ToRead, x, Some(i))
  {
    if SomeExecutionBrings(owners, body, x, i) {
      var run: Run :| BringsTo(Exec(owners, Block(body), run), x, i);
      assert Leaves(owners, Block(body), run, ToRead, x, None, Some(i));
    }
    if SomeRunLeaves(owners, Block(body), {}, ToRead, x, Some(i)) {
      var run: Run, d: Option<nat> :| Covers({}, d) && Leaves(owners, Block(body), run, ToRead, x, d, Some(i));
      assert BringsTo(Exec(owners, Block(body), run), x, i);
    }
  }

  /* Where the walk is right. */

  function FlowAt(f: Flow, way: Way): Option<Mask>
    requires !way.ToRead?
  {
    match way
    case ToNormal => f.normal
    case ToBreak => f.breaks
    case ToContinue => f.continues
    case ToReturn => f.returned
  }

  /** On programs without definitions in conditions, without a `continue` bound to a do-while and without dead code, the
      walk's states are the true ones, whatever set of definitions it starts from. */
  lemma {:induction false} WalkIsTrue(g: Observer<Option<nat>>, stmt: Stmt, from: set<Option<nat>>, state: Mask, way: Way, i: nat)
    requires |g.owners| <= MAX_DEFS && state <= AllBits() && from != {} && from <= g.states && Complete(g) && g.step == NextDef
    requires Modelled(g.owners, stmt) && AllAlive(g.owners, stmt, g.x) && !way.ToRead?
    requires forall k :: k in state <==> Some(k) in from
    ensures Some(i) in At(Collect(g, stmt, from), way) <==> i in Bits(FlowAt(FlowOf(g.owners, stmt, state), way))
  {
    if Some(i) in At(Collect(g, stmt, from), way) {
      var q, run := NothingIsMadeUp(g, stmt, from, way, Some(i));
      FollowIsLastDef(q, Exec(g.owners, stmt, run).trace);
      ExecutionAccounted(g.owners, stmt, run, state, q, g.x);
    }
    if i in Bits(FlowAt(FlowOf(g.owners, stmt, state), way)) {
      var q, run := WalkedIsBrought(g, stmt, from, state, way, i);
      FollowIsLastDef(q, Exec(g.owners, stmt, run).trace);
      NothingIsMissed(g, stmt, run, q, from);
    }
  }

  lemma {:induction false} WalkedIsBrought(g: Observer<Option<nat>>, stmt: Stmt, from: set<Option<nat>>, state: Mask, way: Way, i: nat)
      returns (q: Option<nat>, run: Run)
    requires from != {} && !way.ToRead?
    requires Modelled(g.owners, stmt) && AllAlive(g.owners, stmt, g.x)
    requires forall k :: k in state <==> Some(k) in from
    requires i in Bits(FlowAt(FlowOf(g.owners, stmt, state), way))
    ensures q in from && Leaves(g.owners, stmt, run, way, g.x, q, Some(i))
  {
    SummaryDescribesWalk(g.owners, stmt, state, g.x);
    var t := Channel(Summarize(g.owners, stmt, g.x), way);
    if i in t.gen {
      run := Deliver(g.owners, stmt, g.x, way, Some(i));
      q :| q in from;
      LastDefIgnoresPast(Exec(g.owners, stmt, run).trace, q);
    } else {
      run := Deliver(g.owners, stmt, g.x, way, None);
      q := Some(i);
      NoDefsKeeps(Exec(g.owners, stmt, run).trace, q);
    }
  }

  /** Past a region with a definition only that definition is left. */
  lemma PastDefinition(g: Observer<Option<nat>>, region: Span, from: set<Option<nat>>, d: nat)
    requires g.step == NextDef && from != {} && LastIn(g.owners, region, |g.owners|) == Some(d)
    ensures Past(g, Some(region), from) == {Some(d)}
  {
    forall q | q in from
      ensures Follow(g.step, q, RegionTrace(g.owners, Some(region))) == Some(d)
    {
      FollowIsLastDef(q, RegionTrace(g.owners, Some(region)));
      LastOfRegion(g.owners, region, q);
    }
    var q :| q in from;
    assert Follow(g.step, q, RegionTrace(g.owners, Some(region))) in Past(g, Some(region), from);
  }
}
