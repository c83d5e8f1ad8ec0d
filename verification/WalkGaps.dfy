/** Where the walk misses definitions: `continue` in a `do` loop, and definitions inside conditions. */
module WalkGaps {
  import opened Wrappers
  import opened Syntax
  import opened ReachingDefs
  import opened GenKill
  import opened Executions
  import opened Soundness
  import opened Exactness
  import opened Collecting
  import opened TrueFlow

  /** Every execution that falls off the end of `stmt` is accounted for in the exit state that the walk computes. */
  ghost predicate ExitSound(owners: seq<Span>, stmt: Stmt, state: Mask) {
    forall run: Run, d: Option<nat> :: Covers(state, d) ==> ExitAccounted(owners, stmt, state, run, d)
  }

  ghost predicate ExitAccounted(owners: seq<Span>, stmt: Stmt, state: Mask, run: Run, d: Option<nat>) {
    var o := Exec(owners, stmt, run);
    o.Ended? && o.exit.Normal? ==> Reaches(FlowOf(owners, stmt, state).normal, LastDef(o.trace, d))
  }

  /** A `do` loop's exit state is right exactly when its body's `continue` state adds nothing to its normal and `break`
      states. */
  lemma DoWhileExitSoundIff(owners: seq<Span>, body: Stmt, cond: Option<Span>, state: Mask, x: Span)
    requires |owners| <= MAX_DEFS && state <= AllBits()
    requires Clean(owners, cond) && Modelled(owners, body) && AllAlive(owners, body, x)
    ensures ExitSound(owners, DoWhile(body, cond), state)
       <==> ContinueAddsNothing(FlowOf(owners, body, LoopEntry(FlowOf(owners, body, state), state)))
  {
    if ContinueAddsNothing(FlowOf(owners, body, LoopEntry(FlowOf(owners, body, state), state))) {
      DoWhileExitSound(owners, body, cond, state);
    } else {
      DoWhileExitUnsound(owners, body, cond, state, x, FlowOf(owners, body, LoopEntry(FlowOf(owners, body, state), state)));
    }
  }

  lemma {:induction false} DoWhileExitSound(owners: seq<Span>, body: Stmt, cond: Option<Span>, state: Mask)
    requires |owners| <= MAX_DEFS && state <= AllBits()
    requires Clean(owners, cond) && Modelled(owners, body)
    requires ContinueAddsNothing(FlowOf(owners, body, LoopEntry(FlowOf(owners, body, state), state)))
    ensures ExitSound(owners, DoWhile(body, cond), state)
  {
    OneLearningPassIsLeastFixpoint(owners, body, state);
    forall run: Run, d: Option<nat> | Covers(state, d)
      ensures ExitAccounted(owners, DoWhile(body, cond), state, run, d)
    {
      DoWhileAccounted(owners, body, cond, run, LoopEntry(FlowOf(owners, body, state), state), d, Span(0, 0));
    }
  }

  lemma {:induction false} DoWhileExitUnsound(owners: seq<Span>, body: Stmt, cond: Option<Span>, state: Mask, x: Span, again: Flow)
    requires Clean(owners, cond) && Modelled(owners, body) && AllAlive(owners, body, x)
    requires again == FlowOf(owners, body, LoopEntry(FlowOf(owners, body, state), state)) && !ContinueAddsNothing(again)
    ensures !ExitSound(owners, DoWhile(body, cond), state)
  {
    var left := Union(again.normal, again.breaks);
    var run, d := MissedExit(owners, body, cond, state, left, x);
    DoWhileExitIs(owners, body, cond, state, run);
    NotAccounted(owners, DoWhile(body, cond), state, run, d, left);
  }

  lemma DoWhileExitIs(owners: seq<Span>, body: Stmt, cond: Option<Span>, state: Mask, run: Run)
    ensures var again := FlowOf(owners, body, LoopEntry(FlowOf(owners, body, state), state));
      FlowOf(owners, DoWhile(body, cond), state).normal == Union(again.normal, again.breaks)
    ensures Exec(owners, DoWhile(body, cond), run) == ExecDoWhile(owners, body, cond, run)
  {
  }

  lemma NotAccounted(owners: seq<Span>, stmt: Stmt, state: Mask, run: Run, d: Option<nat>, left: Option<Mask>)
    requires FlowOf(owners, stmt, state).normal == left && Covers(state, d)
    requires var o := Exec(owners, stmt, run); o.Ended? && o.exit.Normal? && !Reaches(left, LastDef(o.trace, d))
    ensures !ExitSound(owners, stmt, state)
  {
    assert !ExitAccounted(owners, stmt, state, run, d);
  }

  /** An execution through `continue` that the exit state `left` does not account for. */
  lemma {:induction false} MissedExit(owners: seq<Span>, body: Stmt, cond: Option<Span>, state: Mask, left: Option<Mask>, x: Span)
      returns (run: Run, d: Option<nat>)
    requires Clean(owners, cond) && Modelled(owners, body) && AllAlive(owners, body, x)
    requires var again := FlowOf(owners, body, LoopEntry(FlowOf(owners, body, state), state));
      again.continues.Some? && !(left.Some? && again.continues.value <= left.value)
    ensures Covers(state, d)
    ensures var o := ExecDoWhile(owners, body, cond, run);
      o.Ended? && o.exit.Normal? && !Reaches(left, LastDef(o.trace, d))
  {
    var entry := LoopEntry(FlowOf(owners, body, state), state);
    var b := Summarize(owners, body, x);
    var through := After(Join(Id, Ends(b)), b.continues);
    ContinueTransfer(owners, body, state, x);
    SummariesProper(owners, body, x);
    var continues := Apply(through, state).value;
    var want: Option<nat>;
    if left.Some? {
      var i :| i in continues && i !in left.value;
      want, d := if i in through.gen then Some(i) else None, if i in through.gen then None else Some(i);
    } else {
      want := SomeOffer(through);
      d := None;
    }
    run := LeaveByContinue(owners, body, cond, x, want);
    var trace := ExecDoWhile(owners, body, cond, run).trace;
    if want.Some? {
      LastDefIgnoresPast(trace, d);
    } else {
      NoDefsKeeps(trace, d);
    }
  }

  lemma ContinueTransfer(owners: seq<Span>, body: Stmt, state: Mask, x: Span)
    ensures var b := Summarize(owners, body, x);
      Apply(After(Join(Id, Ends(b)), b.continues), state)
      == FlowOf(owners, body, LoopEntry(FlowOf(owners, body, state), state)).continues
  {
    var b := Summarize(owners, body, x);
    var entry := Join(Id, Ends(b));
    SummaryDescribesWalk(owners, body, state, x);
    ApplyJoin(b.normal, b.continues, state);
    ApplyJoin(Id, Ends(b), state);
    ApplyId(state);
    var s1 := LoopEntry(FlowOf(owners, body, state), state);
    assert Apply(entry, state) == Some(s1);
    SummaryDescribesWalk(owners, body, s1, x);
    ApplyAfter(entry, b.continues, state);
  }

  lemma {:induction false} LeaveByContinue(owners: seq<Span>, body: Stmt, cond: Option<Span>, x: Span, want: Option<nat>) returns (run: Run)
    requires Clean(owners, cond) && Modelled(owners, body) && AllAlive(owners, body, x)
    requires var b := Summarize(owners, body, x); Offers(After(Join(Id, Ends(b)), b.continues), want)
    ensures Fulfils(ExecDoWhile(owners, body, cond, run), ToNormal, want, x)
  {
    var b := Summarize(owners, body, x);
    SummariesProper(owners, body, x);
    var atEntry, later := SplitOffer(Join(Id, Ends(b)), b.continues, want);
    var r := Deliver(owners, body, x, ToContinue, later);
    LastDoRound(owners, body, cond, x, ToContinue, later, r);
    run := Iterate(r, Done);
    if atEntry != None {
      var way := if Offers(b.normal, atEntry) then ToNormal else ToContinue;
      var r0 := Deliver(owners, body, x, way, atEntry);
      EarlierDoRound(owners, body, cond, x, ToNormal, atEntry, later, way, r0, run);
      run := Iterate(r0, run);
    }
  }

  /* Every program. */

  /** Measured for every statement at all: the walk's exit state is sound exactly if it has every definition that collecting
      brings to the statement's end. */
  lemma {:induction false} ExitSoundIff(owners: seq<Span>, stmt: Stmt, state: Mask, x: Span)
    ensures ExitSound(owners, stmt, state) <==>
      forall e :: e in Brought(owners, stmt, state, x).normal ==> Reaches(FlowOf(owners, stmt, state).normal, e)
  {
    forall e
      ensures e in Brought(owners, stmt, state, x).normal <==> SomeRunLeaves(owners, stmt, state, ToNormal, x, e)
    {
      BroughtIsExact(owners, stmt, state, ToNormal, x, e);
    }
    if ExitSound(owners, stmt, state) {
      forall e | SomeRunLeaves(owners, stmt, state, ToNormal, x, e)
        ensures Reaches(FlowOf(owners, stmt, state).normal, e)
      {
        var run: Run, d: Option<nat> :| Covers(state, d) && Leaves(owners, stmt, run, ToNormal, x, d, e);
        assert ExitAccounted(owners, stmt, state, run, d);
      }
    } else {
      var run: Run, d: Option<nat> :| Covers(state, d) && !ExitAccounted(owners, stmt, state, run, d);
      var e := LastDef(Exec(owners, stmt, run).trace, d);
      assert Leaves(owners, stmt, run, ToNormal, x, d, e);
      assert e in Brought(owners, stmt, state, x).normal;
    }
  }

  /* Conditions with a definition.  The walk reads a condition but never applies its definitions; past it only its last
     definition `d` is in force. */

  lemma SoundByBits(owners: seq<Span>, stmt: Stmt, state: Mask, x: Span, bits: Mask)
    requires Brought(owners, stmt, state, x).normal == AsDefs(bits)
    ensures ExitSound(owners, stmt, state) <==> bits <= Bits(FlowOf(owners, stmt, state).normal)
  {
    ExitSoundIff(owners, stmt, state, x);
    CoversAll(AsDefs(bits), bits, FlowOf(owners, stmt, state).normal);
  }

  /** With nothing in the branches that is: the condition's last definition, if it has one, reaches the `if` anyway. */
  lemma ConditionExitSoundIff(owners: seq<Span>, cond: Span, state: Mask)
    ensures ExitSound(owners, If(Some(cond), Nop, Nop), state) <==> Covers(state, LastIn(owners, cond, |owners|))
  {
    var stmt := If(Some(cond), Nop, Nop);
    assert state + state == state;
    assert FlowOf(owners, stmt, state).normal == Some(state);
    if Covers(state, LastIn(owners, cond, |owners|)) {
      forall run: Run, d: Option<nat> | Covers(state, d)
        ensures ExitAccounted(owners, stmt, state, run, d)
      {
        AfterCondition(owners, cond, run, d);
      }
    } else {
      AfterCondition(owners, cond, Left(Done), None);
      assert !ExitAccounted(owners, stmt, state, Left(Done), None);
    }
  }

  lemma AfterCondition(owners: seq<Span>, cond: Span, run: Run, d: Option<nat>)
    ensures var o := Exec(owners, If(Some(cond), Nop, Nop), run);
      && (run == Left(Done) ==> o.Ended? && o.exit.Normal?)
      && (o.Ended? && o.exit.Normal? ==> LastDef(o.trace, d) == Over(LastIn(owners, cond, |owners|), d))
  {
    LastOfRegion(owners, cond, d);
    assert RegionTrace(owners, Some(cond)) + [] == RegionTrace(owners, Some(cond));
  }

  /** The exit of an `if` is sound exactly if walking it from `d` alone leaves nothing that walking it from the state does
      not. */
  lemma {:induction false} IfExitSoundIff(owners: seq<Span>, cond: Span, body: Stmt, els: Stmt, state: Mask, x: Span, d: nat)
    requires |owners| <= MAX_DEFS && LastIn(owners, cond, |owners|) == Some(d)
    requires Modelled(owners, body) && Modelled(owners, els) && AllAlive(owners, body, x) && AllAlive(owners, els, x)
    ensures var stmt := If(Some(cond), body, els);
      ExitSound(owners, stmt, state) <==> Bits(FlowOf(owners, stmt, {d}).normal) <= Bits(FlowOf(owners, stmt, state).normal)
  {
    var g := InForce(owners, state, x);
    PastDefinition(g, cond, Start(state), d);
    PastNothing(g, {Some(d)});
    HeadExitSoundIff(owners, If(Some(cond), body, els), If(None, body, els), state, x, d);
  }

  /** The same for a `switch`. */
  lemma {:induction false} SwitchExitSoundIff(owners: seq<Span>, cond: Span, sections: seq<Section>, state: Mask, x: Span, d: nat)
    requires |owners| <= MAX_DEFS && LastIn(owners, cond, |owners|) == Some(d)
    requires ModelledSections(owners, sections) && AllAlive(owners, Switch(None, sections), x)
    ensures var stmt := Switch(Some(cond), sections);
      ExitSound(owners, stmt, state) <==> Bits(FlowOf(owners, stmt, {d}).normal) <= Bits(FlowOf(owners, stmt, state).normal)
  {
    var g := InForce(owners, state, x);
    PastDefinition(g, cond, Start(state), d);
    PastNothing(g, {Some(d)});
    HeadExitSoundIff(owners, Switch(Some(cond), sections), Switch(None, sections), state, x, d);
  }

  /** `inner` is what is left of `stmt` past its condition. */
  lemma {:induction false} HeadExitSoundIff(owners: seq<Span>, stmt: Stmt, inner: Stmt, state: Mask, x: Span, d: nat)
    requires |owners| <= MAX_DEFS && d < |owners| && Modelled(owners, inner) && AllAlive(owners, inner, x)
    requires Brought(owners, stmt, state, x).normal == Collect(InForce(owners, state, x), inner, {Some(d)}).normal
    requires FlowOf(owners, inner, {d}) == FlowOf(owners, stmt, {d})
    ensures ExitSound(owners, stmt, state) <==> Bits(FlowOf(owners, stmt, {d}).normal) <= Bits(FlowOf(owners, stmt, state).normal)
  {
    ObserverIsComplete(owners, state, x);
    StartsWithNone(owners, state, x);
    FromDefinition(InForce(owners, state, x), inner, ToNormal, d);
    SoundByBits(owners, stmt, state, x, Bits(FlowOf(owners, inner, {d}).normal));
  }

  /** From one definition alone, a modelled statement without dead code brings what the walk says, and never nothing. */
  lemma {:induction false} FromDefinition(g: Observer<Option<nat>>, stmt: Stmt, way: Way, d: nat)
    requires |g.owners| <= MAX_DEFS && d < |g.owners| && g.step == NextDef && Complete(g) && Some(d) in g.states
    requires Modelled(g.owners, stmt) && AllAlive(g.owners, stmt, g.x) && !way.ToRead?
    ensures At(Collect(g, stmt, {Some(d)}), way) == AsDefs(Bits(FlowAt(FlowOf(g.owners, stmt, {d}), way)))
  {
    var all := At(Collect(g, stmt, {Some(d)}), way);
    forall e
      ensures e in all <==> e in AsDefs(Bits(FlowAt(FlowOf(g.owners, stmt, {d}), way)))
    {
      if e.Some? {
        WalkIsTrue(g, stmt, {Some(d)}, {d}, way, e.value);
      } else if e in all {
        var q, run := NothingIsMadeUp(g, stmt, {Some(d)}, way, e);
        FollowIsLastDef(q, Exec(g.owners, stmt, run).trace);
        StaysDefined(Exec(g.owners, stmt, run).trace, q);
      }
    }
  }

  lemma {:induction false} StaysDefined(trace: seq<Event>, d: Option<nat>)
    requires d.Some?
    ensures LastDef(trace, d).Some?
  {
    if trace != [] && !trace[|trace| - 1].Def? {
      StaysDefined(trace[..|trace| - 1], d);
    }
  }

  lemma CoversAll(all: set<Option<nat>>, bits: Mask, out: Option<Mask>)
    requires all == AsDefs(bits)
    ensures (forall e :: e in all ==> Reaches(out, e)) <==> bits <= Bits(out)
  {
    if bits <= Bits(out) {
      forall e | e in all
        ensures Reaches(out, e)
      {
        assert e.value in bits;
      }
    } else {
      var k :| k in bits && k !in Bits(out);
      assert Some(k) in all;
    }
  }

  /** The exit of a loop that tests such a condition before its body is sound exactly if it has `d` itself, which every
      normal exit has just been given, and what `break` leaves with when the body starts from `d`. */
  lemma LoopExitSoundIff(owners: seq<Span>, init: Option<Span>, cond: Span, iter: Option<Span>, body: Stmt, state: Mask,
                         x: Span, d: nat)
    requires |owners| <= MAX_DEFS && LastIn(owners, cond, |owners|) == Some(d)
    requires Modelled(owners, body) && AllAlive(owners, body, x)
    ensures var stmt := For(init, Some(cond), iter, body); var out := FlowOf(owners, stmt, state).normal;
      ExitSound(owners, stmt, state) <==> {d} + Bits(FlowOf(owners, body, {d}).breaks) <= Bits(out)
  {
    ForBrings(owners, init, cond, iter, body, state, x, d);
    SoundByBits(owners, For(init, Some(cond), iter, body), state, x, {d} + Bits(FlowOf(owners, body, {d}).breaks));
  }

  lemma ForBrings(owners: seq<Span>, init: Option<Span>, cond: Span, iter: Option<Span>, body: Stmt, state: Mask, x: Span, d: nat)
    requires |owners| <= MAX_DEFS && LastIn(owners, cond, |owners|) == Some(d)
    requires Modelled(owners, body) && AllAlive(owners, body, x)
    ensures Brought(owners, For(init, Some(cond), iter, body), state, x).normal
         == AsDefs({d} + Bits(FlowOf(owners, body, {d}).breaks))
  {
    ObserverIsComplete(owners, state, x);
    StartsWithNone(owners, state, x);
    ForBringsFrom(InForce(owners, state, x), init, cond, iter, body, Start(state), d);
  }

  lemma StartsWithNone(owners: seq<Span>, state: Mask, x: Span)
    ensures None in Start(state) && None in InForce(owners, state, x).states
    ensures forall d: nat :: d < |owners| ==> Some(d) in InForce(owners, state, x).states
  {
  }

  lemma ForBringsFrom(g: Observer<Option<nat>>, init: Option<Span>, cond: Span, iter: Option<Span>, body: Stmt,
                      from: set<Option<nat>>, d: nat)
    requires |g.owners| <= MAX_DEFS && LastIn(g.owners, cond, |g.owners|) == Some(d)
    requires g.step == NextDef && Complete(g) && None in from && None in g.states && Some(d) in g.states
    requires Modelled(g.owners, body) && AllAlive(g.owners, body, g.x)
    ensures Collect(g, For(init, Some(cond), iter, body), from).normal == AsDefs({d} + Bits(FlowOf(g.owners, body, {d}).breaks))
  {
    RegionStays(g, None, init);
    assert Follow(g.step, None, RegionTrace(g.owners, init)) in Past(g, init, from) * g.states;
    LoopBrings(g, cond, iter, body, Past(g, init, from), d);
    ForIsLoop(g, init, Some(cond), iter, body, from);
  }

  lemma {:induction false} ForIsLoop(g: Observer<Option<nat>>, init: Option<Span>, cond: Option<Span>, iter: Option<Span>, body: Stmt,
                  from: set<Option<nat>>)
    ensures Collect(g, For(init, cond, iter, body), from)
         == AlsoRead(CollectLoop(g, cond, iter, body, Past(g, init, from)), Seeing(g, init, from))
  {
  }

  lemma WhileExitSoundIff(owners: seq<Span>, cond: Span, body: Stmt, state: Mask, x: Span, d: nat)
    requires |owners| <= MAX_DEFS && LastIn(owners, cond, |owners|) == Some(d)
    requires Modelled(owners, body) && AllAlive(owners, body, x)
    ensures var stmt := While(Some(cond), body); var out := FlowOf(owners, stmt, state).normal;
      ExitSound(owners, stmt, state) <==> {d} + Bits(FlowOf(owners, body, {d}).breaks) <= Bits(out)
  {
    WhileBrings(owners, cond, body, state, x, d);
    SoundByBits(owners, While(Some(cond), body), state, x, {d} + Bits(FlowOf(owners, body, {d}).breaks));
  }

  lemma WhileBrings(owners: seq<Span>, cond: Span, body: Stmt, state: Mask, x: Span, d: nat)
    requires |owners| <= MAX_DEFS && LastIn(owners, cond, |owners|) == Some(d)
    requires Modelled(owners, body) && AllAlive(owners, body, x)
    ensures Brought(owners, While(Some(cond), body), state, x).normal == AsDefs({d} + Bits(FlowOf(owners, body, {d}).breaks))
  {
    ObserverIsComplete(owners, state, x);
    StartsWithNone(owners, state, x);
    WhileBringsFrom(InForce(owners, state, x), cond, body, Start(state), d);
  }

  lemma {:induction false} WhileBringsFrom(g: Observer<Option<nat>>, cond: Span, body: Stmt, from: set<Option<nat>>, d: nat)
    requires |g.owners| <= MAX_DEFS && LastIn(g.owners, cond, |g.owners|) == Some(d)
    requires g.step == NextDef && Complete(g) && None in from && None in g.states && Some(d) in g.states
    requires Modelled(g.owners, body) && AllAlive(g.owners, body, g.x)
    ensures Collect(g, While(Some(cond), body), from).normal == AsDefs({d} + Bits(FlowOf(g.owners, body, {d}).breaks))
  {
    assert None in from * g.states;
    LoopBrings(g, cond, None, body, from, d);
    WhileIsLoop(g, Some(cond), body, from);
  }

  lemma {:induction false} WhileIsLoop(g: Observer<Option<nat>>, cond: Option<Span>, body: Stmt, from: set<Option<nat>>)
    ensures Collect(g, While(cond, body), from) == CollectLoop(g, cond, None, body, from)
  {
  }

  lemma {:induction false} LoopBrings(g: Observer<Option<nat>>, cond: Span, iter: Option<Span>, body: Stmt, from: set<Option<nat>>, d: nat)
    requires |g.owners| <= MAX_DEFS && LastIn(g.owners, cond, |g.owners|) == Some(d)
    requires g.step == NextDef && Complete(g) && from * g.states != {} && Some(d) in g.states
    requires Modelled(g.owners, body) && AllAlive(g.owners, body, g.x)
    ensures CollectLoop(g, Some(cond), iter, body, from).normal == AsDefs({d} + Bits(FlowOf(g.owners, body, {d}).breaks))
  {
    var top := Header(g, Some(cond), iter, body, from, |g.states|);
    HeaderHasStart(g, Some(cond), iter, body, from, |g.states|);
    PastDefinition(g, cond, top, d);
    FromDefinition(g, body, ToBreak, d);
  }

  /** The body of a do-while can come to its end or `continue`. */
  predicate ComesBack(owners: seq<Span>, body: Stmt) {
    var once := FlowOf(owners, body, {});
    once.normal.Some? || once.continues.Some?
  }

  /** A do-while tests its condition after the body: its exit is sound exactly if it has `d`, should the condition ever be
      tested, and what `break` leaves with when the body starts from the state or from `d`. */
  lemma DoExitSoundIff(owners: seq<Span>, cond: Span, body: Stmt, state: Mask, x: Span, d: nat)
    requires |owners| <= MAX_DEFS && state <= AllBits() && LastIn(owners, cond, |owners|) == Some(d)
    requires Modelled(owners, body) && AllAlive(owners, body, x)
    ensures var stmt := DoWhile(body, Some(cond)); var out := FlowOf(owners, stmt, state).normal;
      var tested := if ComesBack(owners, body) then {d} else {};
      var breaks := FlowOf(owners, body, state + tested).breaks;
      ExitSound(owners, stmt, state) <==> (breaks.Some? ==> out.Some?) && tested + Bits(breaks) <= Bits(out)
  {
    var tested := if ComesBack(owners, body) then {d} else {};
    var broken := DoBrings(owners, cond, body, state, x, d, tested);
    SoundByBoth(owners, DoWhile(body, Some(cond)), state, x, tested, broken, FlowOf(owners, body, state + tested).breaks);
  }

  lemma SoundByBoth(owners: seq<Span>, stmt: Stmt, state: Mask, x: Span, tested: Mask, broken: set<Option<nat>>, breaks: Option<Mask>)
    requires Brought(owners, stmt, state, x).normal == AsDefs(tested) + broken
    requires broken != {} <==> breaks.Some?
    requires forall i: nat :: Some(i) in broken <==> i in Bits(breaks)
    ensures var out := FlowOf(owners, stmt, state).normal;
      ExitSound(owners, stmt, state) <==> (breaks.Some? ==> out.Some?) && tested + Bits(breaks) <= Bits(out)
  {
    ExitSoundIff(owners, stmt, state, x);
    CoversBoth(tested, broken, breaks, FlowOf(owners, stmt, state).normal);
  }

  lemma {:induction false} DoBrings(owners: seq<Span>, cond: Span, body: Stmt, state: Mask, x: Span, d: nat, tested: Mask)
      returns (broken: set<Option<nat>>)
    requires |owners| <= MAX_DEFS && state <= AllBits() && LastIn(owners, cond, |owners|) == Some(d)
    requires Modelled(owners, body) && AllAlive(owners, body, x)
    requires tested == if ComesBack(owners, body) then {d} else {}
    ensures Brought(owners, DoWhile(body, Some(cond)), state, x).normal == AsDefs(tested) + broken
    ensures var breaks := FlowOf(owners, body, state + tested).breaks;
      (broken != {} <==> breaks.Some?) && forall i: nat :: Some(i) in broken <==> i in Bits(breaks)
  {
    ObserverIsComplete(owners, state, x);
    StartsWithNone(owners, state, x);
    assert AsDefs({d}) == {Some(d)} && AsDefs({}) == {};
    broken := DoBringsFrom(InForce(owners, state, x), cond, body, Start(state), state, d, AsDefs(tested), state + tested);
  }

  lemma {:induction false} DoBringsFrom(g: Observer<Option<nat>>, cond: Span, body: Stmt, from: set<Option<nat>>, m: Mask, d: nat,
                     tested: set<Option<nat>>, all: Mask) returns (broken: set<Option<nat>>)
    requires |g.owners| <= MAX_DEFS && m <= AllBits() && LastIn(g.owners, cond, |g.owners|) == Some(d)
    requires Modelled(g.owners, body) && AllAlive(g.owners, body, g.x)
    requires None in from && from <= g.states && Some(d) in g.states && Complete(g) && g.step == NextDef
    requires forall k :: k in m <==> Some(k) in from
    requires tested == if ComesBack(g.owners, body) then {Some(d)} else {}
    requires all == if ComesBack(g.owners, body) then m + {d} else m
    ensures Collect(g, DoWhile(body, Some(cond)), from).normal == tested + broken
    ensures var breaks := FlowOf(g.owners, body, all).breaks;
      (broken != {} <==> breaks.Some?) && forall i: nat :: Some(i) in broken <==> i in Bits(breaks)
  {
    var top := from + tested;
    assert None in g.states;
    DoHeader(g, cond, body, from, m, d, tested, |g.states|);
    DoBackIs(g, cond, body, top, all, d);
    DoIsBack(g, Some(cond), body, from, top);
    BrokenOut(g, body, top, all);
    broken := Collect(g, body, top).breaks;
  }

  lemma {:induction false} DoIsBack(g: Observer<Option<nat>>, cond: Option<Span>, body: Stmt, from: set<Option<nat>>, top: set<Option<nat>>)
    requires top == Header(g, None, cond, body, from, |g.states|)
    ensures Collect(g, DoWhile(body, cond), from).normal == Back(g, None, cond, body, top) + Collect(g, body, top).breaks
  {
    PastNothing(g, top);
  }

  lemma CoversBoth(tested: Mask, broken: set<Option<nat>>, breaks: Option<Mask>, out: Option<Mask>)
    requires broken != {} <==> breaks.Some?
    requires forall i: nat :: Some(i) in broken <==> i in Bits(breaks)
    ensures (forall e :: e in AsDefs(tested) + broken ==> Reaches(out, e))
       <==> (breaks.Some? ==> out.Some?) && tested + Bits(breaks) <= Bits(out)
  {
    if (breaks.Some? ==> out.Some?) && tested + Bits(breaks) <= Bits(out) {
      forall e | e in AsDefs(tested) + broken
        ensures Reaches(out, e)
      {
        if e.Some? {
          assert e.value in tested + Bits(breaks);
        }
      }
    }
    if forall e :: e in AsDefs(tested) + broken ==> Reaches(out, e) {
      forall k | k in tested + Bits(breaks)
        ensures k in Bits(out)
      {
        assert Some(k) in AsDefs(tested) + broken;
      }
      if breaks.Some? {
        var e :| e in broken;
        assert Reaches(out, e);
      }
    }
  }

  /** A live way out is one that some execution takes. */
  lemma {:induction false} LiveIffBrought(g: Observer<Option<nat>>, stmt: Stmt, from: set<Option<nat>>, state: Mask, other: Mask, way: Way)
    requires |g.owners| <= MAX_DEFS && state <= AllBits() && from != {} && from <= g.states && Complete(g) && g.step == NextDef
    requires Modelled(g.owners, stmt) && AllAlive(g.owners, stmt, g.x) && !way.ToRead?
    requires forall k :: k in state <==> Some(k) in from
    ensures At(Collect(g, stmt, from), way) != {} <==> FlowAt(FlowOf(g.owners, stmt, other), way).Some?
  {
    SummaryDescribesWalk(g.owners, stmt, state, g.x);
    SummaryDescribesWalk(g.owners, stmt, other, g.x);
    var t := Channel(Summarize(g.owners, stmt, g.x), way);
    if At(Collect(g, stmt, from), way) != {} {
      var e :| e in At(Collect(g, stmt, from), way);
      var q, run := NothingIsMadeUp(g, stmt, from, way, e);
      ExecutionAccounted(g.owners, stmt, run, state, q, g.x);
    }
    if t.Live? {
      SummariesProper(g.owners, stmt, g.x);
      var want := SomeOffer(t);
      var run := Deliver(g.owners, stmt, g.x, way, want);
      var q :| q in from;
      NothingIsMissed(g, stmt, run, q, from);
    }
  }

  lemma EndsBrought(g: Observer<Option<nat>>, body: Stmt, from: set<Option<nat>>, state: Mask)
    requires |g.owners| <= MAX_DEFS && state <= AllBits() && from != {} && from <= g.states && Complete(g) && g.step == NextDef
    requires Modelled(g.owners, body) && AllAlive(g.owners, body, g.x)
    requires forall k :: k in state <==> Some(k) in from
    ensures var b := Collect(g, body, from); b.normal + b.continues != {} <==> ComesBack(g.owners, body)
  {
    LiveIffBrought(g, body, from, state, {}, ToNormal);
    LiveIffBrought(g, body, from, state, {}, ToContinue);
  }

  lemma {:induction false} BrokenOut(g: Observer<Option<nat>>, body: Stmt, from: set<Option<nat>>, state: Mask)
    requires |g.owners| <= MAX_DEFS && state <= AllBits() && from != {} && from <= g.states && Complete(g) && g.step == NextDef
    requires Modelled(g.owners, body) && AllAlive(g.owners, body, g.x)
    requires forall k :: k in state <==> Some(k) in from
    ensures var b, f := Collect(g, body, from), FlowOf(g.owners, body, state);
      (b.breaks != {} <==> f.breaks.Some?) && forall i: nat :: Some(i) in b.breaks <==> i in Bits(f.breaks)
  {
    LiveIffBrought(g, body, from, state, state, ToBreak);
    forall i: nat
      ensures Some(i) in Collect(g, body, from).breaks <==> i in Bits(FlowOf(g.owners, body, state).breaks)
    {
      WalkIsTrue(g, body, from, state, ToBreak, i);
    }
  }

  lemma {:induction false} DoBackIs(g: Observer<Option<nat>>, cond: Span, body: Stmt, top: set<Option<nat>>, m: Mask, d: nat)
    requires |g.owners| <= MAX_DEFS && m <= AllBits() && LastIn(g.owners, cond, |g.owners|) == Some(d)
    requires Modelled(g.owners, body) && AllAlive(g.owners, body, g.x)
    requires top != {} && top <= g.states && Complete(g) && g.step == NextDef
    requires forall k :: k in m <==> Some(k) in top
    ensures Back(g, None, Some(cond), body, top) == if ComesBack(g.owners, body) then {Some(d)} else {}
  {
    PastNothing(g, top);
    EndsBrought(g, body, top, m);
    var b := Collect(g, body, top);
    if ComesBack(g.owners, body) {
      PastDefinition(g, cond, b.normal + b.continues, d);
    }
  }

  /** The top of the loop has what came in and, after a round, the condition's definition. */
  lemma {:induction false} DoHeader(g: Observer<Option<nat>>, cond: Span, body: Stmt, from: set<Option<nat>>, m: Mask, d: nat,
                                    tested: set<Option<nat>>, n: nat)
    requires |g.owners| <= MAX_DEFS && m <= AllBits() && LastIn(g.owners, cond, |g.owners|) == Some(d)
    requires Modelled(g.owners, body) && AllAlive(g.owners, body, g.x)
    requires from != {} && from <= g.states && Some(d) in g.states && Complete(g) && g.step == NextDef
    requires forall k :: k in m <==> Some(k) in from
    requires tested == if ComesBack(g.owners, body) then {Some(d)} else {}
    ensures Header(g, None, Some(cond), body, from, n) == if n > 0 then from + tested else from
    decreases n
  {
    if n == 0 {
      assert from * g.states == from;
    } else {
      DoHeader(g, cond, body, from, m, d, tested, n - 1);
      var top := if n > 1 then from + tested else from;
      DoRound(g, cond, body, from, m, d, tested, top);
      HeaderStep(g, None, Some(cond), body, from, n, top);
    }
  }

  /** A round from either top brings just what the condition defines. */
  lemma {:induction false} DoRound(g: Observer<Option<nat>>, cond: Span, body: Stmt, from: set<Option<nat>>, m: Mask, d: nat,
                                   tested: set<Option<nat>>, top: set<Option<nat>>)
    requires |g.owners| <= MAX_DEFS && m <= AllBits() && LastIn(g.owners, cond, |g.owners|) == Some(d)
    requires Modelled(g.owners, body) && AllAlive(g.owners, body, g.x)
    requires from != {} && from <= g.states && Some(d) in g.states && Complete(g) && g.step == NextDef
    requires forall k :: k in m <==> Some(k) in from
    requires tested == (if ComesBack(g.owners, body) then {Some(d)} else {}) && (top == from || top == from + tested)
    ensures top + Back(g, None, Some(cond), body, top) * g.states == from + tested
  {
    if top == from {
      DoBackIs(g, cond, body, from, m, d);
    } else {
      DoBackIs(g, cond, body, top, m + {d}, d);
    }
    assert tested * g.states == tested;
  }

  lemma HeaderStep(g: Observer<Option<nat>>, cond: Option<Span>, iter: Option<Span>, body: Stmt, from: set<Option<nat>>, n: nat,
                   top: set<Option<nat>>)
    requires n > 0 && top == Header(g, cond, iter, body, from, n - 1)
    ensures Header(g, cond, iter, body, from, n) == top + Back(g, cond, iter, body, top) * g.states
  {
  }

  /* Concrete programs. */

  const FIRST: Stmt := Leaf(Span(0, 10))
  const TAKEN: Stmt := Block([Leaf(Span(30, 40)), Continue])
  const BRANCH: Stmt := If(Some(Span(20, 21)), TAKEN, Nop)
  const SECOND: Stmt := Leaf(Span(42, 49))
  const LOOP: Stmt := DoWhile(Block([BRANCH, SECOND]), Some(Span(50, 51)))
  const LAST: Stmt := Leaf(Span(60, 70))

  /** `var x = 0; do { if (c) { x = 1; continue; } x = 2; } while (d); use(x);` */
  const CONTINUE_IN_DO: seq<Stmt> := [FIRST, LOOP, LAST]

  const THREE_OWNERS: seq<Span> := [Span(0, 10), Span(30, 31), Span(42, 43)]

  /** The analysis gives the last read the value of `x = 2`, although an execution brings `x = 1` to it. */
  lemma ContinueInDoIsMissed()
    ensures var use := Span(62, 63);
      && SoleDef(MarkOfBlock(THREE_OWNERS, CONTINUE_IN_DO, {}, use)) == Some(2)
      && SomeExecutionBrings(THREE_OWNERS, CONTINUE_IN_DO, use, 1)
  {
    ContinueInDoMask();
    ContinueInDoRun();
  }

  lemma OnlyOwner(region: Span, i: nat)
    requires i < 3 && forall k :: 0 <= k < 3 ==> (region.Contains(THREE_OWNERS[k]) <==> k == i)
    ensures LastIn(THREE_OWNERS, region, 3) == Some(i)
  {
    var r := LastIn(THREE_OWNERS, region, 3);
    assert region.Contains(THREE_OWNERS[i]);
  }

  lemma {:induction false} BranchFlow(s: Mask)
    ensures FlowOf(THREE_OWNERS, BRANCH, s) == Flow(Some(s), None, Some({1}), None)
    ensures MarkOf(THREE_OWNERS, BRANCH, s, Span(62, 63)) == {}
  {
    var o, use := THREE_OWNERS, Span(62, 63);
    var rest := [Continue];
    OnlyOwner(Span(30, 40), 1);
    assert TAKEN.stmts[1..] == rest && rest[1..] == [];
    assert FlowOfBlock(o, rest, {1}) == Flow(None, None, Some({1}), None) && MarkOfBlock(o, rest, {1}, use) == {};
    assert FlowOf(o, TAKEN, s) == Flow(None, None, Some({1}), None) && MarkOf(o, TAKEN, s, use) == {};
  }

  lemma BodyFlow(s: Mask)
    ensures FlowOf(THREE_OWNERS, LOOP.body, s) == Flow(Some({2}), None, Some({1}), None)
    ensures MarkOf(THREE_OWNERS, LOOP.body, s, Span(62, 63)) == {}
  {
    var o, use := THREE_OWNERS, Span(62, 63);
    BranchFlow(s);
    OnlyOwner(Span(42, 49), 2);
    assert [BRANCH, SECOND][1..] == [SECOND] && [SECOND][1..] == [];
    assert FlowOfBlock(o, [SECOND], s) == Flow(Some({2}), None, None, None) && MarkOfBlock(o, [SECOND], s, use) == {};
  }

  lemma {:induction false} LoopFlow(s: Mask)
    ensures FlowOf(THREE_OWNERS, LOOP, s) == Through({2})
    ensures MarkOf(THREE_OWNERS, LOOP, s, Span(62, 63)) == {}
  {
    var f := Flow(Some({2}), None, Some({1}), None);
    BodyFlow(s);
    BodyFlow(LoopEntry(f, s));
    DoFlowIs(THREE_OWNERS, LOOP, s, f);
  }

  lemma {:induction false} DoFlowIs(owners: seq<Span>, loop: Stmt, s: Mask, f: Flow)
    requires loop.DoWhile? && FlowOf(owners, loop.body, s) == f && FlowOf(owners, loop.body, LoopEntry(f, s)) == f
    ensures FlowOf(owners, loop, s) == Flow(Union(f.normal, f.breaks), None, None, f.returned)
  {
  }

  lemma {:induction false} TailMask(s: Mask)
    ensures MarkOfBlock(THREE_OWNERS, [LOOP, LAST], s, Span(62, 63)) == {2}
  {
    LoopFlow(s);
    assert [LOOP, LAST][1..] == [LAST] && [LAST][1..] == [];
    assert MarkOfBlock(THREE_OWNERS, [LAST], {2}, Span(62, 63)) == {2};
  }

  lemma {:induction false} ContinueInDoMask()
    ensures MarkOfBlock(THREE_OWNERS, CONTINUE_IN_DO, {}, Span(62, 63)) == {2}
  {
    OnlyOwner(Span(0, 10), 0);
    TailMask({0});
    assert CONTINUE_IN_DO[1..] == [LOOP, LAST];
  }

  const LOOP_TRACE: seq<Event> := [Visit(Span(20, 21)), Visit(Span(30, 40)), Def(1, Span(30, 40)), Visit(Span(50, 51))]

  const LOOP_RUN: Run := Iterate(Chain(Left(Chain(Done, Chain(Done, Done))), Done), Done)

  const TAKEN_TRACE: seq<Event> := [Visit(Span(30, 40)), Def(1, Span(30, 40))]

  const BRANCH_TRACE: seq<Event> := [Visit(Span(20, 21)), Visit(Span(30, 40)), Def(1, Span(30, 40))]

  lemma {:induction false} NoDefs(region: Span)
    requires forall k :: 0 <= k < 3 ==> !region.Contains(THREE_OWNERS[k])
    ensures DefsIn(THREE_OWNERS, region, 3) == []
  {
    assert DefsIn(THREE_OWNERS, region, 1) == [];
    assert DefsIn(THREE_OWNERS, region, 2) == [];
  }

  lemma {:induction false} TakenRun()
    ensures Exec(THREE_OWNERS, TAKEN, Chain(Done, Chain(Done, Done))) == Ended(TAKEN_TRACE, Continues)
  {
    var o := THREE_OWNERS;
    assert DefsIn(o, Span(30, 40), 3) == [Def(1, Span(30, 40))] by { assert DefsIn(o, Span(30, 40), 2) == [Def(1, Span(30, 40))]; }
    assert TAKEN.stmts[1..] == [Continue];
    assert ExecBlock(o, [Continue], Chain(Done, Done)) == Ended([], Continues);
    assert TAKEN_TRACE + [] == TAKEN_TRACE;
  }

  lemma {:induction false} BranchRun()
    ensures Exec(THREE_OWNERS, LOOP.body, LOOP_RUN.body) == Ended(BRANCH_TRACE, Continues)
  {
    TakenRun();
    NoDefs(Span(20, 21));
    assert [Visit(Span(20, 21))] + TAKEN_TRACE == BRANCH_TRACE;
    assert Exec(THREE_OWNERS, BRANCH, LOOP_RUN.body.first) == Ended(BRANCH_TRACE, Continues);
  }

  lemma {:induction false} LoopRun()
    ensures Exec(THREE_OWNERS, LOOP, LOOP_RUN) == Ended(LOOP_TRACE, Normal)
  {
    BranchRun();
    NoDefs(Span(50, 51));
    assert BRANCH_TRACE + [Visit(Span(50, 51))] == LOOP_TRACE;
  }

  lemma {:induction false} ContinueInDoRun()
    ensures SomeExecutionBrings(THREE_OWNERS, CONTINUE_IN_DO, Span(62, 63), 1)
  {
    var o := THREE_OWNERS;
    LoopRun();
    assert DefsIn(o, Span(0, 10), 3) == [Def(0, Span(0, 10))] by { assert DefsIn(o, Span(0, 10), 1) == [Def(0, Span(0, 10))]; assert DefsIn(o, Span(0, 10), 2) == [Def(0, Span(0, 10))]; }
    assert CONTINUE_IN_DO[1..] == [LOOP, LAST] && [LOOP, LAST][1..] == [LAST];
    assert ExecBlock(o, [LAST], Chain(Pause, Done)) == Ended([], Reading(Span(60, 70)));
    assert ExecBlock(o, [LOOP, LAST], Chain(LOOP_RUN, Chain(Pause, Done))) == Ended(LOOP_TRACE + [], Reading(Span(60, 70)));
    var run := Chain(Done, Chain(LOOP_RUN, Chain(Pause, Done)));
    var t := [Visit(Span(0, 10)), Def(0, Span(0, 10))] + (LOOP_TRACE + []);
    assert Exec(o, Block(CONTINUE_IN_DO), run) == Ended(t, Reading(Span(60, 70)));
    assert t[..|t| - 1] == [Visit(Span(0, 10)), Def(0, Span(0, 10)), Visit(Span(20, 21)), Visit(Span(30, 40)), Def(1, Span(30, 40))];
    assert LastDef(t[..|t| - 1], None) == Some(1);
    assert BringsTo(Exec(o, Block(CONTINUE_IN_DO), run), Span(62, 63), 1);
  }
}
