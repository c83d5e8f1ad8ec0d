/** Reaching definitions of one local variable: the structured gen/kill walk of src/resolve/reaching_defs.rs. */
module ReachingDefs {
  import opened Wrappers
  import opened Syntax

  /** The bit positions set in the analysis' 128-bit mask; bit i stands for definition i. */
  type Mask = set<nat>

  const MAX_DEFS: nat := 128

  function BitsBelow(n: nat): (m: Mask)
    ensures forall i: nat :: i in m <==> i < n
  {
    if n == 0 then {} else BitsBelow(n - 1) + {n - 1}
  }

  function AllBits(): Mask {
    BitsBelow(MAX_DEFS)
  }

  /** The position of the only bit set in a mask, if exactly one is set. */
  function SoleDef(mask: Mask): (r: Option<nat>)
    ensures forall i :: r == Some(i) <==> mask == {i}
  {
    assert forall i: nat :: mask == {i} ==> |mask| == 1;
    if |mask| == 1 then
      SingletonIsDisplay(mask);
      var i :| i in mask;
      Some(i)
    else None
  }

  lemma SingletonIsDisplay(mask: Mask)
    requires |mask| == 1
    ensures exists i :: mask == {i}
  {
    var i :| i in mask;
    assert |mask - {i}| == 0;
    assert mask == {i};
  }

  datatype Pass = Learn | Record

  /** The states at the four ways out of a statement; `None` when control cannot leave that way. */
  datatype Flow = Flow(normal: Option<Mask>, breaks: Option<Mask>, continues: Option<Mask>, returned: Option<Mask>)

  function Through(state: Mask): Flow {
    Flow(Some(state), None, None, None)
  }

  function Union(a: Option<Mask>, b: Option<Mask>): Option<Mask> {
    match (a, b)
    case (Some(x), Some(y)) => Some(x + y)
    case (_, None) => a
    case (None, _) => b
  }

  function OrElse(a: Option<Mask>, fallback: Mask): Mask {
    match a
    case Some(x) => x
    case None => fallback
  }

  /** Of the definitions with index below `n` whose owner lies in `region`, the one that starts last. */
  function LastIn(owners: seq<Span>, region: Span, n: nat): (r: Option<nat>)
    requires n <= |owners|
    ensures r.Some? ==> r.value < n && region.Contains(owners[r.value])
    ensures forall i :: 0 <= i < n && region.Contains(owners[i]) ==>
              r.Some? && (owners[i].start < owners[r.value].start || (owners[i].start == owners[r.value].start && i <= r.value))
  {
    if n == 0 then None
    else
      var best := LastIn(owners, region, n - 1);
      if !region.Contains(owners[n - 1]) then best
      else if best.Some? && owners[n - 1].start < owners[best.value].start then best
      else Some(n - 1)
  }

  /** The state after a region has been evaluated in `state`. */
  function GenIn(owners: seq<Span>, region: Span, state: Mask): Mask {
    match LastIn(owners, region, |owners|)
    case Some(i) => {i}
    case None => state
  }

  function GenInOpt(owners: seq<Span>, region: Option<Span>, state: Mask): Mask {
    match region
    case Some(r) => GenIn(owners, r, state)
    case None => state
  }

  /* What the walk computes, as functions of the incoming state. */

  function FlowOf(owners: seq<Span>, stmt: Stmt, state: Mask): Flow
    decreases stmt, 1
  {
    match stmt
    case Block(stmts) => FlowOfBlock(owners, stmts, state)
    case Leaf(region) => Through(GenIn(owners, region, state))
    case Return(region) => Flow(None, None, None, Some(GenIn(owners, region, state)))
    case Break => Flow(None, Some(state), None, None)
    case Continue => Flow(None, None, Some(state), None)
    case Nop => Through(state)
    case If(_, body, els) =>
      var t, e := FlowOf(owners, body, state), FlowOf(owners, els, state);
      Flow(Union(t.normal, e.normal), Union(t.breaks, e.breaks), Union(t.continues, e.continues), Union(t.returned, e.returned))
    case While(_, body) =>
      var header := LoopEntry(FlowOf(owners, body, state), state);
      var again := FlowOf(owners, body, header);
      Flow(Union(Some(header), again.breaks), None, None, again.returned)
    case DoWhile(body, _) =>
      var entry := LoopEntry(FlowOf(owners, body, state), state);
      var again := FlowOf(owners, body, entry);
      Flow(Union(again.normal, again.breaks), None, None, again.returned)
    case For(init, _, iter, body) =>
      var entry := GenInOpt(owners, init, state);
      var header := ForHeader(owners, FlowOf(owners, body, entry), iter, entry);
      var again := FlowOf(owners, body, header);
      Flow(Union(Some(header), again.breaks), None, None, again.returned)
    case Switch(_, sections) =>
      SwitchExit(FlowOfSections(owners, sections, state, None), sections, state)
    case Unmodelled(_) => Through(state)
  }

  /** The state at the top of a `while` or `do` loop, from one evaluation of its body. */
  function LoopEntry(once: Flow, state: Mask): Mask {
    OrElse(Union(Some(state), Union(once.normal, once.continues)), state)
  }

  /** The state at a `for` loop's condition, from one evaluation of its body. */
  function ForHeader(owners: seq<Span>, once: Flow, iter: Option<Span>, entry: Mask): Mask {
    entry + GenInOpt(owners, iter, OrElse(Union(once.normal, once.continues), entry))
  }

  function FlowOfBlock(owners: seq<Span>, stmts: seq<Stmt>, state: Mask): Flow
    decreases stmts, 0
  {
    if stmts == [] then Through(state)
    else Then(FlowOf(owners, stmts[0], state), if FlowOf(owners, stmts[0], state).normal.None? then Through(state)
                                               else FlowOfBlock(owners, stmts[1..], FlowOf(owners, stmts[0], state).normal.value))
  }

  /** The flow of two statements in a row, where `next` is the flow of the second one if it is reached. */
  function Then(first: Flow, next: Flow): Flow {
    if first.normal.None? then first
    else Flow(next.normal, Union(first.breaks, next.breaks), Union(first.continues, next.continues), Union(first.returned, next.returned))
  }

  /** The flow of the rest of a switch block.  `entry` is the state at the switch head and `cur` the state that falls
      through from the section before; the `normal` channel of the result is what falls off the end. */
  function FlowOfSections(owners: seq<Span>, sections: seq<Section>, entry: Mask, cur: Option<Mask>): Flow
    decreases sections, 0
  {
    if sections == [] then Flow(cur, None, None, None)
    else if sections[0].Code? then
      assert sections[0].stmt < sections[0];
      var f := FlowOf(owners, sections[0].stmt, OrElse(cur, entry));
      var g := FlowOfSections(owners, sections[1..], entry, f.normal);
      Flow(g.normal, Union(f.breaks, g.breaks), Union(f.continues, g.continues), Union(f.returned, g.returned))
    else FlowOfSections(owners, sections[1..], entry, Union(cur, Some(entry)))
  }

  function SwitchExit(inner: Flow, sections: seq<Section>, entry: Mask): Flow {
    var left := Union(inner.breaks, inner.normal);
    Flow(if HasDefault(sections) then left else Union(left, Some(entry)), None, inner.continues, inner.returned)
  }

  /* What the recording pass adds to the mask of one read `x`. */

  function MarkRegion(region: Span, state: Mask, x: Span): Mask {
    if region.Contains(x) then state else {}
  }

  function MarkOpt(region: Option<Span>, state: Mask, x: Span): Mask {
    match region
    case Some(r) => MarkRegion(r, state, x)
    case None => {}
  }

  function MarkOf(owners: seq<Span>, stmt: Stmt, state: Mask, x: Span): Mask
    decreases stmt, 1
  {
    match stmt
    case Block(stmts) => MarkOfBlock(owners, stmts, state, x)
    case Leaf(region) => MarkRegion(region, state, x)
    case Return(region) => MarkRegion(region, state, x)
    case Break => {}
    case Continue => {}
    case Nop => {}
    case If(cond, body, els) => MarkOpt(cond, state, x) + MarkOf(owners, body, state, x) + MarkOf(owners, els, state, x)
    case While(cond, body) =>
      var header := LoopEntry(FlowOf(owners, body, state), state);
      MarkOpt(cond, header, x) + MarkOf(owners, body, header, x)
    case DoWhile(body, cond) =>
      var entry := LoopEntry(FlowOf(owners, body, state), state);
      var again := FlowOf(owners, body, entry);
      MarkOf(owners, body, entry, x) + MarkOpt(cond, OrElse(Union(again.normal, again.continues), entry), x)
    case For(init, cond, iter, body) =>
      var entry := GenInOpt(owners, init, state);
      var header := ForHeader(owners, FlowOf(owners, body, entry), iter, entry);
      var again := FlowOf(owners, body, header);
      MarkOpt(init, state, x) + MarkOpt(cond, header, x) + MarkOf(owners, body, header, x)
      + MarkOpt(iter, OrElse(Union(again.normal, again.continues), header), x)
    case Switch(cond, sections) => MarkOpt(cond, state, x) + MarkOfSections(owners, sections, state, None, x)
    case Unmodelled(region) => MarkRegion(region, AllBits(), x)
  }

  function MarkOfBlock(owners: seq<Span>, stmts: seq<Stmt>, state: Mask, x: Span): Mask
    decreases stmts, 0
  {
    if stmts == [] then {}
    else
      var f := FlowOf(owners, stmts[0], state);
      MarkOf(owners, stmts[0], state, x) + (if f.normal.None? then {} else MarkOfBlock(owners, stmts[1..], f.normal.value, x))
  }

  function MarkOfSections(owners: seq<Span>, sections: seq<Section>, entry: Mask, cur: Option<Mask>, x: Span): Mask
    decreases sections, 0
  {
    if sections == [] then {}
    else match sections[0]
      case Code(stmt) =>
        assert stmt < sections[0];
        MarkOf(owners, stmt, OrElse(cur, entry), x)
        + MarkOfSections(owners, sections[1..], entry, FlowOf(owners, stmt, OrElse(cur, entry)).normal, x)
      case CaseLabel(value) =>
        MarkOpt(value, entry, x) + MarkOfSections(owners, sections[1..], entry, Union(cur, Some(entry)), x)
      case DefaultLabel =>
        MarkOfSections(owners, sections[1..], entry, Union(cur, Some(entry)), x)
  }
}
