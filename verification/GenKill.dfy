/** The analysis as one gen/kill summary per statement.  The walk evaluates every loop body twice, once to learn and once
    to record; a summary looks at each statement once.  That the two agree is why a single learning pass is enough. */
module GenKill {
  import opened Wrappers
  import opened Syntax
  import opened ReachingDefs

  /** How one way out of a statement depends on the incoming state: control never gets there, or the state there is
      the definitions made inside plus, when some path makes none, whatever came in. */
  datatype Transfer = Dead | Live(gen: Mask, keeps: bool)

  datatype Summary = Summary(normal: Transfer, breaks: Transfer, continues: Transfer, returned: Transfer, read: Transfer)

  const Id: Transfer := Live({}, true)

  function Apply(t: Transfer, state: Mask): Option<Mask> {
    match t
    case Dead => None
    case Live(gen, keeps) => Some(gen + if keeps then state else {})
  }

  function Join(a: Transfer, b: Transfer): Transfer {
    match (a, b)
    case (Live(g, k), Live(g', k')) => Live(g + g', k || k')
    case (_, Dead) => a
    case (Dead, _) => b
  }

  /** First `a`, then `b`. */
  function After(a: Transfer, b: Transfer): Transfer {
    match (a, b)
    case (Live(g, k), Live(g', k')) => Live(g' + (if k' then g else {}), k && k')
    case (_, _) => Dead
  }

  function Or(a: Transfer, fallback: Transfer): Transfer {
    if a.Dead? then fallback else a
  }

  function Gen(owners: seq<Span>, region: Option<Span>): Transfer {
    match region
    case None => Id
    case Some(r) =>
      match LastIn(owners, r, |owners|)
      case Some(i) => Live({i}, false)
      case None => Id
  }

  function Seen(region: Option<Span>, x: Span, t: Transfer): Transfer {
    if region.Some? && region.value.Contains(x) then t else Dead
  }

  const StraightOn: Summary := Summary(Id, Dead, Dead, Dead, Dead)

  function Summarize(owners: seq<Span>, stmt: Stmt, x: Span): Summary
    decreases stmt, 1
  {
    match stmt
    case Block(stmts) => SummarizeBlock(owners, stmts, x)
    case Leaf(region) => Summary(Gen(owners, Some(region)), Dead, Dead, Dead, Seen(Some(region), x, Id))
    case Return(region) => Summary(Dead, Dead, Dead, Gen(owners, Some(region)), Seen(Some(region), x, Id))
    case Break => Summary(Dead, Id, Dead, Dead, Dead)
    case Continue => Summary(Dead, Dead, Id, Dead, Dead)
    case Nop => StraightOn
    case If(cond, body, els) =>
      var t, e := Summarize(owners, body, x), Summarize(owners, els, x);
      Summary(Join(t.normal, e.normal), Join(t.breaks, e.breaks), Join(t.continues, e.continues),
              Join(t.returned, e.returned), Join(Seen(cond, x, Id), Join(t.read, e.read)))
    case While(cond, body) => SummarizeLoop(owners, None, cond, None, Summarize(owners, body, x), x)
    case DoWhile(body, cond) =>
      var b := Summarize(owners, body, x);
      var entry := Join(Id, Join(b.normal, b.continues));
      var atCond := Or(After(entry, Join(b.normal, b.continues)), entry);
      Summary(Join(After(entry, b.normal), After(entry, b.breaks)), Dead, Dead, After(entry, b.returned),
              Join(After(entry, b.read), Seen(cond, x, atCond)))
    case For(init, cond, iter, body) => SummarizeLoop(owners, init, cond, iter, Summarize(owners, body, x), x)
    case Switch(cond, sections) =>
      var b := SummarizeSections(owners, sections, Dead, x);
      var left := Join(b.breaks, b.normal);
      Summary(if HasDefault(sections) then left else Join(left, Id), Dead, b.continues, b.returned,
              Join(Seen(cond, x, Id), b.read))
    case Unmodelled(region) => Summary(Id, Dead, Dead, Dead, Seen(Some(region), x, Live(AllBits(), false)))
  }

  /** A `for` loop around a body with summary `b`; a `while` loop is one without init and iteration part. */
  function SummarizeLoop(owners: seq<Span>, init: Option<Span>, cond: Option<Span>, iter: Option<Span>, b: Summary, x: Span): Summary {
    var ends := Join(b.normal, b.continues);
    var header := LoopHeader(owners, init, iter, b);
    Summary(Join(header, After(header, b.breaks)), Dead, Dead, After(header, b.returned),
            Join(Join(Join(Seen(init, x, Id), Seen(cond, x, header)), After(header, b.read)),
                 Seen(iter, x, Or(After(header, ends), header))))
  }

  function SummarizeBlock(owners: seq<Span>, stmts: seq<Stmt>, x: Span): Summary
    decreases stmts, 0
  {
    if stmts == [] then StraightOn
    else
      var f, g := Summarize(owners, stmts[0], x), SummarizeBlock(owners, stmts[1..], x);
      InSequence(f, f.normal, g)
  }

  /** Statement `f` and then, with the state that `via` lets through, `g`. */
  function InSequence(f: Summary, via: Transfer, g: Summary): Summary {
    Summary(After(via, g.normal), Join(f.breaks, After(via, g.breaks)), Join(f.continues, After(via, g.continues)),
            Join(f.returned, After(via, g.returned)), Join(f.read, After(via, g.read)))
  }

  /** `cur` leads from the switch head to the state that falls through into these sections. */
  function SummarizeSections(owners: seq<Span>, sections: seq<Section>, cur: Transfer, x: Span): Summary
    decreases sections, 0
  {
    if sections == [] then Summary(cur, Dead, Dead, Dead, Dead)
    else match sections[0]
      case Code(stmt) =>
        assert stmt < sections[0];
        var f := Summarize(owners, stmt, x);
        var start := Or(cur, Id);
        var g := SummarizeSections(owners, sections[1..], After(start, f.normal), x);
        Summary(g.normal, Join(After(start, f.breaks), g.breaks), Join(After(start, f.continues), g.continues),
                Join(After(start, f.returned), g.returned), Join(After(start, f.read), g.read))
      case CaseLabel(value) =>
        var g := SummarizeSections(owners, sections[1..], Join(cur, Id), x);
        g.(read := Join(Seen(value, x, Id), g.read))
      case DefaultLabel => SummarizeSections(owners, sections[1..], Join(cur, Id), x)
  }

  /* Transfers compute unions and compositions. */

  lemma ApplyJoin(a: Transfer, b: Transfer, state: Mask)
    ensures Apply(Join(a, b), state) == Union(Apply(a, state), Apply(b, state))
  {
    if a.Live? && b.Live? {
      assert a.gen + b.gen + (if a.keeps || b.keeps then state else {})
          == (a.gen + if a.keeps then state else {}) + (b.gen + if b.keeps then state else {});
    }
  }

  lemma ApplyAfter(a: Transfer, b: Transfer, state: Mask)
    ensures Apply(After(a, b), state) == if a.Dead? then None else Apply(b, Apply(a, state).value)
  {
    if a.Live? && b.Live? && b.keeps {
      assert b.gen + a.gen + (if a.keeps then state else {}) == b.gen + (a.gen + if a.keeps then state else {});
    }
  }

  lemma ApplyId(state: Mask)
    ensures Apply(Id, state) == Some(state)
  {
    assert {} + state == state;
  }

  lemma ApplyGen(owners: seq<Span>, region: Option<Span>, state: Mask)
    ensures Apply(Gen(owners, region), state) == Some(GenInOpt(owners, region, state))
  {
    ApplyId(state);
    if region.Some? && LastIn(owners, region.value, |owners|).Some? {
      var i := LastIn(owners, region.value, |owners|).value;
      assert {i} + {} == {i};
    }
  }

  function Bits(a: Option<Mask>): Mask {
    OrElse(a, {})
  }

  /** The summary of a statement gives, for every incoming state, the flow the walk computes and the mask it records. */
  ghost predicate Describes(s: Summary, flow: Flow, mark: Mask, state: Mask) {
    && Apply(s.normal, state) == flow.normal
    && Apply(s.breaks, state) == flow.breaks
    && Apply(s.continues, state) == flow.continues
    && Apply(s.returned, state) == flow.returned
    && Bits(Apply(s.read, state)) == mark
  }

  lemma {:induction false} SummaryDescribesWalk(owners: seq<Span>, stmt: Stmt, state: Mask, x: Span)
    ensures Describes(Summarize(owners, stmt, x), FlowOf(owners, stmt, state), MarkOf(owners, stmt, state, x), state)
    decreases stmt, 1
  {
    match stmt
    case Block(stmts) => SummaryDescribesBlock(owners, stmts, state, x);
    case If(_, _, _) => SummaryDescribesIf(owners, stmt, state, x);
    case While(cond, body) =>
      WhileIsBareFor(owners, cond, body, state, x);
      SummaryDescribesLoop(owners, For(None, cond, None, body), state, x);
    case DoWhile(_, _) => SummaryDescribesDoWhile(owners, stmt, state, x);
    case For(_, _, _, _) => SummaryDescribesLoop(owners, stmt, state, x);
    case Switch(_, _) => SummaryDescribesSwitch(owners, stmt, state, x);
    case _ => SummaryDescribesSimple(owners, stmt, state, x);
  }

  /** Statements without statements inside. */
  lemma {:induction false} SummaryDescribesSimple(owners: seq<Span>, stmt: Stmt, state: Mask, x: Span)
    requires stmt.Leaf? || stmt.Return? || stmt.Break? || stmt.Continue? || stmt.Nop? || stmt.Unmodelled?
    ensures Describes(Summarize(owners, stmt, x), FlowOf(owners, stmt, state), MarkOf(owners, stmt, state, x), state)
  {
    ApplyId(state);
    ApplyGen(owners, if stmt.Leaf? || stmt.Return? then Some(stmt.region) else None, state);
  }

  lemma {:induction false} SummaryDescribesIf(owners: seq<Span>, stmt: Stmt, state: Mask, x: Span)
    requires stmt.If?
    ensures Describes(Summarize(owners, stmt, x), FlowOf(owners, stmt, state), MarkOf(owners, stmt, state, x), state)
    decreases stmt, 0
  {
    SummaryDescribesWalk(owners, stmt.body, state, x);
    SummaryDescribesWalk(owners, stmt.els, state, x);
    var t, e := Summarize(owners, stmt.body, x), Summarize(owners, stmt.els, x);
    ApplyId(state);
    ApplyJoin(t.normal, e.normal, state);
    ApplyJoin(t.breaks, e.breaks, state);
    ApplyJoin(t.continues, e.continues, state);
    ApplyJoin(t.returned, e.returned, state);
    ApplyJoin(t.read, e.read, state);
    ApplyJoin(Seen(stmt.cond, x, Id), Join(t.read, e.read), state);
  }

  lemma {:induction false} SummaryDescribesSwitch(owners: seq<Span>, stmt: Stmt, state: Mask, x: Span)
    requires stmt.Switch?
    ensures Describes(Summarize(owners, stmt, x), FlowOf(owners, stmt, state), MarkOf(owners, stmt, state, x), state)
    decreases stmt, 0
  {
    SummaryDescribesSections(owners, stmt.sections, state, Dead, x);
    var b := SummarizeSections(owners, stmt.sections, Dead, x);
    ApplyId(state);
    ApplyJoin(b.breaks, b.normal, state);
    ApplyJoin(Join(b.breaks, b.normal), Id, state);
    ApplyJoin(Seen(stmt.cond, x, Id), b.read, state);
  }

  /** A `while` loop is a `for` loop with neither an init nor an iteration part. */
  lemma WhileIsBareFor(owners: seq<Span>, cond: Option<Span>, body: Stmt, state: Mask, x: Span)
    ensures FlowOf(owners, While(cond, body), state) == FlowOf(owners, For(None, cond, None, body), state)
    ensures MarkOf(owners, While(cond, body), state, x) == MarkOf(owners, For(None, cond, None, body), state, x)
  {
    var once := FlowOf(owners, body, state);
    assert LoopEntry(once, state) == ForHeader(owners, once, None, state);
  }

  lemma {:induction false} SummaryDescribesLoop(owners: seq<Span>, stmt: Stmt, state: Mask, x: Span)
    requires stmt.For?
    ensures Describes(Summarize(owners, stmt, x), FlowOf(owners, stmt, state), MarkOf(owners, stmt, state, x), state)
    decreases stmt.body, 2
  {
    var b := Summarize(owners, stmt.body, x);
    var s0 := GenInOpt(owners, stmt.init, state);
    SummaryDescribesWalk(owners, stmt.body, s0, x);
    var once := FlowOf(owners, stmt.body, s0);
    HeaderApplies(owners, stmt.init, stmt.iter, b, once, state);
    var s1 := ForHeader(owners, once, stmt.iter, s0);
    SummaryDescribesWalk(owners, stmt.body, s1, x);
    LoopApplies(owners, stmt.init, stmt.cond, stmt.iter, b, FlowOf(owners, stmt.body, s1), MarkOf(owners, stmt.body, s1, x), s1, state, x);
  }

  /** How the top of a loop depends on the state before its init part. */
  function LoopHeader(owners: seq<Span>, init: Option<Span>, iter: Option<Span>, b: Summary): Transfer {
    var entry := Gen(owners, init);
    Join(entry, After(Or(After(entry, Join(b.normal, b.continues)), entry), Gen(owners, iter)))
  }

  lemma HeaderApplies(owners: seq<Span>, init: Option<Span>, iter: Option<Span>, b: Summary, once: Flow, state: Mask)
    requires Apply(b.normal, GenInOpt(owners, init, state)) == once.normal
    requires Apply(b.continues, GenInOpt(owners, init, state)) == once.continues
    ensures Apply(LoopHeader(owners, init, iter, b), state) == Some(ForHeader(owners, once, iter, GenInOpt(owners, init, state)))
  {
    var ends, entry, s0 := Join(b.normal, b.continues), Gen(owners, init), GenInOpt(owners, init, state);
    var back := Or(After(entry, ends), entry);
    ApplyGen(owners, init, state);
    ApplyGen(owners, iter, OrElse(Apply(After(entry, ends), state), s0));
    ApplyAfter(entry, ends, state);
    ApplyJoin(b.normal, b.continues, s0);
    ApplyAfter(back, Gen(owners, iter), state);
    ApplyJoin(entry, After(back, Gen(owners, iter)), state);
  }

  lemma {:induction false} LoopApplies(owners: seq<Span>, init: Option<Span>, cond: Option<Span>, iter: Option<Span>, b: Summary, again: Flow, mark: Mask,
                    header: Mask, state: Mask, x: Span)
    requires Describes(b, again, mark, header)
    requires Apply(LoopHeader(owners, init, iter, b), state) == Some(header)
    ensures Describes(SummarizeLoop(owners, init, cond, iter, b, x),
                      Flow(Union(Some(header), again.breaks), None, None, again.returned),
                      MarkOpt(init, state, x) + MarkOpt(cond, header, x) + mark
                      + MarkOpt(iter, OrElse(Union(again.normal, again.continues), header), x),
                      state)
  {
    var ends, h := Join(b.normal, b.continues), LoopHeader(owners, init, iter, b);
    ApplyId(state);
    ApplyJoin(b.normal, b.continues, header);
    ApplyAfter(h, ends, state);
    ApplyAfter(h, b.breaks, state);
    ApplyAfter(h, b.returned, state);
    ApplyAfter(h, b.read, state);
    ApplyJoin(h, After(h, b.breaks), state);
    var r0, r1, r2 := Seen(init, x, Id), Seen(cond, x, h), After(h, b.read);
    ApplyJoin(r0, r1, state);
    ApplyJoin(Join(r0, r1), r2, state);
    ApplyJoin(Join(Join(r0, r1), r2), Seen(iter, x, Or(After(h, ends), h)), state);
  }

  lemma {:induction false} SummaryDescribesDoWhile(owners: seq<Span>, stmt: Stmt, state: Mask, x: Span)
    requires stmt.DoWhile?
    ensures Describes(Summarize(owners, stmt, x), FlowOf(owners, stmt, state), MarkOf(owners, stmt, state, x), state)
    decreases stmt.body, 2
  {
    ApplyId(state);
    var b := Summarize(owners, stmt.body, x);
    var ends := Join(b.normal, b.continues);
    var entry := Join(Id, ends);
    SummaryDescribesWalk(owners, stmt.body, state, x);
    ApplyJoin(b.normal, b.continues, state);
    ApplyJoin(Id, ends, state);
    var s1 := LoopEntry(FlowOf(owners, stmt.body, state), state);
    assert Apply(entry, state) == Some(s1);
    SummaryDescribesWalk(owners, stmt.body, s1, x);
    ApplyJoin(b.normal, b.continues, s1);
    ApplyAfter(entry, ends, state);
    ApplyAfter(entry, b.normal, state);
    ApplyAfter(entry, b.breaks, state);
    ApplyAfter(entry, b.returned, state);
    ApplyAfter(entry, b.read, state);
    ApplyJoin(After(entry, b.normal), After(entry, b.breaks), state);
    ApplyJoin(After(entry, b.read), Seen(stmt.cond, x, Or(After(entry, ends), entry)), state);
  }

  lemma {:induction false} SummaryDescribesBlock(owners: seq<Span>, stmts: seq<Stmt>, state: Mask, x: Span)
    ensures Describes(SummarizeBlock(owners, stmts, x), FlowOfBlock(owners, stmts, state), MarkOfBlock(owners, stmts, state, x), state)
    decreases stmts, 0
  {
    ApplyId(state);
    if stmts == [] {
    } else {
      SummaryDescribesWalk(owners, stmts[0], state, x);
      var f, g := Summarize(owners, stmts[0], x), SummarizeBlock(owners, stmts[1..], x);
      if f.normal.Live? {
        SummaryDescribesBlock(owners, stmts[1..], FlowOf(owners, stmts[0], state).normal.value, x);
      }
      SequenceApplies(f, f.normal, g, state);
    }
  }

  lemma SequenceApplies(f: Summary, via: Transfer, g: Summary, state: Mask)
    ensures var h := InSequence(f, via, g);
      && Apply(h.normal, state) == (if via.Dead? then None else Apply(g.normal, Apply(via, state).value))
      && Apply(h.breaks, state) == Union(Apply(f.breaks, state), if via.Dead? then None else Apply(g.breaks, Apply(via, state).value))
      && Apply(h.continues, state) == Union(Apply(f.continues, state), if via.Dead? then None else Apply(g.continues, Apply(via, state).value))
      && Apply(h.returned, state) == Union(Apply(f.returned, state), if via.Dead? then None else Apply(g.returned, Apply(via, state).value))
      && Apply(h.read, state) == Union(Apply(f.read, state), if via.Dead? then None else Apply(g.read, Apply(via, state).value))
  {
    ApplyAfter(via, g.normal, state);
    ApplyAfter(via, g.breaks, state);
    ApplyAfter(via, g.continues, state);
    ApplyAfter(via, g.returned, state);
    ApplyAfter(via, g.read, state);
    ApplyJoin(f.breaks, After(via, g.breaks), state);
    ApplyJoin(f.continues, After(via, g.continues), state);
    ApplyJoin(f.returned, After(via, g.returned), state);
    ApplyJoin(f.read, After(via, g.read), state);
  }

  lemma {:induction false} SummaryDescribesSections(owners: seq<Span>, sections: seq<Section>, entry: Mask, cur: Transfer, x: Span)
    ensures Describes(SummarizeSections(owners, sections, cur, x), FlowOfSections(owners, sections, entry, Apply(cur, entry)),
                      MarkOfSections(owners, sections, entry, Apply(cur, entry), x), entry)
    decreases sections, 0
  {
    ApplyId(entry);
    if sections == [] {
    } else {
      match sections[0]
      case Code(stmt) =>
        assert stmt < sections[0];
        var start := Or(cur, Id);
        var s0 := OrElse(Apply(cur, entry), entry);
        assert Apply(start, entry) == Some(s0);
        SummaryDescribesWalk(owners, stmt, s0, x);
        var f := Summarize(owners, stmt, x);
        ApplyAfter(start, f.normal, entry);
        SummaryDescribesSections(owners, sections[1..], entry, After(start, f.normal), x);
        var g := SummarizeSections(owners, sections[1..], After(start, f.normal), x);
        ApplyAfter(start, f.breaks, entry);
        ApplyAfter(start, f.continues, entry);
        ApplyAfter(start, f.returned, entry);
        ApplyAfter(start, f.read, entry);
        ApplyJoin(After(start, f.breaks), g.breaks, entry);
        ApplyJoin(After(start, f.continues), g.continues, entry);
        ApplyJoin(After(start, f.returned), g.returned, entry);
        ApplyJoin(After(start, f.read), g.read, entry);
      case CaseLabel(value) =>
        ApplyJoin(cur, Id, entry);
        SummaryDescribesSections(owners, sections[1..], entry, Join(cur, Id), x);
        ApplyJoin(Seen(value, x, Id), SummarizeSections(owners, sections[1..], Join(cur, Id), x).read, entry);
      case DefaultLabel =>
        ApplyJoin(cur, Id, entry);
        SummaryDescribesSections(owners, sections[1..], entry, Join(cur, Id), x);
    }
  }

  /* One learning pass is enough. */

  ghost predicate Within(a: Option<Mask>, state: Mask) {
    a.Some? ==> a.value <= state
  }

  /** `state` holds everything that the back edges of a `while` or `do` loop bring to its top. */
  ghost predicate Closed(owners: seq<Span>, body: Stmt, state: Mask) {
    var f := FlowOf(owners, body, state);
    Within(f.normal, state) && Within(f.continues, state)
  }

  /** The state at the top of a `while` or `do` loop, learned from one evaluation of the body, is the least fixed point
      of the loop above the incoming state. */
  lemma {:induction false} OneLearningPassIsLeastFixpoint(owners: seq<Span>, body: Stmt, state: Mask)
    ensures var header := LoopEntry(FlowOf(owners, body, state), state);
      && state <= header
      && Closed(owners, body, header)
      && forall other :: state <= other && Closed(owners, body, other) ==> header <= other
  {
    var x := Span(0, 0);
    var header := LoopEntry(FlowOf(owners, body, state), state);
    SummaryDescribesWalk(owners, body, state, x);
    SummaryDescribesWalk(owners, body, header, x);
    forall other | state <= other && Closed(owners, body, other)
      ensures header <= other
    {
      SummaryDescribesWalk(owners, body, other, x);
    }
  }

  /** What the body leaves for the iteration part of a `for` loop. */
  function BackEdge(owners: seq<Span>, body: Stmt, state: Mask): Option<Mask> {
    Union(FlowOf(owners, body, state).normal, FlowOf(owners, body, state).continues)
  }

  /** `state` holds everything that the back edge of a `for` loop, which runs through the iteration part, brings to its top. */
  ghost predicate ClosedFor(owners: seq<Span>, body: Stmt, iter: Option<Span>, state: Mask) {
    var ends := BackEdge(owners, body, state);
    ends.Some? ==> GenInOpt(owners, iter, ends.value) <= state
  }

  /** The state learned at the top of a `for` loop is a fixed point too. */
  lemma {:induction false} OneLearningPassClosesFor(owners: seq<Span>, body: Stmt, iter: Option<Span>, entry: Mask)
    ensures var header := ForHeader(owners, FlowOf(owners, body, entry), iter, entry);
      entry <= header && ClosedFor(owners, body, iter, header)
  {
    var x := Span(0, 0);
    SummaryDescribesWalk(owners, body, entry, x);
    SummaryDescribesWalk(owners, body, ForHeader(owners, FlowOf(owners, body, entry), iter, entry), x);
  }

  /** It is the least one above the incoming state exactly if the body can end or the iteration part defines nothing new: a
      back edge that is never taken is joined in all the same. */
  lemma {:induction false} OneLearningPassIsLeastForIff(owners: seq<Span>, body: Stmt, iter: Option<Span>, entry: Mask)
    ensures var header := ForHeader(owners, FlowOf(owners, body, entry), iter, entry);
      (forall other :: entry <= other && ClosedFor(owners, body, iter, other) ==> header <= other)
      <==> BackEdge(owners, body, entry).Some? || GenInOpt(owners, iter, entry) <= entry
  {
    var x := Span(0, 0);
    var header := ForHeader(owners, FlowOf(owners, body, entry), iter, entry);
    SummaryDescribesWalk(owners, body, entry, x);
    forall other | entry <= other && ClosedFor(owners, body, iter, other) && BackEdge(owners, body, entry).Some?
      ensures header <= other
    {
      SummaryDescribesWalk(owners, body, other, x);
    }
    assert BackEdge(owners, body, entry).None? ==> ClosedFor(owners, body, iter, entry);
  }
}
