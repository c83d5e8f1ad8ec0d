/** What lies between a sole reaching definition and its read.  Loops run text again and again, yet where the analysis names a
    single definition, everything an execution evaluates after it and up to the read comes later in the text.  This is what
    makes the textual test of `value_stability` (src/resolve/body_model/mod.rs) a test about executions. */
module Window {
  import opened Wrappers
  import opened Syntax
  import opened ReachingDefs
  import opened GenKill
  import opened Executions
  import opened Soundness
  import opened Exactness

  /* Statements laid out in text order: each part starts where the part before it ended, or later. */

  function PlaceRegion(region: Option<Span>, lo: nat): (hi: Option<nat>)
    ensures hi.Some? ==> lo <= hi.value
  {
    match region
    case None => Some(lo)
    case Some(r) => if lo <= r.start <= r.end then Some(r.end) else None
  }

  /** The end of a statement that starts at `lo` or later, if its parts are in order. */
  function Place(stmt: Stmt, lo: nat): (hi: Option<nat>)
    ensures hi.Some? ==> lo <= hi.value
    decreases stmt, 1
  {
    match stmt
    case Block(stmts) => PlaceBlock(stmts, lo)
    case Leaf(region) => PlaceRegion(Some(region), lo)
    case Return(region) => PlaceRegion(Some(region), lo)
    case Unmodelled(region) => PlaceRegion(Some(region), lo)
    case If(cond, body, els) =>
      var a := PlaceRegion(cond, lo);
      if a.None? then None else
      var b := Place(body, a.value);
      if b.None? then None else Place(els, b.value)
    case While(cond, body) =>
      var a := PlaceRegion(cond, lo);
      if a.None? then None else Place(body, a.value)
    case DoWhile(body, cond) =>
      var a := Place(body, lo);
      if a.None? then None else PlaceRegion(cond, a.value)
    case For(init, cond, iter, body) =>
      var a := PlaceRegion(init, lo);
      if a.None? then None else
      var b := PlaceRegion(cond, a.value);
      if b.None? then None else
      var c := PlaceRegion(iter, b.value);
      if c.None? then None else Place(body, c.value)
    case Switch(cond, sections) =>
      var a := PlaceRegion(cond, lo);
      if a.None? then None else PlaceSections(sections, a.value)
    case _ => Some(lo)
  }

  function PlaceBlock(stmts: seq<Stmt>, lo: nat): (hi: Option<nat>)
    ensures hi.Some? ==> lo <= hi.value
    decreases stmts, 0
  {
    if stmts == [] then Some(lo)
    else
      var a := Place(stmts[0], lo);
      if a.None? then None else PlaceBlock(stmts[1..], a.value)
  }

  function PlaceSection(section: Section, lo: nat): (hi: Option<nat>)
    ensures hi.Some? ==> lo <= hi.value
    decreases section, 0
  {
    match section
    case Code(stmt) => Place(stmt, lo)
    case CaseLabel(value) => PlaceRegion(value, lo)
    case DefaultLabel => Some(lo)
  }

  function PlaceSections(sections: seq<Section>, lo: nat): (hi: Option<nat>)
    ensures hi.Some? ==> lo <= hi.value
    decreases sections, 0
  {
    if sections == [] then Some(lo)
    else
      var a := PlaceSection(sections[0], lo);
      if a.None? then None else PlaceSections(sections[1..], a.value)
  }

  ghost predicate Inside(s: Span, lo: nat, hi: nat) {
    lo <= s.start && s.end <= hi
  }

  ghost predicate EventsInside(owners: seq<Span>, trace: seq<Event>, lo: nat, hi: nat) {
    forall k :: 0 <= k < |trace| ==>
      match trace[k]
      case Visit(r) => Inside(r, lo, hi)
      case Def(i, r) => i < |owners| && r.Contains(owners[i]) && Inside(r, lo, hi)
  }

  ghost predicate OutcomeInside(owners: seq<Span>, o: Outcome, lo: nat, hi: nat) {
    o.Ended? ==> EventsInside(owners, o.trace, lo, hi) && (o.exit.Reading? ==> Inside(o.exit.region, lo, hi))
  }

  /* Executions stay inside the text of their statement. */

  lemma RegionInside(owners: seq<Span>, region: Option<Span>, lo: nat)
    requires PlaceRegion(region, lo).Some?
    ensures EventsInside(owners, RegionTrace(owners, region), lo, PlaceRegion(region, lo).value)
  {
  }

  lemma InsideConcat(owners: seq<Span>, a: seq<Event>, b: seq<Event>, lo: nat, mid: nat, hi: nat)
    requires lo <= mid <= hi
    requires EventsInside(owners, a, lo, mid) || EventsInside(owners, a, lo, hi)
    requires EventsInside(owners, b, mid, hi) || EventsInside(owners, b, lo, hi)
    ensures EventsInside(owners, a + b, lo, hi)
  {
  }

  lemma InsideBefore(owners: seq<Span>, prefix: seq<Event>, o: Outcome, lo: nat, mid: nat, hi: nat)
    requires lo <= mid <= hi
    requires EventsInside(owners, prefix, lo, mid) || EventsInside(owners, prefix, lo, hi)
    requires OutcomeInside(owners, o, mid, hi) || OutcomeInside(owners, o, lo, hi)
    ensures OutcomeInside(owners, Before(prefix, o), lo, hi)
  {
    if o.Ended? {
      InsideConcat(owners, prefix, o.trace, lo, mid, hi);
    }
  }

  lemma {:induction false} ExecutionInside(owners: seq<Span>, stmt: Stmt, run: Run, lo: nat)
    requires Place(stmt, lo).Some?
    ensures OutcomeInside(owners, Exec(owners, stmt, run), lo, Place(stmt, lo).value)
    decreases run, 1, 0
  {
    var hi := Place(stmt, lo).value;
    match stmt
    case Block(stmts) => BlockInside(owners, stmts, run, lo);
    case Leaf(region) => RegionInside(owners, Some(region), lo);
    case Return(region) => RegionInside(owners, Some(region), lo);
    case Unmodelled(region) => RegionInside(owners, Some(region), lo);
    case If(cond, body, els) =>
      RegionInside(owners, cond, lo);
      var a := PlaceRegion(cond, lo).value;
      if run.Left? {
        ExecutionInside(owners, body, run.run, a);
        InsideBefore(owners, RegionTrace(owners, cond), Exec(owners, body, run.run), lo, a, hi);
      } else if run.Right? {
        ExecutionInside(owners, els, run.run, Place(body, a).value);
        InsideBefore(owners, RegionTrace(owners, cond), Exec(owners, els, run.run), lo, a, hi);
      }
    case While(cond, body) => LoopInside(owners, cond, None, body, run, lo);
    case DoWhile(body, cond) => DoWhileInside(owners, body, cond, run, lo);
    case For(init, cond, iter, body) =>
      RegionInside(owners, init, lo);
      var a := PlaceRegion(init, lo).value;
      if run.Begin? {
        LoopInside(owners, cond, iter, body, run.run, a);
        InsideBefore(owners, RegionTrace(owners, init), ExecLoop(owners, cond, iter, body, run.run), lo, a, hi);
      }
    case Switch(cond, sections) =>
      RegionInside(owners, cond, lo);
      var a := PlaceRegion(cond, lo).value;
      SwitchInside(owners, sections, run, a);
      InsideBefore(owners, RegionTrace(owners, cond), ExecSwitch(owners, sections, run), lo, a, hi);
    case _ =>
  }

  lemma {:induction false} LabelPlaced(sections: seq<Section>, at: nat, lo: nat)
    requires at < |sections| && PlaceSections(sections, lo).Some?
    ensures sections[at].CaseLabel? && sections[at].value.Some? ==> Inside(sections[at].value.value, lo, PlaceSections(sections, lo).value)
  {
    if at > 0 {
      LabelPlaced(sections[1..], at - 1, PlaceSection(sections[0], lo).value);
    }
  }

  lemma {:induction false} SwitchInside(owners: seq<Span>, sections: seq<Section>, run: Run, lo: nat)
    requires PlaceSections(sections, lo).Some?
    ensures OutcomeInside(owners, ExecSwitch(owners, sections, run), lo, PlaceSections(sections, lo).value)
    decreases run, 0, |sections| + 1
  {
    var hi := PlaceSections(sections, lo).value;
    assert sections[..|sections|] == sections;
    LabelTestsInside(owners, sections, |sections|, lo);
    if run.AtLabel? && run.at < |sections| {
      LabelTestsInside(owners, sections, run.at, lo);
      LabelPlaced(sections, run.at, lo);
    } else if run.Enter? && run.at < |sections| && !sections[run.at].Code? {
      LabelTestsInside(owners, sections, run.at + 1, lo);
      EnteredInside(owners, sections, run.at, run.run, lo);
      var o := ExecSections(owners, sections[run.at + 1..], run.run);
      var tested := if sections[run.at].CaseLabel? then sections[..run.at + 1] else sections;
      InsideBefore(owners, LabelTests(owners, tested), if o.Ended? && o.exit.Breaks? then Ended(o.trace, Normal) else o, lo, lo, hi);
    }
  }

  lemma {:induction false} BlockInside(owners: seq<Span>, stmts: seq<Stmt>, run: Run, lo: nat)
    requires PlaceBlock(stmts, lo).Some?
    ensures OutcomeInside(owners, ExecBlock(owners, stmts, run), lo, PlaceBlock(stmts, lo).value)
    decreases run, 0, 0
  {
    if stmts != [] && run.Chain? {
      ExecutionInside(owners, stmts[0], run.first, lo);
      BlockInside(owners, stmts[1..], run.rest, Place(stmts[0], lo).value);
    }
  }

  function PlaceLoop(cond: Option<Span>, iter: Option<Span>, body: Stmt, lo: nat): (hi: Option<nat>)
    ensures hi.Some? ==> lo <= hi.value
  {
    Place(For(None, cond, iter, body), lo)
  }

  lemma {:induction false} LoopInside(owners: seq<Span>, cond: Option<Span>, iter: Option<Span>, body: Stmt, run: Run, lo: nat)
    requires PlaceLoop(cond, iter, body, lo).Some?
    ensures OutcomeInside(owners, ExecLoop(owners, cond, iter, body, run), lo, PlaceLoop(cond, iter, body, lo).value)
    decreases run, 0, 0
  {
    RegionInside(owners, cond, lo);
    var a, hi := PlaceRegion(cond, lo).value, PlaceLoop(cond, iter, body, lo).value;
    RegionInside(owners, iter, a);
    if run.Iterate? {
      var o := Exec(owners, body, run.body);
      ExecutionInside(owners, body, run.body, PlaceRegion(iter, a).value);
      InsideBefore(owners, RegionTrace(owners, cond), o, lo, PlaceRegion(iter, a).value, hi);
      if o.Ended? && (o.exit.Normal? || o.exit.Continues?) {
        var pre := RegionTrace(owners, cond) + o.trace;
        if !run.next.AtIter? {
          InsideConcat(owners, pre, RegionTrace(owners, iter), lo, lo, hi);
          LoopInside(owners, cond, iter, body, run.next, lo);
          InsideBefore(owners, pre + RegionTrace(owners, iter), ExecLoop(owners, cond, iter, body, run.next), lo, lo, hi);
        } else {
          InsideBefore(owners, pre, StopAt(iter), lo, lo, hi);
        }
      }
    }
  }

  lemma {:induction false} DoWhileInside(owners: seq<Span>, body: Stmt, cond: Option<Span>, run: Run, lo: nat)
    requires Place(DoWhile(body, cond), lo).Some?
    ensures OutcomeInside(owners, ExecDoWhile(owners, body, cond, run), lo, Place(DoWhile(body, cond), lo).value)
    decreases run, 0, 0
  {
    if run.Iterate? {
      var o, c := Exec(owners, body, run.body), RegionTrace(owners, cond);
      var mid, hi := Place(body, lo).value, Place(DoWhile(body, cond), lo).value;
      ExecutionInside(owners, body, run.body, lo);
      if o.Ended? && (o.exit.Normal? || o.exit.Continues?) {
        RegionInside(owners, cond, mid);
        InsideConcat(owners, o.trace, c, lo, mid, hi);
        if run.next.Pause? {
          InsideBefore(owners, o.trace, StopAt(cond), lo, mid, hi);
        } else if !run.next.Done? {
          DoWhileInside(owners, body, cond, run.next, lo);
          InsideBefore(owners, o.trace + c, ExecDoWhile(owners, body, cond, run.next), lo, lo, hi);
        }
      }
    }
  }

  lemma {:induction false} LabelTestsInside(owners: seq<Span>, sections: seq<Section>, n: nat, lo: nat)
    requires n <= |sections| && PlaceSections(sections, lo).Some?
    ensures EventsInside(owners, LabelTests(owners, sections[..n]), lo, PlaceSections(sections, lo).value)
  {
    if n == 0 {
    } else {
      var a := PlaceSection(sections[0], lo).value;
      LabelTestsInside(owners, sections[1..], n - 1, a);
      assert sections[..n][1..] == sections[1..][..n - 1];
      if sections[0].CaseLabel? {
        RegionInside(owners, sections[0].value, lo);
      }
    }
  }

  lemma {:induction false} EnteredInside(owners: seq<Span>, sections: seq<Section>, at: nat, run: Run, lo: nat)
    requires at < |sections| && PlaceSections(sections, lo).Some?
    ensures OutcomeInside(owners, ExecSections(owners, sections[at + 1..], run), lo, PlaceSections(sections, lo).value)
    decreases run, 0, |sections|, at
  {
    var a := PlaceSection(sections[0], lo).value;
    if at == 0 {
      SectionsInside(owners, sections[1..], run, a);
    } else {
      EnteredInside(owners, sections[1..], at - 1, run, a);
      assert sections[at + 1..] == sections[1..][at..];
    }
  }

  lemma {:induction false} SectionsInside(owners: seq<Span>, sections: seq<Section>, run: Run, lo: nat)
    requires PlaceSections(sections, lo).Some?
    ensures OutcomeInside(owners, ExecSections(owners, sections, run), lo, PlaceSections(sections, lo).value)
    decreases run, 0, |sections|
  {
    if sections != [] {
      var a := PlaceSection(sections[0], lo).value;
      if !sections[0].Code? {
        SectionsInside(owners, sections[1..], run, a);
      } else if run.Chain? {
        ExecutionInside(owners, sections[0].stmt, run.first, lo);
        SectionsInside(owners, sections[1..], run.rest, a);
      }
    }
  }

  /* So do the definitions a statement generates. */

  ghost predicate GensInside(owners: seq<Span>, t: Transfer, lo: nat, hi: nat) {
    t.Live? ==> forall i :: i in t.gen ==> i < |owners| && Inside(owners[i], lo, hi)
  }

  ghost predicate SummaryInside(owners: seq<Span>, s: Summary, lo: nat, hi: nat) {
    GensInside(owners, s.normal, lo, hi) && GensInside(owners, s.breaks, lo, hi)
    && GensInside(owners, s.continues, lo, hi) && GensInside(owners, s.returned, lo, hi)
  }

  lemma {:induction false} SummarizedInside(owners: seq<Span>, stmt: Stmt, x: Span, lo: nat)
    requires Place(stmt, lo).Some?
    ensures SummaryInside(owners, Summarize(owners, stmt, x), lo, Place(stmt, lo).value)
    decreases stmt, 1
  {
    match stmt
    case Block(stmts) => SummarizedBlockInside(owners, stmts, x, lo);
    case If(cond, body, els) =>
      var a := PlaceRegion(cond, lo).value;
      SummarizedInside(owners, body, x, a);
      SummarizedInside(owners, els, x, Place(body, a).value);
      SummarizedIfInside(owners, stmt, x, lo, Place(stmt, lo).value);
    case While(cond, body) =>
      SummarizedInside(owners, body, x, PlaceRegion(cond, lo).value);
      SummarizedLoopInside(owners, None, cond, None, Summarize(owners, body, x), x, lo, Place(stmt, lo).value);
    case DoWhile(body, cond) =>
      SummarizedInside(owners, body, x, lo);
      SummarizedDoInside(owners, stmt, x, lo, Place(stmt, lo).value);
    case For(init, cond, iter, body) =>
      var a := PlaceRegion(init, lo).value;
      var c := PlaceRegion(iter, PlaceRegion(cond, a).value).value;
      SummarizedInside(owners, body, x, c);
      SummarizedLoopInside(owners, init, cond, iter, Summarize(owners, body, x), x, lo, Place(stmt, lo).value);
    case Switch(cond, sections) => SummarizedSectionsInside(owners, sections, Dead, x, PlaceRegion(cond, lo).value, lo);
    case _ =>
  }

  lemma {:induction false} SummarizedIfInside(owners: seq<Span>, stmt: Stmt, x: Span, lo: nat, hi: nat)
    requires stmt.If?
    requires SummaryInside(owners, Summarize(owners, stmt.body, x), lo, hi)
    requires SummaryInside(owners, Summarize(owners, stmt.els, x), lo, hi)
    ensures SummaryInside(owners, Summarize(owners, stmt, x), lo, hi)
  {
  }

  lemma {:induction false} SummarizedDoInside(owners: seq<Span>, stmt: Stmt, x: Span, lo: nat, hi: nat)
    requires stmt.DoWhile? && SummaryInside(owners, Summarize(owners, stmt.body, x), lo, hi)
    ensures SummaryInside(owners, Summarize(owners, stmt, x), lo, hi)
  {
  }

  lemma {:induction false} SummarizedLoopInside(owners: seq<Span>, init: Option<Span>, cond: Option<Span>, iter: Option<Span>, b: Summary, x: Span,
                             lo: nat, hi: nat)
    requires SummaryInside(owners, b, lo, hi)
    requires init.Some? ==> Inside(init.value, lo, hi)
    requires iter.Some? ==> Inside(iter.value, lo, hi)
    ensures SummaryInside(owners, SummarizeLoop(owners, init, cond, iter, b, x), lo, hi)
  {
    assert GensInside(owners, Gen(owners, init), lo, hi) && GensInside(owners, Gen(owners, iter), lo, hi);
    assert GensInside(owners, LoopHeader(owners, init, iter, b), lo, hi);
  }

  lemma {:induction false} SummarizedBlockInside(owners: seq<Span>, stmts: seq<Stmt>, x: Span, lo: nat)
    requires PlaceBlock(stmts, lo).Some?
    ensures SummaryInside(owners, SummarizeBlock(owners, stmts, x), lo, PlaceBlock(stmts, lo).value)
    decreases stmts, 0
  {
    if stmts == [] {
    } else {
      SummarizedInside(owners, stmts[0], x, lo);
      SummarizedBlockInside(owners, stmts[1..], x, Place(stmts[0], lo).value);
    }
  }

  lemma {:induction false} SummarizedSectionsInside(owners: seq<Span>, sections: seq<Section>, cur: Transfer, x: Span, lo: nat, base: nat)
    requires base <= lo && PlaceSections(sections, lo).Some?
    requires GensInside(owners, cur, base, lo)
    ensures SummaryInside(owners, SummarizeSections(owners, sections, cur, x), base, PlaceSections(sections, lo).value)
    decreases sections, 0
  {
    if sections == [] {
    } else {
      var a := PlaceSection(sections[0], lo).value;
      if sections[0].Code? {
        assert sections[0].stmt < sections[0];
        SummarizedInside(owners, sections[0].stmt, x, lo);
        SummarizedSectionsInside(owners, sections[1..], After(Or(cur, Id), Summarize(owners, sections[0].stmt, x).normal), x, a, base);
      } else {
        SummarizedSectionsInside(owners, sections[1..], Join(cur, Id), x, a, base);
      }
    }
  }

  /** `state` holds a definition from outside the text between `lo` and `hi`. */
  ghost predicate Anchored(owners: seq<Span>, state: Mask, lo: nat, hi: nat) {
    exists d :: d in state && d < |owners| && (owners[d].end <= lo || hi <= owners[d].start)
  }

  ghost predicate Known(owners: seq<Span>, state: Mask) {
    forall d :: d in state ==> d < |owners|
  }

  ghost predicate KnownFlow(owners: seq<Span>, f: Flow) {
    Known(owners, Bits(f.normal)) && Known(owners, Bits(f.breaks)) && Known(owners, Bits(f.continues)) && Known(owners, Bits(f.returned))
  }

  lemma FlowKnown(owners: seq<Span>, stmt: Stmt, state: Mask, lo: nat)
    requires Place(stmt, lo).Some? && Known(owners, state)
    ensures KnownFlow(owners, FlowOf(owners, stmt, state))
  {
    var x := Span(0, 0);
    var s, hi := Summarize(owners, stmt, x), Place(stmt, lo).value;
    SummaryDescribesWalk(owners, stmt, state, x);
    SummarizedInside(owners, stmt, x, lo);
    AppliedKnown(owners, s.normal, state, lo, hi);
    AppliedKnown(owners, s.breaks, state, lo, hi);
    AppliedKnown(owners, s.continues, state, lo, hi);
    AppliedKnown(owners, s.returned, state, lo, hi);
  }

  lemma AppliedKnown(owners: seq<Span>, t: Transfer, state: Mask, lo: nat, hi: nat)
    requires GensInside(owners, t, lo, hi) && Known(owners, state)
    ensures Known(owners, Bits(Apply(t, state)))
  {
  }

  /** After a statement, the state is anchored outside the text that follows up to `far`. */
  lemma FlowAnchored(owners: seq<Span>, stmt: Stmt, state: Mask, lo: nat, far: nat)
    requires Place(stmt, lo).Some? && Place(stmt, lo).value <= far
    requires Anchored(owners, state, lo, far)
    ensures FlowOf(owners, stmt, state).normal.Some? ==>
              Anchored(owners, FlowOf(owners, stmt, state).normal.value, Place(stmt, lo).value, far)
  {
    var x := Span(0, 0);
    SummaryDescribesWalk(owners, stmt, state, x);
    SummarizedInside(owners, stmt, x, lo);
    SummariesProper(owners, stmt, x);
    var t := Summarize(owners, stmt, x).normal;
    if t.Live? && !t.keeps {
      var d :| d in t.gen;
      assert d in FlowOf(owners, stmt, state).normal.value;
    }
  }

  /* The window. */

  function MaskAt(f: Flow, mark: Mask, exit: Exit): Mask {
    match exit
    case Normal => Bits(f.normal)
    case Breaks => Bits(f.breaks)
    case Continues => Bits(f.continues)
    case Returns => Bits(f.returned)
    case Reading(_) => mark
  }

  /** The exit of an outcome is one the masks speak about: `x` is what it stops to read, if it stops to read. */
  ghost predicate Relevant(o: Outcome, x: Span) {
    o.Ended? && (o.exit.Reading? ==> o.exit.region.Contains(x))
  }

  /** Position `k` of a trace is its last definition, and that is `i`. */
  ghost predicate LastAt(trace: seq<Event>, k: int, i: nat) {
    0 <= k < |trace| && trace[k].Def? && trace[k].index == i && forall j :: k < j < |trace| ==> trace[j].Visit?
  }

  /** Everything evaluated after the definition at position `k` starts at or after the end of the definition's region. */
  ghost predicate LaterInText(trace: seq<Event>, k: int) {
    && 0 <= k < |trace| && trace[k].Def?
    && forall j :: k < j < |trace| && trace[j].Visit? ==> trace[k].region.end <= trace[j].region.start
  }

  /** If definition `i` is the last that the trace makes, everything evaluated after it lies later in the text. */
  ghost predicate LaterSince(trace: seq<Event>, i: nat) {
    forall k: nat :: LastAt(trace, k, i) ==> LaterInText(trace, k)
  }

  ghost predicate SolidOwners(owners: seq<Span>) {
    |owners| <= MAX_DEFS && forall i :: 0 <= i < |owners| ==> owners[i].start < owners[i].end
  }

  /** An execution without definitions carries its whole incoming state to its exit. */
  lemma PassThrough(f: Flow, mark: Mask, x: Span, o: Outcome, state: Mask)
    requires Relevant(o, x) && NoDefs(o.trace)
    requires forall d :: d in state ==> Accounts(f, mark, x, o, Some(d))
    ensures state <= MaskAt(f, mark, o.exit)
  {
    forall d | d in state
      ensures d in MaskAt(f, mark, o.exit)
    {
      NoDefsKeeps(o.trace, Some(d));
    }
  }

  lemma {:induction false} SoleDefinitionWindow(owners: seq<Span>, stmt: Stmt, lo: nat, state: Mask, run: Run, i: nat, x: Span)
    requires SolidOwners(owners) && Known(owners, state) && Modelled(owners, stmt)
    requires Place(stmt, lo).Some? && Anchored(owners, state, lo, Place(stmt, lo).value)
    requires Relevant(Exec(owners, stmt, run), x)
    requires i < |owners|
    requires MaskAt(FlowOf(owners, stmt, state), MarkOf(owners, stmt, state, x), Exec(owners, stmt, run).exit) <= {i}
    ensures LaterSince(Exec(owners, stmt, run).trace, i)
    decreases run, 1, 0
  {
    match stmt
    case Block(stmts) => BlockWindow(owners, stmts, lo, state, run, i, x);
    case If(_, _, _) => IfWindow(owners, stmt, lo, state, run, i, x);
    case While(_, _) => WhileWindow(owners, stmt, lo, state, run, i, x);
    case DoWhile(_, _) => DoWindow(owners, stmt, lo, state, run, i, x);
    case For(_, _, _, _) => ForWindow(owners, stmt, lo, state, run, i, x);
    case Switch(_, _) => SwitchStmtWindow(owners, stmt, lo, state, run, i, x);
    case _ => SimpleWindow(owners, stmt, run, i);
  }

  lemma {:induction false} SwitchStmtWindow(owners: seq<Span>, stmt: Stmt, lo: nat, state: Mask, run: Run, i: nat, x: Span)
    requires stmt.Switch?
    requires SolidOwners(owners) && Known(owners, state) && Modelled(owners, stmt)
    requires Place(stmt, lo).Some? && Anchored(owners, state, lo, Place(stmt, lo).value)
    requires Relevant(Exec(owners, stmt, run), x)
    requires i < |owners|
    requires MaskAt(FlowOf(owners, stmt, state), MarkOf(owners, stmt, state, x), Exec(owners, stmt, run).exit) <= {i}
    ensures LaterSince(Exec(owners, stmt, run).trace, i)
    decreases run, 0, |stmt.sections| + 3
  {
    if !run.Pause? {
      SwitchHeadWindow(owners, stmt.cond, stmt.sections, PlaceRegion(stmt.cond, lo).value, state, run, i, x);
    }
  }

  lemma {:induction false} IfWindow(owners: seq<Span>, stmt: Stmt, lo: nat, state: Mask, run: Run, i: nat, x: Span)
    requires stmt.If?
    requires SolidOwners(owners) && Known(owners, state) && Modelled(owners, stmt)
    requires Place(stmt, lo).Some? && Anchored(owners, state, lo, Place(stmt, lo).value)
    requires Relevant(Exec(owners, stmt, run), x)
    requires i < |owners|
    requires MaskAt(FlowOf(owners, stmt, state), MarkOf(owners, stmt, state, x), Exec(owners, stmt, run).exit) <= {i}
    ensures LaterSince(Exec(owners, stmt, run).trace, i)
    decreases run, 0, 2
  {
    var a := PlaceRegion(stmt.cond, lo).value;
    if run.Left? {
      BranchWindow(owners, stmt.cond, stmt.body, a, state, run.run, i, x);
    } else if run.Right? {
      BranchWindow(owners, stmt.cond, stmt.els, Place(stmt.body, a).value, state, run.run, i, x);
    }
  }

  lemma {:induction false} WhileWindow(owners: seq<Span>, stmt: Stmt, lo: nat, state: Mask, run: Run, i: nat, x: Span)
    requires stmt.While?
    requires SolidOwners(owners) && Known(owners, state) && Modelled(owners, stmt)
    requires Place(stmt, lo).Some? && Anchored(owners, state, lo, Place(stmt, lo).value)
    requires Relevant(Exec(owners, stmt, run), x)
    requires i < |owners|
    requires MaskAt(FlowOf(owners, stmt, state), MarkOf(owners, stmt, state, x), Exec(owners, stmt, run).exit) <= {i}
    ensures LaterSince(Exec(owners, stmt, run).trace, i)
    decreases run, 0, 2
  {
    WhileHeader(owners, stmt.cond, stmt.body, lo, state);
    LoopWindow(owners, stmt.cond, None, stmt.body, lo, LoopEntry(FlowOf(owners, stmt.body, state), state), run, i, x);
  }

  lemma {:induction false} DoWindow(owners: seq<Span>, stmt: Stmt, lo: nat, state: Mask, run: Run, i: nat, x: Span)
    requires stmt.DoWhile?
    requires SolidOwners(owners) && Known(owners, state) && Modelled(owners, stmt)
    requires Place(stmt, lo).Some? && Anchored(owners, state, lo, Place(stmt, lo).value)
    requires Relevant(Exec(owners, stmt, run), x)
    requires i < |owners|
    requires MaskAt(FlowOf(owners, stmt, state), MarkOf(owners, stmt, state, x), Exec(owners, stmt, run).exit) <= {i}
    ensures LaterSince(Exec(owners, stmt, run).trace, i)
    decreases run, 0, 2
  {
    DoWhileEntry(owners, stmt.body, stmt.cond, lo, state);
    DoWhileWindow(owners, stmt.body, stmt.cond, lo, LoopEntry(FlowOf(owners, stmt.body, state), state), run, i, x);
  }

  lemma WhileHeader(owners: seq<Span>, cond: Option<Span>, body: Stmt, lo: nat, state: Mask)
    requires Known(owners, state) && PlaceLoop(cond, None, body, lo).Some?
    requires Anchored(owners, state, lo, PlaceLoop(cond, None, body, lo).value)
    ensures var header := LoopEntry(FlowOf(owners, body, state), state);
      && Known(owners, header) && Anchored(owners, header, lo, PlaceLoop(cond, None, body, lo).value)
      && Closed(owners, body, header)
  {
    FlowKnown(owners, body, state, PlaceRegion(cond, lo).value);
    OneLearningPassIsLeastFixpoint(owners, body, state);
  }

  lemma DoWhileEntry(owners: seq<Span>, body: Stmt, cond: Option<Span>, lo: nat, state: Mask)
    requires Known(owners, state) && Place(DoWhile(body, cond), lo).Some? && !LooseContinue(body)
    requires Anchored(owners, state, lo, Place(DoWhile(body, cond), lo).value)
    ensures var entry := LoopEntry(FlowOf(owners, body, state), state);
      && Known(owners, entry) && Anchored(owners, entry, lo, Place(DoWhile(body, cond), lo).value)
      && Closed(owners, body, entry) && FlowOf(owners, body, entry).continues == None
  {
    var entry := LoopEntry(FlowOf(owners, body, state), state);
    FlowKnown(owners, body, state, lo);
    OneLearningPassIsLeastFixpoint(owners, body, state);
    NoContinueChannel(owners, body, entry);
  }

  /** Statements without statements inside. */
  lemma {:induction false} SimpleWindow(owners: seq<Span>, stmt: Stmt, run: Run, i: nat)
    requires stmt.Leaf? || stmt.Return? || stmt.Break? || stmt.Continue? || stmt.Nop? || stmt.Unmodelled?
    requires Exec(owners, stmt, run).Ended?
    ensures LaterSince(Exec(owners, stmt, run).trace, i)
  {
  }

  lemma {:induction false} BranchWindow(owners: seq<Span>, cond: Option<Span>, branch: Stmt, lo: nat, state: Mask, run: Run,
                                        i: nat, x: Span)
    requires SolidOwners(owners) && Known(owners, state) && Clean(owners, cond) && Modelled(owners, branch)
    requires Place(branch, lo).Some? && Anchored(owners, state, lo, Place(branch, lo).value)
    requires Relevant(Exec(owners, branch, run), x)
    requires i < |owners|
    requires MaskAt(FlowOf(owners, branch, state), MarkOf(owners, branch, state, x), Exec(owners, branch, run).exit) <= {i}
    ensures LaterSince(RegionTrace(owners, cond) + Exec(owners, branch, run).trace, i)
    decreases run, 2, 0
  {
    CleanHasNoDefs(owners, cond);
    SoleDefinitionWindow(owners, branch, lo, state, run, i, x);
    LaterBehind(RegionTrace(owners, cond), Exec(owners, branch, run).trace, i);
  }

  lemma {:induction false} SwitchHeadWindow(owners: seq<Span>, cond: Option<Span>, sections: seq<Section>, lo: nat, entry: Mask, run: Run,
                                            i: nat, x: Span)
    requires SolidOwners(owners) && Known(owners, entry) && Clean(owners, cond) && ModelledSections(owners, sections)
    requires PlaceSections(sections, lo).Some? && Anchored(owners, entry, lo, PlaceSections(sections, lo).value)
    requires Relevant(ExecSwitch(owners, sections, run), x)
    requires i < |owners|
    requires MaskAt(SwitchExit(FlowOfSections(owners, sections, entry, None), sections, entry),
                    MarkOfSections(owners, sections, entry, None, x), ExecSwitch(owners, sections, run).exit) <= {i}
    ensures LaterSince(RegionTrace(owners, cond) + ExecSwitch(owners, sections, run).trace, i)
    decreases run, 0, |sections| + 2
  {
    CleanHasNoDefs(owners, cond);
    SwitchWindow(owners, sections, lo, entry, run, i, x);
    LaterBehind(RegionTrace(owners, cond), ExecSwitch(owners, sections, run).trace, i);
  }

  lemma CleanHasNoDefs(owners: seq<Span>, region: Option<Span>)
    requires Clean(owners, region)
    ensures NoDefs(RegionTrace(owners, region))
  {
    CleanIsSilent(owners, region);
  }

  lemma QuietIsLater(trace: seq<Event>, i: nat)
    requires NoDefs(trace)
    ensures LaterSince(trace, i)
  {
  }

  /** The last definition is made behind `prefix`. */
  lemma LaterBehind(prefix: seq<Event>, rest: seq<Event>, i: nat)
    requires LaterSince(rest, i) && (NoDefs(prefix) || !NoDefs(rest))
    ensures LaterSince(prefix + rest, i)
  {
    var whole, n := prefix + rest, |prefix|;
    assert forall j :: 0 <= j < |rest| ==> whole[n + j] == rest[j];
    forall k: nat | LastAt(whole, k, i)
      ensures LaterInText(whole, k)
    {
      assert n <= k;
      assert LastAt(rest, k - n, i);
      assert forall j :: k < j < |whole| ==> whole[j] == rest[j - n];
    }
  }

  /** The last definition is made in `first`, whose text lies before that of the rest. */
  lemma LaterBefore(owners: seq<Span>, first: seq<Event>, rest: seq<Event>, i: nat, lo: nat, mid: nat, hi: nat)
    requires LaterSince(first, i) && NoDefs(rest)
    requires EventsInside(owners, first, lo, mid) && EventsInside(owners, rest, mid, hi)
    ensures LaterSince(first + rest, i)
  {
    var whole, n := first + rest, |first|;
    assert forall j :: n <= j < |whole| ==> whole[j] == rest[j - n];
    assert forall j :: 0 <= j < n ==> whole[j] == first[j];
    forall k: nat | LastAt(whole, k, i)
      ensures LaterInText(whole, k)
    {
      assert LastAt(first, k, i);
    }
  }

  /** Definition `i` is not made in this text. */
  lemma NotMadeInside(owners: seq<Span>, first: seq<Event>, rest: seq<Event>, i: nat, lo: nat, hi: nat)
    requires i < |owners| && !Inside(owners[i], lo, hi) && NoDefs(rest) && EventsInside(owners, first, lo, hi)
    ensures LaterSince(first + rest, i)
  {
    var whole, n := first + rest, |first|;
    assert forall j :: n <= j < |whole| ==> whole[j] == rest[j - n];
    assert forall j :: 0 <= j < n ==> whole[j] == first[j];
  }

  lemma {:induction false} BlockWindow(owners: seq<Span>, stmts: seq<Stmt>, lo: nat, state: Mask, run: Run, i: nat, x: Span)
    requires SolidOwners(owners) && Known(owners, state)
    requires forall j :: 0 <= j < |stmts| ==> Modelled(owners, stmts[j])
    requires PlaceBlock(stmts, lo).Some? && Anchored(owners, state, lo, PlaceBlock(stmts, lo).value)
    requires Relevant(ExecBlock(owners, stmts, run), x)
    requires i < |owners|
    requires MaskAt(FlowOfBlock(owners, stmts, state), MarkOfBlock(owners, stmts, state, x), ExecBlock(owners, stmts, run).exit) <= {i}
    ensures LaterSince(ExecBlock(owners, stmts, run).trace, i)
    decreases run, 0, 0
  {
    if stmts != [] {
      var o, m := Exec(owners, stmts[0], run.first), FlowOf(owners, stmts[0], state).normal;
      if !o.exit.Normal? {
        SoleDefinitionWindow(owners, stmts[0], lo, state, run.first, i, x);
      } else {
        FirstAccounted(owners, stmts[0], run.first, state, x);
        FlowKnown(owners, stmts[0], state, lo);
        var rest := ExecBlock(owners, stmts[1..], run.rest);
        if NoDefs(rest.trace) {
          FirstOfBlockWindow(owners, stmts[0], stmts[1..], lo, state, run.first, run.rest, i, x);
        } else {
          FlowAnchored(owners, stmts[0], state, lo, PlaceBlock(stmts, lo).value);
          BlockWindow(owners, stmts[1..], Place(stmts[0], lo).value, m.value, run.rest, i, x);
          LaterBehind(o.trace, rest.trace, i);
        }
      }
    }
  }

  /** The last definition is made in the first statement, as those after it make none. */
  lemma {:induction false} FirstOfBlockWindow(owners: seq<Span>, stmt: Stmt, more: seq<Stmt>, lo: nat, state: Mask, first: Run, rest: Run,
                                              i: nat, x: Span)
    requires SolidOwners(owners) && Known(owners, state) && Modelled(owners, stmt)
    requires forall j :: 0 <= j < |more| ==> Modelled(owners, more[j])
    requires Place(stmt, lo).Some? && PlaceBlock(more, Place(stmt, lo).value).Some?
    requires Anchored(owners, state, lo, PlaceBlock(more, Place(stmt, lo).value).value)
    requires Exec(owners, stmt, first).Ended? && Exec(owners, stmt, first).exit.Normal?
    requires Relevant(ExecBlock(owners, more, rest), x) && NoDefs(ExecBlock(owners, more, rest).trace)
    requires FlowOf(owners, stmt, state).normal.Some? && Known(owners, FlowOf(owners, stmt, state).normal.value) && i < |owners|
    requires var m := FlowOf(owners, stmt, state).normal.value;
      MaskAt(FlowOfBlock(owners, more, m), MarkOfBlock(owners, more, m, x), ExecBlock(owners, more, rest).exit) <= {i}
    ensures LaterSince(Exec(owners, stmt, first).trace + ExecBlock(owners, more, rest).trace, i)
    decreases first, 2, 0
  {
    var mid := Place(stmt, lo).value;
    BlockKeeps(owners, more, FlowOf(owners, stmt, state).normal.value, rest, x);
    SoleDefinitionWindow(owners, stmt, lo, state, first, i, x);
    ExecutionInside(owners, stmt, first, lo);
    BlockInside(owners, more, rest, mid);
    LaterBefore(owners, Exec(owners, stmt, first).trace, ExecBlock(owners, more, rest).trace, i, lo, mid, PlaceBlock(more, mid).value);
  }

  lemma BlockKeeps(owners: seq<Span>, stmts: seq<Stmt>, state: Mask, run: Run, x: Span)
    requires SolidOwners(owners) && Known(owners, state)
    requires forall j :: 0 <= j < |stmts| ==> Modelled(owners, stmts[j])
    requires Relevant(ExecBlock(owners, stmts, run), x) && NoDefs(ExecBlock(owners, stmts, run).trace)
    ensures state <= MaskAt(FlowOfBlock(owners, stmts, state), MarkOfBlock(owners, stmts, state, x), ExecBlock(owners, stmts, run).exit)
  {
    var f, mark := FlowOfBlock(owners, stmts, state), MarkOfBlock(owners, stmts, state, x);
    forall d | d in state
      ensures Accounts(f, mark, x, ExecBlock(owners, stmts, run), Some(d))
    {
      BlockAccounted(owners, stmts, run, state, Some(d), x);
    }
    PassThrough(f, mark, x, ExecBlock(owners, stmts, run), state);
  }

  /** A statement that some execution leaves has a state at that exit. */
  lemma FirstAccounted(owners: seq<Span>, stmt: Stmt, run: Run, state: Mask, x: Span)
    requires |owners| <= MAX_DEFS && Modelled(owners, stmt)
    requires Exec(owners, stmt, run).Ended?
    ensures Exec(owners, stmt, run).exit.Normal? ==> FlowOf(owners, stmt, state).normal.Some?
    ensures Exec(owners, stmt, run).exit.Continues? ==> FlowOf(owners, stmt, state).continues.Some?
  {
    ExecutionAccounted(owners, stmt, run, state, None, x);
  }

  /** A definition inside a loop cannot be the only one that an execution brings through the loop's top: the state there
      still has one from outside. */
  lemma AnchorRefutes(owners: seq<Span>, header: Mask, i: nat, lo: nat, hi: nat)
    requires SolidOwners(owners) && Anchored(owners, header, lo, hi)
    requires i < |owners| && header <= {i}
    ensures !Inside(owners[i], lo, hi)
  {
  }

  lemma {:induction false} LoopWindow(owners: seq<Span>, cond: Option<Span>, iter: Option<Span>, body: Stmt, lo: nat, header: Mask,
                                      run: Run, i: nat, x: Span)
    requires SolidOwners(owners) && Known(owners, header) && Clean(owners, cond) && Modelled(owners, body)
    requires PlaceLoop(cond, iter, body, lo).Some? && Anchored(owners, header, lo, PlaceLoop(cond, iter, body, lo).value)
    requires ClosedFor(owners, body, iter, header)
    requires Relevant(ExecLoop(owners, cond, iter, body, run), x)
    requires i < |owners|
    requires var f := FlowOf(owners, body, header);
      MaskAt(LoopFlow(f, header), LoopMark(f, MarkOf(owners, body, header, x), cond, iter, header, x),
             ExecLoop(owners, cond, iter, body, run).exit) <= {i}
    ensures LaterSince(ExecLoop(owners, cond, iter, body, run).trace, i)
    decreases run, 0, 1
  {
    if run.Iterate? {
      var o := Exec(owners, body, run.body);
      if (o.exit.Normal? || o.exit.Continues?) && !run.next.AtIter? {
        var round := RegionTrace(owners, cond) + o.trace + RegionTrace(owners, iter);
        RoundInside(owners, cond, iter, body, run, lo);
        NextRoundWindow(owners, cond, iter, body, lo, header, run.next, round, i, x);
      } else {
        LastRoundWindow(owners, cond, iter, body, lo, header, run, i, x);
      }
    } else {
      CleanHasNoDefs(owners, cond);
      QuietIsLater(ExecLoop(owners, cond, iter, body, run).trace, i);
    }
  }

  /** The round with which the loop ends. */
  lemma {:induction false} LastRoundWindow(owners: seq<Span>, cond: Option<Span>, iter: Option<Span>, body: Stmt, lo: nat, header: Mask,
                                           run: Run, i: nat, x: Span)
    requires SolidOwners(owners) && Known(owners, header) && Clean(owners, cond) && Modelled(owners, body)
    requires PlaceLoop(cond, iter, body, lo).Some? && Anchored(owners, header, lo, PlaceLoop(cond, iter, body, lo).value)
    requires Relevant(ExecLoop(owners, cond, iter, body, run), x) && i < |owners| && run.Iterate?
    requires var b := Exec(owners, body, run.body); b.Ended? && (b.exit.Normal? || b.exit.Continues? ==> run.next.AtIter?)
    requires var f := FlowOf(owners, body, header);
      MaskAt(LoopFlow(f, header), LoopMark(f, MarkOf(owners, body, header, x), cond, iter, header, x),
             ExecLoop(owners, cond, iter, body, run).exit) <= {i}
    ensures LaterSince(ExecLoop(owners, cond, iter, body, run).trace, i)
    decreases run, 0, 0
  {
    var start := PlaceRegion(iter, PlaceRegion(cond, lo).value).value;
    LastRoundExit(owners, cond, iter, body, header, run, i, x);
    CleanHasNoDefs(owners, cond);
    SoleDefinitionWindow(owners, body, start, header, run.body, i, x);
    LaterBehind(RegionTrace(owners, cond), Exec(owners, body, run.body).trace, i);
  }

  /** A round that comes back to the condition, and the rest.  The last definition is not made in that round: the state at
      the loop's top still has one from outside. */
  lemma {:induction false} NextRoundWindow(owners: seq<Span>, cond: Option<Span>, iter: Option<Span>, body: Stmt, lo: nat, header: Mask,
                                           run: Run, round: seq<Event>, i: nat, x: Span)
    requires SolidOwners(owners) && Known(owners, header) && Clean(owners, cond) && Modelled(owners, body)
    requires PlaceLoop(cond, iter, body, lo).Some? && Anchored(owners, header, lo, PlaceLoop(cond, iter, body, lo).value)
    requires ClosedFor(owners, body, iter, header)
    requires Relevant(ExecLoop(owners, cond, iter, body, run), x) && i < |owners|
    requires EventsInside(owners, round, lo, PlaceLoop(cond, iter, body, lo).value)
    requires var f := FlowOf(owners, body, header);
      MaskAt(LoopFlow(f, header), LoopMark(f, MarkOf(owners, body, header, x), cond, iter, header, x),
             ExecLoop(owners, cond, iter, body, run).exit) <= {i}
    ensures LaterSince(round + ExecLoop(owners, cond, iter, body, run).trace, i)
    decreases run, 1, 0
  {
    var rest := ExecLoop(owners, cond, iter, body, run).trace;
    if NoDefs(rest) {
      LoopKeepsHeader(owners, cond, iter, body, header, run, x);
      AnchorRefutes(owners, header, i, lo, PlaceLoop(cond, iter, body, lo).value);
      NotMadeInside(owners, round, rest, i, lo, PlaceLoop(cond, iter, body, lo).value);
    } else {
      LoopWindow(owners, cond, iter, body, lo, header, run, i, x);
      LaterBehind(round, rest, i);
    }
  }

  /** The state at the end of a body is part of the loop's state, or of its mask, where the loop ends with it. */
  lemma LastRoundMask(f: Flow, mark: Mask, cond: Option<Span>, iter: Option<Span>, header: Mask, x: Span, exit: Exit, i: nat)
    requires exit.Normal? ==> f.normal.Some?
    requires exit.Continues? ==> f.continues.Some?
    requires match exit
      case Breaks => MaskAt(LoopFlow(f, header), {}, Normal) <= {i}
      case Returns => MaskAt(LoopFlow(f, header), {}, Returns) <= {i}
      case Reading(_) => LoopMark(f, mark, cond, iter, header, x) <= {i}
      case _ => iter.Some? && iter.value.Contains(x) && LoopMark(f, mark, cond, iter, header, x) <= {i}
    ensures MaskAt(f, mark, exit) <= {i}
  {
  }

  lemma {:induction false} LastRoundExit(owners: seq<Span>, cond: Option<Span>, iter: Option<Span>, body: Stmt, header: Mask, run: Run, i: nat, x: Span)
    requires |owners| <= MAX_DEFS && Modelled(owners, body) && run.Iterate?
    requires Relevant(ExecLoop(owners, cond, iter, body, run), x)
    requires var b := Exec(owners, body, run.body); b.Ended? && (b.exit.Normal? || b.exit.Continues? ==> run.next.AtIter?)
    requires var f := FlowOf(owners, body, header);
      MaskAt(LoopFlow(f, header), LoopMark(f, MarkOf(owners, body, header, x), cond, iter, header, x),
             ExecLoop(owners, cond, iter, body, run).exit) <= {i}
    ensures var b := Exec(owners, body, run.body);
      && Relevant(b, x)
      && ExecLoop(owners, cond, iter, body, run).trace == RegionTrace(owners, cond) + b.trace
      && MaskAt(FlowOf(owners, body, header), MarkOf(owners, body, header, x), b.exit) <= {i}
  {
    var b := Exec(owners, body, run.body);
    var t := RegionTrace(owners, cond) + b.trace;
    assert t + [] == t;
    FirstAccounted(owners, body, run.body, header, x);
    LastRoundMask(FlowOf(owners, body, header), MarkOf(owners, body, header, x), cond, iter, header, x, b.exit, i);
  }

  lemma {:induction false} RoundInside(owners: seq<Span>, cond: Option<Span>, iter: Option<Span>, body: Stmt, run: Run, lo: nat)
    requires run.Iterate? && Exec(owners, body, run.body).Ended?
    requires PlaceLoop(cond, iter, body, lo).Some?
    ensures EventsInside(owners, RegionTrace(owners, cond) + Exec(owners, body, run.body).trace + RegionTrace(owners, iter),
                         lo, PlaceLoop(cond, iter, body, lo).value)
  {
    RegionInside(owners, cond, lo);
    var a := PlaceRegion(cond, lo).value;
    RegionInside(owners, iter, a);
    ExecutionInside(owners, body, run.body, PlaceRegion(iter, a).value);
  }

  lemma {:induction false} LoopKeepsHeader(owners: seq<Span>, cond: Option<Span>, iter: Option<Span>, body: Stmt, header: Mask, run: Run, x: Span)
    requires SolidOwners(owners) && Known(owners, header) && Clean(owners, cond) && Modelled(owners, body)
    requires ClosedFor(owners, body, iter, header)
    requires Relevant(ExecLoop(owners, cond, iter, body, run), x) && NoDefs(ExecLoop(owners, cond, iter, body, run).trace)
    ensures var f := FlowOf(owners, body, header);
      header <= MaskAt(LoopFlow(f, header), LoopMark(f, MarkOf(owners, body, header, x), cond, iter, header, x),
                       ExecLoop(owners, cond, iter, body, run).exit)
  {
    var f := FlowOf(owners, body, header);
    var mark := LoopMark(f, MarkOf(owners, body, header, x), cond, iter, header, x);
    var o := ExecLoop(owners, cond, iter, body, run);
    forall d | d in header
      ensures Accounts(LoopFlow(f, header), mark, x, o, Some(d))
    {
      LoopAccounted(owners, cond, iter, body, run, header, Some(d), x);
    }
    PassThrough(LoopFlow(f, header), mark, x, o, header);
  }

  /** The state at the end of a body is part of the do-while's state, or of its mask, where it ends with it. */
  lemma DoMaskHasBody(f: Flow, mark: Mask, cond: Option<Span>, entry: Mask, x: Span, exit: Exit, i: nat)
    requires f.continues.None? && !exit.Continues? && (exit.Normal? ==> f.normal.Some?)
    requires match exit
      case Normal =>
        MaskAt(DoFlow(f), {}, Normal) <= {i} || (cond.Some? && cond.value.Contains(x) && DoMark(f, mark, cond, entry, x) <= {i})
      case Breaks => MaskAt(DoFlow(f), {}, Normal) <= {i}
      case Returns => MaskAt(DoFlow(f), {}, Returns) <= {i}
      case _ => DoMark(f, mark, cond, entry, x) <= {i}
    ensures MaskAt(f, mark, exit) <= {i}
  {
  }

  /** The round with which a do-while ends, and the test after it if there is one. */
  lemma {:induction false} DoLastRound(owners: seq<Span>, body: Stmt, cond: Option<Span>, entry: Mask, run: Run, i: nat, x: Span)
    requires |owners| <= MAX_DEFS && Modelled(owners, body) && FlowOf(owners, body, entry).continues == None
    requires run.Iterate? && Relevant(ExecDoWhile(owners, body, cond, run), x)
    requires Exec(owners, body, run.body).exit.Normal? ==> run.next.Pause? || run.next.Done?
    requires var f := FlowOf(owners, body, entry);
      MaskAt(DoFlow(f), DoMark(f, MarkOf(owners, body, entry, x), cond, entry, x), ExecDoWhile(owners, body, cond, run).exit) <= {i}
    ensures var o := Exec(owners, body, run.body);
      && Relevant(o, x) && MaskAt(FlowOf(owners, body, entry), MarkOf(owners, body, entry, x), o.exit) <= {i}
      && ExecDoWhile(owners, body, cond, run).trace
           == if o.exit.Normal? && run.next.Done? then o.trace + RegionTrace(owners, cond) else o.trace
  {
    var o := Exec(owners, body, run.body);
    FirstAccounted(owners, body, run.body, entry, x);
    assert o.trace + [] == o.trace;
    DoMaskHasBody(FlowOf(owners, body, entry), MarkOf(owners, body, entry, x), cond, entry, x, o.exit, i);
  }

  lemma {:induction false} DoWhileWindow(owners: seq<Span>, body: Stmt, cond: Option<Span>, lo: nat, entry: Mask,
                                         run: Run, i: nat, x: Span)
    requires SolidOwners(owners) && Known(owners, entry) && Clean(owners, cond) && Modelled(owners, body)
    requires Place(DoWhile(body, cond), lo).Some? && Anchored(owners, entry, lo, Place(DoWhile(body, cond), lo).value)
    requires Closed(owners, body, entry) && FlowOf(owners, body, entry).continues == None
    requires Relevant(ExecDoWhile(owners, body, cond, run), x)
    requires i < |owners|
    requires var f := FlowOf(owners, body, entry);
      MaskAt(DoFlow(f), DoMark(f, MarkOf(owners, body, entry, x), cond, entry, x), ExecDoWhile(owners, body, cond, run).exit) <= {i}
    ensures LaterSince(ExecDoWhile(owners, body, cond, run).trace, i)
    decreases run, 0, 0
  {
    var o := Exec(owners, body, run.body);
    FirstAccounted(owners, body, run.body, entry, x);
    if o.exit.Normal? && !run.next.Pause? && !run.next.Done? {
      DoRoundInside(owners, body, cond, run.body, lo);
      NextDoRoundWindow(owners, body, cond, lo, entry, run.next, o.trace + RegionTrace(owners, cond), i, x);
    } else {
      DoLastRound(owners, body, cond, entry, run, i, x);
      SoleDefinitionWindow(owners, body, lo, entry, run.body, i, x);
      if o.exit.Normal? && run.next.Done? {
        var mid := Place(body, lo).value;
        CleanHasNoDefs(owners, cond);
        ExecutionInside(owners, body, run.body, lo);
        RegionInside(owners, cond, mid);
        LaterBefore(owners, o.trace, RegionTrace(owners, cond), i, lo, mid, PlaceRegion(cond, mid).value);
      }
    }
  }

  lemma {:induction false} NextDoRoundWindow(owners: seq<Span>, body: Stmt, cond: Option<Span>, lo: nat, entry: Mask,
                                             run: Run, round: seq<Event>, i: nat, x: Span)
    requires SolidOwners(owners) && Known(owners, entry) && Clean(owners, cond) && Modelled(owners, body)
    requires Place(DoWhile(body, cond), lo).Some? && Anchored(owners, entry, lo, Place(DoWhile(body, cond), lo).value)
    requires Closed(owners, body, entry) && FlowOf(owners, body, entry).continues == None
    requires Relevant(ExecDoWhile(owners, body, cond, run), x) && i < |owners|
    requires EventsInside(owners, round, lo, Place(DoWhile(body, cond), lo).value)
    requires var f := FlowOf(owners, body, entry);
      MaskAt(DoFlow(f), DoMark(f, MarkOf(owners, body, entry, x), cond, entry, x), ExecDoWhile(owners, body, cond, run).exit) <= {i}
    ensures LaterSince(round + ExecDoWhile(owners, body, cond, run).trace, i)
    decreases run, 1, 0
  {
    var rest, hi := ExecDoWhile(owners, body, cond, run).trace, Place(DoWhile(body, cond), lo).value;
    if NoDefs(rest) {
      DoWhileKeepsEntry(owners, body, cond, entry, run, x);
      AnchorRefutes(owners, entry, i, lo, hi);
      NotMadeInside(owners, round, rest, i, lo, hi);
    } else {
      DoWhileWindow(owners, body, cond, lo, entry, run, i, x);
      LaterBehind(round, rest, i);
    }
  }

  lemma DoRoundInside(owners: seq<Span>, body: Stmt, cond: Option<Span>, run: Run, lo: nat)
    requires Place(DoWhile(body, cond), lo).Some? && Exec(owners, body, run).Ended?
    ensures EventsInside(owners, Exec(owners, body, run).trace + RegionTrace(owners, cond), lo, Place(DoWhile(body, cond), lo).value)
  {
    var mid, hi := Place(body, lo).value, Place(DoWhile(body, cond), lo).value;
    ExecutionInside(owners, body, run, lo);
    RegionInside(owners, cond, mid);
    InsideConcat(owners, Exec(owners, body, run).trace, RegionTrace(owners, cond), lo, mid, hi);
  }

  lemma DoWhileKeepsEntry(owners: seq<Span>, body: Stmt, cond: Option<Span>, entry: Mask, run: Run, x: Span)
    requires SolidOwners(owners) && Known(owners, entry) && Clean(owners, cond) && Modelled(owners, body)
    requires Closed(owners, body, entry) && FlowOf(owners, body, entry).continues == None
    requires Relevant(ExecDoWhile(owners, body, cond, run), x) && NoDefs(ExecDoWhile(owners, body, cond, run).trace)
    ensures var f := FlowOf(owners, body, entry);
      entry <= MaskAt(DoFlow(f), DoMark(f, MarkOf(owners, body, entry, x), cond, entry, x), ExecDoWhile(owners, body, cond, run).exit)
  {
    var f := FlowOf(owners, body, entry);
    var flow, mark := DoFlow(f), DoMark(f, MarkOf(owners, body, entry, x), cond, entry, x);
    var o := ExecDoWhile(owners, body, cond, run);
    forall d | d in entry
      ensures Accounts(flow, mark, x, o, Some(d))
    {
      DoWhileAccounted(owners, body, cond, run, entry, Some(d), x);
    }
    PassThrough(flow, mark, x, o, entry);
  }

  lemma {:induction false} ForWindow(owners: seq<Span>, stmt: Stmt, lo: nat, state: Mask, run: Run, i: nat, x: Span)
    requires stmt.For?
    requires SolidOwners(owners) && Known(owners, state) && Modelled(owners, stmt)
    requires Place(stmt, lo).Some? && Anchored(owners, state, lo, Place(stmt, lo).value)
    requires Relevant(Exec(owners, stmt, run), x)
    requires i < |owners|
    requires MaskAt(FlowOf(owners, stmt, state), MarkOf(owners, stmt, state, x), Exec(owners, stmt, run).exit) <= {i}
    ensures LaterSince(Exec(owners, stmt, run).trace, i)
    decreases run, 0, 1
  {
    if run.Begin? {
      if NoDefs(ExecLoop(owners, stmt.cond, stmt.iter, stmt.body, run.run).trace) {
        InitWindow(owners, stmt, lo, run, i);
      } else {
        AfterInitWindow(owners, stmt, lo, state, run, i, x);
      }
    }
  }

  lemma {:induction false} AfterInitWindow(owners: seq<Span>, stmt: Stmt, lo: nat, state: Mask, run: Run, i: nat, x: Span)
    requires stmt.For?
    requires SolidOwners(owners) && Known(owners, state) && Modelled(owners, stmt)
    requires Place(stmt, lo).Some? && Anchored(owners, state, lo, Place(stmt, lo).value)
    requires Relevant(Exec(owners, stmt, run), x)
    requires i < |owners| && run.Begin? && !NoDefs(ExecLoop(owners, stmt.cond, stmt.iter, stmt.body, run.run).trace)
    requires MaskAt(FlowOf(owners, stmt, state), MarkOf(owners, stmt, state, x), Exec(owners, stmt, run).exit) <= {i}
    ensures LaterSince(Exec(owners, stmt, run).trace, i)
    decreases run, 0, 0
  {
    var pre, mid := RegionTrace(owners, stmt.init), PlaceRegion(stmt.init, lo).value;
    InitFirst(stmt, lo);
    var entry := GenInOpt(owners, stmt.init, state);
    var header := ForHeader(owners, FlowOf(owners, stmt.body, entry), stmt.iter, entry);
    ForHeaderAnchored(owners, stmt, lo, state);
    OneLearningPassClosesFor(owners, stmt.body, stmt.iter, entry);
    ForMaskHasLoop(owners, stmt, state, ExecLoop(owners, stmt.cond, stmt.iter, stmt.body, run.run).exit, x);
    LoopWindow(owners, stmt.cond, stmt.iter, stmt.body, mid, header, run.run, i, x);
    LaterBehind(pre, ExecLoop(owners, stmt.cond, stmt.iter, stmt.body, run.run).trace, i);
  }

  lemma ForMaskHasLoop(owners: seq<Span>, stmt: Stmt, state: Mask, exit: Exit, x: Span)
    requires stmt.For?
    ensures var header := ForHeader(owners, FlowOf(owners, stmt.body, GenInOpt(owners, stmt.init, state)), stmt.iter,
                                    GenInOpt(owners, stmt.init, state));
      var f := FlowOf(owners, stmt.body, header);
      MaskAt(LoopFlow(f, header), LoopMark(f, MarkOf(owners, stmt.body, header, x), stmt.cond, stmt.iter, header, x), exit)
        <= MaskAt(FlowOf(owners, stmt, state), MarkOf(owners, stmt, state, x), exit)
  {
  }

  lemma InitFirst(stmt: Stmt, lo: nat)
    requires stmt.For? && PlaceRegion(stmt.init, lo).Some?
    ensures Place(stmt, lo) == PlaceLoop(stmt.cond, stmt.iter, stmt.body, PlaceRegion(stmt.init, lo).value)
  {
  }

  lemma InitWindow(owners: seq<Span>, stmt: Stmt, lo: nat, run: Run, i: nat)
    requires stmt.For? && Place(stmt, lo).Some? && run.Begin? && i < |owners|
    requires Exec(owners, stmt, run).Ended? && NoDefs(ExecLoop(owners, stmt.cond, stmt.iter, stmt.body, run.run).trace)
    ensures LaterSince(Exec(owners, stmt, run).trace, i)
  {
    var pre, mid := RegionTrace(owners, stmt.init), PlaceRegion(stmt.init, lo).value;
    InitFirst(stmt, lo);
    RegionLater(owners, stmt.init, i);
    RegionInside(owners, stmt.init, lo);
    LoopInside(owners, stmt.cond, stmt.iter, stmt.body, run.run, mid);
    LaterBefore(owners, pre, ExecLoop(owners, stmt.cond, stmt.iter, stmt.body, run.run).trace, i, lo, mid, Place(stmt, lo).value);
  }

  lemma RegionLater(owners: seq<Span>, region: Option<Span>, i: nat)
    ensures LaterSince(RegionTrace(owners, region), i)
  {
  }

  lemma ForHeaderAnchored(owners: seq<Span>, stmt: Stmt, lo: nat, state: Mask)
    requires stmt.For? && Known(owners, state)
    requires Place(stmt, lo).Some? && Anchored(owners, state, lo, Place(stmt, lo).value)
    ensures var entry := GenInOpt(owners, stmt.init, state);
      var header := ForHeader(owners, FlowOf(owners, stmt.body, entry), stmt.iter, entry);
      Known(owners, header) && Anchored(owners, header, PlaceRegion(stmt.init, lo).value, Place(stmt, lo).value)
  {
    var mid, hi := PlaceRegion(stmt.init, lo).value, Place(stmt, lo).value;
    var entry := GenInOpt(owners, stmt.init, state);
    InitAnchors(owners, stmt.init, state, lo, hi);
    FlowKnown(owners, stmt.body, entry, PlaceRegion(stmt.iter, PlaceRegion(stmt.cond, mid).value).value);
  }

  lemma InitAnchors(owners: seq<Span>, init: Option<Span>, state: Mask, lo: nat, hi: nat)
    requires PlaceRegion(init, lo).Some? && PlaceRegion(init, lo).value <= hi
    requires Known(owners, state) && Anchored(owners, state, lo, hi)
    ensures Known(owners, GenInOpt(owners, init, state))
    ensures Anchored(owners, GenInOpt(owners, init, state), PlaceRegion(init, lo).value, hi)
  {
    if init.Some? && LastIn(owners, init.value, |owners|).Some? {
      var d := LastIn(owners, init.value, |owners|).value;
      assert d in GenInOpt(owners, init, state);
    } else {
      assert GenInOpt(owners, init, state) == state;
    }
  }

  lemma {:induction false} SwitchWindow(owners: seq<Span>, sections: seq<Section>, lo: nat, entry: Mask, run: Run, i: nat, x: Span)
    requires SolidOwners(owners) && Known(owners, entry) && ModelledSections(owners, sections)
    requires PlaceSections(sections, lo).Some? && Anchored(owners, entry, lo, PlaceSections(sections, lo).value)
    requires Relevant(ExecSwitch(owners, sections, run), x)
    requires i < |owners|
    requires MaskAt(SwitchExit(FlowOfSections(owners, sections, entry, None), sections, entry),
                    MarkOfSections(owners, sections, entry, None, x), ExecSwitch(owners, sections, run).exit) <= {i}
    ensures LaterSince(ExecSwitch(owners, sections, run).trace, i)
    decreases run, 0, |sections| + 1
  {
    if run.Enter? {
      var tested := if sections[run.at].CaseLabel? then sections[..run.at + 1] else sections;
      var tests := LabelTests(owners, tested);
      LabelTestsSilent(owners, tested);
      var o := ExecSections(owners, sections[run.at + 1..], run.run);
      EnteredWindow(owners, sections, run.at, lo, entry, None, run.run, i, x);
      LaterBehind(tests, o.trace, i);
    } else {
      LabelTestsSilent(owners, if run.AtLabel? then sections[..run.at] else sections);
    }
  }

  lemma {:induction false} EnteredWindow(owners: seq<Span>, sections: seq<Section>, at: nat, lo: nat, entry: Mask, cur: Option<Mask>,
                                         run: Run, i: nat, x: Span)
    requires SolidOwners(owners) && Known(owners, entry) && Known(owners, Bits(cur)) && ModelledSections(owners, sections)
    requires PlaceSections(sections, lo).Some? && Anchored(owners, entry, lo, PlaceSections(sections, lo).value)
    requires at < |sections| && !sections[at].Code?
    requires Relevant(ExecSections(owners, sections[at + 1..], run), x)
    requires i < |owners|
    requires MaskAt(FlowOfSections(owners, sections, entry, cur), MarkOfSections(owners, sections, entry, cur, x),
                    ExecSections(owners, sections[at + 1..], run).exit) <= {i}
    ensures LaterSince(ExecSections(owners, sections[at + 1..], run).trace, i)
    decreases run, 0, |sections|, at
  {
    var mid := PlaceSection(sections[0], lo).value;
    if at == 0 {
      SectionsWindow(owners, sections[1..], mid, entry, Union(cur, Some(entry)).value, run, i, x);
    } else {
      assert sections[at + 1..] == sections[1..][at..];
      if sections[0].Code? {
        FlowKnown(owners, sections[0].stmt, OrElse(cur, entry), lo);
      }
      var next := if sections[0].Code? then FlowOf(owners, sections[0].stmt, OrElse(cur, entry)).normal else Union(cur, Some(entry));
      EnteredWindow(owners, sections[1..], at - 1, mid, entry, next, run, i, x);
    }
  }

  lemma {:induction false} SectionsWindow(owners: seq<Span>, sections: seq<Section>, lo: nat, entry: Mask, cur: Mask, run: Run,
                                          i: nat, x: Span)
    requires SolidOwners(owners) && Known(owners, entry) && Known(owners, cur) && ModelledSections(owners, sections)
    requires PlaceSections(sections, lo).Some? && Anchored(owners, cur, lo, PlaceSections(sections, lo).value)
    requires Relevant(ExecSections(owners, sections, run), x)
    requires i < |owners|
    requires MaskAt(FlowOfSections(owners, sections, entry, Some(cur)), MarkOfSections(owners, sections, entry, Some(cur), x),
                    ExecSections(owners, sections, run).exit) <= {i}
    ensures LaterSince(ExecSections(owners, sections, run).trace, i)
    decreases run, 0, |sections|
  {
    if sections == [] {
    } else if !sections[0].Code? {
      SectionsWindow(owners, sections[1..], PlaceSection(sections[0], lo).value, entry, cur + entry, run, i, x);
    } else {
      CodeSectionWindow(owners, sections, lo, entry, cur, run, i, x);
    }
  }

  lemma {:induction false} CodeSectionWindow(owners: seq<Span>, sections: seq<Section>, lo: nat, entry: Mask, cur: Mask, run: Run,
                                             i: nat, x: Span)
    requires SolidOwners(owners) && Known(owners, entry) && Known(owners, cur) && ModelledSections(owners, sections)
    requires sections != [] && sections[0].Code? && run.Chain?
    requires PlaceSections(sections, lo).Some? && Anchored(owners, cur, lo, PlaceSections(sections, lo).value)
    requires Relevant(ExecSections(owners, sections, run), x)
    requires i < |owners|
    requires MaskAt(FlowOfSections(owners, sections, entry, Some(cur)), MarkOfSections(owners, sections, entry, Some(cur), x),
                    ExecSections(owners, sections, run).exit) <= {i}
    ensures LaterSince(ExecSections(owners, sections, run).trace, i)
    decreases run, 0, 0
  {
    var mid, stmt := PlaceSection(sections[0], lo).value, sections[0].stmt;
    var o := Exec(owners, stmt, run.first);
    if !o.exit.Normal? {
      SoleDefinitionWindow(owners, stmt, lo, cur, run.first, i, x);
    } else {
      FirstAccounted(owners, stmt, run.first, cur, x);
      var m := FlowOf(owners, stmt, cur).normal.value;
      FlowKnown(owners, stmt, cur, lo);
      var rest, hi := ExecSections(owners, sections[1..], run.rest), PlaceSections(sections, lo).value;
      if NoDefs(rest.trace) {
        FirstCodeWindow(owners, stmt, sections[1..], lo, mid, hi, entry, cur, m, run.first, run.rest, i, x);
      } else {
        FlowAnchored(owners, stmt, cur, lo, hi);
        SectionsWindow(owners, sections[1..], mid, entry, m, run.rest, i, x);
        LaterBehind(o.trace, rest.trace, i);
      }
    }
  }

  /** The definition is in the first section's code, and the sections after it define nothing more. */
  lemma {:induction false} FirstCodeWindow(owners: seq<Span>, stmt: Stmt, more: seq<Section>, lo: nat, mid: nat, hi: nat, entry: Mask,
                                           cur: Mask, m: Mask, first: Run, rest: Run, i: nat, x: Span)
    requires SolidOwners(owners) && Known(owners, cur) && Known(owners, m) && Modelled(owners, stmt) && ModelledSections(owners, more)
    requires Place(stmt, lo) == Some(mid) && PlaceSections(more, mid) == Some(hi) && mid <= hi && Anchored(owners, cur, lo, hi)
    requires Exec(owners, stmt, first).Ended? && Exec(owners, stmt, first).exit.Normal?
    requires FlowOf(owners, stmt, cur).normal == Some(m) && i < |owners|
    requires Relevant(ExecSections(owners, more, rest), x) && NoDefs(ExecSections(owners, more, rest).trace)
    requires MaskAt(FlowOfSections(owners, more, entry, Some(m)), MarkOfSections(owners, more, entry, Some(m), x),
                    ExecSections(owners, more, rest).exit) <= {i}
    ensures LaterSince(Exec(owners, stmt, first).trace + ExecSections(owners, more, rest).trace, i)
    decreases first, 2, 0
  {
    var t, later := Exec(owners, stmt, first).trace, ExecSections(owners, more, rest).trace;
    SectionsKeep(owners, more, entry, m, rest, x);
    SoleDefinitionWindow(owners, stmt, lo, cur, first, i, x);
    ExecutionInside(owners, stmt, first, lo);
    SectionsInside(owners, more, rest, mid);
    LaterBefore(owners, t, later, i, lo, mid, hi);
  }

  lemma SectionsKeep(owners: seq<Span>, sections: seq<Section>, entry: Mask, cur: Mask, run: Run, x: Span)
    requires SolidOwners(owners) && Known(owners, cur) && ModelledSections(owners, sections)
    requires Relevant(ExecSections(owners, sections, run), x) && NoDefs(ExecSections(owners, sections, run).trace)
    ensures cur <= MaskAt(FlowOfSections(owners, sections, entry, Some(cur)), MarkOfSections(owners, sections, entry, Some(cur), x),
                          ExecSections(owners, sections, run).exit)
  {
    var f, mark := FlowOfSections(owners, sections, entry, Some(cur)), MarkOfSections(owners, sections, entry, Some(cur), x);
    var o := ExecSections(owners, sections, run);
    forall d | d in cur
      ensures Accounts(f, mark, x, o, Some(d))
    {
      SectionsAccounted(owners, sections, run, entry, Some(cur), Some(d), x);
    }
    PassThrough(f, mark, x, o, cur);
  }
}
