/** Every definition that can be in force where an execution reads the variable is in the mask the analysis records there. */
module Soundness {
  import opened Wrappers
  import opened Syntax
  import opened ReachingDefs
  import opened GenKill
  import opened Executions

  /** No definition takes effect while `region` is evaluated. */
  ghost predicate Clean(owners: seq<Span>, region: Option<Span>) {
    region.Some? ==> forall i :: 0 <= i < |owners| ==> !region.value.Contains(owners[i])
  }

  /** A `continue` in `stmt` that belongs to a loop around it. */
  predicate LooseContinue(stmt: Stmt) {
    match stmt
    case Continue => true
    case Block(stmts) => exists i :: 0 <= i < |stmts| && LooseContinue(stmts[i])
    case If(_, body, els) => LooseContinue(body) || LooseContinue(els)
    case Switch(_, sections) => exists i :: 0 <= i < |sections| && sections[i].Code? && LooseContinue(sections[i].stmt)
    case _ => false
  }

  /** The statements whose executions the walk accounts for: definitions sit in leaf statements and in the init and
      iteration part of `for`, and no `continue` belongs to a `do` loop. */
  ghost predicate Modelled(owners: seq<Span>, stmt: Stmt)
    decreases stmt, 1
  {
    match stmt
    case Block(stmts) => forall i :: 0 <= i < |stmts| ==> Modelled(owners, stmts[i])
    case If(cond, body, els) => Clean(owners, cond) && Modelled(owners, body) && Modelled(owners, els)
    case While(cond, body) => Clean(owners, cond) && Modelled(owners, body)
    case DoWhile(body, cond) => Clean(owners, cond) && Modelled(owners, body) && !LooseContinue(body)
    case For(_, cond, _, body) => Clean(owners, cond) && Modelled(owners, body)
    case Switch(cond, sections) => Clean(owners, cond) && ModelledSections(owners, sections)
    case Unmodelled(region) => Clean(owners, Some(region))
    case _ => true
  }

  ghost predicate ModelledSections(owners: seq<Span>, sections: seq<Section>)
    decreases sections, 0
  {
    forall i :: 0 <= i < |sections| ==>
      match sections[i]
      case Code(stmt) => assert stmt < sections[i]; Modelled(owners, stmt)
      case CaseLabel(value) => Clean(owners, value)
      case DefaultLabel => true
  }

  ghost predicate Covers(state: Mask, d: Option<nat>) {
    d.Some? ==> d.value in state
  }

  ghost predicate Reaches(state: Option<Mask>, d: Option<nat>) {
    state.Some? && Covers(state.value, d)
  }

  ghost predicate InRange(d: Option<nat>) {
    d.Some? ==> d.value < MAX_DEFS
  }

  /** The flow and the mask for read `x` account for an execution that starts with definition `d` in force. */
  ghost predicate Accounts(flow: Flow, mark: Mask, x: Span, o: Outcome, d: Option<nat>) {
    o.Ended? ==>
      var end := LastDef(o.trace, d);
      && InRange(end)
      && match o.exit
         case Normal => Reaches(flow.normal, end)
         case Breaks => Reaches(flow.breaks, end)
         case Continues => Reaches(flow.continues, end)
         case Returns => Reaches(flow.returned, end)
         case Reading(region) => region.Contains(x) ==> Covers(mark, end)
  }

  lemma CleanRegion(owners: seq<Span>, region: Option<Span>, d: Option<nat>)
    requires Clean(owners, region)
    ensures LastDef(RegionTrace(owners, region), d) == d
  {
    if region.Some? {
      LastOfRegion(owners, region.value, d);
    }
  }

  lemma RegionReaches(owners: seq<Span>, region: Option<Span>, state: Mask, d: Option<nat>)
    requires |owners| <= MAX_DEFS && InRange(d) && Covers(state, d)
    ensures InRange(LastDef(RegionTrace(owners, region), d))
    ensures Covers(GenInOpt(owners, region, state), LastDef(RegionTrace(owners, region), d))
  {
    if region.Some? {
      LastOfRegion(owners, region.value, d);
    }
  }

  lemma {:induction false} NoContinueChannel(owners: seq<Span>, stmt: Stmt, state: Mask)
    requires !LooseContinue(stmt)
    ensures FlowOf(owners, stmt, state).continues == None
    decreases stmt, 1
  {
    match stmt
    case Block(stmts) => NoContinueInBlock(owners, stmts, state);
    case If(_, body, els) =>
      NoContinueChannel(owners, body, state);
      NoContinueChannel(owners, els, state);
    case Switch(_, sections) => NoContinueInSections(owners, sections, state, None);
    case _ =>
  }

  lemma {:induction false} NoContinueInBlock(owners: seq<Span>, stmts: seq<Stmt>, state: Mask)
    requires forall i :: 0 <= i < |stmts| ==> !LooseContinue(stmts[i])
    ensures FlowOfBlock(owners, stmts, state).continues == None
    decreases stmts, 0
  {
    if stmts == [] {
    } else {
      NoContinueChannel(owners, stmts[0], state);
      var f := FlowOf(owners, stmts[0], state);
      if f.normal.Some? {
        NoContinueInBlock(owners, stmts[1..], f.normal.value);
      }
    }
  }

  lemma {:induction false} NoContinueInSections(owners: seq<Span>, sections: seq<Section>, entry: Mask, cur: Option<Mask>)
    requires forall i :: 0 <= i < |sections| && sections[i].Code? ==> !LooseContinue(sections[i].stmt)
    ensures FlowOfSections(owners, sections, entry, cur).continues == None
    decreases sections, 0
  {
    if sections == [] {
    } else if sections[0].Code? {
      assert sections[0].stmt < sections[0];
      NoContinueChannel(owners, sections[0].stmt, OrElse(cur, entry));
      NoContinueInSections(owners, sections[1..], entry, FlowOf(owners, sections[0].stmt, OrElse(cur, entry)).normal);
    } else {
      NoContinueInSections(owners, sections[1..], entry, Union(cur, Some(entry)));
    }
  }

  /* The induction over executions. */

  lemma {:induction false} ExecutionAccounted(owners: seq<Span>, stmt: Stmt, run: Run, state: Mask, d: Option<nat>, x: Span)
    requires |owners| <= MAX_DEFS && InRange(d) && Covers(state, d)
    requires Modelled(owners, stmt)
    ensures Accounts(FlowOf(owners, stmt, state), MarkOf(owners, stmt, state, x), x, Exec(owners, stmt, run), d)
    decreases run, 2, 0
  {
    match stmt
    case Block(stmts) => BlockAccounted(owners, stmts, run, state, d, x);
    case If(_, _, _) => IfAccounted(owners, stmt, run, state, d, x);
    case While(cond, body) =>
      OneLearningPassIsLeastFixpoint(owners, body, state);
      LoopAccounted(owners, cond, None, body, run, LoopEntry(FlowOf(owners, body, state), state), d, x);
    case DoWhile(body, cond) =>
      OneLearningPassIsLeastFixpoint(owners, body, state);
      var entry := LoopEntry(FlowOf(owners, body, state), state);
      NoContinueChannel(owners, body, entry);
      DoWhileAccounted(owners, body, cond, run, entry, d, x);
    case For(_, _, _, _) => ForAccounted(owners, stmt, run, state, d, x);
    case Switch(cond, sections) =>
      CleanRegion(owners, cond, d);
      SwitchAccounted(owners, sections, run, state, d, x);
      PrefixKeeps(RegionTrace(owners, cond), ExecSwitch(owners, sections, run), d);
    case _ => SimpleAccounted(owners, stmt, run, state, d, x);
  }

  /** Statements without statements inside. */
  lemma {:induction false} SimpleAccounted(owners: seq<Span>, stmt: Stmt, run: Run, state: Mask, d: Option<nat>, x: Span)
    requires stmt.Leaf? || stmt.Return? || stmt.Break? || stmt.Continue? || stmt.Nop? || stmt.Unmodelled?
    requires |owners| <= MAX_DEFS && InRange(d) && Covers(state, d) && Modelled(owners, stmt)
    ensures Accounts(FlowOf(owners, stmt, state), MarkOf(owners, stmt, state, x), x, Exec(owners, stmt, run), d)
  {
    if stmt.Leaf? || stmt.Return? {
      RegionReaches(owners, Some(stmt.region), state, d);
    } else if stmt.Unmodelled? {
      CleanRegion(owners, Some(stmt.region), d);
    }
  }

  lemma {:induction false} IfAccounted(owners: seq<Span>, stmt: Stmt, run: Run, state: Mask, d: Option<nat>, x: Span)
    requires |owners| <= MAX_DEFS && InRange(d) && Covers(state, d)
    requires stmt.If? && Modelled(owners, stmt)
    ensures Accounts(FlowOf(owners, stmt, state), MarkOf(owners, stmt, state, x), x, Exec(owners, stmt, run), d)
    decreases run, 1, 0
  {
    CleanRegion(owners, stmt.cond, d);
    if run.Left? || run.Right? {
      var branch := if run.Left? then stmt.body else stmt.els;
      ExecutionAccounted(owners, branch, run.run, state, d, x);
      PrefixKeeps(RegionTrace(owners, stmt.cond), Exec(owners, branch, run.run), d);
    }
  }

  lemma {:induction false} ForAccounted(owners: seq<Span>, stmt: Stmt, run: Run, state: Mask, d: Option<nat>, x: Span)
    requires |owners| <= MAX_DEFS && InRange(d) && Covers(state, d)
    requires stmt.For? && Modelled(owners, stmt)
    ensures Accounts(FlowOf(owners, stmt, state), MarkOf(owners, stmt, state, x), x, Exec(owners, stmt, run), d)
    decreases run, 1, 0
  {
    var entry, pre := GenInOpt(owners, stmt.init, state), RegionTrace(owners, stmt.init);
    OneLearningPassClosesFor(owners, stmt.body, stmt.iter, entry);
    RegionReaches(owners, stmt.init, state, d);
    if run.Begin? {
      var header := ForHeader(owners, FlowOf(owners, stmt.body, entry), stmt.iter, entry);
      LoopAccounted(owners, stmt.cond, stmt.iter, stmt.body, run.run, header, LastDef(pre, d), x);
      PrefixKeeps(pre, ExecLoop(owners, stmt.cond, stmt.iter, stmt.body, run.run), d);
    }
  }

  /** Running something after a prefix is running it from the definition the prefix leaves in force. */
  lemma PrefixKeeps(prefix: seq<Event>, o: Outcome, d: Option<nat>)
    ensures o.Ended? ==> Before(prefix, o).Ended? && LastDef(Before(prefix, o).trace, d) == LastDef(o.trace, LastDef(prefix, d))
  {
    if o.Ended? {
      LastDefConcat(prefix, o.trace, d);
    }
  }

  lemma {:induction false} BlockAccounted(owners: seq<Span>, stmts: seq<Stmt>, run: Run, state: Mask, d: Option<nat>, x: Span)
    requires |owners| <= MAX_DEFS && InRange(d) && Covers(state, d)
    requires forall i :: 0 <= i < |stmts| ==> Modelled(owners, stmts[i])
    ensures Accounts(FlowOfBlock(owners, stmts, state), MarkOfBlock(owners, stmts, state, x), x, ExecBlock(owners, stmts, run), d)
    decreases run, 0, 0
  {
    if stmts != [] && run.Chain? {
      ExecutionAccounted(owners, stmts[0], run.first, state, d, x);
      var o := Exec(owners, stmts[0], run.first);
      if o.Ended? && o.exit.Normal? {
        var mid := FlowOf(owners, stmts[0], state).normal.value;
        BlockAccounted(owners, stmts[1..], run.rest, mid, LastDef(o.trace, d), x);
        PrefixKeeps(o.trace, ExecBlock(owners, stmts[1..], run.rest), d);
      }
    }
  }

  /** The flow of a loop with header state `header` around a body whose flow is `body`, and the mask it leaves for a
      read whose mask inside the body is `mark`. */
  function LoopFlow(body: Flow, header: Mask): Flow {
    Flow(Union(Some(header), body.breaks), None, None, body.returned)
  }

  function LoopMark(body: Flow, mark: Mask, cond: Option<Span>, iter: Option<Span>, header: Mask, x: Span): Mask {
    MarkOpt(cond, header, x) + mark + MarkOpt(iter, OrElse(Union(body.normal, body.continues), header), x)
  }

  /** A loop whose header state is closed under the back edge. */
  lemma {:induction false} LoopAccounted(owners: seq<Span>, cond: Option<Span>, iter: Option<Span>, body: Stmt, run: Run,
                                         header: Mask, d: Option<nat>, x: Span)
    requires |owners| <= MAX_DEFS && InRange(d) && Covers(header, d)
    requires Clean(owners, cond) && Modelled(owners, body)
    requires var f := FlowOf(owners, body, header);
      Union(f.normal, f.continues).Some? ==> GenInOpt(owners, iter, Union(f.normal, f.continues).value) <= header
    ensures var f := FlowOf(owners, body, header);
      Accounts(LoopFlow(f, header), LoopMark(f, MarkOf(owners, body, header, x), cond, iter, header, x), x,
               ExecLoop(owners, cond, iter, body, run), d)
    decreases run, 0, 0
  {
    CleanRegion(owners, cond, d);
    if run.Iterate? {
      var b := Exec(owners, body, run.body);
      var f, mark := FlowOf(owners, body, header), MarkOf(owners, body, header, x);
      ExecutionAccounted(owners, body, run.body, header, d, x);
      if !(b.Ended? && (b.exit.Normal? || b.exit.Continues?)) {
        OutAccounted(owners, cond, iter, body, run, header, f, mark, d, x);
      } else {
        var d' := LastDef(b.trace, d);
        BackEdgeReaches(owners, iter, f, header, b, d);
        if !run.next.AtIter? {
          LoopAccounted(owners, cond, iter, body, run.next, header, LastDef(RegionTrace(owners, iter), d'), x);
        }
        AgainAccounted(owners, cond, iter, body, run, header, f, mark, d, x);
      }
    }
  }

  /** A round of a loop that does not come back to the condition. */
  lemma {:induction false} OutAccounted(owners: seq<Span>, cond: Option<Span>, iter: Option<Span>, body: Stmt, run: Run, header: Mask,
                                        f: Flow, mark: Mask, d: Option<nat>, x: Span)
    requires run.Iterate? && LastDef(RegionTrace(owners, cond), d) == d
    requires var b := Exec(owners, body, run.body);
      Accounts(f, mark, x, b, d) && !(b.Ended? && (b.exit.Normal? || b.exit.Continues?))
    ensures Accounts(LoopFlow(f, header), LoopMark(f, mark, cond, iter, header, x), x, ExecLoop(owners, cond, iter, body, run), d)
  {
    PrefixKeeps(RegionTrace(owners, cond), Exec(owners, body, run.body), d);
  }

  lemma BackEdgeReaches(owners: seq<Span>, iter: Option<Span>, f: Flow, header: Mask, b: Outcome, d: Option<nat>)
    requires |owners| <= MAX_DEFS
    requires b.Ended? && (b.exit.Normal? || b.exit.Continues?) && InRange(LastDef(b.trace, d))
    requires Reaches(if b.exit.Normal? then f.normal else f.continues, LastDef(b.trace, d))
    requires Union(f.normal, f.continues).Some? ==> GenInOpt(owners, iter, Union(f.normal, f.continues).value) <= header
    ensures var d' := LastDef(b.trace, d); var d'' := LastDef(RegionTrace(owners, iter), d');
      Reaches(Union(f.normal, f.continues), d') && InRange(d'') && Covers(header, d'')
  {
    RegionReaches(owners, iter, Union(f.normal, f.continues).value, LastDef(b.trace, d));
  }

  /** One round of a loop and then the rest, given that the rest is accounted for. */
  lemma {:induction false} AgainAccounted(owners: seq<Span>, cond: Option<Span>, iter: Option<Span>, body: Stmt, run: Run, header: Mask,
                       f: Flow, mark: Mask, d: Option<nat>, x: Span)
    requires run.Iterate? && InRange(d)
    requires LastDef(RegionTrace(owners, cond), d) == d
    requires var b := Exec(owners, body, run.body);
      && b.Ended? && (b.exit.Normal? || b.exit.Continues?)
      && InRange(LastDef(b.trace, d)) && Reaches(Union(f.normal, f.continues), LastDef(b.trace, d))
      && (!run.next.AtIter? ==>
            Accounts(LoopFlow(f, header), LoopMark(f, mark, cond, iter, header, x), x, ExecLoop(owners, cond, iter, body, run.next),
                     LastDef(RegionTrace(owners, iter), LastDef(b.trace, d))))
    ensures Accounts(LoopFlow(f, header), LoopMark(f, mark, cond, iter, header, x), x, ExecLoop(owners, cond, iter, body, run), d)
  {
    var b := Exec(owners, body, run.body);
    var pre := RegionTrace(owners, cond) + b.trace;
    LastDefConcat(RegionTrace(owners, cond), b.trace, d);
    if run.next.AtIter? {
      PrefixKeeps(pre, StopAt(iter), d);
    } else {
      LastDefConcat(pre, RegionTrace(owners, iter), d);
      PrefixKeeps(pre + RegionTrace(owners, iter), ExecLoop(owners, cond, iter, body, run.next), d);
    }
  }

  /** What a `continue` brings to the condition of a `do` loop is also at the loop's exit, as the walk computes it. */
  ghost predicate ContinueAddsNothing(f: Flow) {
    f.continues.Some? ==>
      var left := Union(f.normal, f.breaks);
      left.Some? && f.continues.value <= left.value
  }

  lemma {:induction false} DoWhileAccounted(owners: seq<Span>, body: Stmt, cond: Option<Span>, run: Run,
                                            entry: Mask, d: Option<nat>, x: Span)
    requires |owners| <= MAX_DEFS && InRange(d) && Covers(entry, d)
    requires Clean(owners, cond) && Modelled(owners, body)
    requires Closed(owners, body, entry) && ContinueAddsNothing(FlowOf(owners, body, entry))
    ensures var f := FlowOf(owners, body, entry);
      Accounts(DoFlow(f), DoMark(f, MarkOf(owners, body, entry, x), cond, entry, x), x, ExecDoWhile(owners, body, cond, run), d)
    decreases run, 0, 0
  {
    if run.Iterate? {
      ExecutionAccounted(owners, body, run.body, entry, d, x);
      var o := Exec(owners, body, run.body);
      var f, mark := FlowOf(owners, body, entry), MarkOf(owners, body, entry, x);
      if !(o.Ended? && (o.exit.Normal? || o.exit.Continues?)) {
        DoOutAccounted(owners, body, cond, run, entry, f, mark, d, x);
      } else {
        var d' := LastDef(o.trace, d);
        CleanRegion(owners, cond, d');
        if run.next.Iterate? {
          DoWhileAccounted(owners, body, cond, run.next, entry, d', x);
        }
        DoAgainAccounted(owners, body, cond, run, entry, f, mark, d, x);
      }
    }
  }

  function DoFlow(body: Flow): Flow {
    Flow(Union(body.normal, body.breaks), None, None, body.returned)
  }

  function DoMark(body: Flow, mark: Mask, cond: Option<Span>, entry: Mask, x: Span): Mask {
    mark + MarkOpt(cond, OrElse(Union(body.normal, body.continues), entry), x)
  }

  /** A round of a do loop that does not come to the condition. */
  lemma {:induction false} DoOutAccounted(owners: seq<Span>, body: Stmt, cond: Option<Span>, run: Run, entry: Mask, f: Flow,
                                          mark: Mask, d: Option<nat>, x: Span)
    requires run.Iterate?
    requires var b := Exec(owners, body, run.body);
      Accounts(f, mark, x, b, d) && !(b.Ended? && (b.exit.Normal? || b.exit.Continues?))
    ensures Accounts(DoFlow(f), DoMark(f, mark, cond, entry, x), x, ExecDoWhile(owners, body, cond, run), d)
  {
  }

  /** A round of a do loop that comes to the condition, and then the rest, given that the rest is accounted for. */
  lemma {:induction false} DoAgainAccounted(owners: seq<Span>, body: Stmt, cond: Option<Span>, run: Run, entry: Mask, f: Flow,
                                            mark: Mask, d: Option<nat>, x: Span)
    requires run.Iterate? && ContinueAddsNothing(f) && Exec(owners, body, run.body).Ended?
    requires var b := Exec(owners, body, run.body); var d' := LastDef(b.trace, d);
      && Accounts(f, mark, x, b, d) && (b.exit.Normal? || b.exit.Continues?)
      && LastDef(RegionTrace(owners, cond), d') == d'
      && Accounts(DoFlow(f), DoMark(f, mark, cond, entry, x), x, ExecDoWhile(owners, body, cond, run.next), d')
    ensures Accounts(DoFlow(f), DoMark(f, mark, cond, entry, x), x, ExecDoWhile(owners, body, cond, run), d)
  {
    var b := Exec(owners, body, run.body);
    LastDefConcat(b.trace, RegionTrace(owners, cond), d);
    if run.next.Pause? {
      PrefixKeeps(b.trace, StopAt(cond), d);
    } else if !run.next.Done? {
      PrefixKeeps(b.trace + RegionTrace(owners, cond), ExecDoWhile(owners, body, cond, run.next), d);
    }
  }

  lemma {:induction false} LabelTestsKeep(owners: seq<Span>, sections: seq<Section>, d: Option<nat>)
    requires ModelledSections(owners, sections)
    ensures LastDef(LabelTests(owners, sections), d) == d
  {
    if sections == [] {
    } else {
      var first := if sections[0].CaseLabel? then RegionTrace(owners, sections[0].value) else [];
      if sections[0].CaseLabel? {
        CleanRegion(owners, sections[0].value, d);
      }
      LastDefConcat(first, LabelTests(owners, sections[1..]), d);
      LabelTestsKeep(owners, sections[1..], d);
    }
  }

  lemma {:induction false} SwitchAccounted(owners: seq<Span>, sections: seq<Section>, run: Run, entry: Mask, d: Option<nat>, x: Span)
    requires |owners| <= MAX_DEFS && InRange(d) && Covers(entry, d)
    requires ModelledSections(owners, sections)
    ensures Accounts(SwitchExit(FlowOfSections(owners, sections, entry, None), sections, entry),
                     MarkOfSections(owners, sections, entry, None, x), x, ExecSwitch(owners, sections, run), d)
    decreases run, 0, |sections| + 1
  {
    if run.AtLabel? && run.at < |sections| && sections[run.at].CaseLabel? {
      LabelTestsKeep(owners, sections[..run.at], d);
      PrefixKeeps(LabelTests(owners, sections[..run.at]), StopAt(sections[run.at].value), d);
      LabelMarked(owners, sections, run.at, entry, None, x);
    } else if run.Done? {
      LabelTestsKeep(owners, sections, d);
    } else if run.Enter? {
      EnterAccounted(owners, sections, run, entry, d, x);
    }
  }

  lemma {:induction false} EnterAccounted(owners: seq<Span>, sections: seq<Section>, run: Run, entry: Mask, d: Option<nat>, x: Span)
    requires |owners| <= MAX_DEFS && InRange(d) && Covers(entry, d)
    requires ModelledSections(owners, sections) && run.Enter?
    ensures Accounts(SwitchExit(FlowOfSections(owners, sections, entry, None), sections, entry),
                     MarkOfSections(owners, sections, entry, None, x), x, ExecSwitch(owners, sections, run), d)
    decreases run, 0, |sections|
  {
    if run.Enter? && run.at < |sections| && !sections[run.at].Code? {
      var tested := if sections[run.at].CaseLabel? then sections[..run.at + 1] else sections;
      var o := ExecSections(owners, sections[run.at + 1..], run.run);
      LabelTestsKeep(owners, tested, d);
      EnteredSectionsAccounted(owners, sections, run.at, run.run, entry, None, d, x);
      BreakLeavesSwitch(FlowOfSections(owners, sections, entry, None), sections, entry,
                        MarkOfSections(owners, sections, entry, None, x), x, LabelTests(owners, tested), o, d);
    }
  }

  /** What accounts for the sections entered accounts for the switch: a `break` leaves it, and the tests before define
      nothing. */
  lemma BreakLeavesSwitch(flow: Flow, sections: seq<Section>, entry: Mask, mark: Mask, x: Span, tests: seq<Event>, o: Outcome,
                          d: Option<nat>)
    requires Accounts(flow, mark, x, o, d) && LastDef(tests, d) == d
    ensures Accounts(SwitchExit(flow, sections, entry), mark, x,
                     Before(tests, if o.Ended? && o.exit.Breaks? then Ended(o.trace, Normal) else o), d)
  {
    PrefixKeeps(tests, if o.Ended? && o.exit.Breaks? then Ended(o.trace, Normal) else o, d);
  }

  /** Every case value is recorded on the state at the switch head. */
  lemma {:induction false} LabelMarked(owners: seq<Span>, sections: seq<Section>, at: nat, entry: Mask, cur: Option<Mask>, x: Span)
    requires at < |sections| && sections[at].CaseLabel?
    ensures MarkOpt(sections[at].value, entry, x) <= MarkOfSections(owners, sections, entry, cur, x)
    decreases at
  {
    if at > 0 {
      var next := if sections[0].Code? then FlowOf(owners, sections[0].stmt, OrElse(cur, entry)).normal else Union(cur, Some(entry));
      LabelMarked(owners, sections[1..], at - 1, entry, next, x);
    }
  }

  /** Entering at a label: what the sections after it do is accounted for in the flow of all sections. */
  lemma {:induction false} EnteredSectionsAccounted(owners: seq<Span>, sections: seq<Section>, at: nat, run: Run,
                                                    entry: Mask, cur: Option<Mask>, d: Option<nat>, x: Span)
    requires |owners| <= MAX_DEFS && InRange(d) && Covers(entry, d)
    requires ModelledSections(owners, sections)
    requires at < |sections| && !sections[at].Code?
    ensures Accounts(FlowOfSections(owners, sections, entry, cur), MarkOfSections(owners, sections, entry, cur, x), x,
                     ExecSections(owners, sections[at + 1..], run), d)
    decreases run, 0, |sections|, at
  {
    if at == 0 {
      SectionsAccounted(owners, sections[1..], run, entry, Union(cur, Some(entry)), d, x);
    } else {
      var next := if sections[0].Code? then FlowOf(owners, sections[0].stmt, OrElse(cur, entry)).normal else Union(cur, Some(entry));
      EnteredSectionsAccounted(owners, sections[1..], at - 1, run, entry, next, d, x);
      assert sections[at + 1..] == sections[1..][at..];
    }
  }

  lemma {:induction false} SectionsAccounted(owners: seq<Span>, sections: seq<Section>, run: Run, entry: Mask, cur: Option<Mask>,
                                             d: Option<nat>, x: Span)
    requires |owners| <= MAX_DEFS && InRange(d) && Reaches(cur, d)
    requires ModelledSections(owners, sections)
    ensures Accounts(FlowOfSections(owners, sections, entry, cur), MarkOfSections(owners, sections, entry, cur, x), x,
                     ExecSections(owners, sections, run), d)
    decreases run, 0, |sections|
  {
    if sections == [] {
    } else if !sections[0].Code? {
      SectionsAccounted(owners, sections[1..], run, entry, Union(cur, Some(entry)), d, x);
    } else if run.Chain? {
      var stmt := sections[0].stmt;
      ExecutionAccounted(owners, stmt, run.first, cur.value, d, x);
      var o := Exec(owners, stmt, run.first);
      if o.Ended? && o.exit.Normal? {
        var after := FlowOf(owners, stmt, cur.value).normal;
        SectionsAccounted(owners, sections[1..], run.rest, entry, after, LastDef(o.trace, d), x);
        PrefixKeeps(o.trace, ExecSections(owners, sections[1..], run.rest), d);
      }
    }
  }

  /* The main results. */

  /** Whatever definition is in force where an execution of the body is about to read `x`, the recorded mask has it.  So
      where the mask names a sole definition, that one is in force, or none has run yet. */
  lemma RecordedMaskIsSound(owners: seq<Span>, body: seq<Stmt>, run: Run, x: Span)
    requires |owners| <= MAX_DEFS && Modelled(owners, Block(body))
    requires Exec(owners, Block(body), run).Ended? && Exec(owners, Block(body), run).exit.Reading?
    requires Exec(owners, Block(body), run).exit.region.Contains(x)
    ensures var inForce := LastDef(Exec(owners, Block(body), run).trace, None);
      var mask := MarkOfBlock(owners, body, {}, x);
      && Covers(mask, inForce)
      && (SoleDef(mask).Some? ==> inForce == None || inForce == SoleDef(mask))
  {
    ExecutionAccounted(owners, Block(body), run, {}, None, x);
  }

  /** Where the walk finds that control cannot fall off the end of a statement, no execution does. */
  lemma DeadExitsAreDead(owners: seq<Span>, stmt: Stmt, run: Run, state: Mask)
    requires |owners| <= MAX_DEFS && Modelled(owners, stmt)
    requires FlowOf(owners, stmt, state).normal.None?
    ensures Exec(owners, stmt, run).Ended? ==> !Exec(owners, stmt, run).exit.Normal?
  {
    ExecutionAccounted(owners, stmt, run, state, None, Span(0, 0));
  }
}
