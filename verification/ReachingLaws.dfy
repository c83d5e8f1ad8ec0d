/** What the walk of src/resolve/reaching_defs.rs makes of the parts of a program that its main promise says nothing about:
    definitions in conditions, and code that control does not reach. */
module ReachingLaws {
  import opened Wrappers
  import opened Syntax
  import opened ReachingDefs

  /* Conditions. */

  /** The statement without its conditions, switch heads, case values and unmodelled parts. */
  function Erased(stmt: Stmt): Stmt
    decreases stmt, 1
  {
    match stmt
    case Block(stmts) => Block(ErasedBlock(stmts))
    case If(_, body, els) => If(None, Erased(body), Erased(els))
    case While(_, body) => While(None, Erased(body))
    case DoWhile(body, _) => DoWhile(Erased(body), None)
    case For(init, _, iter, body) => For(init, None, iter, Erased(body))
    case Switch(_, sections) => Switch(None, ErasedSections(sections))
    case Unmodelled(_) => Nop
    case _ => stmt
  }

  function ErasedBlock(stmts: seq<Stmt>): seq<Stmt>
    decreases stmts, 0
  {
    if stmts == [] then [] else [Erased(stmts[0])] + ErasedBlock(stmts[1..])
  }

  function ErasedSections(sections: seq<Section>): (r: seq<Section>)
    ensures |r| == |sections| && forall i :: 0 <= i < |r| ==> (r[i].DefaultLabel? <==> sections[i].DefaultLabel?)
    decreases sections, 0
  {
    if sections == [] then []
    else [match sections[0]
          case Code(stmt) => assert stmt < sections[0]; Code(Erased(stmt))
          case CaseLabel(_) => CaseLabel(None)
          case DefaultLabel => DefaultLabel]
         + ErasedSections(sections[1..])
  }

  /** Definitions in conditions and in unmodelled statements are never applied: without these every exit state is the same. */
  lemma {:induction false} ConditionsDefineNothing(owners: seq<Span>, stmt: Stmt, state: Mask)
    ensures FlowOf(owners, Erased(stmt), state) == FlowOf(owners, stmt, state)
    decreases stmt, 1
  {
    match stmt
    case Block(stmts) => BlockConditions(owners, stmts, state);
    case If(_, body, els) =>
      ConditionsDefineNothing(owners, body, state);
      ConditionsDefineNothing(owners, els, state);
    case While(_, body) =>
      ConditionsDefineNothing(owners, body, state);
      ConditionsDefineNothing(owners, body, LoopEntry(FlowOf(owners, body, state), state));
    case DoWhile(body, _) =>
      ConditionsDefineNothing(owners, body, state);
      ConditionsDefineNothing(owners, body, LoopEntry(FlowOf(owners, body, state), state));
    case For(init, _, iter, body) =>
      var entry := GenInOpt(owners, init, state);
      ConditionsDefineNothing(owners, body, entry);
      ConditionsDefineNothing(owners, body, ForHeader(owners, FlowOf(owners, body, entry), iter, entry));
    case Switch(_, sections) =>
      SectionConditions(owners, sections, state, None);
      SameDefault(sections);
    case _ =>
  }

  lemma SameDefault(sections: seq<Section>)
    ensures HasDefault(ErasedSections(sections)) <==> HasDefault(sections)
  {
  }

  lemma {:induction false} BlockConditions(owners: seq<Span>, stmts: seq<Stmt>, state: Mask)
    ensures FlowOfBlock(owners, ErasedBlock(stmts), state) == FlowOfBlock(owners, stmts, state)
    decreases stmts, 0
  {
    if stmts != [] {
      ConditionsDefineNothing(owners, stmts[0], state);
      assert ErasedBlock(stmts)[1..] == ErasedBlock(stmts[1..]);
      var f := FlowOf(owners, stmts[0], state);
      if f.normal.Some? {
        BlockConditions(owners, stmts[1..], f.normal.value);
      }
    }
  }

  lemma {:induction false} SectionConditions(owners: seq<Span>, sections: seq<Section>, entry: Mask, cur: Option<Mask>)
    ensures FlowOfSections(owners, ErasedSections(sections), entry, cur) == FlowOfSections(owners, sections, entry, cur)
    decreases sections, 0
  {
    if sections != [] {
      assert ErasedSections(sections)[1..] == ErasedSections(sections[1..]);
      if sections[0].Code? {
        assert sections[0].stmt < sections[0];
        ConditionsDefineNothing(owners, sections[0].stmt, OrElse(cur, entry));
        SectionConditions(owners, sections[1..], entry, FlowOf(owners, sections[0].stmt, OrElse(cur, entry)).normal);
      } else {
        SectionConditions(owners, sections[1..], entry, Union(cur, Some(entry)));
      }
    }
  }

  /* Dead code. */

  /** Once a block's statements up to some point cannot be completed, the others change nothing and none of their reads is
      marked. */
  lemma {:induction false} DeadStatementsAreSkipped(owners: seq<Span>, stmts: seq<Stmt>, n: nat, state: Mask, x: Span)
    requires n <= |stmts| && FlowOfBlock(owners, stmts[..n], state).normal.None?
    ensures FlowOfBlock(owners, stmts, state) == FlowOfBlock(owners, stmts[..n], state)
    ensures MarkOfBlock(owners, stmts, state, x) == MarkOfBlock(owners, stmts[..n], state, x)
    decreases n
  {
    if n > 0 {
      var first := FlowOf(owners, stmts[0], state);
      assert stmts[..n][0] == stmts[0] && stmts[..n][1..] == stmts[1..][..n - 1];
      if first.normal.Some? {
        DeadStatementsAreSkipped(owners, stmts[1..], n - 1, first.normal.value, x);
      }
    }
  }

  /** Code in a switch block that nothing falls into is walked as if a label stood before it. */
  lemma {:induction false} DeadCodeIsLabelled(owners: seq<Span>, sections: seq<Section>, entry: Mask, x: Span)
    requires sections != [] && sections[0].Code?
    ensures FlowOfSections(owners, sections, entry, None) == FlowOfSections(owners, [DefaultLabel] + sections, entry, None)
    ensures MarkOfSections(owners, sections, entry, None, x) == MarkOfSections(owners, [DefaultLabel] + sections, entry, None, x)
  {
    var labelled := [DefaultLabel] + sections;
    assert labelled[0] == DefaultLabel && labelled[1..] == sections;
  }

  predicate ComesBack(f: Flow) {
    f.normal.Some? || f.continues.Some?
  }

  /** A do-while test that the body never gets to is read on the state before the loop. */
  lemma DeadTestSeesEntry(owners: seq<Span>, body: Stmt, cond: Span, state: Mask, x: Span)
    requires !ComesBack(FlowOf(owners, body, state)) && cond.Contains(x)
    ensures MarkOf(owners, DoWhile(body, Some(cond)), state, x) == MarkOf(owners, body, state, x) + state
  {
  }

  /** And an iteration part that the body never gets to is read on the state at the top of its loop. */
  lemma DeadStepSeesHeader(owners: seq<Span>, cond: Option<Span>, iter: Span, body: Stmt, state: Mask, x: Span)
    requires !ComesBack(FlowOf(owners, body, state)) && !ComesBack(FlowOf(owners, body, state + GenIn(owners, iter, state)))
    requires iter.Contains(x)
    ensures var top := state + GenIn(owners, iter, state);
      MarkOf(owners, For(None, cond, Some(iter), body), state, x) == MarkOpt(cond, top, x) + MarkOf(owners, body, top, x) + top
  {
    var top := state + GenIn(owners, iter, state);
    assert ForHeader(owners, FlowOf(owners, body, state), Some(iter), state) == top;
    assert {} + MarkOpt(cond, top, x) + MarkOf(owners, body, top, x) + top == MarkOpt(cond, top, x) + MarkOf(owners, body, top, x) + top;
  }
}
