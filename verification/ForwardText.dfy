/** A definition outside every loop and every case value: from there on executions only move forward in the text. */
module ForwardText {
  import opened Wrappers
  import opened Syntax
  import opened ReachingDefs
  import opened Executions
  import opened Window

  /** In a statement laid out from `lo`, the text of `s` is in no loop, from the loop's condition on, and in no case value. */
  ghost predicate Straight(stmt: Stmt, lo: nat, s: Span)
    requires Place(stmt, lo).Some?
    decreases stmt, 1
  {
    match stmt
    case Block(stmts) => StraightBlock(stmts, lo, s)
    case If(cond, body, els) =>
      var a := PlaceRegion(cond, lo).value;
      Straight(body, a, s) && Straight(els, Place(body, a).value, s)
    case While(_, _) => !Inside(s, lo, Place(stmt, lo).value)
    case DoWhile(_, _) => !Inside(s, lo, Place(stmt, lo).value)
    case For(init, _, _, _) => !Inside(s, PlaceRegion(init, lo).value, Place(stmt, lo).value)
    case Switch(cond, sections) => StraightSections(sections, PlaceRegion(cond, lo).value, s)
    case _ => true
  }

  ghost predicate StraightBlock(stmts: seq<Stmt>, lo: nat, s: Span)
    requires PlaceBlock(stmts, lo).Some?
    decreases stmts, 0
  {
    stmts != [] ==> Straight(stmts[0], lo, s) && StraightBlock(stmts[1..], Place(stmts[0], lo).value, s)
  }

  ghost predicate StraightSections(sections: seq<Section>, lo: nat, s: Span)
    requires PlaceSections(sections, lo).Some?
    decreases sections, 0
  {
    sections != [] ==>
      && (match sections[0]
          case Code(stmt) => assert stmt < sections[0] && PlaceSection(sections[0], lo).Some?; Straight(stmt, lo, s)
          case CaseLabel(value) => value.Some? ==> !value.value.Contains(s)
          case DefaultLabel => true)
      && StraightSections(sections[1..], PlaceSection(sections[0], lo).value, s)
  }

  /** Whatever is evaluated after definition `i` took effect lies after its region. */
  ghost predicate Forward(trace: seq<Event>, i: nat) {
    forall k, j :: 0 <= k < j < |trace| && trace[k].Def? && trace[k].index == i && trace[j].Visit? ==>
      trace[k].region.end <= trace[j].region.start
  }

  ghost predicate Without(trace: seq<Event>, i: nat) {
    forall k :: 0 <= k < |trace| && trace[k].Def? ==> trace[k].index != i
  }

  lemma JoinForward(owners: seq<Span>, a: seq<Event>, b: seq<Event>, i: nat, lo: nat, mid: nat, hi: nat)
    requires Forward(a, i) && Forward(b, i)
    requires Without(a, i) || (EventsInside(owners, a, lo, mid) && EventsInside(owners, b, mid, hi))
    ensures Forward(a + b, i)
  {
    var whole := a + b;
    forall k, j | 0 <= k < j < |whole| && whole[k].Def? && whole[k].index == i && whole[j].Visit?
      ensures whole[k].region.end <= whole[j].region.start
    {
      if k < |a| <= j {
        assert whole[k] == a[k] && whole[j] == b[j - |a|];
      } else if k >= |a| {
        assert whole[k] == b[k - |a|] && whole[j] == b[j - |a|];
      } else {
        assert whole[k] == a[k] && whole[j] == a[j];
      }
    }
  }

  /** Text that does not hold the definition does not make it take effect. */
  lemma OutsideMeansWithout(owners: seq<Span>, trace: seq<Event>, i: nat, lo: nat, hi: nat)
    requires EventsInside(owners, trace, lo, hi) && i < |owners| && !Inside(owners[i], lo, hi)
    ensures Without(trace, i)
  {
  }

  lemma {:induction false} MovesForward(owners: seq<Span>, stmt: Stmt, lo: nat, run: Run, i: nat)
    requires i < |owners| && Place(stmt, lo).Some? && Straight(stmt, lo, owners[i])
    ensures Exec(owners, stmt, run).Ended? ==> Forward(Exec(owners, stmt, run).trace, i)
    decreases run, 1, 0
  {
    var hi := Place(stmt, lo).value;
    match stmt {
      case Block(stmts) => BlockMovesForward(owners, stmts, lo, run, i);
      case If(cond, body, els) =>
        var a := PlaceRegion(cond, lo).value;
        var b := Place(body, a).value;
        RegionInside(owners, cond, lo);
        if run.Left? {
          MovesForward(owners, body, a, run.run, i);
          ExecutionInside(owners, body, run.run, a);
          JoinBefore(owners, cond, Exec(owners, body, run.run), i, lo, a, b);
        } else if run.Right? {
          MovesForward(owners, els, b, run.run, i);
          ExecutionInside(owners, els, run.run, b);
          JoinBefore(owners, cond, Exec(owners, els, run.run), i, lo, a, hi);
        }
      case While(_, _) => LoopMovesForward(owners, stmt, lo, run, i);
      case DoWhile(_, _) => LoopMovesForward(owners, stmt, lo, run, i);
      case For(init, cond, iter, body) =>
        if run.Begin? {
          var a := PlaceRegion(init, lo).value;
          RegionInside(owners, init, lo);
          LoopInside(owners, cond, iter, body, run.run, a);
          var o := ExecLoop(owners, cond, iter, body, run.run);
          if o.Ended? {
            OutsideMeansWithout(owners, o.trace, i, a, hi);
            JoinBefore(owners, init, o, i, lo, a, hi);
          }
        }
      case Switch(cond, sections) =>
        if !run.Pause? {
          var a := PlaceRegion(cond, lo).value;
          RegionInside(owners, cond, lo);
          SwitchMovesForward(owners, sections, a, run, i);
          SwitchInside(owners, sections, run, a);
          JoinBefore(owners, cond, ExecSwitch(owners, sections, run), i, lo, a, hi);
        }
      case _ =>
    }
  }

  /** A statement's parts after its first region. */
  lemma JoinBefore(owners: seq<Span>, region: Option<Span>, o: Outcome, i: nat, lo: nat, a: nat, hi: nat)
    requires PlaceRegion(region, lo) == Some(a) && (o.Ended? ==> Forward(o.trace, i))
    requires OutcomeInside(owners, o, a, hi) || exists b :: a <= b && OutcomeInside(owners, o, b, hi)
    ensures Before(RegionTrace(owners, region), o).Ended? ==> Forward(Before(RegionTrace(owners, region), o).trace, i)
  {
    RegionInside(owners, region, lo);
    if o.Ended? {
      JoinForward(owners, RegionTrace(owners, region), o.trace, i, lo, a, hi);
    }
  }

  lemma LoopMovesForward(owners: seq<Span>, stmt: Stmt, lo: nat, run: Run, i: nat)
    requires i < |owners| && Place(stmt, lo).Some? && !Inside(owners[i], lo, Place(stmt, lo).value)
    ensures Exec(owners, stmt, run).Ended? ==> Forward(Exec(owners, stmt, run).trace, i)
  {
    ExecutionInside(owners, stmt, run, lo);
    if Exec(owners, stmt, run).Ended? {
      OutsideMeansWithout(owners, Exec(owners, stmt, run).trace, i, lo, Place(stmt, lo).value);
    }
  }

  lemma {:induction false} BlockMovesForward(owners: seq<Span>, stmts: seq<Stmt>, lo: nat, run: Run, i: nat)
    requires i < |owners| && PlaceBlock(stmts, lo).Some? && StraightBlock(stmts, lo, owners[i])
    ensures ExecBlock(owners, stmts, run).Ended? ==> Forward(ExecBlock(owners, stmts, run).trace, i)
    decreases run, 0, 0
  {
    if stmts != [] && run.Chain? {
      var mid := Place(stmts[0], lo).value;
      MovesForward(owners, stmts[0], lo, run.first, i);
      BlockMovesForward(owners, stmts[1..], mid, run.rest, i);
      ExecutionInside(owners, stmts[0], run.first, lo);
      BlockInside(owners, stmts[1..], run.rest, mid);
      var o, rest := Exec(owners, stmts[0], run.first), ExecBlock(owners, stmts[1..], run.rest);
      if o.Ended? && rest.Ended? {
        JoinForward(owners, o.trace, rest.trace, i, lo, mid, PlaceBlock(stmts, lo).value);
      }
    }
  }

  lemma {:induction false} TestsWithout(owners: seq<Span>, sections: seq<Section>, n: nat, lo: nat, i: nat)
    requires n <= |sections| && i < |owners| && PlaceSections(sections, lo).Some? && StraightSections(sections, lo, owners[i])
    ensures Without(LabelTests(owners, sections[..n]), i)
  {
    if n > 0 {
      TestsWithout(owners, sections[1..], n - 1, PlaceSection(sections[0], lo).value, i);
      assert sections[..n][1..] == sections[1..][..n - 1];
    }
  }

  lemma {:induction false} SwitchMovesForward(owners: seq<Span>, sections: seq<Section>, lo: nat, run: Run, i: nat)
    requires i < |owners| && PlaceSections(sections, lo).Some? && StraightSections(sections, lo, owners[i])
    ensures ExecSwitch(owners, sections, run).Ended? ==> Forward(ExecSwitch(owners, sections, run).trace, i)
    decreases run, 0, |sections| + 1
  {
    assert sections[..|sections|] == sections;
    TestsWithout(owners, sections, |sections|, lo, i);
    if run.AtLabel? && run.at < |sections| {
      TestsWithout(owners, sections, run.at, lo, i);
    } else if run.Enter? && run.at < |sections| && !sections[run.at].Code? {
      TestsWithout(owners, sections, run.at + 1, lo, i);
      EnteredMovesForward(owners, sections, run.at, lo, run.run, i);
      var o := ExecSections(owners, sections[run.at + 1..], run.run);
      if o.Ended? {
        var tested := if sections[run.at].CaseLabel? then sections[..run.at + 1] else sections;
        JoinForward(owners, LabelTests(owners, tested), o.trace, i, 0, 0, 0);
      }
    }
  }

  lemma {:induction false} EnteredMovesForward(owners: seq<Span>, sections: seq<Section>, at: nat, lo: nat, run: Run, i: nat)
    requires at < |sections| && i < |owners| && PlaceSections(sections, lo).Some? && StraightSections(sections, lo, owners[i])
    ensures ExecSections(owners, sections[at + 1..], run).Ended? ==> Forward(ExecSections(owners, sections[at + 1..], run).trace, i)
    decreases run, 0, |sections|, at
  {
    var a := PlaceSection(sections[0], lo).value;
    if at == 0 {
      SectionsMoveForward(owners, sections[1..], a, run, i);
    } else {
      assert sections[at + 1..] == sections[1..][at..];
      EnteredMovesForward(owners, sections[1..], at - 1, a, run, i);
    }
  }

  lemma {:induction false} SectionsMoveForward(owners: seq<Span>, sections: seq<Section>, lo: nat, run: Run, i: nat)
    requires i < |owners| && PlaceSections(sections, lo).Some? && StraightSections(sections, lo, owners[i])
    ensures ExecSections(owners, sections, run).Ended? ==> Forward(ExecSections(owners, sections, run).trace, i)
    decreases run, 0, |sections|
  {
    if sections != [] {
      var mid := PlaceSection(sections[0], lo).value;
      if !sections[0].Code? {
        SectionsMoveForward(owners, sections[1..], mid, run, i);
      } else if run.Chain? {
        var stmt := sections[0].stmt;
        MovesForward(owners, stmt, lo, run.first, i);
        SectionsMoveForward(owners, sections[1..], mid, run.rest, i);
        ExecutionInside(owners, stmt, run.first, lo);
        SectionsInside(owners, sections[1..], run.rest, mid);
        var o, rest := Exec(owners, stmt, run.first), ExecSections(owners, sections[1..], run.rest);
        if o.Ended? && rest.Ended? {
          JoinForward(owners, o.trace, rest.trace, i, lo, mid, PlaceSections(sections, lo).value);
        }
      }
    }
  }
}
