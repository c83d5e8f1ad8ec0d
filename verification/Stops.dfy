/** Every region that an execution evaluates is also the stopping point of an execution, so a statement about executions that
    end in `Reading` is a statement about every read in every execution. */
module Stops {
  import opened Wrappers
  import opened Syntax
  import opened ReachingDefs
  import opened Executions

  /** A visit in a trace: what comes before it, the region, and what comes after. */
  datatype Passage = Passage(before: seq<Event>, region: Span, after: seq<Event>)

  predicate Passes(trace: seq<Event>, p: Passage) {
    trace == p.before + [Visit(p.region)] + p.after
  }

  function Stopped(p: Passage): Outcome {
    Ended(p.before, Reading(p.region))
  }

  /** A visit in `a + b` is one in `a` or one in `b`. */
  lemma InFirst(a: seq<Event>, b: seq<Event>, p: Passage) returns (q: Passage)
    requires Passes(a + b, p) && |p.before| < |a|
    ensures Passes(a, q) && Stopped(q) == Stopped(p)
  {
    var n := |p.before|;
    q := p.(after := a[n + 1..]);
    assert (a + b)[..n] == p.before && a[..n] == (a + b)[..n];
    assert a[n] == (a + b)[n] == Visit(p.region);
    assert a == a[..n] + [a[n]] + a[n + 1..];
  }

  lemma InSecond(a: seq<Event>, b: seq<Event>, p: Passage) returns (q: Passage)
    requires Passes(a + b, p) && |a| <= |p.before|
    ensures Passes(b, q) && Before(a, Stopped(q)) == Stopped(p)
  {
    var n := |p.before|;
    q := p.(before := p.before[|a|..]);
    assert (a + b)[..|a|] == a && p.before == (a + b)[..n];
    assert p.before == a + q.before;
    assert b == (a + b)[|a|..];
  }

  lemma NoneInNothing(p: Passage)
    ensures !Passes([], p)
  {
    assert |p.before + [Visit(p.region)] + p.after| > 0;
  }

  /** The only visit while a region is evaluated is the one at its start. */
  lemma RegionStop(owners: seq<Span>, region: Option<Span>, p: Passage)
    requires Passes(RegionTrace(owners, region), p)
    ensures StopAt(region) == Stopped(p)
  {
    var t := RegionTrace(owners, region);
    assert t[|p.before|] == Visit(p.region);
  }

  /** The result in terms of positions. */
  lemma EveryVisitIsAStop(owners: seq<Span>, stmt: Stmt, run: Run, k: nat) returns (stop: Run)
    requires Exec(owners, stmt, run).Ended?
    requires k < |Exec(owners, stmt, run).trace| && Exec(owners, stmt, run).trace[k].Visit?
    ensures var trace := Exec(owners, stmt, run).trace; Exec(owners, stmt, stop) == Ended(trace[..k], Reading(trace[k].region))
  {
    var trace := Exec(owners, stmt, run).trace;
    var p := Passage(trace[..k], trace[k].region, trace[k + 1..]);
    assert trace == trace[..k] + [trace[k]] + trace[k + 1..];
    stop := StopIn(owners, stmt, run, p);
  }

  lemma {:induction false} StopIn(owners: seq<Span>, stmt: Stmt, run: Run, p: Passage) returns (stop: Run)
    requires Exec(owners, stmt, run).Ended? && Passes(Exec(owners, stmt, run).trace, p)
    ensures Exec(owners, stmt, stop) == Stopped(p)
    decreases run, 2, 0
  {
    match stmt
    case Block(stmts) => stop := BlockStop(owners, stmts, run, p);
    case If(cond, body, els) => stop := IfStop(owners, cond, body, els, run, p);
    case While(cond, body) => stop := LoopStop(owners, cond, None, body, run, p);
    case DoWhile(body, cond) => stop := DoWhileStop(owners, body, cond, run, p);
    case For(init, cond, iter, body) => stop := ForStop(owners, init, cond, iter, body, run, p);
    case Switch(cond, sections) => stop := SwitchStmtStop(owners, cond, sections, run, p);
    case _ => stop := SimpleStop(owners, stmt, run, p);
  }

  /** Statements without statements inside. */
  lemma {:induction false} SimpleStop(owners: seq<Span>, stmt: Stmt, run: Run, p: Passage) returns (stop: Run)
    requires stmt.Leaf? || stmt.Return? || stmt.Break? || stmt.Continue? || stmt.Nop? || stmt.Unmodelled?
    requires Exec(owners, stmt, run).Ended? && Passes(Exec(owners, stmt, run).trace, p)
    ensures Exec(owners, stmt, stop) == Stopped(p)
  {
    NoneInNothing(p);
    RegionStop(owners, Some(stmt.region), p);
    stop := Pause;
  }

  lemma {:induction false} IfStop(owners: seq<Span>, cond: Option<Span>, body: Stmt, els: Stmt, run: Run, p: Passage) returns (stop: Run)
    requires Exec(owners, If(cond, body, els), run).Ended? && Passes(Exec(owners, If(cond, body, els), run).trace, p)
    ensures Exec(owners, If(cond, body, els), stop) == Stopped(p)
    decreases run, 1, 0
  {
    NoneInNothing(p);
    var c := RegionTrace(owners, cond);
    var branch := if run.Left? then body else els;
    var t := Exec(owners, branch, run.run).trace;
    if |p.before| < |c| {
      var q := InFirst(c, t, p);
      RegionStop(owners, cond, q);
      stop := Pause;
    } else {
      var q := InSecond(c, t, p);
      var s := StopIn(owners, branch, run.run, q);
      stop := if run.Left? then Left(s) else Right(s);
    }
  }

  lemma {:induction false} ForStop(owners: seq<Span>, init: Option<Span>, cond: Option<Span>, iter: Option<Span>, body: Stmt, run: Run,
                                   p: Passage) returns (stop: Run)
    requires var o := Exec(owners, For(init, cond, iter, body), run); o.Ended? && Passes(o.trace, p)
    ensures Exec(owners, For(init, cond, iter, body), stop) == Stopped(p)
    decreases run, 1, 0
  {
    NoneInNothing(p);
    var c, t := RegionTrace(owners, init), ExecLoop(owners, cond, iter, body, run.run).trace;
    if |p.before| < |c| {
      var q := InFirst(c, t, p);
      RegionStop(owners, init, q);
      stop := Pause;
    } else {
      var q := InSecond(c, t, p);
      var s := LoopStop(owners, cond, iter, body, run.run, q);
      stop := Begin(s);
    }
  }

  lemma {:induction false} BlockStop(owners: seq<Span>, stmts: seq<Stmt>, run: Run, p: Passage) returns (stop: Run)
    requires ExecBlock(owners, stmts, run).Ended? && Passes(ExecBlock(owners, stmts, run).trace, p)
    ensures ExecBlock(owners, stmts, stop) == Stopped(p)
    decreases run, 0, 0
  {
    NoneInNothing(p);
    var o := Exec(owners, stmts[0], run.first);
    if !o.exit.Normal? {
      var s := StopIn(owners, stmts[0], run.first, p);
      stop := Chain(s, Done);
    } else {
      var t := ExecBlock(owners, stmts[1..], run.rest).trace;
      if |p.before| < |o.trace| {
        var q := InFirst(o.trace, t, p);
        var s := StopIn(owners, stmts[0], run.first, q);
        stop := Chain(s, Done);
      } else {
        var q := InSecond(o.trace, t, p);
        var s := BlockStop(owners, stmts[1..], run.rest, q);
        stop := Chain(run.first, s);
      }
    }
  }

  /* Loops. */

  lemma {:induction false} LoopStop(owners: seq<Span>, cond: Option<Span>, iter: Option<Span>, body: Stmt, run: Run, p: Passage)
      returns (stop: Run)
    requires ExecLoop(owners, cond, iter, body, run).Ended? && Passes(ExecLoop(owners, cond, iter, body, run).trace, p)
    ensures !stop.AtIter? && ExecLoop(owners, cond, iter, body, stop) == Stopped(p)
    decreases run, 1, 0
  {
    NoneInNothing(p);
    if run.Done? {
      RegionStop(owners, cond, p);
      stop := Pause;
    } else if GoesAround(owners, cond, iter, body, run) {
      stop := RoundStop(owners, cond, iter, body, run, p);
    } else {
      var head := RegionTrace(owners, cond) + Exec(owners, body, run.body).trace;
      assert head + [] == head;
      stop := HeadStop(owners, cond, iter, body, run, p);
    }
  }

  /** The run makes a whole round and comes back to the condition. */
  predicate GoesAround(owners: seq<Span>, cond: Option<Span>, iter: Option<Span>, body: Stmt, run: Run) {
    && run.Iterate? && !run.next.AtIter? && Exec(owners, body, run.body).Ended?
    && (Exec(owners, body, run.body).exit.Normal? || Exec(owners, body, run.body).exit.Continues?)
  }

  /** A visit in the condition or the body of the first round. */
  lemma {:induction false} HeadStop(owners: seq<Span>, cond: Option<Span>, iter: Option<Span>, body: Stmt, run: Run, p: Passage)
      returns (stop: Run)
    requires run.Iterate? && Exec(owners, body, run.body).Ended?
    requires Passes(RegionTrace(owners, cond) + Exec(owners, body, run.body).trace, p)
    ensures !stop.AtIter? && ExecLoop(owners, cond, iter, body, stop) == Stopped(p)
    decreases run, 0, 0
  {
    var c, t := RegionTrace(owners, cond), Exec(owners, body, run.body).trace;
    if |p.before| < |c| {
      var q := InFirst(c, t, p);
      RegionStop(owners, cond, q);
      stop := Pause;
    } else {
      var q := InSecond(c, t, p);
      var s := StopIn(owners, body, run.body, q);
      stop := Iterate(s, Done);
    }
  }

  lemma {:induction false} RoundStop(owners: seq<Span>, cond: Option<Span>, iter: Option<Span>, body: Stmt, run: Run, p: Passage)
      returns (stop: Run)
    requires ExecLoop(owners, cond, iter, body, run).Ended? && Passes(ExecLoop(owners, cond, iter, body, run).trace, p)
    requires GoesAround(owners, cond, iter, body, run)
    ensures !stop.AtIter? && ExecLoop(owners, cond, iter, body, stop) == Stopped(p)
    decreases run, 0, 1
  {
    var head, i := RegionTrace(owners, cond) + Exec(owners, body, run.body).trace, RegionTrace(owners, iter);
    var rest := ExecLoop(owners, cond, iter, body, run.next).trace;
    if |head + i| <= |p.before| {
      var q := InSecond(head + i, rest, p);
      var s := LoopStop(owners, cond, iter, body, run.next, q);
      stop := Iterate(run.body, s);
    } else {
      var q := InFirst(head + i, rest, p);
      if |head| <= |q.before| {
        var r := InSecond(head, i, q);
        RegionStop(owners, iter, r);
        stop := Iterate(run.body, AtIter);
      } else {
        var r := InFirst(head, i, q);
        stop := HeadStop(owners, cond, iter, body, run, r);
      }
    }
  }

  lemma {:induction false} DoWhileStop(owners: seq<Span>, body: Stmt, cond: Option<Span>, run: Run, p: Passage) returns (stop: Run)
    requires ExecDoWhile(owners, body, cond, run).Ended? && Passes(ExecDoWhile(owners, body, cond, run).trace, p)
    ensures stop.Iterate? && ExecDoWhile(owners, body, cond, stop) == Stopped(p)
    decreases run, 0, 2
  {
    var b := Exec(owners, body, run.body);
    if !(b.exit.Normal? || b.exit.Continues?) || run.next.Pause? {
      assert b.trace + [] == b.trace;
      stop := DoBodyStop(owners, body, cond, run, p);
    } else if run.next.Done? {
      stop := DoRoundStop(owners, body, cond, run, p);
    } else {
      var round, rest := b.trace + RegionTrace(owners, cond), ExecDoWhile(owners, body, cond, run.next).trace;
      if |p.before| < |round| {
        var q := InFirst(round, rest, p);
        stop := DoRoundStop(owners, body, cond, run, q);
      } else {
        var q := InSecond(round, rest, p);
        var s := DoWhileStop(owners, body, cond, run.next, q);
        stop := Iterate(run.body, s);
      }
    }
  }

  lemma {:induction false} DoBodyStop(owners: seq<Span>, body: Stmt, cond: Option<Span>, run: Run, p: Passage) returns (stop: Run)
    requires run.Iterate? && Exec(owners, body, run.body).Ended? && Passes(Exec(owners, body, run.body).trace, p)
    ensures stop.Iterate? && ExecDoWhile(owners, body, cond, stop) == Stopped(p)
    decreases run, 0, 0
  {
    var s := StopIn(owners, body, run.body, p);
    stop := Iterate(s, Done);
  }

  lemma {:induction false} DoRoundStop(owners: seq<Span>, body: Stmt, cond: Option<Span>, run: Run, p: Passage) returns (stop: Run)
    requires run.Iterate? && Exec(owners, body, run.body).Ended?
    requires Exec(owners, body, run.body).exit.Normal? || Exec(owners, body, run.body).exit.Continues?
    requires Passes(Exec(owners, body, run.body).trace + RegionTrace(owners, cond), p)
    ensures stop.Iterate? && ExecDoWhile(owners, body, cond, stop) == Stopped(p)
    decreases run, 0, 1
  {
    var b, c := Exec(owners, body, run.body).trace, RegionTrace(owners, cond);
    if |p.before| < |b| {
      var q := InFirst(b, c, p);
      stop := DoBodyStop(owners, body, cond, run, q);
    } else {
      var q := InSecond(b, c, p);
      RegionStop(owners, cond, q);
      stop := Iterate(run.body, Pause);
    }
  }

  /* Switch blocks. */

  /** The label whose value is tested there. */
  lemma {:induction false} TestedLabel(owners: seq<Span>, sections: seq<Section>, p: Passage) returns (at: nat)
    requires Passes(LabelTests(owners, sections), p)
    ensures at < |sections| && sections[at].CaseLabel?
    ensures Before(LabelTests(owners, sections[..at]), StopAt(sections[at].value)) == Stopped(p)
  {
    NoneInNothing(p);
    var first := if sections[0].CaseLabel? then RegionTrace(owners, sections[0].value) else [];
    var rest := LabelTests(owners, sections[1..]);
    if |p.before| < |first| {
      var q := InFirst(first, rest, p);
      RegionStop(owners, sections[0].value, q);
      assert sections[..0] == [];
      at := 0;
    } else {
      var q := InSecond(first, rest, p);
      var j := TestedLabel(owners, sections[1..], q);
      TestsBefore(owners, sections, j);
      at := j + 1;
    }
  }

  lemma TestsBefore(owners: seq<Span>, sections: seq<Section>, j: nat)
    requires j + 1 < |sections|
    ensures var first := if sections[0].CaseLabel? then RegionTrace(owners, sections[0].value) else [];
      LabelTests(owners, sections[..j + 1]) == first + LabelTests(owners, sections[1..][..j])
  {
    assert sections[..j + 1][1..] == sections[1..][..j];
  }

  lemma {:induction false} SwitchStmtStop(owners: seq<Span>, cond: Option<Span>, sections: seq<Section>, run: Run, p: Passage)
      returns (stop: Run)
    requires var o := Exec(owners, Switch(cond, sections), run); o.Ended? && Passes(o.trace, p)
    ensures Exec(owners, Switch(cond, sections), stop) == Stopped(p)
    decreases run, 1, 0
  {
    NoneInNothing(p);
    var c, t := RegionTrace(owners, cond), ExecSwitch(owners, sections, run).trace;
    if |p.before| < |c| {
      var q := InFirst(c, t, p);
      RegionStop(owners, cond, q);
      stop := Pause;
    } else {
      var q := InSecond(c, t, p);
      stop := SwitchStop(owners, sections, run, q);
    }
  }

  lemma {:induction false} SwitchStop(owners: seq<Span>, sections: seq<Section>, run: Run, p: Passage) returns (stop: Run)
    requires ExecSwitch(owners, sections, run).Ended? && Passes(ExecSwitch(owners, sections, run).trace, p)
    ensures !stop.Pause? && ExecSwitch(owners, sections, stop) == Stopped(p)
    decreases run, 0, |sections| + 1
  {
    if run.Enter? {
      var tested := if sections[run.at].CaseLabel? then sections[..run.at + 1] else sections;
      var tests, t := LabelTests(owners, tested), ExecSections(owners, sections[run.at + 1..], run.run).trace;
      if |p.before| < |tests| {
        var q := InFirst(tests, t, p);
        stop := TestStop(owners, sections, tested, q);
      } else {
        var q := InSecond(tests, t, p);
        var s := SectionsStop(owners, sections[run.at + 1..], run.run, q);
        stop := Enter(run.at, s);
      }
    } else {
      var tested := if run.AtLabel? then sections[..run.at] else sections;
      assert LabelTests(owners, tested) + [] == LabelTests(owners, tested);
      stop := TestStop(owners, sections, tested, p);
    }
  }

  lemma {:induction false} TestStop(owners: seq<Span>, sections: seq<Section>, tested: seq<Section>, p: Passage) returns (stop: Run)
    requires |tested| <= |sections| && tested == sections[..|tested|] && Passes(LabelTests(owners, tested), p)
    ensures stop.AtLabel? && ExecSwitch(owners, sections, stop) == Stopped(p)
  {
    var at := TestedLabel(owners, tested, p);
    assert tested[..at] == sections[..at];
    stop := AtLabel(at);
  }

  lemma {:induction false} SectionsStop(owners: seq<Span>, sections: seq<Section>, run: Run, p: Passage) returns (stop: Run)
    requires ExecSections(owners, sections, run).Ended? && Passes(ExecSections(owners, sections, run).trace, p)
    ensures ExecSections(owners, sections, stop) == Stopped(p)
    decreases run, 0, |sections|
  {
    NoneInNothing(p);
    if !sections[0].Code? {
      stop := SectionsStop(owners, sections[1..], run, p);
    } else {
      var o := Exec(owners, sections[0].stmt, run.first);
      if !o.exit.Normal? {
        var s := StopIn(owners, sections[0].stmt, run.first, p);
        stop := Chain(s, Done);
      } else {
        var t := ExecSections(owners, sections[1..], run.rest).trace;
        if |p.before| < |o.trace| {
          var q := InFirst(o.trace, t, p);
          var s := StopIn(owners, sections[0].stmt, run.first, q);
          stop := Chain(s, Done);
        } else {
          var q := InSecond(o.trace, t, p);
          var s := SectionsStop(owners, sections[1..], run.rest, q);
          stop := Chain(run.first, s);
        }
      }
    }
  }
}
