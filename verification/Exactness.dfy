/** The other half of soundness: where no part of the program is dead code, every definition in a recorded mask is brought to
    the read by some execution.  The mask is then exactly the meet over all paths. */
module Exactness {
  import opened Wrappers
  import opened Syntax
  import opened ReachingDefs
  import opened GenKill
  import opened Executions
  import opened Soundness

  /** No statement of a switch block sits behind a jump, and a loop that has something after its body can reach it. */
  ghost predicate AllAlive(owners: seq<Span>, stmt: Stmt, x: Span)
    decreases stmt, 1
  {
    match stmt
    case Block(stmts) => forall i :: 0 <= i < |stmts| ==> AllAlive(owners, stmts[i], x)
    case If(_, body, els) => AllAlive(owners, body, x) && AllAlive(owners, els, x)
    case While(_, body) => AllAlive(owners, body, x)
    case DoWhile(body, cond) => AllAlive(owners, body, x) && (cond.None? || Completes(owners, body, x))
    case For(_, _, iter, body) => AllAlive(owners, body, x) && (iter.None? || Completes(owners, body, x))
    case Switch(_, sections) => SectionsAlive(owners, sections, Dead, x)
    case Unmodelled(region) => !region.Contains(x)
    case _ => true
  }

  ghost predicate SectionsAlive(owners: seq<Span>, sections: seq<Section>, cur: Transfer, x: Span)
    decreases sections, 0
  {
    sections == []
    || if sections[0].Code? then
         assert sections[0].stmt < sections[0];
         && cur.Live?
         && AllAlive(owners, sections[0].stmt, x)
         && SectionsAlive(owners, sections[1..], After(cur, Summarize(owners, sections[0].stmt, x).normal), x)
       else SectionsAlive(owners, sections[1..], Join(cur, Id), x)
  }

  function Ends(s: Summary): Transfer {
    Join(s.normal, s.continues)
  }

  /** A loop body can hand control back to its loop. */
  predicate Completes(owners: seq<Span>, body: Stmt, x: Span) {
    Ends(Summarize(owners, body, x)).Live?
  }

  /** One of the ways out that a summary describes. */
  datatype Way = ToNormal | ToBreak | ToContinue | ToReturn | ToRead

  function Channel(s: Summary, way: Way): Transfer {
    match way
    case ToNormal => s.normal
    case ToBreak => s.breaks
    case ToContinue => s.continues
    case ToReturn => s.returned
    case ToRead => s.read
  }

  predicate Takes(exit: Exit, way: Way, x: Span) {
    match way
    case ToNormal => exit.Normal?
    case ToBreak => exit.Breaks?
    case ToContinue => exit.Continues?
    case ToReturn => exit.Returns?
    case ToRead => exit.Reading? && exit.region.Contains(x)
  }

  /** `t` promises an execution whose last definition is `want`, or one without definitions if `want` is `None`. */
  predicate Offers(t: Transfer, want: Option<nat>) {
    t.Live? && if want.Some? then want.value in t.gen else t.keeps
  }

  ghost predicate Delivers(trace: seq<Event>, want: Option<nat>) {
    if want.Some? then LastDef(trace, None) == want else NoDefs(trace)
  }

  ghost predicate Fulfils(o: Outcome, way: Way, want: Option<nat>, x: Span) {
    o.Ended? && Takes(o.exit, way, x) && Delivers(o.trace, want)
  }

  function Over(later: Option<nat>, earlier: Option<nat>): Option<nat> {
    if later.Some? then later else earlier
  }

  /* Traces in sequence. */

  lemma {:induction false} LastDefIgnoresPast(trace: seq<Event>, before: Option<nat>)
    requires LastDef(trace, None).Some?
    ensures LastDef(trace, before) == LastDef(trace, None)
  {
    if trace != [] && !trace[|trace| - 1].Def? {
      LastDefIgnoresPast(trace[..|trace| - 1], before);
    }
  }

  lemma DeliversConcat(a: seq<Event>, wa: Option<nat>, b: seq<Event>, wb: Option<nat>)
    requires Delivers(a, wa) && Delivers(b, wb)
    ensures Delivers(a + b, Over(wb, wa))
  {
    LastDefConcat(a, b, None);
    if wb.Some? {
      LastDefIgnoresPast(b, LastDef(a, None));
    } else {
      NoDefsKeeps(b, LastDef(a, None));
    }
  }

  lemma CleanIsSilent(owners: seq<Span>, region: Option<Span>)
    requires Clean(owners, region)
    ensures Delivers(RegionTrace(owners, region), None)
  {
  }

  lemma RegionDelivers(owners: seq<Span>, region: Option<Span>, want: Option<nat>)
    requires Offers(Gen(owners, region), want)
    ensures Delivers(RegionTrace(owners, region), want)
  {
    if region.Some? {
      LastOfRegion(owners, region.value, None);
      LastOfSorted(owners, region.value, |owners|);
    }
  }

  /* Every live summary offers something. */

  predicate Proper(t: Transfer) {
    t.Live? ==> t.keeps || t.gen != {}
  }

  ghost predicate ProperSummary(s: Summary) {
    Proper(s.normal) && Proper(s.breaks) && Proper(s.continues) && Proper(s.returned) && Proper(s.read)
  }

  lemma {:induction false} SummariesProper(owners: seq<Span>, stmt: Stmt, x: Span)
    ensures ProperSummary(Summarize(owners, stmt, x))
    decreases stmt, 1
  {
    match stmt
    case Block(stmts) => BlockProper(owners, stmts, x);
    case If(_, body, els) =>
      SummariesProper(owners, body, x);
      SummariesProper(owners, els, x);
    case While(cond, body) =>
      SummariesProper(owners, body, x);
      LoopProper(owners, None, cond, None, Summarize(owners, body, x), x);
    case DoWhile(body, _) =>
      SummariesProper(owners, body, x);
      DoWhileProper(owners, stmt, x);
    case For(init, cond, iter, body) =>
      SummariesProper(owners, body, x);
      LoopProper(owners, init, cond, iter, Summarize(owners, body, x), x);
    case Switch(_, sections) => SectionsProper(owners, sections, Dead, x);
    case Unmodelled(_) => assert 0 in AllBits();
    case _ =>
  }

  lemma {:induction false} LoopProper(owners: seq<Span>, init: Option<Span>, cond: Option<Span>, iter: Option<Span>, b: Summary, x: Span)
    requires ProperSummary(b)
    ensures ProperSummary(SummarizeLoop(owners, init, cond, iter, b, x))
  {
  }

  lemma {:induction false} DoWhileProper(owners: seq<Span>, stmt: Stmt, x: Span)
    requires stmt.DoWhile? && ProperSummary(Summarize(owners, stmt.body, x))
    ensures ProperSummary(Summarize(owners, stmt, x))
  {
  }

  lemma {:induction false} BlockProper(owners: seq<Span>, stmts: seq<Stmt>, x: Span)
    ensures ProperSummary(SummarizeBlock(owners, stmts, x))
    decreases stmts, 0
  {
    if stmts == [] {
    } else {
      SummariesProper(owners, stmts[0], x);
      BlockProper(owners, stmts[1..], x);
    }
  }

  lemma {:induction false} SectionsProper(owners: seq<Span>, sections: seq<Section>, cur: Transfer, x: Span)
    requires Proper(cur)
    ensures ProperSummary(SummarizeSections(owners, sections, cur, x))
    decreases sections, 0
  {
    if sections == [] {
    } else if sections[0].Code? {
      assert sections[0].stmt < sections[0];
      SummariesProper(owners, sections[0].stmt, x);
      SectionsProper(owners, sections[1..], After(Or(cur, Id), Summarize(owners, sections[0].stmt, x).normal), x);
    } else {
      SectionsProper(owners, sections[1..], Join(cur, Id), x);
    }
  }

  lemma SomeOffer(t: Transfer) returns (want: Option<nat>)
    requires t.Live? && Proper(t)
    ensures Offers(t, want)
  {
    if t.keeps {
      want := None;
    } else {
      var i :| i in t.gen;
      want := Some(i);
    }
  }

  /** What a composition offers comes from its second part, or from its first part through the second. */
  lemma SplitOffer(a: Transfer, b: Transfer, want: Option<nat>) returns (wa: Option<nat>, wb: Option<nat>)
    requires Offers(After(a, b), want) && Proper(a)
    ensures Offers(a, wa) && Offers(b, wb) && Over(wb, wa) == want
  {
    if want.Some? && want.value in b.gen {
      wb := want;
      wa := SomeOffer(a);
    } else {
      wa, wb := want, None;
    }
  }

  /* From an offer to an execution. */

  lemma {:induction false} Deliver(owners: seq<Span>, stmt: Stmt, x: Span, way: Way, want: Option<nat>) returns (run: Run)
    requires Modelled(owners, stmt) && AllAlive(owners, stmt, x)
    requires Offers(Channel(Summarize(owners, stmt, x), way), want)
    ensures Fulfils(Exec(owners, stmt, run), way, want, x)
    decreases stmt, 1
  {
    match stmt
    case Block(stmts) => run := DeliverBlock(owners, stmts, x, way, want);
    case Leaf(region) => run := DeliverRegion(owners, region, x, way, want, ToNormal);
    case Return(region) => run := DeliverRegion(owners, region, x, way, want, ToReturn);
    case Break => run := Done;
    case Continue => run := Done;
    case Nop => run := Done;
    case If(cond, body, els) =>
      CleanIsSilent(owners, cond);
      if way.ToRead? && Offers(Seen(cond, x, Id), want) {
        run := Pause;
      } else if Offers(Channel(Summarize(owners, body, x), way), want) {
        var r := Deliver(owners, body, x, way, want);
        DeliversConcat(RegionTrace(owners, cond), None, Exec(owners, body, r).trace, want);
        run := Left(r);
      } else {
        var r := Deliver(owners, els, x, way, want);
        DeliversConcat(RegionTrace(owners, cond), None, Exec(owners, els, r).trace, want);
        run := Right(r);
      }
    case While(cond, body) =>
      run := DeliverLoop(owners, None, cond, None, body, x, way, want);
      assert [] + ExecLoop(owners, cond, None, body, run).trace == ExecLoop(owners, cond, None, body, run).trace;
    case DoWhile(body, cond) => run := DeliverDoWhile(owners, body, cond, x, way, want);
    case For(init, cond, iter, body) =>
      if way.ToRead? && Offers(Seen(init, x, Id), want) {
        run := Pause;
      } else {
        run := DeliverLoop(owners, init, cond, iter, body, x, way, want);
        run := Begin(run);
      }
    case Switch(cond, sections) => run := DeliverSwitch(owners, cond, sections, x, way, want);
    case Unmodelled(region) =>
      CleanIsSilent(owners, Some(region));
      run := Done;
  }

  lemma DeliverRegion(owners: seq<Span>, region: Span, x: Span, way: Way, want: Option<nat>, done: Way) returns (run: Run)
    requires done.ToNormal? || done.ToReturn?
    requires Offers(if way == done then Gen(owners, Some(region)) else if way.ToRead? then Seen(Some(region), x, Id) else Dead, want)
    ensures Fulfils(ExecRegion(owners, region, run, if done.ToNormal? then Normal else Returns), way, want, x)
  {
    if way == done {
      RegionDelivers(owners, Some(region), want);
      run := Done;
    } else {
      run := Pause;
    }
  }

  lemma {:induction false} DeliverBlock(owners: seq<Span>, stmts: seq<Stmt>, x: Span, way: Way, want: Option<nat>) returns (run: Run)
    requires forall i :: 0 <= i < |stmts| ==> Modelled(owners, stmts[i]) && AllAlive(owners, stmts[i], x)
    requires Offers(Channel(SummarizeBlock(owners, stmts, x), way), want)
    ensures Fulfils(ExecBlock(owners, stmts, run), way, want, x)
    decreases stmts, 0
  {
    if stmts == [] {
      run := Done;
    } else {
      var f, g := Summarize(owners, stmts[0], x), SummarizeBlock(owners, stmts[1..], x);
      if !way.ToNormal? && Offers(Channel(f, way), want) {
        var r := Deliver(owners, stmts[0], x, way, want);
        run := Chain(r, Done);
      } else {
        SummariesProper(owners, stmts[0], x);
        var wf, wg := SplitOffer(f.normal, Channel(g, way), want);
        var r := Deliver(owners, stmts[0], x, ToNormal, wf);
        var rest := DeliverBlock(owners, stmts[1..], x, way, wg);
        DeliversConcat(Exec(owners, stmts[0], r).trace, wf, ExecBlock(owners, stmts[1..], rest).trace, wg);
        run := Chain(r, rest);
      }
    }
  }

  /** What the header of a loop offers arrives there either directly or after one round. */
  datatype Arrival = Direct | Round(body: Run, way: Way, want: Option<nat>, iter: Option<nat>)

  lemma {:induction false} Arrive(owners: seq<Span>, init: Option<Span>, iter: Option<Span>, body: Stmt, x: Span, want: Option<nat>)
      returns (start: Option<nat>, arrival: Arrival)
    requires Modelled(owners, body) && AllAlive(owners, body, x)
    requires iter.None? || Completes(owners, body, x)
    requires Offers(LoopHeader(owners, init, iter, Summarize(owners, body, x)), want)
    ensures Offers(Gen(owners, init), start)
    ensures match arrival
      case Direct => start == want
      case Round(r, way, wb, wi) =>
        && (way.ToNormal? || way.ToContinue?) && Fulfils(Exec(owners, body, r), way, wb, x)
        && Offers(Gen(owners, iter), wi) && Over(wi, Over(wb, start)) == want
    decreases body, 2
  {
    var b := Summarize(owners, body, x);
    var entry := Gen(owners, init);
    if Offers(entry, want) {
      start, arrival := want, Direct;
    } else if Ends(b).Dead? {
      assert false;
    } else {
      SummariesProper(owners, body, x);
      var w, wi := SplitOffer(After(entry, Ends(b)), Gen(owners, iter), want);
      var s, wb := SplitOffer(entry, Ends(b), w);
      var way := if Offers(b.normal, wb) then ToNormal else ToContinue;
      var r := Deliver(owners, body, x, way, wb);
      start, arrival := s, Round(r, way, wb, wi);
    }
  }

  /** Continue a loop from its header: `next` runs on from the point where the header's offer has arrived. */
  function ViaHeader(arrival: Arrival, next: Run): Run {
    if arrival.Direct? then next else Iterate(arrival.body, next)
  }

  lemma {:induction false} HeaderDelivers(owners: seq<Span>, init: Option<Span>, cond: Option<Span>, iter: Option<Span>, body: Stmt, x: Span,
                       start: Option<nat>, arrival: Arrival, want: Option<nat>, next: Run, way: Way, later: Option<nat>)
    requires Clean(owners, cond)
    requires Offers(Gen(owners, init), start)
    requires match arrival
      case Direct => start == want
      case Round(r, w, wb, wi) =>
        && (w.ToNormal? || w.ToContinue?) && Fulfils(Exec(owners, body, r), w, wb, x)
        && Offers(Gen(owners, iter), wi) && Over(wi, Over(wb, start)) == want
    requires !next.AtIter? && Fulfils(ExecLoop(owners, cond, iter, body, next), way, later, x)
    ensures Fulfils(Before(RegionTrace(owners, init), ExecLoop(owners, cond, iter, body, ViaHeader(arrival, next))), way, Over(later, want), x)
  {
    RegionDelivers(owners, init, start);
    var o, latest := ExecLoop(owners, cond, iter, body, next), later;
    if arrival.Round? {
      RoundDelivers(owners, cond, iter, body, x, arrival, next, way, later);
      o := ExecLoop(owners, cond, iter, body, Iterate(arrival.body, next));
      latest := Over(later, Over(arrival.iter, arrival.want));
    }
    DeliversConcat(RegionTrace(owners, init), start, o.trace, latest);
  }

  /** One more round in front of a loop's run. */
  lemma {:induction false} RoundDelivers(owners: seq<Span>, cond: Option<Span>, iter: Option<Span>, body: Stmt, x: Span,
                                         round: Arrival, next: Run, way: Way, later: Option<nat>)
    requires Clean(owners, cond) && round.Round? && (round.way.ToNormal? || round.way.ToContinue?)
    requires Fulfils(Exec(owners, body, round.body), round.way, round.want, x) && Offers(Gen(owners, iter), round.iter)
    requires !next.AtIter? && Fulfils(ExecLoop(owners, cond, iter, body, next), way, later, x)
    ensures Fulfils(ExecLoop(owners, cond, iter, body, Iterate(round.body, next)), way, Over(later, Over(round.iter, round.want)), x)
  {
    var c, t, i := RegionTrace(owners, cond), Exec(owners, body, round.body).trace, RegionTrace(owners, iter);
    CleanIsSilent(owners, cond);
    RegionDelivers(owners, iter, round.iter);
    DeliversConcat(c, None, t, round.want);
    DeliversConcat(c + t, round.want, i, round.iter);
    DeliversConcat(c + t + i, Over(round.iter, round.want), ExecLoop(owners, cond, iter, body, next).trace, later);
  }

  /** The last round of a loop that leaves through its body. */
  lemma {:induction false} LeaveFromBody(owners: seq<Span>, cond: Option<Span>, iter: Option<Span>, body: Stmt, x: Span,
                                         inner: Way, want: Option<nat>) returns (run: Run)
    requires Clean(owners, cond) && Modelled(owners, body) && AllAlive(owners, body, x)
    requires inner.ToBreak? || inner.ToReturn? || inner.ToRead?
    requires Offers(Channel(Summarize(owners, body, x), inner), want)
    ensures !run.AtIter? && Fulfils(ExecLoop(owners, cond, iter, body, run), if inner.ToBreak? then ToNormal else inner, want, x)
    decreases body, 2
  {
    CleanIsSilent(owners, cond);
    var r := Deliver(owners, body, x, inner, want);
    DeliversConcat(RegionTrace(owners, cond), None, Exec(owners, body, r).trace, want);
    run := Iterate(r, Done);
  }

  /** The last round of a loop that stops before the iteration part. */
  lemma {:induction false} StopAtIter(owners: seq<Span>, cond: Option<Span>, iter: Option<Span>, body: Stmt, x: Span, want: Option<nat>)
      returns (run: Run)
    requires Clean(owners, cond) && Modelled(owners, body) && AllAlive(owners, body, x)
    requires iter.Some? && iter.value.Contains(x)
    requires Offers(Ends(Summarize(owners, body, x)), want)
    ensures !run.AtIter? && Fulfils(ExecLoop(owners, cond, iter, body, run), ToRead, want, x)
    decreases body, 2
  {
    CleanIsSilent(owners, cond);
    var way := if Offers(Summarize(owners, body, x).normal, want) then ToNormal else ToContinue;
    var r := Deliver(owners, body, x, way, want);
    DeliversConcat(RegionTrace(owners, cond), None, Exec(owners, body, r).trace, want);
    StopsAtIter(owners, cond, iter, body, r);
    run := Iterate(r, AtIter);
  }

  lemma StopsAtIter(owners: seq<Span>, cond: Option<Span>, iter: Option<Span>, body: Stmt, r: Run)
    requires iter.Some? && Exec(owners, body, r).Ended? && (Exec(owners, body, r).exit.Normal? || Exec(owners, body, r).exit.Continues?)
    ensures ExecLoop(owners, cond, iter, body, Iterate(r, AtIter))
         == Ended(RegionTrace(owners, cond) + Exec(owners, body, r).trace, Reading(iter.value))
  {
    var t := RegionTrace(owners, cond) + Exec(owners, body, r).trace;
    assert t + [] == t;
  }

  /** How the loop is left once its header has been reached with `atHeader`. */
  lemma {:induction false} LastRound(owners: seq<Span>, init: Option<Span>, cond: Option<Span>, iter: Option<Span>, body: Stmt, x: Span,
                                     way: Way, want: Option<nat>) returns (atHeader: Option<nat>, later: Option<nat>, next: Run)
    requires Clean(owners, cond) && Modelled(owners, body) && AllAlive(owners, body, x)
    requires iter.None? || Completes(owners, body, x)
    requires Offers(Channel(SummarizeLoop(owners, init, cond, iter, Summarize(owners, body, x), x), way), want)
    requires way.ToRead? ==> !Offers(Seen(init, x, Id), want)
    ensures Offers(LoopHeader(owners, init, iter, Summarize(owners, body, x)), atHeader) && Over(later, atHeader) == want
    ensures !next.AtIter? && Fulfils(ExecLoop(owners, cond, iter, body, next), way, later, x)
    decreases body, 3
  {
    var b := Summarize(owners, body, x);
    var header := LoopHeader(owners, init, iter, b);
    SummariesProper(owners, body, x);
    HeaderProper(owners, init, iter, b);
    if way.ToNormal? && Offers(header, want) {
      CleanIsSilent(owners, cond);
      atHeader, later, next := want, None, Done;
    } else if way.ToRead? && Offers(Seen(cond, x, header), want) {
      atHeader, later, next := want, None, Pause;
    } else if way.ToRead? && Offers(Seen(iter, x, Or(After(header, Ends(b)), header)), want) {
      atHeader, later := SplitOffer(header, Ends(b), want);
      next := StopAtIter(owners, cond, iter, body, x, later);
    } else {
      var inner := if way.ToNormal? then ToBreak else way;
      atHeader, later := SplitOffer(header, Channel(b, inner), want);
      next := LeaveFromBody(owners, cond, iter, body, x, inner, later);
    }
  }

  lemma HeaderProper(owners: seq<Span>, init: Option<Span>, iter: Option<Span>, b: Summary)
    requires ProperSummary(b)
    ensures Proper(LoopHeader(owners, init, iter, b))
  {
    assert Proper(Gen(owners, init)) && Proper(Gen(owners, iter));
  }

  /** A run of a loop, from its init part on, that keeps the offer of the loop's summary. */
  lemma {:induction false} DeliverLoop(owners: seq<Span>, init: Option<Span>, cond: Option<Span>, iter: Option<Span>, body: Stmt, x: Span,
                                       way: Way, want: Option<nat>) returns (run: Run)
    requires Clean(owners, cond) && Modelled(owners, body) && AllAlive(owners, body, x)
    requires iter.None? || Completes(owners, body, x)
    requires Offers(Channel(SummarizeLoop(owners, init, cond, iter, Summarize(owners, body, x), x), way), want)
    requires way.ToRead? ==> !Offers(Seen(init, x, Id), want)
    ensures Fulfils(Before(RegionTrace(owners, init), ExecLoop(owners, cond, iter, body, run)), way, want, x)
    decreases body, 4
  {
    var atHeader, later, next := LastRound(owners, init, cond, iter, body, x, way, want);
    var start, arrival := Arrive(owners, init, iter, body, x, atHeader);
    HeaderDelivers(owners, init, cond, iter, body, x, start, arrival, atHeader, next, way, later);
    run := ViaHeader(arrival, next);
  }

  lemma {:induction false} DeliverDoWhile(owners: seq<Span>, body: Stmt, cond: Option<Span>, x: Span, way: Way, want: Option<nat>)
      returns (run: Run)
    requires Modelled(owners, DoWhile(body, cond)) && AllAlive(owners, DoWhile(body, cond), x)
    requires Offers(Channel(Summarize(owners, DoWhile(body, cond), x), way), want)
    ensures Fulfils(ExecDoWhile(owners, body, cond, run), way, want, x)
    decreases body, 3
  {
    var b := Summarize(owners, body, x);
    var entry := Join(Id, Ends(b));
    SummariesProper(owners, body, x);
    // The last round, and the offer of the loop's entry that it builds on.
    var atEntry: Option<nat>, later: Option<nat>, last: Run;
    if way.ToRead? && Offers(Seen(cond, x, Or(After(entry, Ends(b)), entry)), want) {
      atEntry, later := SplitOffer(entry, Ends(b), want);
      var bodyWay := if Offers(b.normal, later) then ToNormal else ToContinue;
      var r := Deliver(owners, body, x, bodyWay, later);
      assert Exec(owners, body, r).trace + [] == Exec(owners, body, r).trace;
      last := Iterate(r, Pause);
    } else {
      var inner := if !way.ToNormal? then way else if Offers(After(entry, b.normal), want) then ToNormal else ToBreak;
      atEntry, later := SplitOffer(entry, Channel(b, inner), want);
      var r := Deliver(owners, body, x, inner, later);
      LastDoRound(owners, body, cond, x, inner, later, r);
      last := Iterate(r, Done);
    }
    if atEntry == None {
      run := last;
    } else {
      var bodyWay := if Offers(b.normal, atEntry) then ToNormal else ToContinue;
      var r := Deliver(owners, body, x, bodyWay, atEntry);
      EarlierDoRound(owners, body, cond, x, way, atEntry, later, bodyWay, r, last);
      run := Iterate(r, last);
    }
  }

  /** A do-while whose body ends one way and whose condition is then false. */
  lemma {:induction false} LastDoRound(owners: seq<Span>, body: Stmt, cond: Option<Span>, x: Span, inner: Way, later: Option<nat>, r: Run)
    requires Clean(owners, cond) && Fulfils(Exec(owners, body, r), inner, later, x)
    ensures var way := if inner.ToNormal? || inner.ToContinue? || inner.ToBreak? then ToNormal else inner;
      Fulfils(ExecDoWhile(owners, body, cond, Iterate(r, Done)), way, later, x)
  {
    CleanIsSilent(owners, cond);
    DeliversConcat(Exec(owners, body, r).trace, later, RegionTrace(owners, cond), None);
  }

  /** And one whose body comes to its end before the rounds of `last`. */
  lemma {:induction false} EarlierDoRound(owners: seq<Span>, body: Stmt, cond: Option<Span>, x: Span, way: Way, atEntry: Option<nat>,
                       later: Option<nat>, bodyWay: Way, r: Run, last: Run)
    requires Clean(owners, cond) && (bodyWay.ToNormal? || bodyWay.ToContinue?)
    requires Fulfils(Exec(owners, body, r), bodyWay, atEntry, x)
    requires Fulfils(ExecDoWhile(owners, body, cond, last), way, later, x)
    ensures Fulfils(ExecDoWhile(owners, body, cond, Iterate(r, last)), way, Over(later, atEntry), x)
  {
    CleanIsSilent(owners, cond);
    var t, c := Exec(owners, body, r).trace, RegionTrace(owners, cond);
    DeliversConcat(t, atEntry, c, None);
    DeliversConcat(t + c, atEntry, ExecDoWhile(owners, body, cond, last).trace, later);
  }

  /* Switch blocks. */

  /** How an offer of a switch block is met: falling through from before these sections, jumping to a label, or testing
      the value of a label. */
  datatype Route = Fall(before: Option<nat>, inside: Option<nat>, run: Run) | Jump(at: nat, run: Run) | Test(at: nat)

  ghost predicate Leads(owners: seq<Span>, sections: seq<Section>, cur: Transfer, x: Span, way: Way, want: Option<nat>, route: Route) {
    match route
    case Fall(before, inside, run) =>
      Offers(cur, before) && Fulfils(ExecSections(owners, sections, run), way, inside, x) && Over(inside, before) == want
    case Jump(at, run) =>
      at < |sections| && !sections[at].Code? && Fulfils(ExecSections(owners, sections[at + 1..], run), way, want, x)
    case Test(at) =>
      at < |sections| && sections[at].CaseLabel? && way.ToRead? && want.None?
      && sections[at].value.Some? && sections[at].value.value.Contains(x)
  }

  lemma {:induction false} FindRoute(owners: seq<Span>, sections: seq<Section>, cur: Transfer, x: Span, way: Way, want: Option<nat>)
      returns (route: Route)
    requires ModelledSections(owners, sections) && SectionsAlive(owners, sections, cur, x) && Proper(cur)
    requires Offers(Channel(SummarizeSections(owners, sections, cur, x), way), want)
    ensures Leads(owners, sections, cur, x, way, want, route)
    decreases sections, 0
  {
    if sections == [] {
      route := Fall(want, None, Done);
    } else if sections[0].Code? {
      var stmt := sections[0].stmt;
      assert stmt < sections[0];
      var f := Summarize(owners, stmt, x);
      SummariesProper(owners, stmt, x);
      var g := SummarizeSections(owners, sections[1..], After(cur, f.normal), x);
      if !way.ToNormal? && Offers(After(cur, Channel(f, way)), want) {
        var before, inside := SplitOffer(cur, Channel(f, way), want);
        var r := Deliver(owners, stmt, x, way, inside);
        route := Fall(before, inside, Chain(r, Done));
      } else {
        var rest := FindRoute(owners, sections[1..], After(cur, f.normal), x, way, want);
        route := RouteThroughCode(owners, sections, cur, x, way, want, rest);
      }
    } else if sections[0].CaseLabel? && way.ToRead? && Offers(Seen(sections[0].value, x, Id), want) {
      route := Test(0);
    } else {
      var rest := FindRoute(owners, sections[1..], Join(cur, Id), x, way, want);
      route := RouteThroughLabel(owners, sections, cur, x, way, want, rest);
    }
  }

  lemma RouteThroughLabel(owners: seq<Span>, sections: seq<Section>, cur: Transfer, x: Span, way: Way, want: Option<nat>,
                          rest: Route) returns (route: Route)
    requires sections != [] && !sections[0].Code?
    requires Leads(owners, sections[1..], Join(cur, Id), x, way, want, rest)
    ensures Leads(owners, sections, cur, x, way, want, route)
  {
    match rest
    case Fall(before, inside, r) =>
      if Offers(cur, before) {
        route := rest;
      } else {
        assert before == None;
        route := Jump(0, r);
      }
    case Jump(at, r) =>
      assert sections[1..][at + 1..] == sections[at + 2..];
      route := Jump(at + 1, r);
    case Test(at) => route := Test(at + 1);
  }

  lemma {:induction false} RouteThroughCode(owners: seq<Span>, sections: seq<Section>, cur: Transfer, x: Span, way: Way, want: Option<nat>,
                         rest: Route) returns (route: Route)
    requires sections != [] && sections[0].Code? && ModelledSections(owners, sections) && Proper(cur)
    requires AllAlive(owners, sections[0].stmt, x)
    requires Leads(owners, sections[1..], After(cur, Summarize(owners, sections[0].stmt, x).normal), x, way, want, rest)
    ensures Leads(owners, sections, cur, x, way, want, route)
    decreases sections[0].stmt, 2
  {
    var stmt := sections[0].stmt;
    match rest
    case Fall(before, inside, r) =>
      var b, w := SplitOffer(cur, Summarize(owners, stmt, x).normal, before);
      var first := Deliver(owners, stmt, x, ToNormal, w);
      DeliversConcat(Exec(owners, stmt, first).trace, w, ExecSections(owners, sections[1..], r).trace, inside);
      route := Fall(b, Over(inside, w), Chain(first, r));
    case Jump(at, r) =>
      assert sections[1..][at + 1..] == sections[at + 2..];
      route := Jump(at + 1, r);
    case Test(at) => route := Test(at + 1);
  }

  lemma {:induction false} LabelTestsSilent(owners: seq<Span>, sections: seq<Section>)
    requires ModelledSections(owners, sections)
    ensures Delivers(LabelTests(owners, sections), None)
  {
    if sections == [] {
    } else {
      if sections[0].CaseLabel? {
        CleanIsSilent(owners, sections[0].value);
      }
      LabelTestsSilent(owners, sections[1..]);
    }
  }

  lemma {:induction false} DeliverSwitch(owners: seq<Span>, cond: Option<Span>, sections: seq<Section>, x: Span, way: Way, want: Option<nat>)
      returns (run: Run)
    requires Modelled(owners, Switch(cond, sections)) && AllAlive(owners, Switch(cond, sections), x)
    requires Offers(Channel(Summarize(owners, Switch(cond, sections), x), way), want)
    ensures Fulfils(Exec(owners, Switch(cond, sections), run), way, want, x)
    decreases sections, 1
  {
    var b := SummarizeSections(owners, sections, Dead, x);
    CleanIsSilent(owners, cond);
    if way.ToRead? && Offers(Seen(cond, x, Id), want) {
      run := Pause;
    } else if way.ToNormal? && !HasDefault(sections) && want.None? {
      LabelTestsSilent(owners, sections);
      DeliversConcat(RegionTrace(owners, cond), None, LabelTests(owners, sections), None);
      run := Done;
    } else {
      var inner := if way.ToNormal? && Offers(b.breaks, want) then ToBreak else way;
      var route := FindRoute(owners, sections, Dead, x, inner, want);
      run := TakeRoute(owners, sections, x, inner, want, route);
      DeliversConcat(RegionTrace(owners, cond), None, ExecSwitch(owners, sections, run).trace, want);
    }
  }

  lemma {:induction false} TakeRoute(owners: seq<Span>, sections: seq<Section>, x: Span, inner: Way, want: Option<nat>, route: Route) returns (run: Run)
    requires ModelledSections(owners, sections)
    requires Leads(owners, sections, Dead, x, inner, want, route)
    ensures Fulfils(ExecSwitch(owners, sections, run), if inner.ToBreak? then ToNormal else inner, want, x) && !run.Pause?
  {
    match route
    case Jump(at, r) =>
      var tested := if sections[at].CaseLabel? then sections[..at + 1] else sections;
      LabelTestsSilent(owners, tested);
      DeliversConcat(LabelTests(owners, tested), None, ExecSections(owners, sections[at + 1..], r).trace, want);
      run := Enter(at, r);
    case Test(at) =>
      LabelTestsSilent(owners, sections[..at]);
      DeliversConcat(LabelTests(owners, sections[..at]), None, [], None);
      run := AtLabel(at);
  }

  /* The main results. */

  /** Some execution of `body` stops before a region that holds read `x` with definition `i` in force. */
  ghost predicate SomeExecutionBrings(owners: seq<Span>, body: seq<Stmt>, x: Span, i: nat) {
    exists run: Run :: BringsTo(Exec(owners, Block(body), run), x, i)
  }

  ghost predicate BringsTo(o: Outcome, x: Span, i: nat) {
    o.Ended? && o.exit.Reading? && o.exit.region.Contains(x) && LastDef(o.trace, None) == Some(i)
  }

  /** The mask recorded for a read is the set of definitions that executions bring to it. */
  lemma {:induction false} MaskIsMeetOverAllPaths(owners: seq<Span>, body: seq<Stmt>, x: Span, i: nat)
    requires |owners| <= MAX_DEFS
    requires Modelled(owners, Block(body)) && AllAlive(owners, Block(body), x)
    ensures i in MarkOfBlock(owners, body, {}, x) <==> SomeExecutionBrings(owners, body, x, i)
  {
    SummaryDescribesWalk(owners, Block(body), {}, x);
    if i in MarkOfBlock(owners, body, {}, x) {
      var run := Deliver(owners, Block(body), x, ToRead, Some(i));
      assert BringsTo(Exec(owners, Block(body), run), x, i);
    }
    if SomeExecutionBrings(owners, body, x, i) {
      var run :| BringsTo(Exec(owners, Block(body), run), x, i);
      ExecutionAccounted(owners, Block(body), run, {}, None, x);
    }
  }
}
