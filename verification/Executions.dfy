/** What statement trees do when they run, independently of the analysis: control takes any branch at any condition, and an
    execution is the list of regions it evaluates and of definitions that take effect. */
module Executions {
  import opened Wrappers
  import opened Syntax
  import opened ReachingDefs

  /** A region is about to be evaluated; or a definition made in that region has taken effect. */
  datatype Event = Visit(region: Span) | Def(index: nat, region: Span)

  /** How an execution of a statement ends.  `Reading(region)` is an execution stopped just before it evaluates `region`;
      every point of every execution, finite or not, is such a stop. */
  datatype Exit = Normal | Breaks | Continues | Returns | Reading(region: Span)

  datatype Outcome = Stuck | Ended(trace: seq<Event>, exit: Exit)

  /** The choices that make up one execution. */
  datatype Run =
    | Pause                         // stop before the first region
    | Done                          // run to the end
    | Chain(first: Run, rest: Run)  // the first of several statements, then the others
    | Left(run: Run)                // the branch of an `if` taken when its condition holds
    | Right(run: Run)               // the other branch
    | Begin(run: Run)               // past the init part of a `for` loop
    | Iterate(body: Run, next: Run) // once through a loop body, then on
    | AtIter                        // stop before the iteration part of a `for` loop
    | Enter(at: nat, run: Run)   // enter a switch block at one of its labels
    | AtLabel(at: nat)           // stop before the value of a case label

  /** The definition in force after a trace. */
  function LastDef(trace: seq<Event>, before: Option<nat>): Option<nat> {
    if trace == [] then before
    else if trace[|trace| - 1].Def? then Some(trace[|trace| - 1].index)
    else LastDef(trace[..|trace| - 1], before)
  }

  /** The definitions in `region` among the first `n`, in the order of the text. */
  function DefsIn(owners: seq<Span>, region: Span, n: nat): (r: seq<Event>)
    requires n <= |owners|
    ensures forall k :: 0 <= k < |r| ==> r[k].Def? && r[k].index < n && region.Contains(owners[r[k].index]) && r[k].region == region
  {
    if n == 0 then []
    else if region.Contains(owners[n - 1]) then InsertDef(owners, DefsIn(owners, region, n - 1), Def(n - 1, region))
    else DefsIn(owners, region, n - 1)
  }

  function InsertDef(owners: seq<Span>, sorted: seq<Event>, def: Event): (r: seq<Event>)
    requires def.Def? && def.index < |owners|
    requires forall k :: 0 <= k < |sorted| ==> sorted[k].Def? && sorted[k].index < |owners|
    ensures |r| == |sorted| + 1
    ensures forall k :: 0 <= k < |r| ==> r[k] == def || r[k] in sorted
  {
    if sorted == [] || owners[sorted[|sorted| - 1].index].start <= owners[def.index].start then sorted + [def]
    else InsertDef(owners, sorted[..|sorted| - 1], def) + [sorted[|sorted| - 1]]
  }

  /** Evaluating a region: its reads happen first, then its definitions take effect. */
  function RegionTrace(owners: seq<Span>, region: Option<Span>): seq<Event> {
    match region
    case Some(r) => [Visit(r)] + DefsIn(owners, r, |owners|)
    case None => []
  }

  function Before(prefix: seq<Event>, o: Outcome): Outcome {
    if o.Stuck? then Stuck else Ended(prefix + o.trace, o.exit)
  }

  function StopAt(region: Option<Span>): Outcome {
    match region
    case Some(r) => Ended([], Reading(r))
    case None => Stuck
  }

  function Exec(owners: seq<Span>, stmt: Stmt, run: Run): Outcome
    decreases run, 1, 0
  {
    match stmt
    case Block(stmts) => ExecBlock(owners, stmts, run)
    case Leaf(region) => ExecRegion(owners, region, run, Normal)
    case Return(region) => ExecRegion(owners, region, run, Returns)
    case Break => if run.Done? then Ended([], Breaks) else Stuck
    case Continue => if run.Done? then Ended([], Continues) else Stuck
    case Nop => if run.Done? then Ended([], Normal) else Stuck
    case If(cond, body, els) =>
      if run.Pause? then StopAt(cond)
      else if run.Left? then Before(RegionTrace(owners, cond), Exec(owners, body, run.run))
      else if run.Right? then Before(RegionTrace(owners, cond), Exec(owners, els, run.run))
      else Stuck
    case While(cond, body) => ExecLoop(owners, cond, None, body, run)
    case DoWhile(body, cond) => ExecDoWhile(owners, body, cond, run)
    case For(init, cond, iter, body) =>
      if run.Pause? then StopAt(init)
      else if run.Begin? then Before(RegionTrace(owners, init), ExecLoop(owners, cond, iter, body, run.run))
      else Stuck
    case Switch(cond, sections) =>
      if run.Pause? then StopAt(cond) else Before(RegionTrace(owners, cond), ExecSwitch(owners, sections, run))
    case Unmodelled(region) => ExecRegion(owners, region, run, Normal)
  }

  function ExecRegion(owners: seq<Span>, region: Span, run: Run, exit: Exit): Outcome {
    if run.Pause? then StopAt(Some(region))
    else if run.Done? then Ended(RegionTrace(owners, Some(region)), exit)
    else Stuck
  }

  function ExecBlock(owners: seq<Span>, stmts: seq<Stmt>, run: Run): Outcome
    decreases run, 0, 0
  {
    if stmts == [] then if run.Done? then Ended([], Normal) else Stuck
    else if !run.Chain? then Stuck
    else
      var o := Exec(owners, stmts[0], run.first);
      if o.Ended? && o.exit.Normal? then Before(o.trace, ExecBlock(owners, stmts[1..], run.rest)) else o
  }

  /** A loop from the point where its condition is about to be tested.  A `while` loop has no iteration part. */
  function ExecLoop(owners: seq<Span>, cond: Option<Span>, iter: Option<Span>, body: Stmt, run: Run): Outcome
    decreases run, 0, 0
  {
    if run.Pause? then StopAt(cond)
    else if run.Done? then Ended(RegionTrace(owners, cond), Normal)
    else if !run.Iterate? then Stuck
    else
      var o := Before(RegionTrace(owners, cond), Exec(owners, body, run.body));
      if o.Stuck? then Stuck
      else match o.exit
        case Breaks => Ended(o.trace, Normal)
        case Returns => o
        case Reading(_) => o
        case _ =>
          if run.next.AtIter? then Before(o.trace, StopAt(iter))
          else Before(o.trace + RegionTrace(owners, iter), ExecLoop(owners, cond, iter, body, run.next))
  }

  function ExecDoWhile(owners: seq<Span>, body: Stmt, cond: Option<Span>, run: Run): Outcome
    decreases run, 0, 0
  {
    if !run.Iterate? then Stuck
    else
      var o := Exec(owners, body, run.body);
      if o.Stuck? then Stuck
      else match o.exit
        case Breaks => Ended(o.trace, Normal)
        case Returns => o
        case Reading(_) => o
        case _ =>
          if run.next.Pause? then Before(o.trace, StopAt(cond))
          else if run.next.Done? then Ended(o.trace + RegionTrace(owners, cond), Normal)
          else Before(o.trace + RegionTrace(owners, cond), ExecDoWhile(owners, body, cond, run.next))
  }

  /** The values of the case labels among these sections, tested from the top. */
  function LabelTests(owners: seq<Span>, sections: seq<Section>): seq<Event> {
    if sections == [] then []
    else (if sections[0].CaseLabel? then RegionTrace(owners, sections[0].value) else []) + LabelTests(owners, sections[1..])
  }

  /** A switch whose head has been evaluated.  Case labels are tested in order; the default label is taken last. */
  function ExecSwitch(owners: seq<Span>, sections: seq<Section>, run: Run): Outcome
    decreases run, 0, |sections| + 1
  {
    if run.AtLabel? then
      if run.at < |sections| && sections[run.at].CaseLabel?
      then Before(LabelTests(owners, sections[..run.at]), StopAt(sections[run.at].value))
      else Stuck
    else if run.Done? then
      if HasDefault(sections) then Stuck else Ended(LabelTests(owners, sections), Normal)
    else if run.Enter? && run.at < |sections| && !sections[run.at].Code? then
      var tested := if sections[run.at].CaseLabel? then sections[..run.at + 1] else sections;
      var o := ExecSections(owners, sections[run.at + 1..], run.run);
      Before(LabelTests(owners, tested), if o.Ended? && o.exit.Breaks? then Ended(o.trace, Normal) else o)
    else Stuck
  }

  function ExecSections(owners: seq<Span>, sections: seq<Section>, run: Run): Outcome
    decreases run, 0, |sections|
  {
    if sections == [] then if run.Done? then Ended([], Normal) else Stuck
    else if !sections[0].Code? then ExecSections(owners, sections[1..], run)
    else if !run.Chain? then Stuck
    else
      var o := Exec(owners, sections[0].stmt, run.first);
      if o.Ended? && o.exit.Normal? then Before(o.trace, ExecSections(owners, sections[1..], run.rest)) else o
  }

  /* Facts about traces. */

  lemma {:induction false} LastDefConcat(a: seq<Event>, b: seq<Event>, before: Option<nat>)
    ensures LastDef(a + b, before) == LastDef(b, LastDef(a, before))
  {
    if b == [] {
      assert a + b == a;
    } else {
      assert (a + b)[..|a + b| - 1] == a + b[..|b| - 1];
      if !b[|b| - 1].Def? {
        LastDefConcat(a, b[..|b| - 1], before);
      }
    }
  }

  ghost predicate NoDefs(trace: seq<Event>) {
    forall k :: 0 <= k < |trace| ==> trace[k].Visit?
  }

  lemma {:induction false} NoDefsKeeps(trace: seq<Event>, before: Option<nat>)
    requires NoDefs(trace)
    ensures LastDef(trace, before) == before
  {
    if trace != [] {
      NoDefsKeeps(trace[..|trace| - 1], before);
    }
  }

  /** The definition that stays in force after a region is the one the analysis generates for it. */
  lemma LastOfRegion(owners: seq<Span>, region: Span, before: Option<nat>)
    ensures LastDef(RegionTrace(owners, Some(region)), before)
         == if LastIn(owners, region, |owners|).Some? then LastIn(owners, region, |owners|) else before
  {
    LastOfSorted(owners, region, |owners|);
    var es := DefsIn(owners, region, |owners|);
    LastDefConcat([Visit(region)], es, before);
  }

  lemma {:induction false} LastOfSorted(owners: seq<Span>, region: Span, n: nat)
    requires n <= |owners|
    ensures var es := DefsIn(owners, region, n); var best := LastIn(owners, region, n);
      if best.None? then es == [] else es != [] && es[|es| - 1] == Def(best.value, region)
  {
    if n != 0 {
      LastOfSorted(owners, region, n - 1);
    }
  }
}
