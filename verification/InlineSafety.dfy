/** Inlining a variable's value at a read (src/resolve/inline_var.rs, `value_stability` in src/resolve/body_model/mod.rs): when the
    refactoring calls an inlined read verified, evaluating the value there gives what the variable holds. */
module InlineSafety {
  import opened Wrappers
  import opened Syntax
  import opened ReachingDefs
  import opened Executions
  import opened Soundness
  import opened Exactness
  import opened Window

  /* A body whose own statement list declares the variable. */

  /** `owners` are the definitions of one variable; the body is `before`, the declaration, `rest`. */
  datatype Body = Body(owners: seq<Span>, before: seq<Stmt>, decl: Span, rest: seq<Stmt>) {
    function Stmts(): seq<Stmt> {
      before + [Leaf(decl)] + rest
    }

    /** Definition 0 is the declaration, nothing defines the variable before it, and the statements are in text order. */
    ghost predicate Valid() {
      && SolidOwners(owners) && 0 < |owners| && owners[0] == decl
      && (forall i :: 0 <= i < |owners| ==> decl.start <= owners[i].start)
      && Modelled(owners, Block(Stmts()))
      && PlaceBlock(Stmts(), 0).Some?
    }

    function MaskFor(x: Span): Mask {
      MarkOfBlock(owners, Stmts(), {}, x)
    }

    /** An execution of the body that is about to read `x`. */
    ghost predicate Reads(run: Run, x: Span) {
      var o := Exec(owners, Block(Stmts()), run);
      o.Ended? && o.exit.Reading? && o.exit.region.Contains(x)
    }

    function Trace(run: Run): seq<Event>
      requires Exec(owners, Block(Stmts()), run).Ended?
    {
      Exec(owners, Block(Stmts()), run).trace
    }
  }

  lemma {:induction false} SplitRun(owners: seq<Span>, a: seq<Stmt>, b: seq<Stmt>, run: Run) returns (ra: Run, rb: Run)
    requires ExecBlock(owners, a + b, run).Ended?
    ensures var o := ExecBlock(owners, a + b, run); var oa := ExecBlock(owners, a, ra);
      if oa.Ended? && oa.exit.Normal? then o == Before(oa.trace, ExecBlock(owners, b, rb)) else o == oa
    decreases |a|
  {
    if a == [] {
      assert a + b == b;
      ra, rb := Done, run;
      assert [] + ExecBlock(owners, b, rb).trace == ExecBlock(owners, b, rb).trace;
    } else {
      assert (a + b)[0] == a[0] && (a + b)[1..] == a[1..] + b;
      var o := Exec(owners, a[0], run.first);
      if o.exit.Normal? {
        var r;
        r, rb := SplitRun(owners, a[1..], b, run.rest);
        ra := Chain(run.first, r);
        var ta, tb := ExecBlock(owners, a[1..], r), ExecBlock(owners, b, rb);
        if ta.exit.Normal? {
          assert o.trace + (ta.trace + tb.trace) == o.trace + ta.trace + tb.trace;
        }
      } else {
        ra, rb := run, Done;
      }
    }
  }

  lemma {:induction false} SplitFlow(owners: seq<Span>, a: seq<Stmt>, b: seq<Stmt>, state: Mask, x: Span)
    ensures var m := FlowOfBlock(owners, a, state).normal;
      && FlowOfBlock(owners, a + b, state).normal == (if m.None? then None else FlowOfBlock(owners, b, m.value).normal)
      && (m.Some? ==> MarkOfBlock(owners, b, m.value, x) <= MarkOfBlock(owners, a + b, state, x))
    decreases |a|
  {
    if a == [] {
      assert a + b == b;
    } else {
      assert (a + b)[0] == a[0] && (a + b)[1..] == a[1..] + b;
      var f := FlowOf(owners, a[0], state);
      if f.normal.Some? {
        SplitFlow(owners, a[1..], b, f.normal.value, x);
      }
    }
  }

  lemma {:induction false} SplitPlace(a: seq<Stmt>, b: seq<Stmt>, lo: nat)
    requires PlaceBlock(a + b, lo).Some?
    ensures PlaceBlock(a, lo).Some? && PlaceBlock(b, PlaceBlock(a, lo).value) == PlaceBlock(a + b, lo)
    decreases |a|
  {
    if a == [] {
      assert a + b == b;
    } else {
      assert (a + b)[0] == a[0] && (a + b)[1..] == a[1..] + b;
      SplitPlace(a[1..], b, Place(a[0], lo).value);
    }
  }

  lemma {:induction false} FindLast(trace: seq<Event>) returns (k: int)
    ensures k == -1 ==> NoDefs(trace)
    ensures k >= 0 ==> k < |trace| && trace[k].Def? && LastAt(trace, k, trace[k].index)
                       && forall d :: LastDef(trace, d) == Some(trace[k].index)
    ensures k >= -1
  {
    if trace == [] {
      k := -1;
    } else if trace[|trace| - 1].Def? {
      k := |trace| - 1;
    } else {
      k := FindLast(trace[..|trace| - 1]);
    }
  }

  /** The definition in force once the declaration has run. */
  function DeclDef(b: Body): nat {
    match LastIn(b.owners, b.decl, |b.owners|)
    case Some(g) => g
    case None => 0
  }

  /** An execution that reads `x`, cut after the declaration. */
  lemma {:induction false} CutAtDecl(b: Body, run: Run, x: Span) returns (head: seq<Event>, rb: Run)
    requires b.Valid() && b.Reads(run, x) && b.decl.end <= x.start < x.end
    ensures head != [] && head[|head| - 1] == Def(DeclDef(b), b.decl)
    ensures ExecBlock(b.owners, b.rest, rb).Ended? && ExecBlock(b.owners, b.rest, rb).exit.Reading?
    ensures b.Trace(run) == head + ExecBlock(b.owners, b.rest, rb).trace
    ensures ExecBlock(b.owners, b.rest, rb).exit.region.Contains(x)
    ensures FlowOfBlock(b.owners, b.before + [Leaf(b.decl)], {}).normal == Some({DeclDef(b)})
    ensures DeclDef(b) < |b.owners| && b.owners[DeclDef(b)].end <= b.decl.end
    ensures PlaceBlock(b.before + [Leaf(b.decl)], 0) == Some(b.decl.end)
  {
    var first := b.before + [Leaf(b.decl)];
    SplitPlace(first, b.rest, 0);
    SplitPlace(b.before, [Leaf(b.decl)], 0);
    assert [Leaf(b.decl)][1..] == [];
    var ra;
    ra, rb := SplitRun(b.owners, first, b.rest, run);
    BlockInside(b.owners, first, ra, 0);
    head := ExecBlock(b.owners, first, ra).trace;
    DeclEndsHead(b, ra);
    DeclFlow(b, ra);
  }

  lemma {:induction false} DeclEndsHead(b: Body, ra: Run)
    requires b.Valid() && ExecBlock(b.owners, b.before + [Leaf(b.decl)], ra).Ended?
    requires ExecBlock(b.owners, b.before + [Leaf(b.decl)], ra).exit.Normal?
    ensures var head := ExecBlock(b.owners, b.before + [Leaf(b.decl)], ra).trace;
      head != [] && head[|head| - 1] == Def(DeclDef(b), b.decl)
  {
    var r0, r1 := SplitRun(b.owners, b.before, [Leaf(b.decl)], ra);
    LeafBlock(b.owners, b.decl, r1);
    LastOfSorted(b.owners, b.decl, |b.owners|);
  }

  lemma {:induction false} DeclFlow(b: Body, ra: Run)
    requires b.Valid() && ExecBlock(b.owners, b.before + [Leaf(b.decl)], ra).Ended?
    requires ExecBlock(b.owners, b.before + [Leaf(b.decl)], ra).exit.Normal?
    ensures FlowOfBlock(b.owners, b.before + [Leaf(b.decl)], {}).normal == Some({DeclDef(b)})
  {
    var first := b.before + [Leaf(b.decl)];
    forall j | 0 <= j < |first|
      ensures Modelled(b.owners, first[j])
    {
      assert first[j] == b.Stmts()[j];
    }
    BlockAccounted(b.owners, first, ra, {}, None, Span(0, 0));
    SplitFlow(b.owners, b.before, [Leaf(b.decl)], {}, Span(0, 0));
    assert [Leaf(b.decl)][1..] == [];
  }

  lemma LeafBlock(owners: seq<Span>, region: Span, run: Run)
    ensures var o := ExecBlock(owners, [Leaf(region)], run);
      o.Ended? ==>
        || (o.exit.Normal? && o.trace == RegionTrace(owners, Some(region)))
        || (o.exit == Reading(region) && o.trace == [])
  {
    assert [Leaf(region)][1..] == [];
    assert RegionTrace(owners, Some(region)) + [] == RegionTrace(owners, Some(region));
  }

  /** In a body that declares the variable in its own statement list: where the analysis names definition `i` as the only
      one to reach a read after the declaration, every execution that gets there has `i` in force, and whatever it
      evaluated since `i` took effect comes later in the text than `i`'s statement. */
  lemma {:induction false} SoleDefinitionIsInForce(b: Body, run: Run, x: Span, i: nat) returns (k: nat)
    requires b.Valid() && b.Reads(run, x) && b.decl.end <= x.start < x.end
    requires SoleDef(b.MaskFor(x)) == Some(i)
    ensures LastAt(b.Trace(run), k, i) && LaterInText(b.Trace(run), k)
  {
    var owners, g := b.owners, DeclDef(b);
    var first := b.before + [Leaf(b.decl)];
    var head, rb := CutAtDecl(b, run, x);
    var tail := ExecBlock(owners, b.rest, rb);
    SplitFlow(owners, first, b.rest, {}, x);
    SplitPlace(first, b.rest, 0);
    assert MarkOfBlock(owners, b.rest, {g}, x) <= {i};
    forall j | 0 <= j < |b.rest|
      ensures Modelled(owners, b.rest[j])
    {
      assert b.rest[j] == b.Stmts()[|first| + j];
    }
    BlockAccounted(owners, b.rest, rb, {g}, Some(g), x);
    BlockInside(owners, b.rest, rb, b.decl.end);
    var kt := FindLast(tail.trace);
    if kt < 0 {
      NoDefsKeeps(tail.trace, Some(g));
      k := |head| - 1;
      LastInHead(owners, head, tail.trace, g, b.decl, PlaceBlock(b.Stmts(), 0).value);
    } else {
      k := |head| + kt;
      assert Anchored(owners, {g}, b.decl.end, PlaceBlock(b.Stmts(), 0).value);
      BlockWindow(owners, b.rest, b.decl.end, {g}, rb, i, x);
      LastInTail(head, tail.trace, kt, i);
    }
  }

  /** The last definition is the one that `head` ends with. */
  lemma LastInHead(owners: seq<Span>, head: seq<Event>, tail: seq<Event>, g: nat, region: Span, hi: nat)
    requires head != [] && head[|head| - 1] == Def(g, region)
    requires NoDefs(tail) && EventsInside(owners, tail, region.end, hi)
    ensures LastAt(head + tail, |head| - 1, g) && LaterInText(head + tail, |head| - 1)
  {
    var whole := head + tail;
    assert forall j :: |head| <= j < |whole| ==> whole[j] == tail[j - |head|];
  }

  /** It is one that `tail` makes. */
  lemma LastInTail(head: seq<Event>, tail: seq<Event>, k: nat, i: nat)
    requires LastAt(tail, k, i) && LaterSince(tail, i)
    ensures LastAt(head + tail, |head| + k, i) && LaterInText(head + tail, |head| + k)
  {
    var whole := head + tail;
    assert forall j :: |head| <= j < |whole| ==> whole[j] == tail[j - |head|];
  }
}
