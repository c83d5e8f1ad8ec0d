/** The walk of src/resolve/reaching_defs.rs as it runs: an object that grows one mask per read. */
module Analyzers {
  import opened Wrappers
  import opened Syntax
  import opened ReachingDefs

  /** `masks[i]` is `before[i]` plus, in the recording pass, what the walk of a region or statement adds for read i. */
  ghost predicate Marked(readSpans: seq<Span>, before: seq<Mask>, after: seq<Mask>, pass: Pass, marks: Span -> Mask) {
    && |before| == |after| == |readSpans|
    && forall i :: 0 <= i < |readSpans| ==> after[i] == before[i] + (if pass.Record? then marks(readSpans[i]) else {})
  }

  function MarkAhead(owners: seq<Span>, sections: seq<Section>, i: nat, state: Mask, cur: Option<Mask>, x: Span): Mask
    requires i < |sections|
  {
    match sections[i]
    case Code(stmt) =>
      MarkOf(owners, stmt, OrElse(cur, state), x)
      + MarkOfSections(owners, sections[i + 1..], state, FlowOf(owners, stmt, OrElse(cur, state)).normal, x)
    case CaseLabel(value) =>
      MarkOpt(value, state, x) + MarkOfSections(owners, sections[i + 1..], state, Union(cur, Some(state)), x)
    case DefaultLabel => MarkOfSections(owners, sections[i + 1..], state, Union(cur, Some(state)), x)
  }

  /** What the sections from `i` on amount to, in terms of section `i` and those after it. */
  lemma {:induction false} SectionAhead(owners: seq<Span>, sections: seq<Section>, i: nat, state: Mask, cur: Option<Mask>)
    requires i < |sections|
    ensures var whole := FlowOfSections(owners, sections[i..], state, cur);
      if sections[i].Code? then
        var f := FlowOf(owners, sections[i].stmt, OrElse(cur, state));
        var rest := FlowOfSections(owners, sections[i + 1..], state, f.normal);
        whole == Flow(rest.normal, Union(f.breaks, rest.breaks), Union(f.continues, rest.continues), Union(f.returned, rest.returned))
      else whole == FlowOfSections(owners, sections[i + 1..], state, Union(cur, Some(state)))
    ensures forall x :: MarkOfSections(owners, sections[i..], state, cur, x) == MarkAhead(owners, sections, i, state, cur, x)
  {
    assert sections[i..][0] == sections[i] && sections[i..][1..] == sections[i + 1..];
  }

  lemma DefaultSoFar(sections: seq<Section>, i: nat)
    requires i < |sections|
    ensures HasDefault(sections[..i + 1]) <==> HasDefault(sections[..i]) || sections[i].DefaultLabel?
  {
    assert sections[..i + 1] == sections[..i] + [sections[i]];
  }

  lemma UnionAssoc(a: Option<Mask>, b: Option<Mask>, c: Option<Mask>)
    ensures Union(Union(a, b), c) == Union(a, Union(b, c))
  {
    if a.Some? && b.Some? && c.Some? {
      assert (a.value + b.value) + c.value == a.value + (b.value + c.value);
    }
  }

  lemma ThenAssoc(a: Flow, b: Flow, c: Flow)
    ensures Then(Then(a, b), c) == Then(a, Then(b, c))
  {
    UnionAssoc(a.breaks, b.breaks, c.breaks);
    UnionAssoc(a.continues, b.continues, c.continues);
    UnionAssoc(a.returned, b.returned, c.returned);
  }

  class Analyzer {
    const owners: seq<Span>
    const readSpans: seq<Span>
    var out: seq<Mask>

    constructor (owners: seq<Span>, readSpans: seq<Span>)
      ensures this.owners == owners && this.readSpans == readSpans
      ensures out == seq(|readSpans|, _ => {})
    {
      this.owners := owners;
      this.readSpans := readSpans;
      out := seq(|readSpans|, _ => {});
    }

    method RecordRegion(region: Span, state: Mask, pass: Pass)
      requires |out| == |readSpans|
      modifies this`out
      ensures Marked(readSpans, old(out), out, pass, x => MarkRegion(region, state, x))
    {
      if pass.Learn? {
        return;
      }
      var i := 0;
      while i < |readSpans|
        invariant 0 <= i <= |readSpans| == |out|
        invariant forall k :: 0 <= k < i ==> out[k] == old(out)[k] + MarkRegion(region, state, readSpans[k])
        invariant forall k :: i <= k < |readSpans| ==> out[k] == old(out)[k]
      {
        if region.Contains(readSpans[i]) {
          out := out[i := out[i] + state];
        }
        i := i + 1;
      }
    }

    method RecordOpt(region: Option<Span>, state: Mask, pass: Pass)
      requires |out| == |readSpans|
      modifies this`out
      ensures Marked(readSpans, old(out), out, pass, x => MarkOpt(region, state, x))
    {
      if region.Some? {
        RecordRegion(region.value, state, pass);
      }
    }

    method EvalLeaf(region: Span, state: Mask, pass: Pass) returns (end: Mask)
      requires |out| == |readSpans|
      modifies this`out
      ensures end == GenIn(owners, region, state)
      ensures Marked(readSpans, old(out), out, pass, x => MarkRegion(region, state, x))
    {
      RecordRegion(region, state, pass);
      end := GenIn(owners, region, state);
    }

    method EvalBlock(stmts: seq<Stmt>, state: Mask, pass: Pass) returns (flow: Flow)
      requires |out| == |readSpans|
      modifies this`out
      ensures flow == FlowOfBlock(owners, stmts, state)
      ensures Marked(readSpans, old(out), out, pass, x => MarkOfBlock(owners, stmts, state, x))
      decreases stmts, 0
    {
      flow := Through(state);
      var i := 0;
      while i < |stmts| && flow.normal.Some?
        invariant 0 <= i <= |stmts| && |out| == |readSpans|
        invariant FlowOfBlock(owners, stmts, state)
               == if flow.normal.None? then flow else Then(flow, FlowOfBlock(owners, stmts[i..], flow.normal.value))
        invariant forall k :: 0 <= k < |readSpans| ==>
          old(out)[k] + (if pass.Record? then MarkOfBlock(owners, stmts, state, readSpans[k]) else {})
          == out[k] + (if pass.Record? && flow.normal.Some? then MarkOfBlock(owners, stmts[i..], flow.normal.value, readSpans[k]) else {})
      {
        assert stmts[i..][0] == stmts[i] && stmts[i..][1..] == stmts[i + 1..];
        var next := EvalStmt(stmts[i], flow.normal.value, pass);
        ghost var rest := if next.normal.Some? then FlowOfBlock(owners, stmts[i + 1..], next.normal.value) else next;
        ThenAssoc(flow, next, rest);
        flow := Flow(next.normal, Union(flow.breaks, next.breaks), Union(flow.continues, next.continues),
                     Union(flow.returned, next.returned));
        i := i + 1;
      }
    }

    method EvalStmt(stmt: Stmt, state: Mask, pass: Pass) returns (flow: Flow)
      requires |out| == |readSpans|
      modifies this`out
      ensures flow == FlowOf(owners, stmt, state)
      ensures Marked(readSpans, old(out), out, pass, x => MarkOf(owners, stmt, state, x))
      decreases stmt, 2
    {
      match stmt
      case Block(stmts) => flow := EvalBlock(stmts, state, pass);
      case Leaf(region) =>
        var end := EvalLeaf(region, state, pass);
        flow := Through(end);
      case Return(region) =>
        var end := EvalLeaf(region, state, pass);
        flow := Flow(None, None, None, Some(end));
      case Break => flow := Flow(None, Some(state), None, None);
      case Continue => flow := Flow(None, None, Some(state), None);
      case Nop => flow := Through(state);
      case If(_, _, _) => flow := EvalIf(stmt, state, pass);
      case While(_, _) => flow := EvalWhile(stmt, state, pass);
      case DoWhile(_, _) => flow := EvalDoWhile(stmt, state, pass);
      case For(_, _, _, _) => flow := EvalFor(stmt, state, pass);
      case Switch(_, _) => flow := EvalSwitch(stmt, state, pass);
      case Unmodelled(region) =>
        RecordRegion(region, AllBits(), pass);
        flow := Through(state);
    }

    method EvalIf(stmt: Stmt, state: Mask, pass: Pass) returns (flow: Flow)
      requires stmt.If? && |out| == |readSpans|
      modifies this`out
      ensures flow == FlowOf(owners, stmt, state)
      ensures Marked(readSpans, old(out), out, pass, x => MarkOf(owners, stmt, state, x))
      decreases stmt, 1
    {
      RecordOpt(stmt.cond, state, pass);
      var t := EvalStmt(stmt.body, state, pass);
      var e := EvalStmt(stmt.els, state, pass);
      flow := Flow(Union(t.normal, e.normal), Union(t.breaks, e.breaks), Union(t.continues, e.continues),
                   Union(t.returned, e.returned));
    }

    method EvalWhile(stmt: Stmt, state: Mask, pass: Pass) returns (flow: Flow)
      requires stmt.While? && |out| == |readSpans|
      modifies this`out
      ensures flow == FlowOf(owners, stmt, state)
      ensures Marked(readSpans, old(out), out, pass, x => MarkOf(owners, stmt, state, x))
      decreases stmt, 1
    {
      var once := EvalStmt(stmt.body, state, Learn);
      var header := LoopEntry(once, state);
      RecordOpt(stmt.cond, header, pass);
      var again := EvalStmt(stmt.body, header, pass);
      flow := Flow(Union(Some(header), again.breaks), None, None, again.returned);
    }

    method EvalDoWhile(stmt: Stmt, state: Mask, pass: Pass) returns (flow: Flow)
      requires stmt.DoWhile? && |out| == |readSpans|
      modifies this`out
      ensures flow == FlowOf(owners, stmt, state)
      ensures Marked(readSpans, old(out), out, pass, x => MarkOf(owners, stmt, state, x))
      decreases stmt, 1
    {
      var once := EvalStmt(stmt.body, state, Learn);
      var entry := LoopEntry(once, state);
      var again := EvalStmt(stmt.body, entry, pass);
      RecordOpt(stmt.cond, OrElse(Union(again.normal, again.continues), entry), pass);
      flow := Flow(Union(again.normal, again.breaks), None, None, again.returned);
    }

    method EvalFor(stmt: Stmt, state: Mask, pass: Pass) returns (flow: Flow)
      requires stmt.For? && |out| == |readSpans|
      modifies this`out
      ensures flow == FlowOf(owners, stmt, state)
      ensures Marked(readSpans, old(out), out, pass, x => MarkOf(owners, stmt, state, x))
      decreases stmt, 1
    {
      var entry := state;
      if stmt.init.Some? {
        entry := EvalLeaf(stmt.init.value, state, pass);
      }
      var once := EvalStmt(stmt.body, entry, Learn);
      var afterIter := GenInOpt(owners, stmt.iter, OrElse(Union(once.normal, once.continues), entry));
      var header := entry + afterIter;
      RecordOpt(stmt.cond, header, pass);
      var again := EvalStmt(stmt.body, header, pass);
      RecordOpt(stmt.iter, OrElse(Union(again.normal, again.continues), header), pass);
      flow := Flow(Union(Some(header), again.breaks), None, None, again.returned);
    }

    method EvalSwitch(stmt: Stmt, state: Mask, pass: Pass) returns (flow: Flow)
      requires stmt.Switch? && |out| == |readSpans|
      modifies this`out
      ensures flow == FlowOf(owners, stmt, state)
      ensures Marked(readSpans, old(out), out, pass, x => MarkOf(owners, stmt, state, x))
      decreases stmt, 1
    {
      RecordOpt(stmt.cond, state, pass);
      label HEAD:
      var sections := stmt.sections;
      var cur: Option<Mask> := None;
      var breaks: Option<Mask> := None;
      var continues: Option<Mask> := None;
      var returned: Option<Mask> := None;
      var hasDefault := false;
      ghost var whole := FlowOfSections(owners, sections, state, None);
      var i := 0;
      while i < |sections|
        invariant 0 <= i <= |sections| && |out| == |readSpans|
        invariant hasDefault == HasDefault(sections[..i])
        invariant var rest := FlowOfSections(owners, sections[i..], state, cur);
          whole == Flow(rest.normal, Union(breaks, rest.breaks), Union(continues, rest.continues), Union(returned, rest.returned))
        invariant forall k :: 0 <= k < |readSpans| ==>
          old@HEAD(out)[k] + (if pass.Record? then MarkOfSections(owners, sections, state, None, readSpans[k]) else {})
          == out[k] + (if pass.Record? then MarkOfSections(owners, sections[i..], state, cur, readSpans[k]) else {})
      {
        SectionAhead(owners, sections, i, state, cur);
        DefaultSoFar(sections, i);
        match sections[i] {
        case CaseLabel(value) =>
          RecordOpt(value, state, pass);
          cur := Union(cur, Some(state));
        case DefaultLabel =>
          hasDefault := true;
          cur := Union(cur, Some(state));
        case Code(body) =>
          assert body < sections[i];
          var f := EvalStmt(body, OrElse(cur, state), pass);
          ghost var rest := FlowOfSections(owners, sections[i + 1..], state, f.normal);
          UnionAssoc(breaks, f.breaks, rest.breaks);
          UnionAssoc(continues, f.continues, rest.continues);
          UnionAssoc(returned, f.returned, rest.returned);
          breaks := Union(breaks, f.breaks);
          continues := Union(continues, f.continues);
          returned := Union(returned, f.returned);
          cur := f.normal;
        }
        i := i + 1;
      }
      assert sections[..i] == sections;
      var normal := Union(breaks, cur);
      if !hasDefault {
        normal := Union(normal, Some(state));
      }
      flow := Flow(normal, None, continues, returned);
    }
  }

  /** The whole analysis: per read, the index of the only definition that reaches it. */
  method Analyze(owners: seq<Span>, body: seq<Stmt>, readSpans: seq<Span>) returns (perRead: seq<Option<nat>>)
    ensures |perRead| == |readSpans|
    ensures forall k :: 0 <= k < |readSpans| ==>
      perRead[k] == if |owners| > 128 then None else SoleDef(MarkOfBlock(owners, body, {}, readSpans[k]))
  {
    if |owners| > MAX_DEFS {
      return seq(|readSpans|, _ => None);
    }
    var analyzer := new Analyzer(owners, readSpans);
    var _ := analyzer.EvalBlock(body, {}, Record);
    var masks := analyzer.out;
    perRead := seq(|readSpans|, k requires 0 <= k < |readSpans| => SoleDef(masks[k]));
  }
}
