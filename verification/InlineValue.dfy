/** The planning of inline-variable (src/resolve/inline_var.rs) and the test that marks a read verified
    (`value_stability` in src/resolve/body_model/mod.rs), against executions that carry values. */
module InlineValue {
  import opened Wrappers
  import opened Syntax
  import opened ReachingDefs
  import opened Executions
  import opened Window
  import opened InlineSafety

  /** What an identifier in value position resolves to: a local or parameter, some other symbol, or nothing. */
  datatype Ident = Local(id: nat) | Other(id: nat) | Unresolved

  datatype Expr = Literal(n: int) | Name(ident: Ident) | Op(op: nat, left: Expr, right: Expr)

  /** A definition's value, with its place in the text. */
  datatype Value = Value(expr: Expr, span: Span)

  function Idents(e: Expr): seq<Ident> {
    match e
    case Literal(_) => []
    case Name(ident) => [ident]
    case Op(_, left, right) => Idents(left) + Idents(right)
  }

  datatype Stability = Stable | MayChange | ReferencesTarget

  /** The identifier is written at or after `capturedAt`, not counting writes inside the value itself. */
  predicate WrittenLater(writes: map<Ident, seq<nat>>, ident: Ident, span: Span, capturedAt: nat) {
    ident in writes && exists p :: p in writes[ident] && p >= capturedAt && !(span.start <= p < span.end)
  }

  predicate Unsettled(ident: Ident, span: Span, capturedAt: nat, writes: map<Ident, seq<nat>>) {
    match ident
    case Unresolved => true
    case Other(_) => false
    case Local(_) => WrittenLater(writes, ident, span, capturedAt)
  }

  method ValueStability(value: Value, capturedAt: nat, target: nat, writes: map<Ident, seq<nat>>) returns (s: Stability)
    ensures s.ReferencesTarget? <==> Local(target) in Idents(value.expr)
    ensures s.Stable? <==> forall j :: 0 <= j < |Idents(value.expr)| ==>
      Idents(value.expr)[j] != Local(target) && !Unsettled(Idents(value.expr)[j], value.span, capturedAt, writes)
  {
    var idents := Idents(value.expr);
    var stable := true;
    var i := 0;
    while i < |idents|
      invariant 0 <= i <= |idents|
      invariant forall j :: 0 <= j < i ==> idents[j] != Local(target)
      invariant stable <==> forall j :: 0 <= j < i ==> !Unsettled(idents[j], value.span, capturedAt, writes)
    {
      match idents[i] {
        case Unresolved => stable := false;
        case Other(_) =>
        case Local(v) =>
          if v == target {
            return ReferencesTarget;
          }
          if WrittenLater(writes, idents[i], value.span, capturedAt) {
            stable := false;
          }
      }
      i := i + 1;
    }
    return if stable then Stable else MayChange;
  }

  /** The verdict of the method above, for use in specifications. */
  function StabilityOf(value: Value, capturedAt: nat, target: nat, writes: map<Ident, seq<nat>>): (s: Stability)
    ensures s.ReferencesTarget? <==> Local(target) in Idents(value.expr)
    ensures s.Stable? <==> forall j :: 0 <= j < |Idents(value.expr)| ==>
      Idents(value.expr)[j] != Local(target) && !Unsettled(Idents(value.expr)[j], value.span, capturedAt, writes)
  {
    if Local(target) in Idents(value.expr) then ReferencesTarget
    else if exists j :: 0 <= j < |Idents(value.expr)| && Unsettled(Idents(value.expr)[j], value.span, capturedAt, writes)
    then MayChange
    else Stable
  }

  /** What the verdict leaves out: nothing the value reads is written later, be it a local or not. */
  predicate Settled(value: Value, capturedAt: nat, writes: map<Ident, seq<nat>>) {
    forall ident :: ident in Idents(value.expr) ==> !WrittenLater(writes, ident, value.span, capturedAt)
  }

  /* Executions with values. */

  type Store = Ident -> int

  function Eval(e: Expr, ops: (nat, int, int) -> int, store: Store): int {
    match e
    case Literal(n) => n
    case Name(ident) => store(ident)
    case Op(op, left, right) => ops(op, Eval(left, ops, store), Eval(right, ops, store))
  }

  /** The steps of an execution: it evaluates a region, a definition of the target takes effect, or it writes to something
      else at a place in the text. */
  datatype Act = Visits(region: Span) | Defines(index: nat, region: Span, val: int) | Writes(ident: Ident, pos: nat, val: int)

  function Project(acts: seq<Act>): seq<Event> {
    if acts == [] then []
    else
      var before := Project(acts[..|acts| - 1]);
      match acts[|acts| - 1]
      case Visits(r) => before + [Visit(r)]
      case Defines(i, r, _) => before + [Def(i, r)]
      case Writes(_, _, _) => before
  }

  function Set(store: Store, ident: Ident, val: int): Store {
    x => if x == ident then val else store(x)
  }

  function StoreAfter(acts: seq<Act>, store: Store, target: nat): Store {
    if acts == [] then store
    else
      var before := StoreAfter(acts[..|acts| - 1], store, target);
      match acts[|acts| - 1]
      case Visits(_) => before
      case Defines(_, _, val) => Set(before, Local(target), val)
      case Writes(ident, _, val) => Set(before, ident, val)
  }

  /** The last step that is not a write; it says which region is being evaluated. */
  function Current(acts: seq<Act>): Option<Act> {
    if acts == [] then None
    else if !acts[|acts| - 1].Writes? then Some(acts[|acts| - 1])
    else Current(acts[..|acts| - 1])
  }

  /** One definition of the target: its value, if it has a plain one, and where its statement starts. */
  datatype Source = Source(value: Option<Value>, capturedAt: nat)

  /** A variable with its definitions, and the places in the text where each identifier is written; what a call may write
      is written where the call is. */
  datatype Variable = Variable(target: nat, sources: seq<Source>, writes: map<Ident, seq<nat>>) {
    /** A definition with a plain value stores what the value evaluates to; a write happens at a recorded place in the
        region being evaluated, and a value's own writes are over when its definition takes effect. */
    ghost predicate Lawful(acts: seq<Act>, store: Store, ops: (nat, int, int) -> int) {
      forall k :: 0 <= k < |acts| ==> LawfulStep(acts, k, store, ops)
    }

    ghost predicate LawfulStep(acts: seq<Act>, k: nat, store: Store, ops: (nat, int, int) -> int)
      requires k < |acts|
    {
      match acts[k]
      case Visits(_) => true
      case Defines(i, r, val) =>
        && i < |sources|
        && sources[i].capturedAt <= r.start <= r.end
        && (sources[i].value.Some? ==>
              && r.Contains(sources[i].value.value.span)
              && val == Eval(sources[i].value.value.expr, ops, StoreAfter(acts[..k], store, target)))
      case Writes(ident, pos, _) =>
        && ident != Local(target)
        && ident in writes && pos in writes[ident]
        && Fits(Current(acts[..k]), pos)
    }

    ghost predicate Fits(step: Option<Act>, pos: nat) {
      match step
      case Some(Visits(r)) => r.start <= pos < r.end
      case Some(Defines(i, r, _)) =>
        && r.start <= pos < r.end
        && (i < |sources| && sources[i].value.Some? ==>
              !(sources[i].value.value.span.start <= pos < sources[i].value.value.span.end))
      case _ => false
    }
  }

  lemma {:induction false} EvalAgrees(e: Expr, ops: (nat, int, int) -> int, a: Store, b: Store)
    requires forall ident :: ident in Idents(e) ==> a(ident) == b(ident)
    ensures Eval(e, ops, a) == Eval(e, ops, b)
  {
    match e
    case Literal(_) =>
    case Name(ident) => assert ident in Idents(e);
    case Op(_, left, right) =>
      EvalAgrees(left, ops, a, b);
      EvalAgrees(right, ops, a, b);
  }

  /** The step behind the last definition of a trace; everything visited after it lies after its region. */
  lemma {:induction false} FindDefine(acts: seq<Act>, k: nat, i: nat) returns (q: nat)
    requires LastAt(Project(acts), k, i) && LaterInText(Project(acts), k)
    ensures q < |acts| && acts[q].Defines? && acts[q].index == i
    ensures forall w :: q < w < |acts| ==> !acts[w].Defines?
    ensures forall w :: q < w < |acts| && acts[w].Visits? ==> acts[q].region.end <= acts[w].region.start
    decreases |acts|
  {
    var last, prior := acts[|acts| - 1], acts[..|acts| - 1];
    var t, t' := Project(acts), Project(prior);
    if last.Defines? {
      assert t[|t| - 1].Def?;
      q := |acts| - 1;
    } else {
      assert last.Visits? ==> t[|t| - 1] == Visit(last.region);
      assert t'[k] == t[k];
      forall j | k < j < |t'|
        ensures t'[j].Visit? && t[k].region.end <= t'[j].region.start
      {
        assert t'[j] == t[j];
      }
      q := FindDefine(prior, k, i);
      if last.Visits? {
        assert t[|t| - 1] == Visit(last.region);
        DefineRegion(prior, q);
        LastDefineIsAt(prior, q, k, i);
      }
    }
  }

  lemma DefineRegion(acts: seq<Act>, q: nat)
    requires q < |acts| && acts[q].Defines?
    ensures Def(acts[q].index, acts[q].region) in Project(acts)
    decreases |acts|
  {
    if q < |acts| - 1 {
      DefineRegion(acts[..|acts| - 1], q);
    }
  }

  /** The last definition step is the one the last definition of the trace comes from. */
  lemma {:induction false} LastDefineIsAt(acts: seq<Act>, q: nat, k: nat, i: nat)
    requires LastAt(Project(acts), k, i)
    requires q < |acts| && acts[q].Defines? && forall w :: q < w < |acts| ==> !acts[w].Defines?
    ensures Project(acts)[k] == Def(acts[q].index, acts[q].region)
    decreases |acts|
  {
    var last, prior := acts[|acts| - 1], acts[..|acts| - 1];
    var t, t' := Project(acts), Project(prior);
    if q == |acts| - 1 {
      assert t[|t| - 1].Def?;
    } else {
      assert last.Visits? ==> t[|t| - 1] == Visit(last.region);
      assert t'[k] == t[k];
      forall j | k < j < |t'|
        ensures t'[j].Visit?
      {
        assert t'[j] == t[j];
      }
      LastDefineIsAt(prior, q, k, i);
    }
  }

  /** Between definition step `q` and step `w`, nothing the value reads is written, nor the target. */
  lemma {:induction false} NothingWritten(v: Variable, acts: seq<Act>, q: nat, w: nat, store: Store, ops: (nat, int, int) -> int, ident: Ident)
    requires v.Lawful(acts, store, ops)
    requires q < w <= |acts| && acts[q].Defines? && acts[q].index < |v.sources| && v.sources[acts[q].index].value.Some?
    requires forall j :: q < j < |acts| ==> !acts[j].Defines?
    requires forall j :: q < j < |acts| && acts[j].Visits? ==> acts[q].region.end <= acts[j].region.start
    requires var source := v.sources[acts[q].index];
      ident == Local(v.target) || !WrittenLater(v.writes, ident, source.value.value.span, source.capturedAt)
    ensures StoreAfter(acts[..w], store, v.target)(ident) == StoreAfter(acts[..q + 1], store, v.target)(ident)
    decreases w
  {
    if w > q + 1 {
      NothingWritten(v, acts, q, w - 1, store, ops, ident);
      assert acts[..w][..w - 1] == acts[..w - 1];
      var act := acts[w - 1];
      if act.Writes? && act.ident == ident {
        WriteIsLate(v, acts, q, w - 1, store, ops);
      }
    }
  }

  /** A write after the last definition of the target counts as later in the text. */
  lemma WriteIsLate(v: Variable, acts: seq<Act>, q: nat, w: nat, store: Store, ops: (nat, int, int) -> int)
    requires v.Lawful(acts, store, ops)
    requires q < w < |acts| && acts[q].Defines? && acts[q].index < |v.sources| && v.sources[acts[q].index].value.Some?
    requires forall j :: q < j < |acts| ==> !acts[j].Defines?
    requires forall j :: q < j < |acts| && acts[j].Visits? ==> acts[q].region.end <= acts[j].region.start
    requires acts[w].Writes?
    ensures acts[w].ident != Local(v.target)
    ensures var source := v.sources[acts[q].index];
      WrittenLater(v.writes, acts[w].ident, source.value.value.span, source.capturedAt)
  {
    var source, pos := v.sources[acts[q].index], acts[w].pos;
    CurrentSince(acts, q, w);
    assert v.LawfulStep(acts, q, store, ops) && v.LawfulStep(acts, w, store, ops);
    assert v.Fits(Current(acts[..w]), pos);
    assert pos >= source.capturedAt && !(source.value.value.span.start <= pos < source.value.value.span.end);
  }

  lemma {:induction false} CurrentSince(acts: seq<Act>, q: nat, w: nat)
    requires q < w <= |acts| && acts[q].Defines?
    requires forall j :: q < j < w ==> !acts[j].Defines?
    ensures Current(acts[..w]).Some?
    ensures Current(acts[..w]) == Some(acts[q]) || exists j :: q < j < w && acts[j].Visits? && Current(acts[..w]) == Some(acts[j])
    decreases w
  {
    assert acts[..w][..w - 1] == acts[..w - 1];
    if w > q + 1 && acts[w - 1].Writes? {
      CurrentSince(acts, q, w - 1);
    }
  }

  /** At a read that the refactoring calls verified (one reaching definition, with a stable value), the value evaluates to
      what the variable holds, in every execution that gets there, if none of the value's fields is written later. */
  lemma {:induction false} StableReadKeepsValue(v: Variable, b: Body, x: Span, i: nat, run: Run, acts: seq<Act>, store: Store, ops: (nat, int, int) -> int)
    requires b.Valid() && b.Reads(run, x) && b.decl.end <= x.start < x.end
    requires SoleDef(b.MaskFor(x)) == Some(i) && i < |v.sources| && v.sources[i].value.Some?
    requires StabilityOf(v.sources[i].value.value, v.sources[i].capturedAt, v.target, v.writes).Stable?
    requires Settled(v.sources[i].value.value, v.sources[i].capturedAt, v.writes)
    requires Project(acts) == b.Trace(run) && v.Lawful(acts, store, ops)
    ensures Eval(v.sources[i].value.value.expr, ops, StoreAfter(acts, store, v.target))
         == StoreAfter(acts, store, v.target)(Local(v.target))
  {
    var k := SoleDefinitionIsInForce(b, run, x, i);
    var q := FindDefine(acts, k, i);
    var e := v.sources[i].value.value.expr;
    var before, landed, end := StoreAfter(acts[..q], store, v.target), StoreAfter(acts[..q + 1], store, v.target), StoreAfter(acts, store, v.target);
    assert v.LawfulStep(acts, q, store, ops);
    assert acts[..q + 1][..q] == acts[..q] && acts[..|acts|] == acts;
    NothingWritten(v, acts, q, |acts|, store, ops, Local(v.target));
    forall ident | ident in Idents(e)
      ensures before(ident) == end(ident)
    {
      NothingWritten(v, acts, q, |acts|, store, ops, ident);
    }
    EvalAgrees(e, ops, before, end);
  }
}
