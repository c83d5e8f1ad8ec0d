/** What every table of extracted symbols looks like: ids in order, containers before their contents, and every symbol that
    starts inside a declaration's range hanging below it. */
module SymbolTable {
  import opened Wrappers
  import opened Walk
  import opened Extractor

  /** Declarations that hold others: types, enums and callables. */
  predicate Holds(kind: SymbolKind) {
    kind in {Class, Struct, Enum, State, Function, Method, Event}
  }

  /** Ids are positions, and a container comes earlier and spans its contents. */
  ghost predicate Numbered(symbols: seq<Symbol>) {
    forall i :: 0 <= i < |symbols| ==>
      && symbols[i].id == i && symbols[i].start <= symbols[i].end
      && match symbols[i].container
         case Some(c) => c < i && symbols[c].start <= symbols[i].start && symbols[i].end <= symbols[c].end
         case None => true
  }

  /** `c` is `e` or below it. */
  ghost predicate Below(symbols: seq<Symbol>, c: nat, e: nat)
    decreases c
  {
    c == e || (c < |symbols| && symbols[c].container.Some? && symbols[c].container.value < c
               && Below(symbols, symbols[c].container.value, e))
  }

  /** Symbol `c` starts inside the range of `e`, at its start only if it comes no earlier in the table. */
  ghost predicate StartsIn(symbols: seq<Symbol>, c: nat, e: nat)
    requires c < |symbols| && e < |symbols|
  {
    symbols[e].start <= symbols[c].start < symbols[e].end && (symbols[e].start < symbols[c].start || e <= c)
  }

  ghost predicate Nested(symbols: seq<Symbol>) {
    forall e, c :: 0 <= e < |symbols| && 0 <= c < |symbols| && Holds(symbols[e].kind) && StartsIn(symbols, c, e) ==>
      Below(symbols, c, e)
  }

  ghost predicate WellFormed(symbols: seq<Symbol>) {
    Numbered(symbols) && Nested(symbols)
  }

  /** Byte ranges of a tree: children inside their parent, in order, and a callable's parameters before its block. */
  ghost predicate Laid(t: Cst)
    decreases t, 1
  {
    t.info.start <= t.info.end && LaidAll(t.children, t.info.start, t.info.end) && ParamsFirst(t.children)
  }

  ghost predicate LaidAll(ts: seq<Cst>, lo: nat, hi: nat)
    decreases ts, 0
  {
    if ts == [] then lo <= hi
    else lo <= ts[0].info.start && ts[0].info.end <= hi && Laid(ts[0]) && LaidAll(ts[1..], ts[0].info.end, hi)
  }

  ghost predicate ParamsFirst(ts: seq<Cst>) {
    forall i, j :: 0 <= i < j < |ts| && ts[i].info.kind == FuncBlock ==> ts[j].info.kind != FuncParams
  }

  /* One node at a time. */

  function ContainerOf(mode: Mode): Option<nat> {
    match mode
    case Body(container, _) => container
    case EnumMembers(id) => Some(id)
    case Callable(id, _) => Some(id)
  }

  /** The table so far, in front of a node that lies in `lo..hi` and whose symbols go into `container`: earlier declarations
      are over by `lo` or hold the container, and nothing starts after `lo`. */
  ghost predicate Ready(symbols: seq<Symbol>, container: Option<nat>, lo: nat, hi: nat) {
    && WellFormed(symbols)
    && (container.Some? ==> container.value < |symbols| && symbols[container.value].start <= lo && hi <= symbols[container.value].end)
    && (forall e :: 0 <= e < |symbols| && Holds(symbols[e].kind) ==>
          symbols[e].end <= lo || (container.Some? && Below(symbols, container.value, e)))
    && (forall c :: 0 <= c < |symbols| ==> symbols[c].start <= lo)
  }

  /** `after` extends `before` by symbols in `lo..hi` that hang below `container`. */
  ghost predicate Grown(before: seq<Symbol>, after: seq<Symbol>, container: Option<nat>, lo: nat, hi: nat) {
    && before <= after
    && forall c :: |before| <= c < |after| ==>
         && lo <= after[c].start && after[c].end <= hi
         && (container.Some? ==> Below(after, c, container.value))
  }

  lemma {:induction false} BelowStable(before: seq<Symbol>, after: seq<Symbol>, c: nat, e: nat)
    requires before <= after && c < |before|
    ensures Below(before, c, e) <==> Below(after, c, e)
    decreases c
  {
    if c != e && before[c].container.Some? && before[c].container.value < c {
      BelowStable(before, after, before[c].container.value, e);
    }
  }

  lemma {:induction false} BelowTransitive(symbols: seq<Symbol>, a: nat, b: nat, c: nat)
    requires Below(symbols, a, b) && Below(symbols, b, c)
    ensures Below(symbols, a, c)
    decreases a
  {
    if a != b {
      BelowTransitive(symbols, symbols[a].container.value, b, c);
    }
  }

  /** Below means inside, and not before. */
  lemma {:induction false} BelowInside(symbols: seq<Symbol>, c: nat, e: nat)
    requires Numbered(symbols) && c < |symbols| && Below(symbols, c, e)
    ensures e <= c && symbols[e].start <= symbols[c].start && symbols[c].end <= symbols[e].end
    decreases c
  {
    if c != e {
      BelowInside(symbols, symbols[c].container.value, e);
    }
  }

  /** Adding one symbol to a ready table. */
  lemma PushReady(symbols: seq<Symbol>, s: Symbol, container: Option<nat>, lo: nat, hi: nat)
    requires Ready(symbols, container, lo, hi)
    requires s.id == |symbols| && s.container == container && lo <= s.start <= s.end <= hi
    ensures WellFormed(symbols + [s]) && Grown(symbols, symbols + [s], container, lo, hi)
  {
    var after, n := symbols + [s], |symbols|;
    forall e, c | 0 <= e < |after| && 0 <= c < |after| && Holds(after[e].kind) && StartsIn(after, c, e)
      ensures Below(after, c, e)
    {
      if c == n {
        if e < n {
          BelowStable(symbols, after, container.value, e);
        }
      } else {
        BelowStable(symbols, after, c, e);
        assert StartsIn(symbols, c, e);
      }
    }
  }

  /** A table that has grown is ready for a node further on. */
  lemma GrownReady(before: seq<Symbol>, after: seq<Symbol>, container: Option<nat>, lo: nat, hi: nat, lo': nat, hi': nat)
    requires Ready(before, container, lo, hi) && WellFormed(after)
    requires lo <= lo' && hi' <= hi
    requires Grown(before, after, container, lo, lo')
    ensures Ready(after, container, lo', hi')
  {
    forall e | 0 <= e < |after| && Holds(after[e].kind)
      ensures after[e].end <= lo' || (container.Some? && Below(after, container.value, e))
    {
      if e < |before| && container.Some? && Below(before, container.value, e) {
        BelowStable(before, after, container.value, e);
      }
    }
  }

  lemma GrownTwice(a: seq<Symbol>, b: seq<Symbol>, c: seq<Symbol>, container: Option<nat>, lo: nat, mid: nat, hi: nat)
    requires lo <= mid <= hi && Grown(a, b, container, lo, mid) && Grown(b, c, container, mid, hi)
    ensures Grown(a, c, container, lo, hi)
  {
    forall k | |a| <= k < |c|
      ensures lo <= c[k].start && c[k].end <= hi && (container.Some? ==> Below(c, k, container.value))
    {
      if k < |b| && container.Some? {
        BelowStable(b, c, k, container.value);
      }
    }
  }

  /** Growing in place: several symbols for the same node. */
  lemma GrownWithin(a: seq<Symbol>, b: seq<Symbol>, c: seq<Symbol>, container: Option<nat>, lo: nat, hi: nat)
    requires Grown(a, b, container, lo, hi) && Grown(b, c, container, lo, hi)
    ensures Grown(a, c, container, lo, hi)
  {
    forall k | |a| <= k < |c|
      ensures lo <= c[k].start && c[k].end <= hi && (container.Some? ==> Below(c, k, container.value))
    {
      if k < |b| && container.Some? {
        BelowStable(b, c, k, container.value);
      }
    }
  }

  lemma {:induction false} FromChildren(ts: seq<Cst>, lo: nat, hi: nat, kind: Kind, k: nat)
    requires LaidAll(ts, lo, hi) && k < |ChildrenOfKind(ts, kind)|
    ensures var n := ChildrenOfKind(ts, kind)[k]; Laid(n) && lo <= n.info.start && n.info.end <= hi && n.info.kind == kind && n in ts
    decreases |ts|
  {
    if ts[0].info.kind != kind {
      FromChildren(ts[1..], ts[0].info.end, hi, kind, k);
    } else if k > 0 {
      FromChildren(ts[1..], ts[0].info.end, hi, kind, k - 1);
    }
  }

  /** The symbols of a declaration of variables: no declarations that hold others, all at the same place. */
  lemma {:induction false} NamesGrown(symbols: seq<Symbol>, node: Cst, names: seq<Cst>, kind: SymbolKind, spec: Spec, lo: nat, hi: nat)
    requires Ready(symbols, spec.container, lo, hi) && !Holds(kind)
    requires lo <= node.info.start <= node.info.end <= hi
    ensures WellFormed(PushNames(symbols, node, names, kind, spec))
    ensures Grown(symbols, PushNames(symbols, node, names, kind, spec), spec.container, node.info.start, node.info.end)
    decreases |names|
  {
    GrownReady(symbols, symbols, spec.container, lo, hi, node.info.start, node.info.end);
    if names == [] {
    } else {
      var next := Push(symbols, node, names[0], kind, spec);
      PushReady(symbols, MakeSymbol(symbols, node, names[0], kind, spec), spec.container, node.info.start, node.info.end);
      SamePlaceReady(symbols, next, spec.container, node.info.start, node.info.end);
      NamesGrown(next, node, names[1..], kind, spec, node.info.start, node.info.end);
      GrownWithin(symbols, next, PushNames(symbols, node, names, kind, spec), spec.container, node.info.start, node.info.end);
    }
  }

  lemma SamePlaceReady(before: seq<Symbol>, after: seq<Symbol>, container: Option<nat>, lo: nat, hi: nat)
    requires Ready(before, container, lo, hi) && WellFormed(after) && before <= after && |after| == |before| + 1
    requires !Holds(after[|before|].kind) && after[|before|].start == lo
    ensures Ready(after, container, lo, hi)
  {
    forall e | 0 <= e < |after| && Holds(after[e].kind)
      ensures after[e].end <= lo || (container.Some? && Below(after, container.value, e))
    {
      if container.Some? && Below(before, container.value, e) {
        BelowStable(before, after, container.value, e);
      }
    }
  }

  /** Parameters: groups in order, all inside the parameter list. */
  lemma {:induction false} GroupsGrown(symbols: seq<Symbol>, ts: seq<Cst>, id: nat, lo: nat, hi: nat)
    requires Ready(symbols, Some(id), lo, hi) && LaidAll(ts, lo, hi)
    ensures WellFormed(PushGroups(symbols, ChildrenOfKind(ts, FuncParamGroup), id))
    ensures Grown(symbols, PushGroups(symbols, ChildrenOfKind(ts, FuncParamGroup), id), Some(id), lo, hi)
    decreases |ts|
  {
    if ts == [] {
    } else {
      var mid := ts[0].info.end;
      var groups, rest := ChildrenOfKind(ts, FuncParamGroup), ChildrenOfKind(ts[1..], FuncParamGroup);
      if ts[0].info.kind == FuncParamGroup {
        assert groups == [ts[0]] + rest && groups[1..] == rest;
        var next := PushVarDecl(symbols, ts[0], Some(id), [], Parameter);
        NamesGrown(symbols, ts[0], NameNodes(ts[0].children, NamesField), Parameter,
                   Spec(Some(id), [] + DirectAnnotations(ts[0]), None, None), lo, hi);
        GrownReady(symbols, next, Some(id), lo, hi, mid, hi);
        GroupsGrown(next, ts[1..], id, mid, hi);
        GrownTwice(symbols, next, PushGroups(next, rest, id), Some(id), lo, mid, hi);
      } else {
        assert groups == rest;
        GrownReady(symbols, symbols, Some(id), lo, hi, mid, hi);
        GroupsGrown(symbols, ts[1..], id, mid, hi);
      }
    }
  }

  lemma Later(symbols: seq<Symbol>, container: Option<nat>, lo: nat, hi: nat, lo': nat, hi': nat)
    requires Ready(symbols, container, lo, hi) && lo <= lo' && hi' <= hi
    ensures Ready(symbols, container, lo', hi')
  {
  }

  /** After a declaration's own symbol, the table is ready for what is inside the declaration. */
  lemma OpenReady(symbols: seq<Symbol>, s: Symbol, container: Option<nat>, lo: nat, hi: nat)
    requires Ready(symbols, container, lo, hi)
    requires s.id == |symbols| && s.container == container && lo <= s.start <= s.end <= hi
    ensures Ready(symbols + [s], Some(|symbols|), s.start, s.end)
  {
    var after, n := symbols + [s], |symbols|;
    PushReady(symbols, s, container, lo, hi);
    forall e | 0 <= e < |after| && Holds(after[e].kind)
      ensures after[e].end <= s.start || Below(after, n, e)
    {
      if e < n && container.Some? && Below(symbols, container.value, e) {
        BelowStable(symbols, after, container.value, e);
      }
    }
  }

  /** What grew below a declaration grew below its container. */
  lemma GrownUnder(symbols: seq<Symbol>, s: Symbol, after: seq<Symbol>, container: Option<nat>)
    requires s.id == |symbols| && s.container == container && s.start <= s.end
    requires container.Some? ==> container.value < |symbols|
    requires Grown(symbols + [s], after, Some(|symbols|), s.start, s.end)
    ensures Grown(symbols, after, container, s.start, s.end)
  {
    var n := |symbols|;
    assert after[n] == s;
    forall k | n <= k < |after|
      ensures s.start <= after[k].start && after[k].end <= s.end && (container.Some? ==> Below(after, k, container.value))
    {
      if container.Some? {
        assert Below(after, n, container.value);
        if k > n {
          BelowTransitive(after, k, n, container.value);
        }
      }
    }
  }

  lemma Widen(before: seq<Symbol>, after: seq<Symbol>, container: Option<nat>, lo: nat, hi: nat, lo': nat, hi': nat)
    requires Grown(before, after, container, lo, hi) && lo' <= lo && hi <= hi'
    ensures Grown(before, after, container, lo', hi')
  {
  }

  lemma {:induction false} Siblings(ts: seq<Cst>, lo: nat, hi: nat, i: nat, j: nat)
    requires LaidAll(ts, lo, hi) && i <= j < |ts|
    ensures Laid(ts[j]) && lo <= ts[j].info.start && ts[j].info.end <= hi
    ensures i < j ==> ts[i].info.end <= ts[j].info.start
    decreases |ts|
  {
    if j > 0 {
      Siblings(ts[1..], ts[0].info.end, hi, if i == 0 then j - 1 else i - 1, j - 1);
      if i == 0 {
        assert ts[1..][j - 1] == ts[j];
      }
    }
  }

  lemma {:induction false} IndexOfFirst(ts: seq<Cst>, kind: Kind) returns (i: nat)
    requires ChildrenOfKind(ts, kind) != []
    ensures i < |ts| && ts[i] == ChildrenOfKind(ts, kind)[0] && ts[i].info.kind == kind
    decreases |ts|
  {
    if ts[0].info.kind == kind {
      i := 0;
    } else {
      var j := IndexOfFirst(ts[1..], kind);
      i := j + 1;
    }
  }

  /* The induction over the tree. */

  ghost predicate GrownBy(symbols: seq<Symbol>, mode: Mode, result: (Mode, seq<Symbol>), lo: nat, hi: nat) {
    && WellFormed(result.1) && Grown(symbols, result.1, ContainerOf(mode), lo, hi)
    && ContainerOf(result.0) == ContainerOf(mode) && !result.0.Callable?
  }

  lemma {:induction false} NodeGrows(t: Cst, mode: Mode, symbols: seq<Symbol>, lo: nat, hi: nat)
    requires !mode.Callable? && Laid(t) && lo <= t.info.start && t.info.end <= hi
    requires Ready(symbols, ContainerOf(mode), lo, hi)
    ensures GrownBy(symbols, mode, Extract(t, mode, symbols), t.info.start, t.info.end)
    decreases t, 2
  {
    Later(symbols, ContainerOf(mode), lo, hi, t.info.start, t.info.end);
    if !t.info.named {
      assert Extract(t, mode, symbols) == (mode, symbols);
    } else if mode.EnumMembers? {
      EnumNodeGrows(t, mode.id, symbols);
    } else if IsDecl(t.info.kind) {
      DeclGrows(t, mode.container, mode.pending, symbols);
    } else {
      BodyNodeGrows(t, mode.container, mode.pending, symbols);
    }
  }

  lemma {:induction false} EnumNodeGrows(t: Cst, id: nat, symbols: seq<Symbol>)
    requires Laid(t) && t.info.named && Ready(symbols, Some(id), t.info.start, t.info.end)
    ensures GrownBy(symbols, EnumMembers(id), Extract(t, EnumMembers(id), symbols), t.info.start, t.info.end)
    decreases t, 1
  {
    if t.info.kind != EnumMemberDecl {
      ChildrenGrow(t.children, EnumMembers(id), symbols, t.info.start, t.info.end);
    } else if NthChildKind(t, IdentNode, 0).Some? {
      var name := NthChildKind(t, IdentNode, 0).value;
      var s := MakeSymbol(symbols, t, name, EnumMember, Spec(Some(id), [], None, None));
      PushReady(symbols, s, Some(id), t.info.start, t.info.end);
    }
  }

  lemma {:induction false} BodyNodeGrows(t: Cst, container: Option<nat>, pending: seq<Annotation>, symbols: seq<Symbol>)
    requires Laid(t) && t.info.named && !IsDecl(t.info.kind) && Ready(symbols, container, t.info.start, t.info.end)
    ensures GrownBy(symbols, Body(container, pending), Extract(t, Body(container, pending), symbols), t.info.start, t.info.end)
    decreases t, 1
  {
    if t.info.kind == MemberVarDecl || t.info.kind == AutobindDecl || t.info.kind == LocalVarDecl {
      VarDeclGrows(t, container, pending, symbols, if t.info.kind == LocalVarDecl then Variable else FieldSymbol);
    } else if t.info.kind != AnnotationNode {
      ChildrenGrow(t.children, Body(container, pending), symbols, t.info.start, t.info.end);
    }
  }

  lemma {:induction false} VarDeclGrows(t: Cst, container: Option<nat>, pending: seq<Annotation>, symbols: seq<Symbol>, kind: SymbolKind)
    requires Laid(t) && Ready(symbols, container, t.info.start, t.info.end) && !Holds(kind)
    ensures var after := PushVarDecl(symbols, t, container, pending, kind);
      WellFormed(after) && Grown(symbols, after, container, t.info.start, t.info.end)
  {
    var names := NameNodes(t.children, if t.info.kind == AutobindDecl then NameField else NamesField);
    NamesGrown(symbols, t, names, kind, Spec(container, pending + DirectAnnotations(t), None, None), t.info.start, t.info.end);
  }

  lemma {:induction false} ChildrenGrow(ts: seq<Cst>, mode: Mode, symbols: seq<Symbol>, lo: nat, hi: nat)
    requires !mode.Callable? && LaidAll(ts, lo, hi) && Ready(symbols, ContainerOf(mode), lo, hi)
    ensures WellFormed(ExtractAll(ts, mode, symbols))
    ensures Grown(symbols, ExtractAll(ts, mode, symbols), ContainerOf(mode), lo, hi)
    decreases ts, 0
  {
    if ts == [] {
    } else {
      var (mode', next) := Extract(ts[0], mode, symbols);
      var mid := ts[0].info.end;
      NodeGrows(ts[0], mode, symbols, lo, hi);
      Widen(symbols, next, ContainerOf(mode), ts[0].info.start, mid, lo, mid);
      GrownReady(symbols, next, ContainerOf(mode), lo, hi, mid, hi);
      ChildrenGrow(ts[1..], mode', next, mid, hi);
      GrownTwice(symbols, next, ExtractAll(ts[1..], mode', next), ContainerOf(mode), lo, mid, hi);
    }
  }

  lemma {:induction false} DeclGrows(t: Cst, container: Option<nat>, pending: seq<Annotation>, symbols: seq<Symbol>)
    requires Laid(t) && t.info.named && IsDecl(t.info.kind) && Ready(symbols, container, t.info.start, t.info.end)
    ensures GrownBy(symbols, Body(container, pending), Extract(t, Body(container, pending), symbols), t.info.start, t.info.end)
    decreases t, 1
  {
    var a, b := t.info.start, t.info.end;
    var o := OpenDecl(t, container, pending, symbols);
    assert Open(Body(container, pending), t, symbols) == o;
    if NthChildKind(t, IdentNode, 0).None? {
      ChildrenGrow(t.children, o.inner.value, symbols, a, b);
    } else {
      var name := NthChildKind(t, IdentNode, 0).value;
      var annotations := pending + DirectAnnotations(t);
      var s := MakeSymbol(symbols, t, name, DeclKind(t.info.kind, container), DeclSpec(t, container, annotations));
      OpenReady(symbols, s, container, a, b);
      if o.inner.value.Callable? {
        CallableGrows(t, symbols + [s], |symbols|);
      } else {
        ChildrenGrow(t.children, o.inner.value, symbols + [s], a, b);
      }
      GrownUnder(symbols, s, ExtractAll(t.children, o.inner.value, o.symbols), container);
    }
  }

  /** The parameters and the block of a callable whose symbol is `id`. */
  lemma {:induction false} CallableGrows(t: Cst, symbols: seq<Symbol>, id: nat)
    requires Laid(t) && Ready(symbols, Some(id), t.info.start, t.info.end)
    ensures var after := ExtractAll(t.children, Callable(id, false), PushParams(symbols, t, id));
      WellFormed(after) && Grown(symbols, after, Some(id), t.info.start, t.info.end)
    decreases t, 0
  {
    var a, b := t.info.start, t.info.end;
    var pushed := PushParams(symbols, t, id);
    var split := ParamsGrow(t, symbols, id);
    assert t.children[0..] == t.children;
    BlockGrows(t.children, 0, pushed, id, a, b, split);
    GrownTwice(symbols, pushed, ExtractAll(t.children, Callable(id, false), pushed), Some(id), a, split, b);
  }

  /** The parameters end at `split`, where no block has started yet. */
  lemma {:induction false} ParamsGrow(t: Cst, symbols: seq<Symbol>, id: nat) returns (split: nat)
    requires Laid(t) && Ready(symbols, Some(id), t.info.start, t.info.end)
    ensures t.info.start <= split <= t.info.end
    ensures Grown(symbols, PushParams(symbols, t, id), Some(id), t.info.start, split)
    ensures Ready(PushParams(symbols, t, id), Some(id), split, t.info.end)
    ensures forall j :: 0 <= j < |t.children| && t.children[j].info.kind == FuncBlock ==> split <= t.children[j].info.start
  {
    var a, b, ts := t.info.start, t.info.end, t.children;
    var pushed := PushParams(symbols, t, id);
    split := a;
    if ChildrenOfKind(ts, FuncParams) != [] {
      var p := IndexOfFirst(ts, FuncParams);
      Siblings(ts, a, b, p, p);
      var params := ts[p];
      split := params.info.end;
      Later(symbols, Some(id), a, b, params.info.start, split);
      GroupsGrown(symbols, params.children, id, params.info.start, split);
      Widen(symbols, pushed, Some(id), params.info.start, split, a, split);
      ParamsBeforeBlock(ts, a, b, p);
    } else {
      forall j | 0 <= j < |ts|
        ensures split <= ts[j].info.start
      {
        Siblings(ts, a, b, j, j);
      }
    }
    GrownReady(symbols, pushed, Some(id), a, b, split, b);
  }

  lemma ParamsBeforeBlock(ts: seq<Cst>, lo: nat, hi: nat, p: nat)
    requires LaidAll(ts, lo, hi) && ParamsFirst(ts) && p < |ts| && ts[p].info.kind == FuncParams
    ensures forall j :: 0 <= j < |ts| && ts[j].info.kind == FuncBlock ==> ts[p].info.end <= ts[j].info.start
  {
    forall j | 0 <= j < |ts| && ts[j].info.kind == FuncBlock
      ensures ts[p].info.end <= ts[j].info.start
    {
      if p < j {
        Siblings(ts, lo, hi, p, j);
      }
    }
  }

  /** Among a callable's children from `k` on, only the first block makes symbols. */
  lemma {:induction false} BlockGrows(ts: seq<Cst>, k: nat, symbols: seq<Symbol>, id: nat, lo: nat, hi: nat, split: nat)
    requires k <= |ts| && LaidAll(ts, lo, hi) && split <= hi
    requires Ready(symbols, Some(id), split, hi)
    requires forall j :: 0 <= j < |ts| && ts[j].info.kind == FuncBlock ==> split <= ts[j].info.start
    ensures WellFormed(ExtractAll(ts[k..], Callable(id, false), symbols))
    ensures Grown(symbols, ExtractAll(ts[k..], Callable(id, false), symbols), Some(id), split, hi)
    decreases ts, |ts| - k
  {
    if k == |ts| {
    } else {
      assert ts[k..][0] == ts[k] && ts[k..][1..] == ts[k + 1..];
      if ts[k].info.named && ts[k].info.kind == FuncBlock {
        Siblings(ts, lo, hi, k, k);
        var block := ts[k];
        Later(symbols, Some(id), split, hi, block.info.start, block.info.end);
        ChildrenGrow(block.children, Body(Some(id), []), symbols, block.info.start, block.info.end);
        var next := ExtractAll(block.children, Body(Some(id), []), symbols);
        AfterBlock(ts[k + 1..], next, id);
        Widen(symbols, next, Some(id), block.info.start, block.info.end, split, hi);
      } else {
        BlockGrows(ts, k + 1, symbols, id, lo, hi, split);
      }
    }
  }

  lemma {:induction false} AfterBlock(ts: seq<Cst>, symbols: seq<Symbol>, id: nat)
    ensures ExtractAll(ts, Callable(id, true), symbols) == symbols
    decreases |ts|
  {
    if ts != [] {
      AfterBlock(ts[1..], symbols, id);
    }
  }

  /** Every document's table is well formed. */
  lemma ExtractedTableIsWellFormed(root: Cst)
    requires Laid(root)
    ensures WellFormed(ExtractDocument(root))
  {
    ChildrenGrow(root.children, Body(None, []), [], root.info.start, root.info.end);
  }
}
