/** Which symbols a document has (src/symbols/extract.rs), said over the tree: what each node declares follows from its own
    kind and children and from where it stands, without the extractor's modes and frames. */
module SymbolSet {
  import opened Wrappers
  import opened Walk
  import opened Paths
  import opened Extractor

  /* Where a node stands. */

  /** In the body of `owner`, or of no declaration, with the annotations before it that no node has taken; in an enum; the
      block of a callable; its parameter list; one of the groups in that; or somewhere that declares nothing. */
  datatype Place =
    | AtRoot
    | InBody(owner: Option<seq<nat>>, stray: seq<Annotation>)
    | InEnum(enumeration: seq<nat>)
    | InBlock(callable: seq<nat>)
    | ParamList(callable: seq<nat>)
    | ParamGroup(callable: seq<nat>)
    | Skipped

  /** The number of nodes of a kind among the first `j`. */
  function CountKind(ts: seq<Cst>, kind: Kind, j: nat): nat
    requires j <= |ts|
  {
    if j == 0 then 0 else CountKind(ts, kind, j - 1) + if ts[j - 1].info.kind == kind then 1 else 0
  }

  /** Node `j` is the one of this kind that has `n` others before it. */
  predicate Nth(ts: seq<Cst>, kind: Kind, n: nat, j: nat) {
    j < |ts| && ts[j].info.kind == kind && CountKind(ts, kind, j) == n
  }

  predicate IsBlock(t: Cst) {
    t.info.named && t.info.kind == FuncBlock
  }

  predicate FirstBlock(ts: seq<Cst>, j: nat) {
    j < |ts| && IsBlock(ts[j]) && forall i :: 0 <= i < j ==> !IsBlock(ts[i])
  }

  predicate HasName(t: Cst) {
    exists j :: 0 <= j < |t.children| && t.children[j].info.kind == IdentNode
  }

  predicate IsVar(kind: Kind) {
    kind == MemberVarDecl || kind == AutobindDecl || kind == LocalVarDecl
  }

  predicate IsFunc(kind: Kind) {
    kind == FuncDecl || kind == EventDecl
  }

  /** The annotations that have been seen and not taken before child `i`, with `first` there at the start: every named
      node that is not an annotation takes them. */
  function StrayBefore(ts: seq<Cst>, i: nat, first: seq<Annotation>): seq<Annotation>
    requires i <= |ts|
  {
    if i == 0 then first
    else if !ts[i - 1].info.named then StrayBefore(ts, i - 1, first)
    else if ts[i - 1].info.kind == AnnotationNode then StrayBefore(ts, i - 1, first) + AnnotationOf(ts[i - 1])
    else []
  }

  /** Where child `i` of `t` stands, if `t` is at `at` and stands in `w`. */
  function ChildPlace(w: Place, t: Cst, at: seq<nat>, i: nat): Place
    requires i < |t.children|
  {
    match w
    case AtRoot => InBody(None, StrayBefore(t.children, i, []))
    case ParamList(f) => if t.children[i].info.kind == FuncParamGroup then ParamGroup(f) else Skipped
    case ParamGroup(_) => Skipped
    case Skipped => Skipped
    case InBlock(f) => if t.info.named then InBody(Some(f), StrayBefore(t.children, i, [])) else Skipped
    case InEnum(e) => if t.info.named && t.info.kind != EnumMemberDecl then w else Skipped
    case InBody(owner, stray) =>
      if !t.info.named || t.info.kind == AnnotationNode || IsVar(t.info.kind) then Skipped
      else if !IsDecl(t.info.kind) then InBody(owner, StrayBefore(t.children, i, stray))
      else if !HasName(t) then InBody(owner, StrayBefore(t.children, i, stray + DirectAnnotations(t)))
      else if t.info.kind == EnumDecl then InEnum(at)
      else if !IsFunc(t.info.kind) then InBody(Some(at), StrayBefore(t.children, i, []))
      else if Nth(t.children, FuncParams, 0, i) then ParamList(at)
      else if FirstBlock(t.children, i) then InBlock(at)
      else Skipped
  }

  /** Where the node at `path` below `t` stands. */
  function PlaceBelow(t: Cst, at: seq<nat>, w: Place, path: seq<nat>): Place
    requires HasPath(t, path)
    decreases |path|
  {
    if path == [] then w
    else PlaceBelow(t.children[path[0]], at + [path[0]], ChildPlace(w, t, at, path[0]), path[1..])
  }

  /* What a node declares there. */

  /** A declaration: the node, its path and place, and which child names it. */
  datatype Decl = Decl(path: seq<nat>, node: Cst, index: nat, place: Place)

  predicate Names(t: Cst, j: nat, field: Field) {
    j < |t.children| && t.children[j].info.kind == IdentNode && t.children[j].info.field == field
  }

  /** Child `j` of a node that stands there names a symbol. */
  predicate DeclaredHere(t: Cst, w: Place, j: nat) {
    match w
    case InBody(_, _) => t.info.named &&
      if IsVar(t.info.kind) then Names(t, j, if t.info.kind == AutobindDecl then NameField else NamesField)
      else IsDecl(t.info.kind) && Nth(t.children, IdentNode, 0, j)
    case InEnum(_) => t.info.named && t.info.kind == EnumMemberDecl && Nth(t.children, IdentNode, 0, j)
    case ParamGroup(_) => Names(t, j, NamesField)
    case _ => false
  }

  function OwnerOf(w: Place): Option<seq<nat>> {
    match w
    case InBody(owner, _) => owner
    case InEnum(e) => Some(e)
    case ParamGroup(f) => Some(f)
    case _ => None
  }

  /** The kind of a node and where it stands settle the kind of symbol. */
  predicate KindFits(t: Cst, w: Place, kind: SymbolKind) {
    match w
    case InBody(owner, _) =>
      (match t.info.kind
       case ClassDecl => kind == Class
       case StructDecl => kind == Struct
       case EnumDecl => kind == Enum
       case StateDecl => kind == State
       case EventDecl => kind == Event
       case FuncDecl => kind == if owner.None? then Function else Method
       case LocalVarDecl => kind == Variable
       case _ => kind == FieldSymbol)
    case InEnum(_) => kind == EnumMember
    case _ => kind == Parameter
  }

  /** The text of the second identifier, if there is one. */
  ghost predicate SecondName(t: Cst, text: Option<string>) {
    match text
    case Some(s) => exists j :: 0 <= j < |t.children| && Nth(t.children, IdentNode, 1, j) && t.children[j].info.text == s
    case None => forall j :: 0 <= j < |t.children| ==> !Nth(t.children, IdentNode, 1, j)
  }

  ghost predicate BaseNamed(t: Cst, text: Option<string>) {
    match text
    case Some(s) => exists j :: 0 <= j < |t.children| && t.children[j].info.field == BaseField && t.children[j].info.text == s
                      && forall i :: 0 <= i < j ==> t.children[i].info.field != BaseField
    case None => forall j :: 0 <= j < |t.children| ==> t.children[j].info.field != BaseField
  }

  /** What a type declaration extends, and which class a state belongs to. */
  ghost predicate BasesFit(t: Cst, w: Place, s: Symbol) {
    if w.InBody? && (t.info.kind == ClassDecl || t.info.kind == StructDecl) then SecondName(t, s.baseClass) && s.ownerClass == None
    else if w.InBody? && t.info.kind == StateDecl then BaseNamed(t, s.baseClass) && SecondName(t, s.ownerClass)
    else s.baseClass == None && s.ownerClass == None
  }

  function AnnotationsAt(t: Cst, w: Place): seq<Annotation> {
    match w
    case InBody(_, stray) => stray + DirectAnnotations(t)
    case ParamGroup(_) => DirectAnnotations(t)
    case _ => []
  }

  /** Symbol `k` is that of declaration `k`. */
  ghost predicate Match(symbols: seq<Symbol>, decls: seq<Decl>, k: nat)
    requires k < |symbols| && k < |decls|
  {
    var s, d := symbols[k], decls[k];
    && DeclaredHere(d.node, d.place, d.index)
    && var name := d.node.children[d.index].info;
       && s.id == k && s.name == name.text && s.selStart == name.start && s.selEnd == name.end
       && s.start == d.node.info.start && s.end == d.node.info.end
       && KindFits(d.node, d.place, s.kind) && BasesFit(d.node, d.place, s) && s.annotations == AnnotationsAt(d.node, d.place)
       && s.stateClass == (if s.kind == State && s.ownerClass.Some? then Some(s.ownerClass.value + "State" + s.name) else None)
       && Owned(symbols, decls, k, OwnerOf(d.place))
  }

  /** The container of symbol `k` is the symbol declared at `owner`, and it is named after that. */
  ghost predicate Owned(symbols: seq<Symbol>, decls: seq<Decl>, k: nat, owner: Option<seq<nat>>)
    requires k < |symbols| && k < |decls|
  {
    match owner
    case None => symbols[k].container == None && symbols[k].containerName == None
    case Some(path) =>
      && symbols[k].container.Some? && symbols[k].container.value < k
      && var c := symbols[k].container.value;
         && decls[c].path == path && !IsVar(decls[c].node.info.kind)
         && symbols[k].containerName == Some(if symbols[c].stateClass.Some? then symbols[c].stateClass.value else symbols[c].name)
  }

  ghost predicate AllMatch(symbols: seq<Symbol>, decls: seq<Decl>) {
    |symbols| == |decls| && forall k :: 0 <= k < |symbols| ==> Match(symbols, decls, k)
  }

  /* The declarations below a node, in the order in which they become symbols. */

  function Here(t: Cst, at: seq<nat>, w: Place, j: nat): seq<Decl>
    requires j <= |t.children|
    decreases |t.children| - j
  {
    if j == |t.children| then []
    else (if DeclaredHere(t, w, j) then [Decl(at, t, j, w)] else []) + Here(t, at, w, j + 1)
  }

  /** A callable that has a symbol. */
  predicate IsCallableDecl(t: Cst, w: Place) {
    w.InBody? && t.info.named && IsFunc(t.info.kind) && HasName(t)
  }

  function Found(t: Cst, at: seq<nat>, w: Place): seq<Decl>
    decreases t, 1, 0
  {
    Here(t, at, w, 0)
    + if IsCallableDecl(t, w) then FoundAt(t, at, w, ParamsIndex(t.children, 0)) + FoundAt(t, at, w, BlockIndex(t.children, 0))
      else FoundFrom(t, at, w, 0)
  }

  function FoundAt(t: Cst, at: seq<nat>, w: Place, i: nat): seq<Decl>
    decreases t, 0, 0
  {
    if i < |t.children| then Found(t.children[i], at + [i], ChildPlace(w, t, at, i)) else []
  }

  function FoundFrom(t: Cst, at: seq<nat>, w: Place, i: nat): seq<Decl>
    requires i <= |t.children|
    decreases t, 0, |t.children| - i + 1
  {
    if i == |t.children| then [] else FoundAt(t, at, w, i) + FoundFrom(t, at, w, i + 1)
  }

  /** The index of the first parameter list from `i` on, or past the end. */
  function ParamsIndex(ts: seq<Cst>, i: nat): nat
    requires i <= |ts|
    decreases |ts| - i
  {
    if i == |ts| || ts[i].info.kind == FuncParams then i else ParamsIndex(ts, i + 1)
  }

  function BlockIndex(ts: seq<Cst>, i: nat): nat
    requires i <= |ts|
    decreases |ts| - i
  {
    if i == |ts| || IsBlock(ts[i]) then i else BlockIndex(ts, i + 1)
  }

  /* Looking for children. */

  lemma {:induction false} KindSplit(ts: seq<Cst>, kind: Kind, j: nat)
    requires j <= |ts|
    ensures ChildrenOfKind(ts, kind) == ChildrenOfKind(ts[..j], kind) + ChildrenOfKind(ts[j..], kind)
    ensures |ChildrenOfKind(ts[..j], kind)| == CountKind(ts, kind, j)
    decreases j
  {
    if j == 0 {
      assert ts[..0] == [] && ts[0..] == ts;
    } else {
      KindSplit(ts, kind, j - 1);
      KindOnce(ts[..j - 1], ts[j - 1], ts[j..], kind);
      assert ts[j - 1..] == [ts[j - 1]] + ts[j..] && ts[..j] == ts[..j - 1] + [ts[j - 1]];
    }
  }

  lemma {:induction false} KindOnce(a: seq<Cst>, t: Cst, b: seq<Cst>, kind: Kind)
    ensures ChildrenOfKind(a, kind) + ChildrenOfKind([t] + b, kind) == ChildrenOfKind(a + [t], kind) + ChildrenOfKind(b, kind)
    ensures |ChildrenOfKind(a + [t], kind)| == |ChildrenOfKind(a, kind)| + if t.info.kind == kind then 1 else 0
  {
    KindSnoc(a, t, kind);
    assert ([t] + b)[0] == t && ([t] + b)[1..] == b;
  }

  lemma {:induction false} KindSnoc(ts: seq<Cst>, t: Cst, kind: Kind)
    ensures ChildrenOfKind(ts + [t], kind) == ChildrenOfKind(ts, kind) + if t.info.kind == kind then [t] else []
    decreases |ts|
  {
    if ts == [] {
      assert ts + [t] == [t] && [t][1..] == [];
    } else {
      assert (ts + [t])[0] == ts[0] && (ts + [t])[1..] == ts[1..] + [t];
      KindSnoc(ts[1..], t, kind);
    }
  }

  lemma {:induction false} NthIs(ts: seq<Cst>, kind: Kind, n: nat, j: nat)
    requires Nth(ts, kind, n, j)
    ensures n < |ChildrenOfKind(ts, kind)| && ChildrenOfKind(ts, kind)[n] == ts[j]
  {
    KindSplit(ts, kind, j);
    assert ts[j..][0] == ts[j];
  }

  lemma {:induction false} SomeNth(ts: seq<Cst>, kind: Kind, n: nat) returns (j: nat)
    requires n < |ChildrenOfKind(ts, kind)|
    ensures Nth(ts, kind, n, j) && ts[j] == ChildrenOfKind(ts, kind)[n]
  {
    j := NthFrom(ts, kind, n, 0);
    NthIs(ts, kind, n, j);
  }

  lemma CountAll(ts: seq<Cst>, kind: Kind)
    ensures CountKind(ts, kind, |ts|) == |ChildrenOfKind(ts, kind)|
  {
    KindSplit(ts, kind, |ts|);
    assert ts[..|ts|] == ts;
  }

  lemma {:induction false} NthFrom(ts: seq<Cst>, kind: Kind, n: nat, i: nat) returns (j: nat)
    requires i <= |ts| && CountKind(ts, kind, i) <= n < |ChildrenOfKind(ts, kind)|
    ensures Nth(ts, kind, n, j)
    decreases |ts| - i
  {
    CountAll(ts, kind);
    if ts[i].info.kind == kind && CountKind(ts, kind, i) == n {
      j := i;
    } else {
      j := NthFrom(ts, kind, n, i + 1);
    }
  }

  lemma {:induction false} CountGrows(ts: seq<Cst>, kind: Kind, i: nat, j: nat)
    requires i <= j <= |ts|
    ensures CountKind(ts, kind, i) <= CountKind(ts, kind, j)
    ensures (i < j && ts[i].info.kind == kind) ==> CountKind(ts, kind, i) < CountKind(ts, kind, j)
    decreases j
  {
    if i < j {
      CountGrows(ts, kind, i, j - 1);
    }
  }

  lemma OnlyNth(ts: seq<Cst>, kind: Kind, n: nat, i: nat, j: nat)
    requires Nth(ts, kind, n, i) && Nth(ts, kind, n, j)
    ensures i == j
  {
    if i < j {
      CountGrows(ts, kind, i, j);
    } else if j < i {
      CountGrows(ts, kind, j, i);
    }
  }

  /** `NthChildKind` finds the child that `Nth` speaks of, or there is none. */
  lemma {:induction false} ChildFound(t: Cst, kind: Kind, n: nat)
    ensures NthChildKind(t, kind, n).Some? <==> exists j :: 0 <= j < |t.children| && Nth(t.children, kind, n, j)
    ensures forall j :: 0 <= j < |t.children| && Nth(t.children, kind, n, j) ==> NthChildKind(t, kind, n) == Some(t.children[j])
  {
    forall j | 0 <= j < |t.children| && Nth(t.children, kind, n, j)
      ensures NthChildKind(t, kind, n) == Some(t.children[j])
    {
      NthIs(t.children, kind, n, j);
    }
    if NthChildKind(t, kind, n).Some? {
      var j := SomeNth(t.children, kind, n);
    }
  }

  lemma NameFound(t: Cst)
    ensures HasName(t) <==> NthChildKind(t, IdentNode, 0).Some?
  {
    KindFound(t, IdentNode);
  }

  lemma SecondFound(t: Cst)
    ensures SecondName(t, TextOf(NthChildKind(t, IdentNode, 1)))
  {
    ChildFound(t, IdentNode, 1);
  }

  lemma {:induction false} BaseFound(t: Cst)
    ensures BaseNamed(t, TextOf(ChildOfField(t.children, BaseField)))
  {
    FieldFound(t.children);
  }

  lemma {:induction false} FieldFound(ts: seq<Cst>)
    ensures var c := ChildOfField(ts, BaseField);
      if c.Some? then exists j :: 0 <= j < |ts| && ts[j] == c.value && ts[j].info.field == BaseField
                        && forall i :: 0 <= i < j ==> ts[i].info.field != BaseField
      else forall j :: 0 <= j < |ts| ==> ts[j].info.field != BaseField
    decreases |ts|
  {
    if ts != [] && ts[0].info.field != BaseField {
      FieldFound(ts[1..]);
      var c := ChildOfField(ts, BaseField);
      if c.Some? {
        var j :| 0 <= j < |ts[1..]| && ts[1..][j] == c.value && ts[1..][j].info.field == BaseField
                 && forall i :: 0 <= i < j ==> ts[1..][i].info.field != BaseField;
        assert ts[j + 1] == c.value;
        assert forall i :: 0 <= i < j + 1 ==> ts[i].info.field != BaseField by {
          assert forall i :: 1 <= i < j + 1 ==> ts[i] == ts[1..][i - 1];
        }
      } else {
        assert forall j :: 1 <= j < |ts| ==> ts[j] == ts[1..][j - 1];
      }
    }
  }

  /* Pushing a symbol. */

  predicate OwnerFits(c: Option<nat>, owner: Option<seq<nat>>, decls: seq<Decl>) {
    match owner
    case None => c == None
    case Some(path) => c.Some? && c.value < |decls| && decls[c.value].path == path && !IsVar(decls[c.value].node.info.kind)
  }

  lemma {:induction false} MatchStays(symbols: seq<Symbol>, decls: seq<Decl>, s: Symbol, d: Decl, k: nat)
    requires |symbols| == |decls| && k < |symbols| && Match(symbols, decls, k)
    ensures Match(symbols + [s], decls + [d], k)
  {
  }

  ghost predicate SpecFits(t: Cst, w: Place, kind: SymbolKind, spec: Spec, decls: seq<Decl>) {
    && KindFits(t, w, kind) && spec.annotations == AnnotationsAt(t, w) && OwnerFits(spec.container, OwnerOf(w), decls)
    && (if w.InBody? && (t.info.kind == ClassDecl || t.info.kind == StructDecl) then SecondName(t, spec.baseClass) && spec.ownerClass == None
        else if w.InBody? && t.info.kind == StateDecl then BaseNamed(t, spec.baseClass) && SecondName(t, spec.ownerClass)
        else spec.baseClass == None && spec.ownerClass == None)
  }

  lemma {:induction false} PushMatches(symbols: seq<Symbol>, decls: seq<Decl>, t: Cst, at: seq<nat>, w: Place, j: nat, kind: SymbolKind, spec: Spec)
    requires AllMatch(symbols, decls) && DeclaredHere(t, w, j) && SpecFits(t, w, kind, spec, decls)
    ensures AllMatch(Push(symbols, t, t.children[j], kind, spec), decls + [Decl(at, t, j, w)])
  {
    var s, d := MakeSymbol(symbols, t, t.children[j], kind, spec), Decl(at, t, j, w);
    forall k | 0 <= k < |symbols|
      ensures Match(symbols + [s], decls + [d], k)
    {
      MatchStays(symbols, decls, s, d, k);
    }
    LastMatches(symbols, decls, s, d, kind, spec);
  }

  lemma {:induction false} LastMatches(symbols: seq<Symbol>, decls: seq<Decl>, s: Symbol, d: Decl, kind: SymbolKind, spec: Spec)
    requires |symbols| == |decls| && DeclaredHere(d.node, d.place, d.index) && SpecFits(d.node, d.place, kind, spec, decls)
    requires s == MakeSymbol(symbols, d.node, d.node.children[d.index], kind, spec)
    ensures Match(symbols + [s], decls + [d], |symbols|)
  {
    LastOwned(symbols, decls, s, d, spec);
  }

  lemma {:induction false} LastOwned(symbols: seq<Symbol>, decls: seq<Decl>, s: Symbol, d: Decl, spec: Spec)
    requires |symbols| == |decls| && OwnerFits(spec.container, OwnerOf(d.place), decls)
    requires s.container == spec.container
    requires s.containerName == if spec.container.Some? && spec.container.value < |symbols| then Some(TypeName(symbols[spec.container.value])) else None
    ensures Owned(symbols + [s], decls + [d], |symbols|, OwnerOf(d.place))
  {
  }

  lemma OwnerStays(c: Option<nat>, owner: Option<seq<nat>>, decls: seq<Decl>, more: seq<Decl>)
    requires OwnerFits(c, owner, decls)
    ensures OwnerFits(c, owner, decls + more)
  {
  }

  lemma Assoc(a: seq<Decl>, b: seq<Decl>, c: seq<Decl>)
    ensures a + b + c == a + (b + c)
  {
  }

  /** From child `i` on: child `i`, and then the rest. */
  lemma {:induction false} ExtractStep(ts: seq<Cst>, i: nat, mode: Mode, symbols: seq<Symbol>)
    requires i < |ts|
    ensures ExtractAll(ts[i..], mode, symbols) == ExtractAll(ts[i + 1..], Extract(ts[i], mode, symbols).0, Extract(ts[i], mode, symbols).1)
  {
    assert ts[i..][0] == ts[i] && ts[i..][1..] == ts[i + 1..];
  }

  lemma {:induction false} NamesStep(ts: seq<Cst>, j: nat, field: Field)
    requires j < |ts|
    ensures NameNodes(ts[j..], field)
         == (if ts[j].info.field == field && ts[j].info.kind == IdentNode then [ts[j]] else []) + NameNodes(ts[j + 1..], field)
  {
    assert ts[j..][0] == ts[j] && ts[j..][1..] == ts[j + 1..];
  }

  lemma {:induction false} GroupsStep(ts: seq<Cst>, i: nat, id: nat, symbols: seq<Symbol>)
    requires i < |ts|
    ensures PushGroups(symbols, ChildrenOfKind(ts[i..], FuncParamGroup), id)
         == PushGroups(if ts[i].info.kind == FuncParamGroup then PushVarDecl(symbols, ts[i], Some(id), [], Parameter) else symbols,
                       ChildrenOfKind(ts[i + 1..], FuncParamGroup), id)
  {
    assert ts[i..][0] == ts[i] && ts[i..][1..] == ts[i + 1..];
    var groups, rest := ChildrenOfKind(ts[i..], FuncParamGroup), ChildrenOfKind(ts[i + 1..], FuncParamGroup);
    if ts[i].info.kind == FuncParamGroup {
      assert groups == [ts[i]] + rest && groups[1..] == rest;
    } else {
      assert groups == rest;
    }
  }

  /* What is found where. */

  lemma {:induction false} NothingHere(t: Cst, at: seq<nat>, w: Place, j: nat)
    requires j <= |t.children| && forall i :: j <= i < |t.children| ==> !DeclaredHere(t, w, i)
    ensures Here(t, at, w, j) == []
    decreases |t.children| - j
  {
    if j < |t.children| {
      NothingHere(t, at, w, j + 1);
    }
  }

  lemma {:induction false} OneHere(t: Cst, at: seq<nat>, w: Place, i: nat, j: nat)
    requires i <= j < |t.children| && DeclaredHere(t, w, j)
    requires forall k :: 0 <= k < |t.children| && k != j ==> !DeclaredHere(t, w, k)
    ensures Here(t, at, w, i) == [Decl(at, t, j, w)]
    decreases j - i
  {
    if i < j {
      OneHere(t, at, w, i + 1, j);
    } else {
      NothingHere(t, at, w, j + 1);
    }
  }

  lemma {:induction false} SkippedFinds(t: Cst, at: seq<nat>)
    ensures Found(t, at, Skipped) == []
    decreases t, 1, 0
  {
    NothingHere(t, at, Skipped, 0);
    SkippedFrom(t, at, Skipped, 0);
  }

  lemma {:induction false} SkippedFrom(t: Cst, at: seq<nat>, w: Place, i: nat)
    requires i <= |t.children| && forall k :: i <= k < |t.children| ==> ChildPlace(w, t, at, k) == Skipped
    ensures FoundFrom(t, at, w, i) == []
    decreases t, 0, |t.children| - i
  {
    if i < |t.children| {
      SkippedFinds(t.children[i], at + [i]);
      SkippedFrom(t, at, w, i + 1);
    }
  }

  lemma FoundNothing(t: Cst, at: seq<nat>, w: Place)
    requires !IsCallableDecl(t, w)
    requires forall j :: 0 <= j < |t.children| ==> !DeclaredHere(t, w, j)
    requires forall k :: 0 <= k < |t.children| ==> ChildPlace(w, t, at, k) == Skipped
    ensures Found(t, at, w) == []
  {
    NothingHere(t, at, w, 0);
    SkippedFrom(t, at, w, 0);
  }

  /* The extractor finds just these. */

  ghost predicate Fits(mode: Mode, w: Place, decls: seq<Decl>) {
    match mode
    case Body(c, pending) => w.InBody? && w.stray == pending && OwnerFits(c, w.owner, decls)
    case EnumMembers(id) => w.InEnum? && OwnerFits(Some(id), Some(w.enumeration), decls)
    case Callable(_, _) => false
  }

  /** The mode that the node hands to its next sibling. */
  function NextMode(mode: Mode, t: Cst): Mode {
    match mode
    case Body(c, pending) =>
      if !t.info.named then mode
      else if t.info.kind == AnnotationNode then Body(c, pending + AnnotationOf(t))
      else Body(c, [])
    case _ => mode
  }

  lemma {:induction false} ExtractMatches(t: Cst, at: seq<nat>, w: Place, mode: Mode, symbols: seq<Symbol>, decls: seq<Decl>)
    requires Fits(mode, w, decls) && AllMatch(symbols, decls)
    ensures Extract(t, mode, symbols).0 == NextMode(mode, t)
    ensures AllMatch(Extract(t, mode, symbols).1, decls + Found(t, at, w))
    decreases t, 2, 0
  {
    if !t.info.named {
      FoundNothing(t, at, w);
      assert decls + [] == decls;
    } else if mode.EnumMembers? {
      EnumNodeMatches(t, at, w, mode.id, symbols, decls);
    } else if IsVar(t.info.kind) {
      VarMatches(t, at, w, mode.container, symbols, decls);
    } else if IsDecl(t.info.kind) {
      DeclMatches(t, at, w, mode.container, symbols, decls);
    } else if t.info.kind == AnnotationNode {
      FoundNothing(t, at, w);
      assert decls + [] == decls;
    } else {
      NothingHere(t, at, w, 0);
      BodyChildren(t, at, w, 0, w.owner, w.stray, mode, symbols, decls);
      assert t.children[0..] == t.children;
      assert decls + ([] + FoundFrom(t, at, w, 0)) == decls + FoundFrom(t, at, w, 0);
    }
  }

  lemma {:induction false} EnumNodeMatches(t: Cst, at: seq<nat>, w: Place, id: nat, symbols: seq<Symbol>, decls: seq<Decl>)
    requires t.info.named && Fits(EnumMembers(id), w, decls) && AllMatch(symbols, decls)
    ensures Extract(t, EnumMembers(id), symbols).0 == EnumMembers(id)
    ensures AllMatch(Extract(t, EnumMembers(id), symbols).1, decls + Found(t, at, w))
    decreases t, 1, 1
  {
    if t.info.kind != EnumMemberDecl {
      NothingHere(t, at, w, 0);
      EnumChildren(t, at, w, 0, id, symbols, decls);
      assert t.children[0..] == t.children;
      assert decls + ([] + FoundFrom(t, at, w, 0)) == decls + FoundFrom(t, at, w, 0);
    } else {
      SkippedFrom(t, at, w, 0);
      assert Here(t, at, w, 0) + [] == Here(t, at, w, 0);
      MemberMatches(t, at, w, id, symbols, decls);
    }
  }

  lemma {:induction false} MemberMatches(t: Cst, at: seq<nat>, w: Place, id: nat, symbols: seq<Symbol>, decls: seq<Decl>)
    requires t.info.named && t.info.kind == EnumMemberDecl && Fits(EnumMembers(id), w, decls) && AllMatch(symbols, decls)
    ensures AllMatch(Extract(t, EnumMembers(id), symbols).1, decls + Here(t, at, w, 0))
  {
    ChildFound(t, IdentNode, 0);
    if NthChildKind(t, IdentNode, 0).Some? {
      var j :| 0 <= j < |t.children| && Nth(t.children, IdentNode, 0, j);
      FirstNameHere(t, at, w, j);
      PushMatches(symbols, decls, t, at, w, j, EnumMember, Spec(Some(id), [], None, None));
    } else {
      NothingHere(t, at, w, 0);
      assert decls + [] == decls;
    }
  }

  /** A declaration or an enum member declares its first name and nothing else. */
  lemma {:induction false} FirstNameHere(t: Cst, at: seq<nat>, w: Place, j: nat)
    requires j < |t.children| && Nth(t.children, IdentNode, 0, j) && t.info.named
    requires (w.InEnum? && t.info.kind == EnumMemberDecl) || (w.InBody? && IsDecl(t.info.kind))
    ensures Here(t, at, w, 0) == [Decl(at, t, j, w)]
  {
    forall k | 0 <= k < |t.children| && k != j
      ensures !DeclaredHere(t, w, k)
    {
      if DeclaredHere(t, w, k) {
        OnlyNth(t.children, IdentNode, 0, j, k);
      }
    }
    OneHere(t, at, w, 0, j);
  }

  lemma {:induction false} VarMatches(t: Cst, at: seq<nat>, w: Place, c: Option<nat>, symbols: seq<Symbol>, decls: seq<Decl>)
    requires t.info.named && w.InBody? && IsVar(t.info.kind) && Fits(Body(c, w.stray), w, decls) && AllMatch(symbols, decls)
    ensures Extract(t, Body(c, w.stray), symbols).0 == Body(c, [])
    ensures AllMatch(Extract(t, Body(c, w.stray), symbols).1, decls + Found(t, at, w))
  {
    var kind := if t.info.kind == LocalVarDecl then Variable else FieldSymbol;
    var field := if t.info.kind == AutobindDecl then NameField else NamesField;
    NamesMatch(t, at, w, 0, field, kind, Spec(c, w.stray + DirectAnnotations(t), None, None), symbols, decls);
    assert t.children[0..] == t.children;
    SkippedFrom(t, at, w, 0);
    assert Here(t, at, w, 0) + [] == Here(t, at, w, 0);
  }

  /** Names after names. */
  lemma {:induction false} NamesMatch(t: Cst, at: seq<nat>, w: Place, j: nat, field: Field, kind: SymbolKind, spec: Spec,
                                      symbols: seq<Symbol>, decls: seq<Decl>)
    requires j <= |t.children| && forall i :: 0 <= i < |t.children| ==> (DeclaredHere(t, w, i) <==> Names(t, i, field))
    requires AllMatch(symbols, decls) && SpecFits(t, w, kind, spec, decls)
    ensures AllMatch(PushNames(symbols, t, NameNodes(t.children[j..], field), kind, spec), decls + Here(t, at, w, j))
    decreases |t.children| - j
  {
    if j == |t.children| {
      assert t.children[j..] == [] && decls + [] == decls;
    } else {
      var rest, here := NameNodes(t.children[j + 1..], field), Here(t, at, w, j + 1);
      NamesStep(t.children, j, field);
      if Names(t, j, field) {
        PushMatches(symbols, decls, t, at, w, j, kind, spec);
        OwnerStays(spec.container, OwnerOf(w), decls, [Decl(at, t, j, w)]);
        var next := Push(symbols, t, t.children[j], kind, spec);
        NamesMatch(t, at, w, j + 1, field, kind, spec, next, decls + [Decl(at, t, j, w)]);
        PushFirst(symbols, t, t.children[j], rest, kind, spec);
        Assoc(decls, [Decl(at, t, j, w)], here);
      } else {
        NamesMatch(t, at, w, j + 1, field, kind, spec, symbols, decls);
        assert [] + here == here && [] + rest == rest;
      }
    }
  }

  lemma {:induction false} PushFirst(symbols: seq<Symbol>, t: Cst, name: Cst, rest: seq<Cst>, kind: SymbolKind, spec: Spec)
    ensures PushNames(symbols, t, [name] + rest, kind, spec) == PushNames(Push(symbols, t, name, kind, spec), t, rest, kind, spec)
  {
    assert ([name] + rest)[1..] == rest;
  }

  lemma {:induction false} BodyChildren(t: Cst, at: seq<nat>, w: Place, i: nat, owner: Option<seq<nat>>, first: seq<Annotation>, mode: Mode,
                                        symbols: seq<Symbol>, decls: seq<Decl>)
    requires i <= |t.children|
    requires forall k :: 0 <= k < |t.children| ==> ChildPlace(w, t, at, k) == InBody(owner, StrayBefore(t.children, k, first))
    requires mode.Body? && mode.pending == StrayBefore(t.children, i, first) && OwnerFits(mode.container, owner, decls)
    requires AllMatch(symbols, decls)
    ensures AllMatch(ExtractAll(t.children[i..], mode, symbols), decls + FoundFrom(t, at, w, i))
    decreases t, 0, |t.children| - i
  {
    if i == |t.children| {
      assert t.children[i..] == [] && decls + [] == decls;
    } else {
      var child, found := t.children[i], FoundAt(t, at, w, i);
      ExtractStep(t.children, i, mode, symbols);
      ExtractMatches(child, at + [i], ChildPlace(w, t, at, i), mode, symbols, decls);
      OwnerStays(mode.container, owner, decls, found);
      BodyChildren(t, at, w, i + 1, owner, first, NextMode(mode, child), Extract(child, mode, symbols).1, decls + found);
      Assoc(decls, found, FoundFrom(t, at, w, i + 1));
    }
  }

  lemma {:induction false} EnumChildren(t: Cst, at: seq<nat>, w: Place, i: nat, id: nat, symbols: seq<Symbol>, decls: seq<Decl>)
    requires i <= |t.children| && AllMatch(symbols, decls)
    requires forall k :: 0 <= k < |t.children| ==> Fits(EnumMembers(id), ChildPlace(w, t, at, k), decls)
    ensures AllMatch(ExtractAll(t.children[i..], EnumMembers(id), symbols), decls + FoundFrom(t, at, w, i))
    decreases t, 0, |t.children| - i
  {
    if i == |t.children| {
      assert t.children[i..] == [] && decls + [] == decls;
    } else {
      var child, found := t.children[i], FoundAt(t, at, w, i);
      ExtractStep(t.children, i, EnumMembers(id), symbols);
      ExtractMatches(child, at + [i], ChildPlace(w, t, at, i), EnumMembers(id), symbols, decls);
      EnumsStay(t, at, w, id, decls, found);
      EnumChildren(t, at, w, i + 1, id, Extract(child, EnumMembers(id), symbols).1, decls + found);
      Assoc(decls, found, FoundFrom(t, at, w, i + 1));
    }
  }

  lemma EnumsStay(t: Cst, at: seq<nat>, w: Place, id: nat, decls: seq<Decl>, more: seq<Decl>)
    requires forall k :: 0 <= k < |t.children| ==> Fits(EnumMembers(id), ChildPlace(w, t, at, k), decls)
    ensures forall k :: 0 <= k < |t.children| ==> Fits(EnumMembers(id), ChildPlace(w, t, at, k), decls + more)
  {
    forall k | 0 <= k < |t.children|
      ensures Fits(EnumMembers(id), ChildPlace(w, t, at, k), decls + more)
    {
      assert Fits(EnumMembers(id), ChildPlace(w, t, at, k), decls);
    }
  }

  lemma {:induction false} DeclMatches(t: Cst, at: seq<nat>, w: Place, c: Option<nat>, symbols: seq<Symbol>, decls: seq<Decl>)
    requires t.info.named && w.InBody? && IsDecl(t.info.kind) && Fits(Body(c, w.stray), w, decls) && AllMatch(symbols, decls)
    ensures Extract(t, Body(c, w.stray), symbols).0 == Body(c, [])
    ensures AllMatch(Extract(t, Body(c, w.stray), symbols).1, decls + Found(t, at, w))
    decreases t, 1, 1
  {
    NameFound(t);
    if HasName(t) {
      ChildFound(t, IdentNode, 0);
      var j :| 0 <= j < |t.children| && Nth(t.children, IdentNode, 0, j);
      NamedMatches(t, at, w, c, j, symbols, decls);
    } else {
      UnnamedMatches(t, at, w, c, symbols, decls);
    }
  }

  lemma {:induction false} UnnamedMatches(t: Cst, at: seq<nat>, w: Place, c: Option<nat>, symbols: seq<Symbol>, decls: seq<Decl>)
    requires t.info.named && w.InBody? && IsDecl(t.info.kind) && Fits(Body(c, w.stray), w, decls) && AllMatch(symbols, decls)
    requires !HasName(t) && NthChildKind(t, IdentNode, 0).None?
    ensures Extract(t, Body(c, w.stray), symbols).0 == Body(c, [])
    ensures AllMatch(Extract(t, Body(c, w.stray), symbols).1, decls + Found(t, at, w))
    decreases t, 1, 0
  {
    UnnamedExtracts(t, w, c, symbols);
    UnnamedFinds(t, at, w);
    BodyChildren(t, at, w, 0, w.owner, w.stray + DirectAnnotations(t), Body(c, w.stray + DirectAnnotations(t)), symbols, decls);
    assert t.children[0..] == t.children;
  }

  lemma {:induction false} UnnamedExtracts(t: Cst, w: Place, c: Option<nat>, symbols: seq<Symbol>)
    requires t.info.named && w.InBody? && IsDecl(t.info.kind) && NthChildKind(t, IdentNode, 0).None?
    ensures Extract(t, Body(c, w.stray), symbols) == (Body(c, []), ExtractAll(t.children, Body(c, w.stray + DirectAnnotations(t)), symbols))
  {
    UnnamedOpens(t, c, w.stray, symbols);
  }

  lemma UnnamedFinds(t: Cst, at: seq<nat>, w: Place)
    requires !HasName(t)
    ensures Found(t, at, w) == FoundFrom(t, at, w, 0)
  {
    NoNameHere(t, at, w);
  }

  lemma NoNameHere(t: Cst, at: seq<nat>, w: Place)
    requires !HasName(t)
    ensures Here(t, at, w, 0) == []
  {
    NothingHere(t, at, w, 0);
  }

  /** What the extractor records of a named declaration is what the tree says. */
  lemma {:induction false} DeclSpecFits(t: Cst, w: Place, c: Option<nat>, decls: seq<Decl>)
    requires w.InBody? && IsDecl(t.info.kind) && OwnerFits(c, w.owner, decls)
    ensures SpecFits(t, w, DeclKind(t.info.kind, c), DeclSpec(t, c, w.stray + DirectAnnotations(t)), decls)
  {
    SecondFound(t);
    BaseFound(t);
  }

  lemma {:induction false} NamedMatches(t: Cst, at: seq<nat>, w: Place, c: Option<nat>, j: nat, symbols: seq<Symbol>, decls: seq<Decl>)
    requires t.info.named && w.InBody? && IsDecl(t.info.kind) && Fits(Body(c, w.stray), w, decls) && AllMatch(symbols, decls)
    requires j < |t.children| && Nth(t.children, IdentNode, 0, j) && HasName(t)
    ensures Extract(t, Body(c, w.stray), symbols).0 == Body(c, [])
    ensures AllMatch(Extract(t, Body(c, w.stray), symbols).1, decls + Found(t, at, w))
    decreases t, 1, 0
  {
    ChildFound(t, IdentNode, 0);
    DeclSpecFits(t, w, c, decls);
    FirstNameHere(t, at, w, j);
    var spec := DeclSpec(t, c, w.stray + DirectAnnotations(t));
    PushMatches(symbols, decls, t, at, w, j, DeclKind(t.info.kind, c), spec);
    var pushed, mine := Push(symbols, t, t.children[j], DeclKind(t.info.kind, c), spec), [Decl(at, t, j, w)];
    InsideNamed(t, at, w, pushed, decls + mine, |symbols|);
    Assoc(decls, mine, Within(t, at, w));
    NamedExtracts(t, w, c, j, symbols, pushed);
  }

  /** What is found inside a declaration that has a symbol. */
  function Within(t: Cst, at: seq<nat>, w: Place): seq<Decl> {
    if IsFunc(t.info.kind) then FoundAt(t, at, w, ParamsIndex(t.children, 0)) + FoundAt(t, at, w, BlockIndex(t.children, 0))
    else FoundFrom(t, at, w, 0)
  }

  /** What the extractor makes of the inside of such a declaration. */
  function ExtractWithin(t: Cst, symbols: seq<Symbol>, id: nat): seq<Symbol> {
    if t.info.kind == EnumDecl then ExtractAll(t.children, EnumMembers(id), symbols)
    else if IsFunc(t.info.kind) then ExtractAll(t.children, Callable(id, false), PushParams(symbols, t, id))
    else ExtractAll(t.children, Body(Some(id), []), symbols)
  }

  lemma {:induction false} NamedExtracts(t: Cst, w: Place, c: Option<nat>, j: nat, symbols: seq<Symbol>, pushed: seq<Symbol>)
    requires t.info.named && w.InBody? && IsDecl(t.info.kind)
    requires j < |t.children| && NthChildKind(t, IdentNode, 0) == Some(t.children[j])
    requires pushed == Push(symbols, t, t.children[j], DeclKind(t.info.kind, c), DeclSpec(t, c, w.stray + DirectAnnotations(t)))
    ensures Extract(t, Body(c, w.stray), symbols) == (Body(c, []), ExtractWithin(t, pushed, |symbols|))
  {
    NamedOpens(t, c, w.stray, symbols, t.children[j]);
  }

  /** What is inside a declaration whose symbol is `id`. */
  lemma {:induction false} InsideNamed(t: Cst, at: seq<nat>, w: Place, symbols: seq<Symbol>, decls: seq<Decl>, id: nat)
    requires t.info.named && w.InBody? && IsDecl(t.info.kind) && HasName(t) && AllMatch(symbols, decls)
    requires OwnerFits(Some(id), Some(at), decls)
    ensures AllMatch(ExtractWithin(t, symbols, id), decls + Within(t, at, w))
    decreases t, 0, |t.children| + 1
  {
    assert t.children[0..] == t.children;
    if t.info.kind == EnumDecl {
      EnumChildren(t, at, w, 0, id, symbols, decls);
    } else if IsFunc(t.info.kind) {
      var found := FoundAt(t, at, w, ParamsIndex(t.children, 0));
      ParamsMatch(t, at, w, id, symbols, decls);
      OwnerStays(Some(id), Some(at), decls, found);
      BlockMatches(t, at, w, id, PushParams(symbols, t, id), decls + found);
      Assoc(decls, found, FoundAt(t, at, w, BlockIndex(t.children, 0)));
    } else {
      BodyChildren(t, at, w, 0, Some(at), [], Body(Some(id), []), symbols, decls);
    }
  }

  /* Callables. */

  lemma {:induction false} ParamsIndexIs(ts: seq<Cst>, i: nat)
    requires i <= |ts| && CountKind(ts, FuncParams, i) == 0
    ensures var p := ParamsIndex(ts, i); i <= p <= |ts| && (p < |ts| ==> Nth(ts, FuncParams, 0, p))
    ensures ParamsIndex(ts, i) == |ts| ==> CountKind(ts, FuncParams, |ts|) == 0
    decreases |ts| - i
  {
    if i < |ts| && ts[i].info.kind != FuncParams {
      ParamsIndexIs(ts, i + 1);
    }
  }

  lemma {:induction false} BlockIndexIs(ts: seq<Cst>, i: nat)
    requires i <= |ts| && forall k :: 0 <= k < i ==> !IsBlock(ts[k])
    ensures var b := BlockIndex(ts, i); i <= b <= |ts| && (b < |ts| ==> FirstBlock(ts, b))
    ensures forall k :: 0 <= k < BlockIndex(ts, i) ==> !IsBlock(ts[k])
    decreases |ts| - i
  {
    if i < |ts| && !IsBlock(ts[i]) {
      BlockIndexIs(ts, i + 1);
    }
  }

  lemma {:induction false} ParamsMatch(t: Cst, at: seq<nat>, w: Place, id: nat, symbols: seq<Symbol>, decls: seq<Decl>)
    requires IsCallableDecl(t, w) && AllMatch(symbols, decls) && OwnerFits(Some(id), Some(at), decls)
    ensures AllMatch(PushParams(symbols, t, id), decls + FoundAt(t, at, w, ParamsIndex(t.children, 0)))
  {
    var p := ParamsIndex(t.children, 0);
    ParamsIndexIs(t.children, 0);
    ChildFound(t, FuncParams, 0);
    if p < |t.children| {
      var list := t.children[p];
      assert ChildPlace(w, t, at, p) == ParamList(at);
      NothingHere(list, at + [p], ParamList(at), 0);
      GroupsMatch(list, at + [p], at, 0, id, symbols, decls);
      assert list.children[0..] == list.children;
      assert [] + FoundFrom(list, at + [p], ParamList(at), 0) == FoundFrom(list, at + [p], ParamList(at), 0);
    } else {
      NoParams(t);
      assert decls + [] == decls;
    }
  }

  lemma NoParams(t: Cst)
    requires ParamsIndex(t.children, 0) == |t.children|
    ensures NthChildKind(t, FuncParams, 0).None?
  {
    ParamsIndexIs(t.children, 0);
    ChildFound(t, FuncParams, 0);
    if j :| 0 <= j < |t.children| && Nth(t.children, FuncParams, 0, j) {
      CountGrows(t.children, FuncParams, j, |t.children|);
    }
  }

  lemma {:induction false} GroupsMatch(list: Cst, at: seq<nat>, f: seq<nat>, i: nat, id: nat, symbols: seq<Symbol>, decls: seq<Decl>)
    requires i <= |list.children| && AllMatch(symbols, decls) && OwnerFits(Some(id), Some(f), decls)
    ensures AllMatch(PushGroups(symbols, ChildrenOfKind(list.children[i..], FuncParamGroup), id), decls + FoundFrom(list, at, ParamList(f), i))
    decreases |list.children| - i
  {
    if i == |list.children| {
      assert list.children[i..] == [] && decls + [] == decls;
    } else {
      var group, found := list.children[i], FoundAt(list, at, ParamList(f), i);
      var next := if group.info.kind == FuncParamGroup then PushVarDecl(symbols, group, Some(id), [], Parameter) else symbols;
      GroupsStep(list.children, i, id, symbols);
      ListedMatches(list, at, f, i, id, symbols, decls);
      OwnerStays(Some(id), Some(f), decls, found);
      GroupsMatch(list, at, f, i + 1, id, next, decls + found);
      Assoc(decls, found, FoundFrom(list, at, ParamList(f), i + 1));
    }
  }

  lemma {:induction false} ListedMatches(list: Cst, at: seq<nat>, f: seq<nat>, i: nat, id: nat, symbols: seq<Symbol>, decls: seq<Decl>)
    requires i < |list.children| && AllMatch(symbols, decls) && OwnerFits(Some(id), Some(f), decls)
    ensures var group := list.children[i];
      AllMatch(if group.info.kind == FuncParamGroup then PushVarDecl(symbols, group, Some(id), [], Parameter) else symbols,
               decls + FoundAt(list, at, ParamList(f), i))
  {
    var group := list.children[i];
    if group.info.kind == FuncParamGroup {
      GroupMatches(group, at + [i], f, id, symbols, decls);
    } else {
      SkippedFinds(group, at + [i]);
      assert decls + [] == decls;
    }
  }

  lemma {:induction false} GroupMatches(group: Cst, at: seq<nat>, f: seq<nat>, id: nat, symbols: seq<Symbol>, decls: seq<Decl>)
    requires group.info.kind == FuncParamGroup && AllMatch(symbols, decls) && OwnerFits(Some(id), Some(f), decls)
    ensures AllMatch(PushVarDecl(symbols, group, Some(id), [], Parameter), decls + Found(group, at, ParamGroup(f)))
  {
    NamesMatch(group, at, ParamGroup(f), 0, NamesField, Parameter, Spec(Some(id), [] + DirectAnnotations(group), None, None), symbols, decls);
    assert group.children[0..] == group.children && [] + DirectAnnotations(group) == DirectAnnotations(group);
    SkippedFrom(group, at, ParamGroup(f), 0);
    assert Here(group, at, ParamGroup(f), 0) + [] == Here(group, at, ParamGroup(f), 0);
  }

  /** In a callable only its first block is looked into. */
  lemma {:induction false} CallableExtracts(ts: seq<Cst>, i: nat, id: nat, symbols: seq<Symbol>)
    requires i <= |ts|
    ensures var b := BlockIndex(ts, i);
      ExtractAll(ts[i..], Callable(id, false), symbols)
      == if i <= b < |ts| then ExtractAll(ts[b].children, Body(Some(id), []), symbols) else symbols
    decreases |ts| - i
  {
    if i == |ts| {
      assert ts[i..] == [];
    } else {
      assert ts[i..][0] == ts[i] && ts[i..][1..] == ts[i + 1..];
      BlockIndexFrom(ts, i + 1);
      if IsBlock(ts[i]) {
        NothingAfterBlock(ts[i + 1..], id, ExtractAll(ts[i].children, Body(Some(id), []), symbols));
      } else {
        CallableExtracts(ts, i + 1, id, symbols);
      }
    }
  }

  lemma {:induction false} BlockIndexFrom(ts: seq<Cst>, i: nat)
    requires i <= |ts|
    ensures i <= BlockIndex(ts, i) <= |ts|
    decreases |ts| - i
  {
    if i < |ts| && !IsBlock(ts[i]) {
      BlockIndexFrom(ts, i + 1);
    }
  }

  lemma {:induction false} NothingAfterBlock(ts: seq<Cst>, id: nat, symbols: seq<Symbol>)
    ensures ExtractAll(ts, Callable(id, true), symbols) == symbols
    decreases |ts|
  {
    if ts != [] {
      NothingAfterBlock(ts[1..], id, symbols);
    }
  }

  lemma {:induction false} BlockMatches(t: Cst, at: seq<nat>, w: Place, id: nat, symbols: seq<Symbol>, decls: seq<Decl>)
    requires IsCallableDecl(t, w) && AllMatch(symbols, decls) && OwnerFits(Some(id), Some(at), decls)
    ensures AllMatch(ExtractAll(t.children, Callable(id, false), symbols), decls + FoundAt(t, at, w, BlockIndex(t.children, 0)))
    decreases t, 0, |t.children|
  {
    var b := BlockIndex(t.children, 0);
    BlockIndexIs(t.children, 0);
    CallableExtracts(t.children, 0, id, symbols);
    assert t.children[0..] == t.children;
    if b < |t.children| {
      var block := t.children[b];
      assert ChildPlace(w, t, at, b) == InBlock(at);
      NothingHere(block, at + [b], InBlock(at), 0);
      BodyChildren(block, at + [b], InBlock(at), 0, Some(at), [], Body(Some(id), []), symbols, decls);
      assert block.children[0..] == block.children;
      assert [] + FoundFrom(block, at + [b], InBlock(at), 0) == FoundFrom(block, at + [b], InBlock(at), 0);
    } else {
      assert decls + [] == decls;
    }
  }

  /* Found is exactly what is declared, each once. */

  /** A declaration at the place `rel` below `t`. */
  ghost predicate DeclaredAt(t: Cst, at: seq<nat>, w: Place, d: Decl, rel: seq<nat>) {
    && d.path == at + rel && HasPath(t, rel) && d.node == NodeAt(t, rel) && d.place == PlaceBelow(t, at, w, rel)
    && DeclaredHere(d.node, d.place, d.index)
  }

  predicate Under(path: seq<nat>, at: seq<nat>) {
    |at| <= |path| && path[..|at|] == at
  }

  lemma {:induction false} HereIff(t: Cst, at: seq<nat>, w: Place, j: nat, d: Decl)
    requires j <= |t.children|
    ensures d in Here(t, at, w, j) <==> d == Decl(at, t, d.index, w) && j <= d.index && DeclaredHere(t, w, d.index)
    decreases |t.children| - j
  {
    if j < |t.children| {
      HereIff(t, at, w, j + 1, d);
    } else {
      NamesInRange(t, w, d.index);
    }
  }

  lemma NamesInRange(t: Cst, w: Place, j: nat)
    ensures DeclaredHere(t, w, j) ==> j < |t.children|
  {
  }

  lemma {:induction false} FoundUnder(t: Cst, at: seq<nat>, w: Place, d: Decl)
    requires d in Found(t, at, w)
    ensures Under(d.path, at)
    ensures d !in Here(t, at, w, 0) ==> |at| < |d.path| && d.path[|at|] < |t.children| && d in FoundAt(t, at, w, d.path[|at|])
    decreases t, 1, 0
  {
    HereIff(t, at, w, 0, d);
    if d !in Here(t, at, w, 0) {
      if IsCallableDecl(t, w) {
        var p, b := ParamsIndex(t.children, 0), BlockIndex(t.children, 0);
        FoundAtUnder(t, at, w, if d in FoundAt(t, at, w, p) then p else b, d);
      } else {
        var i := FoundFromUnder(t, at, w, 0, d);
      }
    }
  }

  lemma {:induction false} FoundAtUnder(t: Cst, at: seq<nat>, w: Place, i: nat, d: Decl)
    requires d in FoundAt(t, at, w, i)
    ensures i < |t.children| && |at| < |d.path| && d.path[|at|] == i && Under(d.path, at) && Under(d.path, at + [i])
    decreases t, 0, 0
  {
    FoundUnder(t.children[i], at + [i], ChildPlace(w, t, at, i), d);
    assert d.path[..|at + [i]|] == at + [i];
    assert d.path[|at|] == (at + [i])[|at|];
    assert d.path[..|at|] == (at + [i])[..|at|] == at;
  }

  lemma {:induction false} FoundFromUnder(t: Cst, at: seq<nat>, w: Place, i: nat, d: Decl) returns (k: nat)
    requires i <= |t.children| && d in FoundFrom(t, at, w, i)
    ensures i <= k < |t.children| && |at| < |d.path| && d.path[|at|] == k && Under(d.path, at) && d in FoundAt(t, at, w, k)
    decreases t, 0, |t.children| - i + 1
  {
    if d in FoundAt(t, at, w, i) {
      FoundAtUnder(t, at, w, i, d);
      k := i;
    } else {
      k := FoundFromUnder(t, at, w, i + 1, d);
    }
  }

  lemma {:induction false} FromHas(t: Cst, at: seq<nat>, w: Place, i: nat, k: nat, d: Decl)
    requires i <= k < |t.children| && d in FoundAt(t, at, w, k)
    ensures d in FoundFrom(t, at, w, i)
    decreases k - i
  {
    if i < k {
      FromHas(t, at, w, i + 1, k, d);
    }
  }

  /** What is found in a child is found in its parent. */
  lemma {:induction false} ChildHas(t: Cst, at: seq<nat>, w: Place, k: nat, d: Decl)
    requires k < |t.children| && d in FoundAt(t, at, w, k)
    ensures d in Found(t, at, w)
  {
    if IsCallableDecl(t, w) {
      ParamsIndexIs(t.children, 0);
      BlockIndexIs(t.children, 0);
      if k != ParamsIndex(t.children, 0) && k != BlockIndex(t.children, 0) {
        OtherIsSkipped(t, at, w, k);
        SkippedFinds(t.children[k], at + [k]);
      }
    } else {
      FromHas(t, at, w, 0, k, d);
    }
  }

  lemma OtherIsSkipped(t: Cst, at: seq<nat>, w: Place, k: nat)
    requires IsCallableDecl(t, w) && k < |t.children|
    requires k != ParamsIndex(t.children, 0) && k != BlockIndex(t.children, 0)
    ensures ChildPlace(w, t, at, k) == Skipped
  {
    ParamsIndexIs(t.children, 0);
    BlockIndexIs(t.children, 0);
    if Nth(t.children, FuncParams, 0, k) {
      if ParamsIndex(t.children, 0) < |t.children| {
        OnlyNth(t.children, FuncParams, 0, k, ParamsIndex(t.children, 0));
      } else {
        CountGrows(t.children, FuncParams, k, |t.children|);
      }
    }
  }

  lemma {:induction false} FoundHere(t: Cst, at: seq<nat>, w: Place, d: Decl)
    requires d.path == at
    ensures d in Found(t, at, w) <==> d.node == t && d.place == w && DeclaredHere(t, w, d.index)
  {
    HereIff(t, at, w, 0, d);
    NamesInRange(t, w, d.index);
    if d in Found(t, at, w) {
      FoundUnder(t, at, w, d);
    }
  }

  lemma {:induction false} FoundBelow(t: Cst, at: seq<nat>, w: Place, d: Decl, i: nat)
    requires |at| < |d.path| && d.path[|at|] == i && d.path != at
    ensures d in Found(t, at, w) <==> d in FoundAt(t, at, w, i)
  {
    HereIff(t, at, w, 0, d);
    if d in Found(t, at, w) {
      FoundUnder(t, at, w, d);
    }
    if d in FoundAt(t, at, w, i) {
      ChildHas(t, at, w, i, d);
    }
  }

  lemma {:induction false} FoundIff(t: Cst, at: seq<nat>, w: Place, d: Decl, rel: seq<nat>)
    requires d.path == at + rel
    ensures d in Found(t, at, w) <==> DeclaredAt(t, at, w, d, rel)
    decreases |rel|
  {
    if rel == [] {
      assert at + [] == at;
      FoundHere(t, at, w, d);
    } else {
      assert d.path == at + [rel[0]] + rel[1..];
      FoundBelow(t, at, w, d, rel[0]);
      if rel[0] < |t.children| {
        FoundIff(t.children[rel[0]], at + [rel[0]], ChildPlace(w, t, at, rel[0]), d, rel[1..]);
      }
    }
  }

  predicate Distinct(ds: seq<Decl>) {
    forall a, b :: 0 <= a < b < |ds| ==> ds[a] != ds[b]
  }

  lemma DistinctConcat(a: seq<Decl>, b: seq<Decl>)
    requires Distinct(a) && Distinct(b) && forall d :: d in a ==> d !in b
    ensures Distinct(a + b)
  {
    var all := a + b;
    forall i, j | 0 <= i < j < |all|
      ensures all[i] != all[j]
    {
      if i < |a| <= j {
        assert all[i] in a && all[j] in b;
      } else if i >= |a| {
        assert all[i] == b[i - |a|] && all[j] == b[j - |a|];
      }
    }
  }

  lemma {:induction false} HereDistinct(t: Cst, at: seq<nat>, w: Place, j: nat)
    requires j <= |t.children|
    ensures Distinct(Here(t, at, w, j))
    decreases |t.children| - j
  {
    if j < |t.children| {
      HereDistinct(t, at, w, j + 1);
      HereIff(t, at, w, j + 1, Decl(at, t, j, w));
      DistinctConcat(if DeclaredHere(t, w, j) then [Decl(at, t, j, w)] else [], Here(t, at, w, j + 1));
    }
  }

  lemma {:induction false} FoundDistinct(t: Cst, at: seq<nat>, w: Place)
    ensures Distinct(Found(t, at, w))
    decreases t, 1, 0
  {
    HereDistinct(t, at, w, 0);
    if IsCallableDecl(t, w) {
      CallableDistinct(t, at, w);
    } else {
      FromDistinct(t, at, w, 0);
      forall d | d in Here(t, at, w, 0)
        ensures d !in FoundFrom(t, at, w, 0)
      {
        HereIff(t, at, w, 0, d);
        if d in FoundFrom(t, at, w, 0) {
          var k := FoundFromUnder(t, at, w, 0, d);
        }
      }
      DistinctConcat(Here(t, at, w, 0), FoundFrom(t, at, w, 0));
    }
  }

  lemma {:induction false} AtDistinct(t: Cst, at: seq<nat>, w: Place, i: nat)
    ensures Distinct(FoundAt(t, at, w, i))
    decreases t, 0, 0
  {
    if i < |t.children| {
      FoundDistinct(t.children[i], at + [i], ChildPlace(w, t, at, i));
    }
  }

  lemma {:induction false} CallableDistinct(t: Cst, at: seq<nat>, w: Place)
    requires IsCallableDecl(t, w)
    ensures Distinct(Found(t, at, w))
    decreases t, 0, 1
  {
    var p, b, here := ParamsIndex(t.children, 0), BlockIndex(t.children, 0), Here(t, at, w, 0);
    ParamsIndexIs(t.children, 0);
    BlockIndexIs(t.children, 0);
    HereDistinct(t, at, w, 0);
    AtDistinct(t, at, w, p);
    AtDistinct(t, at, w, b);
    var ps, bs := FoundAt(t, at, w, p), FoundAt(t, at, w, b);
    forall d | d in ps
      ensures d !in bs
    {
      FoundAtUnder(t, at, w, p, d);
      if d in bs {
        FoundAtUnder(t, at, w, b, d);
      }
    }
    DistinctConcat(ps, bs);
    forall d | d in here
      ensures d !in ps + bs
    {
      HereIff(t, at, w, 0, d);
      if d in ps {
        FoundAtUnder(t, at, w, p, d);
      }
      if d in bs {
        FoundAtUnder(t, at, w, b, d);
      }
    }
    DistinctConcat(here, ps + bs);
  }

  lemma {:induction false} FromDistinct(t: Cst, at: seq<nat>, w: Place, i: nat)
    requires i <= |t.children|
    ensures Distinct(FoundFrom(t, at, w, i))
    decreases t, 0, |t.children| - i + 1
  {
    if i < |t.children| {
      AtDistinct(t, at, w, i);
      FromDistinct(t, at, w, i + 1);
      forall d | d in FoundAt(t, at, w, i)
        ensures d !in FoundFrom(t, at, w, i + 1)
      {
        FoundAtUnder(t, at, w, i, d);
        if d in FoundFrom(t, at, w, i + 1) {
          var k := FoundFromUnder(t, at, w, i + 1, d);
        }
      }
      DistinctConcat(FoundAt(t, at, w, i), FoundFrom(t, at, w, i + 1));
    }
  }

  /* What an annotation node says. */

  predicate OnlyAts(s: string) {
    forall i :: 0 <= i < |s| ==> s[i] == '@'
  }

  /** The node's first annotation identifier is the name behind any number of `@`, and its first identifier, if it has one,
      is the argument. */
  ghost predicate Spells(t: Cst, a: Annotation) {
    && (exists j, ats :: 0 <= j < |t.children| && Nth(t.children, AnnotationIdent, 0, j) && OnlyAts(ats)
          && t.children[j].info.text == ats + a.name)
    && (a.name == "" || a.name[0] != '@')
    && match a.argument
       case Some(s) => exists j :: 0 <= j < |t.children| && Nth(t.children, IdentNode, 0, j) && t.children[j].info.text == s
       case None => forall j :: 0 <= j < |t.children| ==> t.children[j].info.kind != IdentNode
  }

  lemma {:induction false} TrimmedAts(s: string) returns (ats: string)
    ensures OnlyAts(ats) && s == ats + TrimAt(s) && (TrimAt(s) == "" || TrimAt(s)[0] != '@')
    decreases |s|
  {
    if s != "" && s[0] == '@' {
      var more := TrimmedAts(s[1..]);
      ats := ['@'] + more;
      assert s == ['@'] + s[1..];
    } else {
      ats := "";
    }
  }

  /** An annotation node stands for the annotation it spells, or for none if it has no name. */
  lemma {:induction false} AnnotationIs(t: Cst)
    ensures AnnotationOf(t) == [] <==> forall j :: 0 <= j < |t.children| ==> t.children[j].info.kind != AnnotationIdent
    ensures AnnotationOf(t) != [] ==> |AnnotationOf(t)| == 1 && Spells(t, AnnotationOf(t)[0])
  {
    ChildFound(t, AnnotationIdent, 0);
    ChildFound(t, IdentNode, 0);
    NameFound(t);
    KindFound(t, AnnotationIdent);
    if NthChildKind(t, AnnotationIdent, 0).Some? {
      var j :| 0 <= j < |t.children| && Nth(t.children, AnnotationIdent, 0, j);
      var ats := TrimmedAts(t.children[j].info.text);
      assert t.children[j].info.text == ats + AnnotationOf(t)[0].name;
    }
  }

  lemma {:induction false} KindFound(t: Cst, kind: Kind)
    ensures NthChildKind(t, kind, 0).Some? <==> exists j :: 0 <= j < |t.children| && t.children[j].info.kind == kind
  {
    ChildFound(t, kind, 0);
    if exists j :: 0 <= j < |t.children| && t.children[j].info.kind == kind {
      var j :| 0 <= j < |t.children| && t.children[j].info.kind == kind;
      KindSplit(t.children, kind, j);
      assert t.children[j..][0] == t.children[j];
    }
  }

  /** The annotations directly in a declaration: those its annotation children stand for, in order. */
  lemma {:induction false} DirectIs(ts: seq<Cst>, j: nat)
    requires j < |ts|
    ensures AnnotationsOf(ChildrenOfKind(ts[..j + 1], AnnotationNode))
         == AnnotationsOf(ChildrenOfKind(ts[..j], AnnotationNode)) + if ts[j].info.kind == AnnotationNode then AnnotationOf(ts[j]) else []
  {
    KindSnoc(ts[..j], ts[j], AnnotationNode);
    assert ts[..j + 1] == ts[..j] + [ts[j]];
    if ts[j].info.kind == AnnotationNode {
      AnnotationsSnoc(ChildrenOfKind(ts[..j], AnnotationNode), ts[j]);
    } else {
      assert ChildrenOfKind(ts[..j], AnnotationNode) + [] == ChildrenOfKind(ts[..j], AnnotationNode);
    }
  }

  lemma {:induction false} AnnotationsSnoc(ts: seq<Cst>, t: Cst)
    ensures AnnotationsOf(ts + [t]) == AnnotationsOf(ts) + AnnotationOf(t)
    decreases |ts|
  {
    if ts == [] {
      assert ts + [t] == [t] && [t][1..] == [];
    } else {
      assert (ts + [t])[0] == ts[0] && (ts + [t])[1..] == ts[1..] + [t];
      AnnotationsSnoc(ts[1..], t);
    }
  }

  /* The main result. */

  /** A declaration of the document. */
  ghost predicate Declared(root: Cst, d: Decl) {
    && HasPath(root, d.path) && d.node == NodeAt(root, d.path) && d.place == PlaceBelow(root, [], AtRoot, d.path)
    && DeclaredHere(d.node, d.place, d.index)
  }

  /** The symbols of a document are those of its declarations, one each: with the name, the ranges, the kind, the container,
      the bases and the annotations that the tree gives them. */
  lemma {:induction false} SymbolsAreDeclarations(root: Cst) returns (decls: seq<Decl>)
    ensures decls == Found(root, [], AtRoot) && AllMatch(ExtractDocument(root), decls) && Distinct(decls)
    ensures forall d :: d in decls <==> Declared(root, d)
  {
    decls := Found(root, [], AtRoot);
    NothingHere(root, [], AtRoot, 0);
    BodyChildren(root, [], AtRoot, 0, None, [], Body(None, []), [], []);
    assert root.children[0..] == root.children;
    assert [] + ([] + FoundFrom(root, [], AtRoot, 0)) == [] + FoundFrom(root, [], AtRoot, 0) == decls;
    FoundDistinct(root, [], AtRoot);
    forall d
      ensures d in decls <==> Declared(root, d)
    {
      assert d.path == [] + d.path;
      FoundIff(root, [], AtRoot, d, d.path);
    }
  }
}
