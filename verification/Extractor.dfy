/** The symbol extractor (src/symbols/extract.rs): a visitor with a stack of frames, one per node the walk is inside of. */
module Extractor {
  import opened Wrappers
  import opened Walk

  datatype Kind =
    | AnnotationNode | ClassDecl | StructDecl | EnumDecl | StateDecl | FuncDecl | EventDecl | MemberVarDecl | AutobindDecl
    | LocalVarDecl | EnumMemberDecl | FuncBlock | FuncParams | FuncParamGroup | IdentNode | AnnotationIdent | OtherNode

  datatype Field = NoField | NameField | NamesField | BaseField

  /** A syntax node: its kind, whether it is named, its byte range, its text and the field of its parent that it fills. */
  datatype Info = Info(kind: Kind, named: bool, start: nat, end: nat, text: string, field: Field)

  type Cst = Tree<Info>

  datatype SymbolKind = Class | Struct | Enum | EnumMember | Function | Method | FieldSymbol | Variable | Parameter | State | Event

  datatype Annotation = Annotation(name: string, argument: Option<string>)

  datatype Symbol = Symbol(id: nat, name: string, kind: SymbolKind, start: nat, end: nat, selStart: nat, selEnd: nat,
                           container: Option<nat>, containerName: Option<string>, annotations: seq<Annotation>,
                           baseClass: Option<string>, ownerClass: Option<string>, stateClass: Option<string>)

  /** The parts of a symbol that its kind of declaration supplies. */
  datatype Spec = Spec(container: Option<nat>, annotations: seq<Annotation>, baseClass: Option<string>, ownerClass: Option<string>)

  datatype Mode =
    | Body(container: Option<nat>, pending: seq<Annotation>)
    | EnumMembers(id: nat)
    | Callable(id: nat, bodySeen: bool)

  datatype Frame = Frame(depth: int, mode: Mode)

  /* Looking at nodes. */

  function ChildrenOfKind(ts: seq<Cst>, kind: Kind): seq<Cst> {
    if ts == [] then []
    else (if ts[0].info.kind == kind then [ts[0]] else []) + ChildrenOfKind(ts[1..], kind)
  }

  function NthChildKind(t: Cst, kind: Kind, n: nat): Option<Cst> {
    var found := ChildrenOfKind(t.children, kind);
    if n < |found| then Some(found[n]) else None
  }

  function TextOf(t: Option<Cst>): Option<string> {
    match t
    case Some(n) => Some(n.info.text)
    case None => None
  }

  function ChildOfField(ts: seq<Cst>, field: Field): Option<Cst> {
    if ts == [] then None
    else if ts[0].info.field == field then Some(ts[0])
    else ChildOfField(ts[1..], field)
  }

  /** The identifiers among the children that fill `field`. */
  function NameNodes(ts: seq<Cst>, field: Field): seq<Cst> {
    if ts == [] then []
    else (if ts[0].info.field == field && ts[0].info.kind == IdentNode then [ts[0]] else []) + NameNodes(ts[1..], field)
  }

  function TrimAt(s: string): string {
    if s != "" && s[0] == '@' then TrimAt(s[1..]) else s
  }

  /** The annotation that an annotation node spells, if it has a name. */
  function AnnotationOf(t: Cst): seq<Annotation> {
    match NthChildKind(t, AnnotationIdent, 0)
    case Some(name) => [Annotation(TrimAt(name.info.text), TextOf(NthChildKind(t, IdentNode, 0)))]
    case None => []
  }

  function AnnotationsOf(ts: seq<Cst>): seq<Annotation> {
    if ts == [] then [] else AnnotationOf(ts[0]) + AnnotationsOf(ts[1..])
  }

  function DirectAnnotations(t: Cst): seq<Annotation> {
    AnnotationsOf(ChildrenOfKind(t.children, AnnotationNode))
  }

  /* Making symbols. */

  function TypeName(s: Symbol): string {
    match s.stateClass
    case Some(name) => name
    case None => s.name
  }

  function MakeSymbol(symbols: seq<Symbol>, node: Cst, name: Cst, kind: SymbolKind, spec: Spec): Symbol {
    Symbol(|symbols|, name.info.text, kind, node.info.start, node.info.end, name.info.start, name.info.end, spec.container,
           if spec.container.Some? && spec.container.value < |symbols| then Some(TypeName(symbols[spec.container.value])) else None,
           spec.annotations, spec.baseClass, spec.ownerClass,
           if kind == State && spec.ownerClass.Some? then Some(spec.ownerClass.value + "State" + name.info.text) else None)
  }

  function Push(symbols: seq<Symbol>, node: Cst, name: Cst, kind: SymbolKind, spec: Spec): seq<Symbol> {
    symbols + [MakeSymbol(symbols, node, name, kind, spec)]
  }

  function PushNames(symbols: seq<Symbol>, node: Cst, names: seq<Cst>, kind: SymbolKind, spec: Spec): seq<Symbol>
    decreases |names|
  {
    if names == [] then symbols
    else PushNames(Push(symbols, node, names[0], kind, spec), node, names[1..], kind, spec)
  }

  /** A declaration of several variables makes one symbol a name, all with the same annotations. */
  function PushVarDecl(symbols: seq<Symbol>, node: Cst, container: Option<nat>, pending: seq<Annotation>, kind: SymbolKind): seq<Symbol> {
    PushNames(symbols, node, NameNodes(node.children, if node.info.kind == AutobindDecl then NameField else NamesField), kind,
              Spec(container, pending + DirectAnnotations(node), None, None))
  }

  function PushGroups(symbols: seq<Symbol>, groups: seq<Cst>, id: nat): seq<Symbol>
    decreases |groups|
  {
    if groups == [] then symbols else PushGroups(PushVarDecl(symbols, groups[0], Some(id), [], Parameter), groups[1..], id)
  }

  function PushParams(symbols: seq<Symbol>, node: Cst, id: nat): seq<Symbol> {
    match NthChildKind(node, FuncParams, 0)
    case Some(params) => PushGroups(symbols, ChildrenOfKind(params.children, FuncParamGroup), id)
    case None => symbols
  }

  /* What a node means in the mode of the node around it. */

  /** The mode around the node afterwards, the symbols, and the mode to go into the node's children with, if any. */
  datatype Opened = Opened(outer: Mode, symbols: seq<Symbol>, inner: Option<Mode>)

  function Open(mode: Mode, t: Cst, symbols: seq<Symbol>): Opened {
    if !t.info.named then Opened(mode, symbols, None)
    else match mode
      case Body(container, pending) => OpenInBody(t, container, pending, symbols)
      case EnumMembers(id) => OpenInEnum(t, id, symbols)
      case Callable(id, bodySeen) =>
        if t.info.kind == FuncBlock && !bodySeen then Opened(Callable(id, true), symbols, Some(Body(Some(id), [])))
        else Opened(mode, symbols, None)
  }

  function OpenInEnum(t: Cst, id: nat, symbols: seq<Symbol>): Opened {
    if t.info.kind == EnumMemberDecl then
      Opened(EnumMembers(id),
             match NthChildKind(t, IdentNode, 0)
             case Some(name) => Push(symbols, t, name, EnumMember, Spec(Some(id), [], None, None))
             case None => symbols,
             None)
    else Opened(EnumMembers(id), symbols, Some(EnumMembers(id)))
  }

  function OpenInBody(t: Cst, container: Option<nat>, pending: seq<Annotation>, symbols: seq<Symbol>): Opened {
    var taken := Body(container, []);
    match t.info.kind
    case AnnotationNode => Opened(Body(container, pending + AnnotationOf(t)), symbols, None)
    case ClassDecl => OpenDecl(t, container, pending, symbols)
    case StructDecl => OpenDecl(t, container, pending, symbols)
    case EnumDecl => OpenDecl(t, container, pending, symbols)
    case StateDecl => OpenDecl(t, container, pending, symbols)
    case FuncDecl => OpenDecl(t, container, pending, symbols)
    case EventDecl => OpenDecl(t, container, pending, symbols)
    case MemberVarDecl => Opened(taken, PushVarDecl(symbols, t, container, pending, FieldSymbol), None)
    case AutobindDecl => Opened(taken, PushVarDecl(symbols, t, container, pending, FieldSymbol), None)
    case LocalVarDecl => Opened(taken, PushVarDecl(symbols, t, container, pending, Variable), None)
    case _ => Opened(taken, symbols, Some(Body(container, pending)))
  }

  predicate IsDecl(kind: Kind) {
    kind in {ClassDecl, StructDecl, EnumDecl, StateDecl, FuncDecl, EventDecl}
  }

  function DeclKind(kind: Kind, container: Option<nat>): SymbolKind {
    match kind
    case ClassDecl => Class
    case StructDecl => Struct
    case EnumDecl => Enum
    case StateDecl => State
    case EventDecl => Event
    case _ => if container.Some? then Method else Function
  }

  function DeclSpec(t: Cst, container: Option<nat>, annotations: seq<Annotation>): Spec {
    var second := TextOf(NthChildKind(t, IdentNode, 1));
    match t.info.kind
    case ClassDecl => Spec(container, annotations, second, None)
    case StructDecl => Spec(container, annotations, second, None)
    case StateDecl => Spec(container, annotations, TextOf(ChildOfField(t.children, BaseField)), second)
    case _ => Spec(container, annotations, None, None)
  }

  /** A declaration with children of its own.  Without a name it is no symbol, and what was pending goes on inside it. */
  function OpenDecl(t: Cst, container: Option<nat>, pending: seq<Annotation>, symbols: seq<Symbol>): Opened {
    var annotations := pending + DirectAnnotations(t);
    match NthChildKind(t, IdentNode, 0)
    case None => Opened(Body(container, []), symbols, Some(Body(container, annotations)))
    case Some(name) =>
      var id := |symbols|;
      var pushed := Push(symbols, t, name, DeclKind(t.info.kind, container), DeclSpec(t, container, annotations));
      match t.info.kind
      case EnumDecl => Opened(Body(container, []), pushed, Some(EnumMembers(id)))
      case FuncDecl => Opened(Body(container, []), PushParams(pushed, t, id), Some(Callable(id, false)))
      case EventDecl => Opened(Body(container, []), PushParams(pushed, t, id), Some(Callable(id, false)))
      case _ => Opened(Body(container, []), pushed, Some(Body(Some(id), [])))
  }

  /* The recursive descent: every node hands the mode down and gets its own back. */

  function Extract(t: Cst, mode: Mode, symbols: seq<Symbol>): (Mode, seq<Symbol>)
    decreases t, 1
  {
    var o := Open(mode, t, symbols);
    (o.outer, if o.inner.Some? then ExtractAll(t.children, o.inner.value, o.symbols) else o.symbols)
  }

  function ExtractAll(ts: seq<Cst>, mode: Mode, symbols: seq<Symbol>): seq<Symbol>
    decreases ts, 0
  {
    if ts == [] then symbols
    else
      var (mode', symbols') := Extract(ts[0], mode, symbols);
      ExtractAll(ts[1..], mode', symbols')
  }

  /** The symbols of a document: the root only contains. */
  function ExtractDocument(root: Cst): seq<Symbol> {
    ExtractAll(root.children, Body(None, []), [])
  }

  /* The visitor. */

  datatype Machine = Machine(symbols: seq<Symbol>, depth: int, frames: seq<Frame>)

  /** The frames with the innermost one's mode replaced. */
  function WithTop(frames: seq<Frame>, mode: Mode): seq<Frame>
    requires frames != []
  {
    frames[|frames| - 1 := Frame(frames[|frames| - 1].depth, mode)]
  }

  function EnterNode(m: Machine, t: Cst): (Machine, bool) {
    if m.frames == [] then (Machine(m.symbols, m.depth + 1, [Frame(m.depth, Body(None, []))]), true)
    else
      var top := m.frames[|m.frames| - 1];
      var o := Open(top.mode, t, m.symbols);
      var kept := WithTop(m.frames, o.outer);
      match o.inner
      case Some(inner) => (Machine(o.symbols, m.depth + 1, kept + [Frame(m.depth, inner)]), true)
      case None => (Machine(o.symbols, m.depth + 1, kept), false)
  }

  function LeaveNode(m: Machine): Machine {
    var depth := m.depth - 1;
    Machine(m.symbols, depth,
            if m.frames != [] && m.frames[|m.frames| - 1].depth == depth then m.frames[..|m.frames| - 1] else m.frames)
  }

  function Visitor(): Walk.Visitor<Machine, Info> {
    Walk.Visitor.Visitor((m: Machine, t: Cst) => EnterNode(m, t), (m: Machine, t: Cst) => LeaveNode(m))
  }

  /** Frames sit at strictly increasing depths, all above the walk's. */
  ghost predicate FramesOk(m: Machine) {
    && (forall i :: 0 <= i < |m.frames| ==> m.frames[i].depth < m.depth)
    && (forall i, j :: 0 <= i < j < |m.frames| ==> m.frames[i].depth < m.frames[j].depth)
  }

  lemma {:induction false} EnterKeepsFrames(m: Machine, t: Cst)
    requires FramesOk(m)
    ensures FramesOk(EnterNode(m, t).0) && |EnterNode(m, t).0.frames| <= |m.frames| + 1
  {
  }

  lemma LeaveKeepsFrames(m: Machine)
    requires FramesOk(m)
    ensures FramesOk(LeaveNode(m))
    ensures forall f :: f in LeaveNode(m).frames <==> f in m.frames && f.depth < m.depth - 1
  {
    if m.frames != [] {
      var n := |m.frames| - 1;
      assert m.frames == m.frames[..n] + [m.frames[n]];
      assert forall i :: 0 <= i < n ==> m.frames[i].depth < m.frames[n].depth;
    }
  }

  /** Below an open frame, the frame-stack visitor does what the recursive descent does: same symbols, and the frame's mode
      is the one the descent hands back. */
  lemma {:induction false} VisitorRefinesDescent(t: Cst, m: Machine)
    requires FramesOk(m) && m.frames != []
    ensures var top := m.frames[|m.frames| - 1];
      var (mode, symbols) := Extract(t, top.mode, m.symbols);
      Traverse(Visitor(), t, m) == Machine(symbols, m.depth, WithTop(m.frames, mode))
    decreases t, 1
  {
    var (m1, descend) := EnterNode(m, t);
    EnterKeepsFrames(m, t);
    var kept := m1.frames[..|m.frames|];
    if descend {
      ChildrenRefineDescent(t.children, m1);
      var top := m1.frames[|m1.frames| - 1];
      assert m1.frames[..|m1.frames| - 1] == kept;
      var m2 := TraverseAll(Visitor(), t.children, m1);
      assert m2.frames[..|m2.frames| - 1] == kept;
    }
  }

  lemma {:induction false} ChildrenRefineDescent(ts: seq<Cst>, m: Machine)
    requires FramesOk(m) && m.frames != []
    ensures var top := m.frames[|m.frames| - 1];
      var after := TraverseAll(Visitor(), ts, m);
      && after.symbols == ExtractAll(ts, top.mode, m.symbols) && after.depth == m.depth
      && |after.frames| == |m.frames| && after.frames[..|m.frames| - 1] == m.frames[..|m.frames| - 1]
      && after.frames[|m.frames| - 1].depth == top.depth
    decreases ts, 0
  {
    if ts == [] {
    } else {
      VisitorRefinesDescent(ts[0], m);
      var m1 := Traverse(Visitor(), ts[0], m);
      var top, top1 := m.frames[|m.frames| - 1], m1.frames[|m1.frames| - 1];
      assert m1.frames[..|m1.frames| - 1] == m.frames[..|m.frames| - 1];
      assert forall i :: 0 <= i < |m.frames| ==> m1.frames[i].depth == m.frames[i].depth;
      ChildrenRefineDescent(ts[1..], m1);
    }
  }

  /** The whole extraction: from no frames, through the tree, to no frames, with the symbols of the recursive descent. */
  lemma ExtractionIsDescent(root: Cst)
    ensures Traverse(Visitor(), root, Machine([], 0, [])) == Machine(ExtractDocument(root), 0, [])
  {
    var (m1, _) := EnterNode(Machine([], 0, []), root);
    ChildrenRefineDescent(root.children, m1);
    var m2 := TraverseAll(Visitor(), root.children, m1);
    assert m2.frames[..0] == [];
  }

  /* What each kind of node in a body makes of the machine. */

  predicate InBody(m: Machine, t: Cst, container: Option<nat>, pending: seq<Annotation>) {
    m.frames != [] && m.frames[|m.frames| - 1].mode == Body(container, pending) && t.info.named
  }

  lemma {:induction false} DeclEnters(m: Machine, t: Cst, container: Option<nat>, pending: seq<Annotation>, o: Opened)
    requires InBody(m, t, container, pending) && IsDecl(t.info.kind)
    requires o == OpenDecl(t, container, pending, m.symbols)
    ensures o.outer == Body(container, []) && o.inner.Some?
    ensures EnterNode(m, t) == (Machine(o.symbols, m.depth + 1, WithTop(m.frames, o.outer) + [Frame(m.depth, o.inner.value)]), true)
  {
  }

  lemma {:induction false} UnnamedOpens(t: Cst, container: Option<nat>, pending: seq<Annotation>, symbols: seq<Symbol>)
    requires NthChildKind(t, IdentNode, 0).None?
    ensures OpenDecl(t, container, pending, symbols)
         == Opened(Body(container, []), symbols, Some(Body(container, pending + DirectAnnotations(t))))
  {
  }

  lemma {:induction false} NamedOpens(t: Cst, container: Option<nat>, pending: seq<Annotation>, symbols: seq<Symbol>, name: Cst)
    requires NthChildKind(t, IdentNode, 0) == Some(name)
    ensures var id, o := |symbols|, OpenDecl(t, container, pending, symbols);
      var pushed := Push(symbols, t, name, DeclKind(t.info.kind, container), DeclSpec(t, container, pending + DirectAnnotations(t)));
      o.outer == Body(container, []) &&
      if t.info.kind == EnumDecl then o.symbols == pushed && o.inner == Some(EnumMembers(id))
      else if t.info.kind == FuncDecl || t.info.kind == EventDecl then
        o.symbols == PushParams(pushed, t, id) && o.inner == Some(Callable(id, false))
      else o.symbols == pushed && o.inner == Some(Body(Some(id), []))
  {
  }

  lemma {:induction false} AnnotationEnters(m: Machine, t: Cst, container: Option<nat>, pending: seq<Annotation>)
    requires InBody(m, t, container, pending) && t.info.kind == AnnotationNode
    ensures EnterNode(m, t) == (Machine(m.symbols, m.depth + 1, WithTop(m.frames, Body(container, pending + AnnotationOf(t)))), false)
  {
  }

  lemma {:induction false} VarDeclEnters(m: Machine, t: Cst, container: Option<nat>, pending: seq<Annotation>, kind: SymbolKind)
    requires InBody(m, t, container, pending)
    requires t.info.kind == MemberVarDecl || t.info.kind == AutobindDecl || t.info.kind == LocalVarDecl
    requires kind == if t.info.kind == LocalVarDecl then Variable else FieldSymbol
    ensures EnterNode(m, t)
         == (Machine(PushVarDecl(m.symbols, t, container, pending, kind), m.depth + 1, WithTop(m.frames, Body(container, []))), false)
  {
  }

  lemma {:induction false} OtherEnters(m: Machine, t: Cst, container: Option<nat>, pending: seq<Annotation>)
    requires InBody(m, t, container, pending) && !IsDecl(t.info.kind) && t.info.kind != AnnotationNode
    requires t.info.kind != MemberVarDecl && t.info.kind != AutobindDecl && t.info.kind != LocalVarDecl
    ensures EnterNode(m, t)
         == (Machine(m.symbols, m.depth + 1, WithTop(m.frames, Body(container, [])) + [Frame(m.depth, Body(container, pending))]), true)
  {
  }

  /* The visitor as the object that it is. */

  class SymbolExtractor {
    var symbols: seq<Symbol>
    var depth: int
    var frames: seq<Frame>

    constructor ()
      ensures State() == Machine([], 0, [])
    {
      symbols, depth, frames := [], 0, [];
    }

    function State(): Machine
      reads this
    {
      Machine(symbols, depth, frames)
    }

    /** The mode of the innermost frame. */
    function TopMode(): Mode
      requires frames != []
      reads this
    {
      frames[|frames| - 1].mode
    }

    method PushFrame(mode: Mode)
      modifies this`frames
      ensures frames == old(frames) + [Frame(depth, mode)]
    {
      frames := frames + [Frame(depth, mode)];
    }

    method SetTop(mode: Mode)
      requires frames != []
      modifies this`frames
      ensures frames == WithTop(old(frames), mode)
    {
      frames := WithTop(frames, mode);
    }

    method TakePending() returns (pending: seq<Annotation>)
      requires frames != [] && TopMode().Body?
      modifies this`frames
      ensures pending == old(TopMode().pending)
      ensures frames == WithTop(old(frames), Body(old(TopMode().container), []))
    {
      var mode := TopMode();
      pending := mode.pending;
      SetTop(Body(mode.container, []));
    }

    method PushSymbol(node: Cst, name: Cst, kind: SymbolKind, spec: Spec) returns (id: nat)
      modifies this`symbols
      ensures id == |old(symbols)| && symbols == Push(old(symbols), node, name, kind, spec)
    {
      id := |symbols|;
      symbols := symbols + [MakeSymbol(symbols, node, name, kind, spec)];
    }

    method VisitVarDecl(node: Cst, container: Option<nat>, pending: seq<Annotation>, kind: SymbolKind)
      modifies this`symbols
      ensures symbols == PushVarDecl(old(symbols), node, container, pending, kind)
    {
      var spec := Spec(container, pending + DirectAnnotations(node), None, None);
      var field := if node.info.kind == AutobindDecl then NameField else NamesField;
      var names := NameNodes(node.children, field);
      var i := 0;
      while i < |names|
        invariant 0 <= i <= |names|
        invariant PushNames(symbols, node, names[i..], kind, spec) == PushNames(old(symbols), node, names, kind, spec)
      {
        assert names[i..][0] == names[i] && names[i..][1..] == names[i + 1..];
        var _ := PushSymbol(node, names[i], kind, spec);
        i := i + 1;
      }
    }

    method VisitParams(node: Cst, id: nat)
      modifies this`symbols
      ensures symbols == PushParams(old(symbols), node, id)
    {
      var params := NthChildKind(node, FuncParams, 0);
      if params.Some? {
        var groups := ChildrenOfKind(params.value.children, FuncParamGroup);
        var i := 0;
        while i < |groups|
          invariant 0 <= i <= |groups|
          invariant PushGroups(symbols, groups[i..], id) == PushGroups(old(symbols), groups, id)
        {
          assert groups[i..][0] == groups[i] && groups[i..][1..] == groups[i + 1..];
          VisitVarDecl(groups[i], Some(id), [], Parameter);
          i := i + 1;
        }
      }
    }

    method EnterDecl(node: Cst, container: Option<nat>) returns (descend: bool)
      requires frames != [] && TopMode().Body? && TopMode().container == container && node.info.named && IsDecl(node.info.kind)
      modifies this`symbols, this`frames
      ensures var o := OpenDecl(node, container, old(TopMode().pending), old(symbols));
        && descend && symbols == o.symbols && o.inner.Some?
        && frames == WithTop(old(frames), o.outer) + [Frame(depth, o.inner.value)]
    {
      ghost var before := symbols;
      var pending := TakePending();
      var annotations := pending + DirectAnnotations(node);
      var name := NthChildKind(node, IdentNode, 0);
      if name.None? {
        UnnamedOpens(node, container, pending, before);
        PushFrame(Body(container, annotations));
        return true;
      }
      NamedOpens(node, container, pending, before, name.value);
      var id := PushSymbol(node, name.value, DeclKind(node.info.kind, container), DeclSpec(node, container, annotations));
      if node.info.kind == EnumDecl {
        PushFrame(EnumMembers(id));
      } else if node.info.kind == FuncDecl || node.info.kind == EventDecl {
        VisitParams(node, id);
        PushFrame(Callable(id, false));
      } else {
        PushFrame(Body(Some(id), []));
      }
      return true;
    }

    method EnterInBody(node: Cst, container: Option<nat>) returns (descend: bool)
      requires frames != [] && TopMode().Body? && TopMode().container == container && node.info.named
      modifies this`symbols, this`frames
      ensures (Machine(symbols, depth + 1, frames), descend) == EnterNode(old(State()), node)
    {
      ghost var m := State();
      if IsDecl(node.info.kind) {
        DeclEnters(m, node, container, TopMode().pending, OpenDecl(node, container, TopMode().pending, symbols));
        descend := EnterDecl(node, container);
      } else if node.info.kind == AnnotationNode {
        AnnotationEnters(m, node, container, TopMode().pending);
        SetTop(Body(container, TopMode().pending + AnnotationOf(node)));
        return false;
      } else if node.info.kind == MemberVarDecl || node.info.kind == AutobindDecl || node.info.kind == LocalVarDecl {
        var annotations := TakePending();
        var kind := if node.info.kind == LocalVarDecl then Variable else FieldSymbol;
        VisitVarDecl(node, container, annotations, kind);
        VarDeclEnters(m, node, container, annotations, kind);
        return false;
      } else {
        var pending := TakePending();
        PushFrame(Body(container, pending));
        OtherEnters(m, node, container, pending);
        return true;
      }
    }

    method EnterInEnum(node: Cst, id: nat) returns (descend: bool)
      requires frames != [] && TopMode() == EnumMembers(id) && node.info.named
      modifies this`symbols, this`frames
      ensures (Machine(symbols, depth + 1, frames), descend) == EnterNode(old(State()), node)
    {
      assert WithTop(frames, TopMode()) == frames;
      if node.info.kind == EnumMemberDecl {
        var name := NthChildKind(node, IdentNode, 0);
        if name.Some? {
          var _ := PushSymbol(node, name.value, EnumMember, Spec(Some(id), [], None, None));
        }
        return false;
      }
      PushFrame(EnumMembers(id));
      return true;
    }

    method EnterInCallable(node: Cst, id: nat, bodySeen: bool) returns (descend: bool)
      requires frames != [] && TopMode() == Callable(id, bodySeen) && node.info.named
      modifies this`frames
      ensures (Machine(symbols, depth + 1, frames), descend) == EnterNode(old(State()), node)
    {
      if node.info.kind == FuncBlock && !bodySeen {
        SetTop(Callable(id, true));
        PushFrame(Body(Some(id), []));
        return true;
      }
      assert WithTop(frames, TopMode()) == frames;
      return false;
    }

    method Enter(node: Cst) returns (descend: bool)
      modifies this
      ensures (State(), descend) == EnterNode(old(State()), node)
    {
      if frames == [] {
        PushFrame(Body(None, []));
        assert frames == [Frame(depth, Body(None, []))];
        descend := true;
      } else if !node.info.named {
        assert WithTop(frames, TopMode()) == frames;
        descend := false;
      } else {
        match TopMode() {
          case Body(container, _) => descend := EnterInBody(node, container);
          case EnumMembers(id) => descend := EnterInEnum(node, id);
          case Callable(id, bodySeen) => descend := EnterInCallable(node, id, bodySeen);
        }
      }
      depth := depth + 1;
    }

    method Leave(node: Cst)
      modifies this
      ensures State() == LeaveNode(old(State()))
    {
      depth := depth - 1;
      if frames != [] && frames[|frames| - 1].depth == depth {
        frames := frames[..|frames| - 1];
      }
    }
  }

  ghost predicate EntersAlike(v: Walk.Visitor<Machine, Info>, m: Machine, t: Cst) {
    v.enter(m, t) == EnterNode(m, t)
  }

  ghost predicate LeavesAlike(v: Walk.Visitor<Machine, Info>, m: Machine, t: Cst) {
    v.leave(m, t) == LeaveNode(m)
  }

  /** The visitor does in each state what the object does. */
  ghost predicate ActsAlike(v: Walk.Visitor<Machine, Info>) {
    forall m: Machine, t: Cst :: EntersAlike(v, m, t) && LeavesAlike(v, m, t)
  }

  /** The loop's first condition: the object enters the node, and the cursor goes down if it is to and can. */
  method EnterAndDescend(cursor: TreeCursor<Info>, extractor: SymbolExtractor, ghost v: Walk.Visitor<Machine, Info>, ghost whole: Machine)
      returns (down: bool)
    requires ActsAlike(v) && cursor.Valid() && WillEnter(v, cursor.path, cursor.node, extractor.State(), whole)
    modifies cursor, extractor
    ensures cursor.Valid() && Pending(cursor.path) < old(Size(cursor.node) + Pending(cursor.path))
    ensures if down then
              WillEnter(v, cursor.path, cursor.node, extractor.State(), whole)
              && Size(cursor.node) + Pending(cursor.path) < old(Size(cursor.node) + Pending(cursor.path))
            else WillLeave(v, cursor.path, cursor.node, extractor.State(), whole)
  {
    ghost var s, path, node := extractor.State(), cursor.path, cursor.node;
    var descend := extractor.Enter(cursor.node);
    assert EntersAlike(v, s, node);
    Entering(v, path, node, s, extractor.State(), descend, whole);
    if descend {
      down := cursor.GotoFirstChild();
    } else {
      down := false;
    }
  }

  /** The inner loop's round: the object leaves the node, and the cursor goes on to the next sibling or up. */
  method LeaveAndMoveOn(cursor: TreeCursor<Info>, extractor: SymbolExtractor, ghost v: Walk.Visitor<Machine, Info>, ghost whole: Machine)
      returns (moved: bool, up: bool)
    requires ActsAlike(v) && cursor.Valid() && WillLeave(v, cursor.path, cursor.node, extractor.State(), whole)
    modifies cursor, extractor
    ensures cursor.Valid()
    ensures if moved then
              WillEnter(v, cursor.path, cursor.node, extractor.State(), whole)
              && Size(cursor.node) + Pending(cursor.path) <= old(Pending(cursor.path))
            else if up then
              WillLeave(v, cursor.path, cursor.node, extractor.State(), whole)
              && |cursor.path| < old(|cursor.path|) && Pending(cursor.path) <= old(Pending(cursor.path))
            else extractor.State() == whole
  {
    ghost var path, m := cursor.path, extractor.State();
    Leaving(v, path, cursor.node, m, whole);
    assert LeavesAlike(v, m, cursor.node);
    extractor.Leave(cursor.node);
    assert extractor.State() == v.leave(m, cursor.node);
    up := false;
    moved := cursor.GotoNextSibling();
    if !moved {
      up := cursor.GotoParent();
    }
  }

  /** The cursor loop of the shared walk, driving the object: it ends as the traversal of such a visitor does. */
  method DriveExtractor(root: Cst, extractor: SymbolExtractor, ghost v: Walk.Visitor<Machine, Info>)
    requires ActsAlike(v)
    modifies extractor
    ensures extractor.State() == Traverse(v, root, old(extractor.State()))
  {
    var cursor := new TreeCursor(root);
    ghost var whole := Traverse(v, root, extractor.State());
    while true
      invariant cursor.Valid() && fresh(cursor)
      invariant WillEnter(v, cursor.path, cursor.node, extractor.State(), whole)
      decreases Size(cursor.node) + Pending(cursor.path)
    {
      ghost var before := Size(cursor.node) + Pending(cursor.path);
      var down := EnterAndDescend(cursor, extractor, v, whole);
      if down {
        continue;
      }
      while true
        invariant cursor.Valid() && fresh(cursor)
        invariant WillLeave(v, cursor.path, cursor.node, extractor.State(), whole)
        invariant Pending(cursor.path) < before
        decreases |cursor.path|
      {
        var moved, up := LeaveAndMoveOn(cursor, extractor, v, whole);
        if moved {
          break;
        }
        if !up {
          return;
        }
      }
    }
  }

  /** Extraction runs the object through the tree. */
  method ExtractSymbols(root: Cst) returns (symbols: seq<Symbol>)
    ensures symbols == ExtractDocument(root)
  {
    var extractor := new SymbolExtractor();
    DriveExtractor(root, extractor, Visitor());
    ExtractionIsDescent(root);
    return extractor.symbols;
  }
}
