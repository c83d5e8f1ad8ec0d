/** Which symbols the lookup of locals knows (`enclosing_callable_id` and the index of locals in src/symbols/types.rs), said over
    the tree; and that symbols are numbered in the order of the document. */
module LocalSet {
  import opened Wrappers
  import opened Walk
  import opened Paths
  import opened Extractor
  import opened SymbolTable
  import opened SymbolSet
  import opened SymbolLookup

  /* Paths above one another. */

  /** `g` is the path of a node above the one at `path`. */
  predicate Above(g: seq<nat>, path: seq<nat>) {
    Under(path, g) && |g| < |path|
  }

  lemma UnderTwice(a: seq<nat>, b: seq<nat>, c: seq<nat>)
    requires Under(a, b) && Under(b, c)
    ensures Under(a, c)
  {
    assert a[..|c|] == a[..|b|][..|c|];
  }

  /** Two paths above the same node are above one another. */
  lemma OneLine(path: seq<nat>, a: seq<nat>, b: seq<nat>)
    requires Under(path, a) && Under(path, b) && |a| <= |b|
    ensures Under(b, a)
  {
    assert path[..|b|][..|a|] == path[..|a|];
  }

  /* Owners. */

  /** The declaration that a place is inside of. */
  function Around(w: Place): Option<seq<nat>> {
    match w
    case InBlock(f) => Some(f)
    case ParamList(f) => Some(f)
    case _ => OwnerOf(w)
  }

  lemma {:induction false} AroundIsAbove(t: Cst, at: seq<nat>, w: Place, path: seq<nat>)
    requires HasPath(t, path) && (Around(w).Some? ==> Above(Around(w).value, at))
    ensures var a := Around(PlaceBelow(t, at, w, path)); a.Some? ==> Above(a.value, at + path)
    decreases |path|
  {
    if path == [] {
      assert at + path == at;
    } else {
      var i := path[0];
      assert at + [i] + path[1..] == at + path;
      StillAbove(t, at, w, i);
      AroundIsAbove(t.children[i], at + [i], ChildPlace(w, t, at, i), path[1..]);
    }
  }

  lemma StillAbove(t: Cst, at: seq<nat>, w: Place, i: nat)
    requires i < |t.children| && (Around(w).Some? ==> Above(Around(w).value, at))
    ensures var a := Around(ChildPlace(w, t, at, i)); a.Some? ==> Above(a.value, at + [i])
  {
    assert Above(at, at + [i]);
    if Around(w).Some? {
      UnderTwice(at + [i], at, Around(w).value);
    }
  }

  /** A place somewhere inside of `g`, or one that declares nothing. */
  predicate Within(w: Place, g: seq<nat>) {
    w.Skipped? || (Around(w).Some? && Under(Around(w).value, g))
  }

  lemma StillWithin(t: Cst, at: seq<nat>, w: Place, g: seq<nat>, i: nat)
    requires i < |t.children| && Within(w, g) && Under(at, g)
    ensures Within(ChildPlace(w, t, at, i), g) && Under(at + [i], g)
  {
    assert (at + [i])[..|g|] == at[..|g|];
  }

  lemma {:induction false} BelowIsWithin(t: Cst, at: seq<nat>, w: Place, g: seq<nat>, path: seq<nat>)
    requires HasPath(t, path) && Within(w, g) && Under(at, g)
    ensures Within(PlaceBelow(t, at, w, path), g)
    decreases |path|
  {
    if path != [] {
      StillWithin(t, at, w, g, path[0]);
      BelowIsWithin(t.children[path[0]], at + [path[0]], ChildPlace(w, t, at, path[0]), g, path[1..]);
    }
  }

  /** Everything below a callable that has a symbol is inside of it. */
  lemma {:induction false} CallableHolds(t: Cst, at: seq<nat>, w: Place, g: seq<nat>, path: seq<nat>)
    requires HasPath(t, g) && HasPath(t, path) && Above(g, path)
    requires IsCallableDecl(NodeAt(t, g), PlaceBelow(t, at, w, g))
    ensures Within(PlaceBelow(t, at, w, path), at + g)
    decreases |g|
  {
    var i, rest := path[0], path[1..];
    var child, inside := t.children[i], ChildPlace(w, t, at, i);
    if g == [] {
      assert at + g == at;
      assert Within(inside, at) && Under(at + [i], at);
      BelowIsWithin(child, at + [i], inside, at, rest);
    } else {
      assert g[0] == i && Above(g[1..], rest) by {
        assert path[..|g|] == g && rest[..|g| - 1] == g[1..];
      }
      assert at + [i] + g[1..] == at + g;
      CallableHolds(child, at + [i], inside, g[1..], rest);
    }
  }

  /* The innermost callable. */

  ghost predicate IsDocument(root: Cst, symbols: seq<Symbol>, decls: seq<Decl>) {
    AllMatch(symbols, decls) && Distinct(decls) && forall d :: d in decls <==> Declared(root, d)
  }

  predicate IsCallableOf(d: Decl) {
    IsCallableDecl(d.node, d.place)
  }

  /** Declaration `f` is the innermost callable above `path`, or at it. */
  ghost predicate Innermost(decls: seq<Decl>, path: seq<nat>, f: nat) {
    && f < |decls| && IsCallableOf(decls[f]) && Under(path, decls[f].path)
    && forall g :: 0 <= g < |decls| && IsCallableOf(decls[g]) && Under(path, decls[g].path) ==> Under(decls[f].path, decls[g].path)
  }

  lemma KindIsCallable(root: Cst, symbols: seq<Symbol>, decls: seq<Decl>, c: nat)
    requires IsDocument(root, symbols, decls) && c < |symbols|
    ensures IsCallable(symbols[c].kind) <==> IsCallableOf(decls[c])
  {
    assert Match(symbols, decls, c);
    if IsCallableOf(decls[c]) {
      assert IsFunc(decls[c].node.info.kind);
    }
    if decls[c].place.InBody? && IsFunc(decls[c].node.info.kind) {
      assert decls[c].node.children[decls[c].index].info.kind == IdentNode;
    }
  }

  /** The node at a path has one place, so two callables at a path are the same declaration. */
  lemma SamePath(root: Cst, symbols: seq<Symbol>, decls: seq<Decl>, a: nat, b: nat)
    requires IsDocument(root, symbols, decls) && a < |decls| && b < |decls| && decls[a].path == decls[b].path
    ensures decls[a].node == decls[b].node && decls[a].place == decls[b].place
    ensures IsCallableOf(decls[a]) ==> a == b
  {
    assert decls[a] in decls && decls[b] in decls;
    assert Declared(root, decls[a]) && Declared(root, decls[b]);
    if IsCallableOf(decls[a]) {
      OnlyNth(decls[a].node.children, IdentNode, 0, decls[a].index, decls[b].index);
      assert decls[a] == decls[b];
    }
  }

  /** A declaration's owner is above it, and at or below every callable above it. */
  lemma {:induction false} OwnerIsBetween(root: Cst, symbols: seq<Symbol>, decls: seq<Decl>, c: nat, g: nat)
    requires IsDocument(root, symbols, decls) && c < |decls| && g < |decls|
    requires IsCallableOf(decls[g]) && Above(decls[g].path, decls[c].path)
    ensures var o := OwnerOf(decls[c].place); o.Some? && Under(o.value, decls[g].path)
  {
    assert decls[c] in decls && decls[g] in decls;
    assert Declared(root, decls[c]) && Declared(root, decls[g]);
    CallableHolds(root, [], AtRoot, decls[g].path, decls[c].path);
    assert [] + decls[g].path == decls[g].path;
  }

  lemma {:induction false} OwnerIsAbove(root: Cst, symbols: seq<Symbol>, decls: seq<Decl>, c: nat)
    requires IsDocument(root, symbols, decls) && c < |decls|
    ensures var o := OwnerOf(decls[c].place); o.Some? ==> Above(o.value, decls[c].path)
  {
    assert decls[c] in decls;
    assert Declared(root, decls[c]);
    AroundIsAbove(root, [], AtRoot, decls[c].path);
    assert [] + decls[c].path == decls[c].path;
  }

  /** Going up the containers finds the innermost callable. */
  lemma {:induction false} ChainFinds(root: Cst, symbols: seq<Symbol>, decls: seq<Decl>, c: nat, f: nat)
    requires IsDocument(root, symbols, decls) && c < |symbols|
    ensures CallableFrom(symbols, Some(c)) == Some(f) <==> Innermost(decls, decls[c].path, f)
    decreases c
  {
    KindIsCallable(root, symbols, decls, c);
    if IsCallableOf(decls[c]) {
      SelfInnermost(root, symbols, decls, c, f);
    } else {
      assert Match(symbols, decls, c);
      OwnersInnermost(root, symbols, decls, c, f);
      if symbols[c].container.Some? {
        ChainFinds(root, symbols, decls, symbols[c].container.value, f);
      }
    }
  }

  lemma {:induction false} SelfInnermost(root: Cst, symbols: seq<Symbol>, decls: seq<Decl>, c: nat, f: nat)
    requires IsDocument(root, symbols, decls) && c < |decls| && IsCallableOf(decls[c])
    ensures Innermost(decls, decls[c].path, f) <==> f == c
  {
    var path := decls[c].path;
    assert path[..|path|] == path;
    if Innermost(decls, path, f) {
      assert Under(decls[f].path, path) && Under(path, decls[f].path);
      assert decls[f].path == path;
      SamePath(root, symbols, decls, c, f);
    }
  }

  /** What is not a callable itself has the innermost callable of its owner, and none if it has no owner. */
  lemma {:induction false} OwnersInnermost(root: Cst, symbols: seq<Symbol>, decls: seq<Decl>, c: nat, f: nat)
    requires IsDocument(root, symbols, decls) && c < |decls| && !IsCallableOf(decls[c])
    ensures Innermost(decls, decls[c].path, f) <==>
      match OwnerOf(decls[c].place) case Some(o) => Innermost(decls, o, f) case None => false
  {
    var path, owner := decls[c].path, OwnerOf(decls[c].place);
    OwnerIsAbove(root, symbols, decls, c);
    forall g | 0 <= g < |decls| && IsCallableOf(decls[g])
      ensures Under(path, decls[g].path) <==> owner.Some? && Under(owner.value, decls[g].path)
    {
      if Under(path, decls[g].path) {
        if decls[g].path == path {
          SamePath(root, symbols, decls, g, c);
        }
        assert path[..|path|] == path;
        OwnerIsBetween(root, symbols, decls, c, g);
      } else if owner.Some? && Under(owner.value, decls[g].path) {
        UnderTwice(path, owner.value, decls[g].path);
      }
    }
  }

  /** A local variable or a parameter. */
  predicate IsVariable(d: Decl) {
    (d.place.InBody? && d.node.info.kind == LocalVarDecl) || d.place.ParamGroup?
  }

  predicate IsNamed(d: Decl, name: string) {
    d.index < |d.node.children| && d.node.children[d.index].info.text == name
  }

  /** The locals of a callable that the index knows under a name: exactly the local variables and parameters of that name
      that are declared somewhere inside it and not inside another callable in between. */
  lemma {:induction false} LocalIff(root: Cst, symbols: seq<Symbol>, decls: seq<Decl>, k: nat, f: nat, name: string)
    requires IsDocument(root, symbols, decls) && k < |symbols|
    ensures IsLocal(symbols, k, f, name) <==>
      IsVariable(decls[k]) && IsNamed(decls[k], name) && Innermost(decls, decls[k].path, f)
  {
    assert Match(symbols, decls, k);
    if IsVariable(decls[k]) {
      OwnersInnermost(root, symbols, decls, k, f);
      if symbols[k].container.Some? {
        ChainFinds(root, symbols, decls, symbols[k].container.value, f);
      }
    }
  }

  /* The order of the symbols. */

  /** `d` comes before `e` in the document. */
  predicate DeclBefore(d: Decl, e: Decl) {
    Before(d.path, e.path) || (d.path == e.path && d.index < e.index)
  }

  predicate DeclsInOrder(ds: seq<Decl>) {
    forall a, b :: 0 <= a < b < |ds| ==> DeclBefore(ds[a], ds[b])
  }

  lemma {:induction false} BeforeFrom(at: seq<nat>, p: seq<nat>, q: seq<nat>)
    ensures Before(at + p, at + q) <==> Before(p, q)
    decreases |at|
  {
    if at == [] {
      assert at + p == p && at + q == q;
    } else {
      assert (at + p)[1..] == at[1..] + p && (at + q)[1..] == at[1..] + q;
      BeforeFrom(at[1..], p, q);
    }
  }

  lemma AboveIsBefore(at: seq<nat>, p: seq<nat>)
    requires Above(at, p)
    ensures Before(at, p)
  {
    assert p == at + p[|at|..] && at == at + [];
    BeforeFrom(at, [], p[|at|..]);
  }

  lemma LeftIsBefore(at: seq<nat>, i: nat, j: nat, p: seq<nat>, q: seq<nat>)
    requires i < j && Under(p, at + [i]) && Under(q, at + [j])
    ensures Before(p, q)
  {
    var a, b := p[|at|..], q[|at|..];
    assert p == at + a && q == at + b by {
      assert p[..|at|] == (at + [i])[..|at|] == at && q[..|at|] == (at + [j])[..|at|] == at;
    }
    assert a[0] == (at + [i])[|at|] == i && b[0] == (at + [j])[|at|] == j;
    BeforeFrom(at, a, b);
  }

  lemma OrderedConcat(a: seq<Decl>, b: seq<Decl>)
    requires DeclsInOrder(a) && DeclsInOrder(b) && forall d, e :: d in a && e in b ==> DeclBefore(d, e)
    ensures DeclsInOrder(a + b)
  {
    var all := a + b;
    forall i, j | 0 <= i < j < |all|
      ensures DeclBefore(all[i], all[j])
    {
      if i < |a| <= j {
        assert all[i] in a && all[j] in b;
      } else if i >= |a| {
        assert all[i] == b[i - |a|] && all[j] == b[j - |a|];
      }
    }
  }

  lemma {:induction false} HereInOrder(t: Cst, at: seq<nat>, w: Place, j: nat)
    requires j <= |t.children|
    ensures DeclsInOrder(Here(t, at, w, j))
    decreases |t.children| - j
  {
    if j < |t.children| {
      HereInOrder(t, at, w, j + 1);
      var mine := if DeclaredHere(t, w, j) then [Decl(at, t, j, w)] else [];
      forall d, e | d in mine && e in Here(t, at, w, j + 1)
        ensures DeclBefore(d, e)
      {
        HereIff(t, at, w, j + 1, e);
      }
      OrderedConcat(mine, Here(t, at, w, j + 1));
    }
  }

  lemma HereIsFirst(t: Cst, at: seq<nat>, w: Place, i: nat, d: Decl, e: Decl)
    requires d in Here(t, at, w, 0) && e in FoundAt(t, at, w, i)
    ensures DeclBefore(d, e)
  {
    HereIff(t, at, w, 0, d);
    FoundAtUnder(t, at, w, i, e);
    AboveIsBefore(at, e.path);
  }

  lemma {:induction false} FoundInOrder(t: Cst, at: seq<nat>, w: Place)
    requires Laid(t)
    ensures DeclsInOrder(Found(t, at, w))
    decreases t, 1, 0
  {
    HereInOrder(t, at, w, 0);
    if IsCallableDecl(t, w) {
      CallableInOrder(t, at, w);
    } else {
      FromInOrder(t, at, w, 0);
      forall d, e | d in Here(t, at, w, 0) && e in FoundFrom(t, at, w, 0)
        ensures DeclBefore(d, e)
      {
        var i := FoundFromUnder(t, at, w, 0, e);
        HereIsFirst(t, at, w, i, d, e);
      }
      OrderedConcat(Here(t, at, w, 0), FoundFrom(t, at, w, 0));
    }
  }

  lemma {:induction false} AtInOrder(t: Cst, at: seq<nat>, w: Place, i: nat)
    requires Laid(t)
    ensures DeclsInOrder(FoundAt(t, at, w, i))
    decreases t, 0, 0
  {
    if i < |t.children| {
      Siblings(t.children, t.info.start, t.info.end, i, i);
      FoundInOrder(t.children[i], at + [i], ChildPlace(w, t, at, i));
    }
  }

  lemma {:induction false} FromInOrder(t: Cst, at: seq<nat>, w: Place, i: nat)
    requires i <= |t.children| && Laid(t)
    ensures DeclsInOrder(FoundFrom(t, at, w, i))
    decreases t, 0, |t.children| - i + 1
  {
    if i < |t.children| {
      AtInOrder(t, at, w, i);
      FromInOrder(t, at, w, i + 1);
      forall d, e | d in FoundAt(t, at, w, i) && e in FoundFrom(t, at, w, i + 1)
        ensures DeclBefore(d, e)
      {
        var j := FoundFromUnder(t, at, w, i + 1, e);
        FoundAtUnder(t, at, w, i, d);
        FoundAtUnder(t, at, w, j, e);
        LeftIsBefore(at, i, j, d.path, e.path);
      }
      OrderedConcat(FoundAt(t, at, w, i), FoundFrom(t, at, w, i + 1));
    }
  }

  /** A callable's parameters come before what its block declares. */
  lemma {:induction false} ParamsBefore(t: Cst, at: seq<nat>, w: Place, d: Decl, e: Decl)
    requires Laid(t) && d in FoundAt(t, at, w, ParamsIndex(t.children, 0)) && e in FoundAt(t, at, w, BlockIndex(t.children, 0))
    ensures DeclBefore(d, e)
  {
    var p, b := ParamsIndex(t.children, 0), BlockIndex(t.children, 0);
    ParamsIndexIs(t.children, 0);
    BlockIndexIs(t.children, 0);
    FoundAtUnder(t, at, w, p, d);
    FoundAtUnder(t, at, w, b, e);
    LeftIsBefore(at, p, b, d.path, e.path);
  }

  lemma {:induction false} CallableInOrder(t: Cst, at: seq<nat>, w: Place)
    requires IsCallableDecl(t, w) && Laid(t)
    ensures DeclsInOrder(Found(t, at, w))
    decreases t, 0, 1
  {
    var p, b := ParamsIndex(t.children, 0), BlockIndex(t.children, 0);
    AtInOrder(t, at, w, p);
    AtInOrder(t, at, w, b);
    forall d, e | d in FoundAt(t, at, w, p) && e in FoundAt(t, at, w, b)
      ensures DeclBefore(d, e)
    {
      ParamsBefore(t, at, w, d, e);
    }
    OrderedConcat(FoundAt(t, at, w, p), FoundAt(t, at, w, b));
    WithinInOrder(t, at, w, p, b);
  }

  lemma {:induction false} WithinInOrder(t: Cst, at: seq<nat>, w: Place, p: nat, b: nat)
    requires DeclsInOrder(FoundAt(t, at, w, p) + FoundAt(t, at, w, b))
    ensures DeclsInOrder(Here(t, at, w, 0) + (FoundAt(t, at, w, p) + FoundAt(t, at, w, b)))
  {
    var ps, bs := FoundAt(t, at, w, p), FoundAt(t, at, w, b);
    HereInOrder(t, at, w, 0);
    forall d, e | d in Here(t, at, w, 0) && e in ps + bs
      ensures DeclBefore(d, e)
    {
      HereIsFirst(t, at, w, if e in ps then p else b, d, e);
    }
    OrderedConcat(Here(t, at, w, 0), ps + bs);
  }

  /** Symbols are numbered in the order of their declarations in the document, so that a callable comes before its parameters
      and these before its locals. */
  lemma {:induction false} SymbolsAreInOrder(root: Cst) returns (decls: seq<Decl>)
    requires Laid(root)
    ensures IsDocument(root, ExtractDocument(root), decls) && DeclsInOrder(decls)
  {
    decls := SymbolsAreDeclarations(root);
    FoundInOrder(root, [], AtRoot);
  }
}
