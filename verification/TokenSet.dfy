/** Which semantic tokens are collected (src/semantic_tokens/mod.rs): said over the tree, by paths, and without the visitor. */
module TokenSet {
  import opened Wrappers
  import opened LineIndex
  import opened Walk
  import opened Paths
  import opened SemanticTokens

  /* One node's token. */

  lemma {:induction false} RowStep(s: string, j: nat)
    requires j < |s|
    ensures Row(s, j + 1) == Row(s, j) + if s[j] == '\n' then 1 else 0
  {
    RowsAreLines(s, j);
    RowsAreLines(s, j + 1);
    assert s[..j + 1][..j] == s[..j];
  }

  /** Two places are on one line exactly if no newline stands between them. */
  lemma {:induction false} SameRowIff(s: string, i: nat, j: nat)
    requires i <= j <= |s|
    ensures Row(s, i) <= Row(s, j)
    ensures Row(s, i) == Row(s, j) <==> forall k :: i <= k < j ==> s[k] != '\n'
    decreases j
  {
    if i < j {
      SameRowIff(s, i, j - 1);
      RowStep(s, j - 1);
    }
  }

  lemma ColumnsDiffer(s: string, i: nat, j: nat)
    requires i <= j <= |s| && Row(s, i) == Row(s, j)
    ensures Column(s, j) == Column(s, i) + Units(s[i..j])
  {
    StartsOfPrefix(s[..j], i);
    assert s[..j][..i] == s[..i];
    var start := RowStart(s, i);
    assert RowStart(s, j) == start;
    assert s[start..j] == s[start..i] + s[i..j];
    SumsConcat(s[start..i], s[i..j]);
  }

  lemma UnitsOfSome(s: string)
    ensures s != "" ==> Units(s) > 0
  {
  }

  /** The token a classified node should have, said outright: none if its text is empty or has a newline, else its text's
      place and length in UTF-16 units. */
  ghost predicate IsToken(source: string, info: NodeInfo, t: RawToken) {
    && IndexOf(source, info.start).Some? && IndexOf(source, info.end).Some? && info.class_.Some?
    && var i, j := IndexOf(source, info.start).value, IndexOf(source, info.end).value;
       && i < j && (forall k :: i <= k < j ==> source[k] != '\n')
       && t == RawToken(Row(source, i), Column(source, i), Units(source[i..j]), info.class_.value.0, info.class_.value.1)
  }

  lemma {:induction false} TokenIs(source: string, info: NodeInfo, t: RawToken)
    requires Bytes(source) <= U32_MAX && IndexOf(source, info.start).Some? && IndexOf(source, info.end).Some?
    requires info.start <= info.end && info.class_.Some?
    ensures TokenOf(source, info, info.class_.value) == Some(t) <==> IsToken(source, info, t)
  {
    var i, j := IndexOf(source, info.start).value, IndexOf(source, info.end).value;
    PositionOf(source, info.start);
    PositionOf(source, info.end);
    BytesOrdered(source, i, j);
    SameRowIff(source, i, j);
    UnitsOfSome(source[i..j]);
    if Row(source, i) == Row(source, j) {
      ColumnsDiffer(source, i, j);
    }
  }

  /* The nodes that have tokens. */

  predicate Overlaps(info: NodeInfo, from: nat, to: nat) {
    info.start < to && from < info.end
  }

  /** A node that is looked into: it overlaps the range, is named, and is not classified itself. */
  predicate Open(info: NodeInfo, from: nat, to: nat) {
    Overlaps(info, from, to) && info.named && info.class_.None?
  }

  predicate OpenAt(t: Tree<NodeInfo>, path: seq<nat>, from: nat, to: nat) {
    HasPath(t, path) && Open(NodeAt(t, path).info, from, to)
  }

  /** The node at `path` below `t` is classified and overlaps the range, and all nodes on the way are open. */
  ghost predicate Shown(t: Tree<NodeInfo>, path: seq<nat>, from: nat, to: nat) {
    && HasPath(t, path) && (forall k :: 0 <= k < |path| ==> OpenAt(t, path[..k], from, to))
    && Overlaps(NodeAt(t, path).info, from, to) && NodeAt(t, path).info.class_.Some?
  }

  /** The token of the node at `path`. */
  function TokenAt(source: string, t: Tree<NodeInfo>, path: seq<nat>): Option<RawToken> {
    if !HasPath(t, path) then None
    else match NodeAt(t, path).info.class_
      case Some(c) => TokenOf(source, NodeAt(t, path).info, c)
      case None => None
  }

  /** The paths below `t` of the nodes whose tokens are collected, in document order. */
  function Lit(source: string, from: nat, to: nat, t: Tree<NodeInfo>): seq<seq<nat>>
    decreases t, 1, 0
  {
    if !Overlaps(t.info, from, to) then []
    else if t.info.class_.Some? then if TokenAt(source, t, []).Some? then [[]] else []
    else if t.info.named then LitFrom(source, from, to, t, 0) else []
  }

  function LitFrom(source: string, from: nat, to: nat, t: Tree<NodeInfo>, i: nat): seq<seq<nat>>
    requires i <= |t.children|
    decreases t, 0, |t.children| - i
  {
    if i == |t.children| then []
    else Prefixed(i, Lit(source, from, to, t.children[i])) + LitFrom(source, from, to, t, i + 1)
  }

  /* The traversal collects their tokens. */

  /** `after` is `before` and then the tokens at these paths. */
  ghost predicate Adds(source: string, t: Tree<NodeInfo>, paths: seq<seq<nat>>, before: seq<RawToken>, after: seq<RawToken>) {
    && |after| == |before| + |paths| && after[..|before|] == before
    && forall k :: 0 <= k < |paths| ==> TokenAt(source, t, paths[k]) == Some(after[|before| + k])
  }

  lemma {:induction false} TraverseAdds(source: string, from: nat, to: nat, t: Tree<NodeInfo>, tokens: seq<RawToken>)
    ensures Adds(source, t, Lit(source, from, to, t), tokens, Traverse(TokenCollector(source, from, to), t, tokens))
    decreases t, 1, 0
  {
    if Open(t.info, from, to) {
      assert t.children[0..] == t.children;
      TraverseAllAdds(source, from, to, t, 0, tokens);
    }
  }

  lemma {:induction false} TraverseAllAdds(source: string, from: nat, to: nat, t: Tree<NodeInfo>, i: nat, tokens: seq<RawToken>)
    requires i <= |t.children|
    ensures Adds(source, t, LitFrom(source, from, to, t, i), tokens, TraverseAll(TokenCollector(source, from, to), t.children[i..], tokens))
    decreases t, 0, |t.children| - i
  {
    if i < |t.children| {
      var child, v := t.children[i], TokenCollector(source, from, to);
      var next := Traverse(v, child, tokens);
      assert t.children[i..][0] == child && t.children[i..][1..] == t.children[i + 1..];
      TraverseAdds(source, from, to, child, tokens);
      AddsBelow(source, t, i, Lit(source, from, to, child), tokens, next);
      TraverseAllAdds(source, from, to, t, i + 1, next);
      AddsTwice(source, t, Prefixed(i, Lit(source, from, to, child)), LitFrom(source, from, to, t, i + 1), tokens, next,
                TraverseAll(v, t.children[i + 1..], next));
    }
  }

  lemma AddsBelow(source: string, t: Tree<NodeInfo>, i: nat, paths: seq<seq<nat>>, before: seq<RawToken>, after: seq<RawToken>)
    requires i < |t.children| && Adds(source, t.children[i], paths, before, after)
    ensures Adds(source, t, Prefixed(i, paths), before, after)
  {
    forall k | 0 <= k < |paths|
      ensures TokenAt(source, t, Prefixed(i, paths)[k]) == Some(after[|before| + k])
    {
      assert TokenAt(source, t.children[i], paths[k]).Some?;
      BelowChild(t, i, paths[k]);
    }
  }

  lemma AddsTwice(source: string, t: Tree<NodeInfo>, a: seq<seq<nat>>, b: seq<seq<nat>>, before: seq<RawToken>, mid: seq<RawToken>,
                  after: seq<RawToken>)
    requires Adds(source, t, a, before, mid) && Adds(source, t, b, mid, after)
    ensures Adds(source, t, a + b, before, after)
  {
    assert after[..|before|] == after[..|mid|][..|before|];
    forall k | 0 <= k < |a + b|
      ensures TokenAt(source, t, (a + b)[k]) == Some(after[|before| + k])
    {
      if k < |a| {
        assert after[|before| + k] == mid[|before| + k];
      }
    }
  }

  /* They are exactly the shown ones that have a token, each once, in document order. */

  lemma {:induction false} LitIff(source: string, from: nat, to: nat, t: Tree<NodeInfo>, path: seq<nat>)
    ensures path in Lit(source, from, to, t) <==> Shown(t, path, from, to) && TokenAt(source, t, path).Some?
    decreases t, 1, 0
  {
    if path == [] {
      NoneEmpty(source, from, to, t, 0);
    } else {
      ShownBelow(t, path, from, to);
      if Open(t.info, from, to) {
        LitFromIff(source, from, to, t, 0, path);
      }
    }
  }

  lemma {:induction false} NoneEmpty(source: string, from: nat, to: nat, t: Tree<NodeInfo>, i: nat)
    requires i <= |t.children|
    ensures [] !in LitFrom(source, from, to, t, i)
    decreases |t.children| - i
  {
    if i < |t.children| {
      NoneEmpty(source, from, to, t, i + 1);
    }
  }

  lemma OpenBelow(t: Tree<NodeInfo>, path: seq<nat>, k: nat, from: nat, to: nat)
    requires path != [] && path[0] < |t.children| && 0 < k <= |path|
    ensures OpenAt(t, path[..k], from, to) <==> OpenAt(t.children[path[0]], path[1..][..k - 1], from, to)
  {
    assert path[..k] == [path[0]] + path[1..][..k - 1];
    BelowChild(t, path[0], path[1..][..k - 1]);
  }

  /** The way below a node to a place is the way below one of its children. */
  lemma WayBelow(t: Tree<NodeInfo>, path: seq<nat>, from: nat, to: nat)
    requires path != [] && path[0] < |t.children|
    ensures (forall k :: 0 < k < |path| ==> OpenAt(t, path[..k], from, to))
       <==> (forall k :: 0 <= k < |path| - 1 ==> OpenAt(t.children[path[0]], path[1..][..k], from, to))
  {
    if forall k :: 0 < k < |path| ==> OpenAt(t, path[..k], from, to) {
      forall k | 0 <= k < |path| - 1
        ensures OpenAt(t.children[path[0]], path[1..][..k], from, to)
      {
        OpenBelow(t, path, k + 1, from, to);
        assert OpenAt(t, path[..k + 1], from, to);
      }
    }
    if forall k :: 0 <= k < |path| - 1 ==> OpenAt(t.children[path[0]], path[1..][..k], from, to) {
      forall k | 0 < k < |path|
        ensures OpenAt(t, path[..k], from, to)
      {
        OpenBelow(t, path, k, from, to);
        assert OpenAt(t.children[path[0]], path[1..][..k - 1], from, to);
      }
    }
  }

  lemma ShownBelow(t: Tree<NodeInfo>, path: seq<nat>, from: nat, to: nat)
    requires path != []
    ensures Shown(t, path, from, to) <==>
      Open(t.info, from, to) && path[0] < |t.children| && Shown(t.children[path[0]], path[1..], from, to)
  {
    assert path[..0] == [];
    if Shown(t, path, from, to) {
      assert OpenAt(t, path[..0], from, to);
    }
    if path[0] < |t.children| {
      assert path == [path[0]] + path[1..];
      BelowChild(t, path[0], path[1..]);
      WayBelow(t, path, from, to);
    }
  }

  lemma {:induction false} LitFromIff(source: string, from: nat, to: nat, t: Tree<NodeInfo>, i: nat, path: seq<nat>)
    requires i <= |t.children| && path != []
    ensures path in LitFrom(source, from, to, t, i) <==>
      i <= path[0] < |t.children| && Shown(t.children[path[0]], path[1..], from, to)
      && TokenAt(source, t.children[path[0]], path[1..]).Some?
    decreases t, 0, |t.children| - i
  {
    if i < |t.children| {
      PrefixedIff(i, Lit(source, from, to, t.children[i]), path);
      LitFromIff(source, from, to, t, i + 1, path);
      if path[0] == i {
        LitIff(source, from, to, t.children[i], path[1..]);
      }
    }
  }

  lemma {:induction false} LitInOrder(source: string, from: nat, to: nat, t: Tree<NodeInfo>)
    ensures InOrder(Lit(source, from, to, t))
    decreases t, 1, 0
  {
    if Open(t.info, from, to) {
      LitFromInOrder(source, from, to, t, 0);
    }
  }

  lemma {:induction false} LitFromInOrder(source: string, from: nat, to: nat, t: Tree<NodeInfo>, i: nat)
    requires i <= |t.children|
    ensures InOrder(LitFrom(source, from, to, t, i))
    ensures forall p :: p in LitFrom(source, from, to, t, i) ==> p != [] && i <= p[0]
    decreases t, 0, |t.children| - i
  {
    if i < |t.children| {
      var first, rest := Lit(source, from, to, t.children[i]), LitFrom(source, from, to, t, i + 1);
      LitInOrder(source, from, to, t.children[i]);
      LitFromInOrder(source, from, to, t, i + 1);
      PrefixedInOrder(i, first);
      OrderConcat(i, Prefixed(i, first), rest);
    }
  }

  /** A node has a token in the document: it is not the root, it is classified and overlaps the range, every node between
      the root and it overlaps the range, is named and is not classified, and its text is one nonempty piece of a line. */
  ghost predicate HasToken(source: string, root: Tree<NodeInfo>, path: seq<nat>, from: nat, to: nat, token: RawToken) {
    && path != [] && HasPath(root, path) && (forall k :: 0 < k < |path| ==> OpenAt(root, path[..k], from, to))
    && Overlaps(NodeAt(root, path).info, from, to)
    && IsToken(source, NodeAt(root, path).info, token)
  }

  /** What is collected is exactly the tokens of the nodes that have one, each once, in the order of the document. */
  lemma {:induction false} CollectedExactly(source: string, from: nat, to: nat, root: Tree<NodeInfo>) returns (paths: seq<seq<nat>>)
    requires Bytes(source) <= U32_MAX && Placed(source, root)
    ensures InOrder(paths) && |Collect(source, from, to, root)| == |paths|
    ensures forall k :: 0 <= k < |paths| ==> HasToken(source, root, paths[k], from, to, Collect(source, from, to, root)[k])
    ensures forall path, token :: HasToken(source, root, path, from, to, token) ==> path in paths
  {
    paths := LitFrom(source, from, to, root, 0);
    LitFromInOrder(source, from, to, root, 0);
    assert root.children[0..] == root.children;
    TraverseAllAdds(source, from, to, root, 0, []);
    var tokens := Collect(source, from, to, root);
    forall k | 0 <= k < |paths|
      ensures HasToken(source, root, paths[k], from, to, tokens[k])
    {
      assert TokenAt(source, root, paths[k]) == Some(tokens[k]);
      LitFromIff(source, from, to, root, 0, paths[k]);
      ShownIsToken(source, from, to, root, paths[k], tokens[k]);
    }
    forall path, token | HasToken(source, root, path, from, to, token)
      ensures path in paths
    {
      ShownIsToken(source, from, to, root, path, token);
      LitFromIff(source, from, to, root, 0, path);
    }
  }

  lemma {:induction false} ShownIsToken(source: string, from: nat, to: nat, root: Tree<NodeInfo>, path: seq<nat>, token: RawToken)
    requires Bytes(source) <= U32_MAX && Placed(source, root) && path != []
    ensures HasToken(source, root, path, from, to, token) <==>
      path[0] < |root.children| && Shown(root.children[path[0]], path[1..], from, to)
      && TokenAt(source, root, path) == Some(token)
    ensures path[0] < |root.children| ==> TokenAt(source, root, path) == TokenAt(source, root.children[path[0]], path[1..])
  {
    assert path == [path[0]] + path[1..];
    if path[0] < |root.children| {
      BelowChild(root, path[0], path[1..]);
      ShownBelowRoot(root, path, from, to);
      if HasPath(root, path) {
        PlacedAt(source, root, path);
        if NodeAt(root, path).info.class_.Some? {
          TokenIs(source, NodeAt(root, path).info, token);
        }
      }
    }
  }

  lemma ShownBelowRoot(root: Tree<NodeInfo>, path: seq<nat>, from: nat, to: nat)
    requires path != [] && path[0] < |root.children|
    ensures Shown(root.children[path[0]], path[1..], from, to) <==>
      && HasPath(root, path) && (forall k :: 0 < k < |path| ==> OpenAt(root, path[..k], from, to))
      && Overlaps(NodeAt(root, path).info, from, to) && NodeAt(root, path).info.class_.Some?
  {
    assert path == [path[0]] + path[1..];
    BelowChild(root, path[0], path[1..]);
    WayBelow(root, path, from, to);
  }

  lemma {:induction false} PlacedAt(source: string, t: Tree<NodeInfo>, path: seq<nat>)
    requires Placed(source, t) && HasPath(t, path)
    ensures Placed(source, NodeAt(t, path))
    decreases |path|
  {
    if path != [] {
      PlacedChild(source, t.children, t.info.start, t.info.end, path[0]);
      PlacedAt(source, t.children[path[0]], path[1..]);
    }
  }

  lemma {:induction false} PlacedChild(source: string, ts: seq<Tree<NodeInfo>>, from: nat, to: nat, i: nat)
    requires PlacedAll(source, ts, from, to) && i < |ts|
    ensures Placed(source, ts[i])
    decreases |ts|
  {
    if i > 0 {
      PlacedChild(source, ts[1..], ts[0].info.end, to, i - 1);
    }
  }
}
