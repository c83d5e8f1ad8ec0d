/** The one tree traversal that every visitor shares (src/cst/walk.rs), and visitors built on it. */
module Walk {
  import opened Wrappers

  /** A syntax tree, as ordered nodes. */
  datatype Tree<T> = Node(info: T, children: seq<Tree<T>>)

  /** A visitor with state `S`.  `enter` also says whether to go on into the children. */
  datatype Visitor<!S, !T> = Visitor(enter: (S, Tree<T>) -> (S, bool), leave: (S, Tree<T>) -> S)

  /* What a traversal is: enter, children in order unless skipped, leave. */

  function Traverse<S, T>(v: Visitor<S, T>, t: Tree<T>, s: S): S
    decreases t, 1
  {
    var (s1, descend) := v.enter(s, t);
    v.leave(if descend then TraverseAll(v, t.children, s1) else s1, t)
  }

  function TraverseAll<S, T>(v: Visitor<S, T>, ts: seq<Tree<T>>, s: S): S
    decreases ts, 0
  {
    if ts == [] then s else TraverseAll(v, ts[1..], Traverse(v, ts[0], s))
  }

  /* A cursor over a tree. */

  /** The way from a parent to one of its children. */
  datatype Step<T> = Step(parent: Tree<T>, index: nat)

  ghost predicate IsPath<T>(root: Tree<T>, path: seq<Step<T>>, node: Tree<T>) {
    if path == [] then node == root
    else
      var last := path[|path| - 1];
      && last.index < |last.parent.children|
      && node == last.parent.children[last.index]
      && IsPath(root, path[..|path| - 1], last.parent)
  }

  class TreeCursor<T> {
    const root: Tree<T>
    var node: Tree<T>
    var path: seq<Step<T>>

    ghost predicate Valid()
      reads this
    {
      IsPath(root, path, node)
    }

    constructor (root: Tree<T>)
      ensures Valid() && this.root == root && node == root && path == []
    {
      this.root := root;
      node := root;
      path := [];
    }

    method GotoFirstChild() returns (moved: bool)
      requires Valid()
      modifies this
      ensures Valid()
      ensures moved <==> old(node).children != []
      ensures if moved then path == old(path) + [Step(old(node), 0)] && node == old(node).children[0]
              else path == old(path) && node == old(node)
    {
      if node.children == [] {
        return false;
      }
      path := path + [Step(node, 0)];
      node := node.children[0];
      assert path[..|path| - 1] == old(path);
      return true;
    }

    method GotoNextSibling() returns (moved: bool)
      requires Valid()
      modifies this
      ensures Valid()
      ensures moved <==> old(path) != [] && var last := old(path)[|old(path)| - 1]; last.index + 1 < |last.parent.children|
      ensures if moved then
                var last := old(path)[|old(path)| - 1];
                path == old(path)[..|old(path)| - 1] + [Step(last.parent, last.index + 1)] && node == last.parent.children[last.index + 1]
              else path == old(path) && node == old(node)
    {
      if path == [] {
        return false;
      }
      var last := path[|path| - 1];
      if last.index + 1 == |last.parent.children| {
        return false;
      }
      path := path[..|path| - 1] + [Step(last.parent, last.index + 1)];
      node := last.parent.children[last.index + 1];
      assert path[..|path| - 1] == old(path)[..|old(path)| - 1];
      return true;
    }

    method GotoParent() returns (moved: bool)
      requires Valid()
      modifies this
      ensures Valid()
      ensures moved <==> old(path) != []
      ensures if moved then path == old(path)[..|old(path)| - 1] && node == old(path)[|old(path)| - 1].parent
              else path == old(path) && node == old(node)
    {
      if path == [] {
        return false;
      }
      node := path[|path| - 1].parent;
      path := path[..|path| - 1];
      return true;
    }
  }

  /** What is left of a traversal once the node at the end of `path` has been left: its later siblings, then its parent. */
  function Rest<S, T>(v: Visitor<S, T>, path: seq<Step<T>>, s: S): S {
    if path == [] then s
    else
      var last := path[|path| - 1];
      var later := if last.index < |last.parent.children| then last.parent.children[last.index + 1..] else [];
      Rest(v, path[..|path| - 1], v.leave(TraverseAll(v, later, s), last.parent))
  }

  function Size<T>(t: Tree<T>): nat
    decreases t, 1
  {
    1 + SizeAll(t.children)
  }

  function SizeAll<T>(ts: seq<Tree<T>>): nat
    decreases ts, 0
  {
    if ts == [] then 0 else Size(ts[0]) + SizeAll(ts[1..])
  }

  /** The nodes to the right of a path. */
  function Pending<T>(path: seq<Step<T>>): nat {
    if path == [] then 0
    else
      var last := path[|path| - 1];
      (if last.index < |last.parent.children| then SizeAll(last.parent.children[last.index + 1..]) else 0)
      + Pending(path[..|path| - 1])
  }

  /** With the cursor about to enter `node`, the traversal will end in `whole`. */
  ghost predicate WillEnter<S, T>(v: Visitor<S, T>, path: seq<Step<T>>, node: Tree<T>, s: S, whole: S) {
    Rest(v, path, Traverse(v, node, s)) == whole
  }

  /** The same with the cursor about to leave it. */
  ghost predicate WillLeave<S, T>(v: Visitor<S, T>, path: seq<Step<T>>, node: Tree<T>, s: S, whole: S) {
    Rest(v, path, v.leave(s, node)) == whole
  }

  /** One cursor, two nested loops, no recursion. */
  method Walk<S, T>(root: Tree<T>, v: Visitor<S, T>, start: S) returns (s: S)
    ensures s == Traverse(v, root, start)
  {
    var cursor := new TreeCursor(root);
    s := start;
    ghost var whole := Traverse(v, root, start);
    while true
      invariant cursor.Valid()
      invariant WillEnter(v, cursor.path, cursor.node, s, whole)
      decreases Size(cursor.node) + Pending(cursor.path)
    {
      ghost var before := Size(cursor.node) + Pending(cursor.path);
      var (entered, descend) := v.enter(s, cursor.node);
      Entering(v, cursor.path, cursor.node, s, entered, descend, whole);
      s := entered;
      if descend {
        var moved := cursor.GotoFirstChild();
        if moved {
          continue;
        }
      }
      while true
        invariant cursor.Valid()
        invariant WillLeave(v, cursor.path, cursor.node, s, whole)
        invariant Pending(cursor.path) < before
        decreases |cursor.path|
      {
        Leaving(v, cursor.path, cursor.node, s, whole);
        s := v.leave(s, cursor.node);
        var moved := cursor.GotoNextSibling();
        if moved {
          break;
        }
        var up := cursor.GotoParent();
        if !up {
          return;
        }
      }
    }
  }

  /** Entering a node leads to its first child or, without one or without descending, to leaving it. */
  lemma Entering<S, T>(v: Visitor<S, T>, path: seq<Step<T>>, node: Tree<T>, s: S, entered: S, descend: bool, whole: S)
    requires WillEnter(v, path, node, s, whole) && v.enter(s, node) == (entered, descend)
    ensures if descend && node.children != [] then
              WillEnter(v, path + [Step(node, 0)], node.children[0], entered, whole)
              && Size(node.children[0]) + Pending(path + [Step(node, 0)]) < Size(node) + Pending(path)
            else WillLeave(v, path, node, entered, whole)
    ensures Pending(path) < Size(node) + Pending(path)
  {
    if descend && node.children != [] {
      FirstChild(v, path, node, entered);
    } else {
      assert Traverse(v, node, s) == v.leave(entered, node);
    }
  }

  lemma FirstChild<S, T>(v: Visitor<S, T>, path: seq<Step<T>>, parent: Tree<T>, s: S)
    requires parent.children != []
    ensures var first := path + [Step(parent, 0)];
      && Rest(v, path, v.leave(TraverseAll(v, parent.children, s), parent)) == Rest(v, first, Traverse(v, parent.children[0], s))
      && Size(parent.children[0]) + Pending(first) < Size(parent) + Pending(path)
  {
    var first := path + [Step(parent, 0)];
    assert first[..|first| - 1] == path && first[|first| - 1] == Step(parent, 0);
    assert SizeAll(parent.children) == Size(parent.children[0]) + SizeAll(parent.children[1..]);
  }

  /** Leaving a node leads to its next sibling or, from a last child, to leaving its parent, or to the end. */
  lemma Leaving<S, T>(v: Visitor<S, T>, path: seq<Step<T>>, node: Tree<T>, s: S, whole: S)
    requires WillLeave(v, path, node, s, whole)
    ensures path == [] ==> v.leave(s, node) == whole
    ensures path != [] ==>
      var last, up := path[|path| - 1], path[..|path| - 1];
      if last.index + 1 < |last.parent.children| then
        var next := last.parent.children[last.index + 1];
        WillEnter(v, up + [Step(last.parent, last.index + 1)], next, v.leave(s, node), whole)
        && Size(next) + Pending(up + [Step(last.parent, last.index + 1)]) == Pending(path)
      else WillLeave(v, up, last.parent, v.leave(s, node), whole) && Pending(up) == Pending(path)
  {
    if path != [] {
      var last := path[|path| - 1];
      if last.index + 1 < |last.parent.children| {
        SiblingRest(v, path, v.leave(s, node));
      } else if last.index + 1 == |last.parent.children| {
        assert last.parent.children[last.index + 1..] == [];
      }
    }
  }

  /** Moving on to the next sibling. */
  lemma SiblingRest<S, T>(v: Visitor<S, T>, path: seq<Step<T>>, s: S)
    requires path != [] && path[|path| - 1].index + 1 < |path[|path| - 1].parent.children|
    ensures var last := path[|path| - 1];
      var next := path[..|path| - 1] + [Step(last.parent, last.index + 1)];
      && Rest(v, path, s) == Rest(v, next, Traverse(v, last.parent.children[last.index + 1], s))
      && Size(last.parent.children[last.index + 1]) + Pending(next) == Pending(path)
  {
    var last := path[|path| - 1];
    var next := path[..|path| - 1] + [Step(last.parent, last.index + 1)];
    var later := last.parent.children[last.index + 1..];
    assert next[..|next| - 1] == path[..|path| - 1];
    assert later[0] == last.parent.children[last.index + 1] && later[1..] == last.parent.children[last.index + 2..];
  }

  /* The pairing of enter and leave. */

  datatype WalkEvent<T> = Entered(node: Tree<T>) | Left(node: Tree<T>)

  /** A visitor that also writes down what it is called with. */
  function Logged<S, T>(v: Visitor<S, T>): Visitor<(S, seq<WalkEvent<T>>), T> {
    Visitor(
      (s: (S, seq<WalkEvent<T>>), t) => var (s1, descend) := v.enter(s.0, t); ((s1, s.1 + [Entered(t)]), descend),
      (s: (S, seq<WalkEvent<T>>), t) => (v.leave(s.0, t), s.1 + [Left(t)])
    )
  }

  /** Replays events on a stack of open nodes; `None` if some leave does not close the node entered last. */
  function Replay<T(==)>(events: seq<WalkEvent<T>>, open: seq<Tree<T>>): Option<seq<Tree<T>>> {
    if events == [] then Some(open)
    else match events[0]
      case Entered(t) => Replay(events[1..], open + [t])
      case Left(t) => if open != [] && open[|open| - 1] == t then Replay(events[1..], open[..|open| - 1]) else None
  }

  lemma {:induction false} ReplayConcat<T>(a: seq<WalkEvent<T>>, b: seq<WalkEvent<T>>, open: seq<Tree<T>>)
    ensures Replay(a + b, open) == match Replay(a, open) case Some(mid) => Replay(b, mid) case None => None
    decreases |a|
  {
    if a == [] {
      assert a + b == b;
    } else {
      assert (a + b)[1..] == a[1..] + b;
      match a[0]
      case Entered(t) => ReplayConcat(a[1..], b, open + [t]);
      case Left(t) =>
        if open != [] && open[|open| - 1] == t {
          ReplayConcat(a[1..], b, open[..|open| - 1]);
        }
    }
  }

  /** `node` is `t` or one of its descendants. */
  predicate Inside<T(==)>(node: Tree<T>, t: Tree<T>) {
    node == t || exists i :: 0 <= i < |t.children| && Inside(node, t.children[i])
  }

  ghost predicate AllInside<T>(events: seq<WalkEvent<T>>, t: Tree<T>) {
    forall k :: 0 <= k < |events| ==> Inside(events[k].node, t)
  }

  /** Every entered node is left exactly once, in stack order, whatever the visitor skips, and the walk stays inside its root. */
  lemma {:induction false} EventsPair<S, T>(v: Visitor<S, T>, t: Tree<T>, s: S, log: seq<WalkEvent<T>>, open: seq<Tree<T>>)
      returns (events: seq<WalkEvent<T>>)
    ensures Traverse(Logged(v), t, (s, log)) == (Traverse(v, t, s), log + events)
    ensures Replay(events, open) == Some(open)
    ensures AllInside(events, t)
    decreases t, 1
  {
    var (s1, descend) := v.enter(s, t);
    var inner: seq<WalkEvent<T>> := [];
    var s2 := s1;
    if descend {
      inner := EventsPairAll(v, t, 0, s1, log + [Entered(t)], open + [t]);
      assert t.children[0..] == t.children;
      s2 := TraverseAll(v, t.children, s1);
    } else {
      assert Replay(inner, open + [t]) == Some(open + [t]);
      assert log + [Entered(t)] + inner == log + [Entered(t)];
    }
    events := [Entered(t)] + inner + [Left(t)];
    assert log + [Entered(t)] + inner + [Left(t)] == log + events;
    ReplayConcat([Entered(t)] + inner, [Left(t)], open);
    ReplayConcat([Entered(t)], inner, open);
    assert (open + [t])[..|open|] == open;
    assert [Entered(t)][1..] == [] && [Left(t)][1..] == [];
  }

  lemma {:induction false} EventsPairAll<S, T>(v: Visitor<S, T>, parent: Tree<T>, k: nat, s: S, log: seq<WalkEvent<T>>, open: seq<Tree<T>>)
      returns (events: seq<WalkEvent<T>>)
    requires k <= |parent.children|
    ensures TraverseAll(Logged(v), parent.children[k..], (s, log)) == (TraverseAll(v, parent.children[k..], s), log + events)
    ensures Replay(events, open) == Some(open)
    ensures AllInside(events, parent)
    decreases parent, 0, |parent.children| - k
  {
    if k == |parent.children| {
      events := [];
      assert log + [] == log;
    } else {
      var c := parent.children[k];
      assert parent.children[k..][0] == c && parent.children[k..][1..] == parent.children[k + 1..];
      var first := EventsPair(v, c, s, log, open);
      var rest := EventsPairAll(v, parent, k + 1, Traverse(v, c, s), log + first, open);
      events := first + rest;
      assert log + first + rest == log + events;
      ReplayConcat(first, rest, open);
    }
  }
}
