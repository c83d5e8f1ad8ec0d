/** Two visitors in one traversal (`Fused` in src/cst/walk.rs), and the visitor that finds what lies inside syntax errors
    (`ErrorSubtreeTracker` and `NodeCollector` in src/diagnostics/cst_walker.rs). */
module Fused {
  import opened Wrappers
  import opened Walk

  /** The two visitors' states, the depth at which each one began to skip, and the depth of the walk. */
  datatype Pair<A, B> = Pair(a: A, b: B, aSkip: Option<int>, bSkip: Option<int>, depth: int)

  function EnterBoth<A, B, T>(va: Visitor<A, T>, vb: Visitor<B, T>, p: Pair<A, B>, t: Tree<T>): (Pair<A, B>, bool) {
    var (a, aSkip) :=
      if p.aSkip.Some? then (p.a, p.aSkip)
      else var (a, descend) := va.enter(p.a, t); (a, if descend then None else Some(p.depth));
    var (b, bSkip) :=
      if p.bSkip.Some? then (p.b, p.bSkip)
      else var (b, descend) := vb.enter(p.b, t); (b, if descend then None else Some(p.depth));
    (Pair(a, b, aSkip, bSkip, p.depth + 1), aSkip.None? || bSkip.None?)
  }

  function LeaveBoth<A, B, T>(va: Visitor<A, T>, vb: Visitor<B, T>, p: Pair<A, B>, t: Tree<T>): Pair<A, B> {
    var depth := p.depth - 1;
    var (a, aSkip) :=
      match p.aSkip
      case Some(d) => if d == depth then (va.leave(p.a, t), None) else (p.a, p.aSkip)
      case None => (va.leave(p.a, t), None);
    var (b, bSkip) :=
      match p.bSkip
      case Some(d) => if d == depth then (vb.leave(p.b, t), None) else (p.b, p.bSkip)
      case None => (vb.leave(p.b, t), None);
    Pair(a, b, aSkip, bSkip, depth)
  }

  /** The fused visitor. */
  function Fuse<A, B, T>(va: Visitor<A, T>, vb: Visitor<B, T>): Visitor<Pair<A, B>, T> {
    Visitor((p: Pair<A, B>, t: Tree<T>) => EnterBoth(va, vb, p, t), (p: Pair<A, B>, t: Tree<T>) => LeaveBoth(va, vb, p, t))
  }

  function Start<A, B>(a: A, b: B): Pair<A, B> {
    Pair(a, b, None, None, 0)
  }

  /** The fused visitor as the object that updates its two visitors in place. */
  class FusedVisitor<A, B, T> {
    const va: Visitor<A, T>
    const vb: Visitor<B, T>
    var a: A
    var b: B
    var aSkip: Option<int>
    var bSkip: Option<int>
    var depth: int

    constructor (va: Visitor<A, T>, vb: Visitor<B, T>, a: A, b: B)
      ensures this.va == va && this.vb == vb && State() == Start(a, b)
    {
      this.va, this.vb, this.a, this.b := va, vb, a, b;
      aSkip, bSkip, depth := None, None, 0;
    }

    function State(): Pair<A, B>
      reads this
    {
      Pair(a, b, aSkip, bSkip, depth)
    }

    method Enter(node: Tree<T>) returns (descend: bool)
      modifies this
      ensures (State(), descend) == EnterBoth(va, vb, old(State()), node)
    {
      if aSkip.None? {
        var (a', children) := va.enter(a, node);
        a := a';
        if !children {
          aSkip := Some(depth);
        }
      }
      if bSkip.None? {
        var (b', children) := vb.enter(b, node);
        b := b';
        if !children {
          bSkip := Some(depth);
        }
      }
      depth := depth + 1;
      return aSkip.None? || bSkip.None?;
    }

    method Leave(node: Tree<T>)
      modifies this
      ensures State() == LeaveBoth(va, vb, old(State()), node)
    {
      depth := depth - 1;
      match aSkip {
        case Some(d) =>
          if d == depth {
            aSkip := None;
            a := va.leave(a, node);
          }
        case None => a := va.leave(a, node);
      }
      match bSkip {
        case Some(d) =>
          if d == depth {
            bSkip := None;
            b := vb.leave(b, node);
          }
        case None => b := vb.leave(b, node);
      }
    }
  }

  /** Inside a fused traversal: at most one visitor is skipping, and it began above. */
  predicate Healthy<A, B>(p: Pair<A, B>) {
    && (p.aSkip.None? || p.bSkip.None?)
    && (p.aSkip.Some? ==> p.aSkip.value < p.depth)
    && (p.bSkip.Some? ==> p.bSkip.value < p.depth)
  }

  /** The fused visitor leaves each visitor that is not skipping in the state its own traversal would, leaves a skipping one
      alone, and is back at the depth where it was. */
  lemma {:induction false} FusedAgrees<A, B, T>(va: Visitor<A, T>, vb: Visitor<B, T>, t: Tree<T>, p: Pair<A, B>)
    requires Healthy(p)
    ensures Traverse(Fuse(va, vb), t, p)
         == p.(a := if p.aSkip.None? then Traverse(va, t, p.a) else p.a, b := if p.bSkip.None? then Traverse(vb, t, p.b) else p.b)
    decreases t, 1
  {
    var (p1, descend) := EnterBoth(va, vb, p, t);
    if descend {
      FusedAgreesAll(va, vb, t.children, p1);
    }
  }

  lemma {:induction false} FusedAgreesAll<A, B, T>(va: Visitor<A, T>, vb: Visitor<B, T>, ts: seq<Tree<T>>, p: Pair<A, B>)
    requires Healthy(p)
    ensures TraverseAll(Fuse(va, vb), ts, p)
         == p.(a := if p.aSkip.None? then TraverseAll(va, ts, p.a) else p.a,
               b := if p.bSkip.None? then TraverseAll(vb, ts, p.b) else p.b)
    decreases ts, 0
  {
    if ts == [] {
    } else {
      FusedAgrees(va, vb, ts[0], p);
      FusedAgreesAll(va, vb, ts[1..], Traverse(Fuse(va, vb), ts[0], p));
    }
  }

  /** One traversal, two visitors: each is called with exactly the events of its own traversal and ends in its own final
      state, whatever either of them skips. */
  lemma FusionIsTransparent<A, B, T>(va: Visitor<A, T>, vb: Visitor<B, T>, t: Tree<T>, a: A, b: B)
    ensures var p := Traverse(Fuse(Logged(va), Logged(vb)), t, Start((a, []), (b, [])));
      && p.a == Traverse(Logged(va), t, (a, []))
      && p.b == Traverse(Logged(vb), t, (b, []))
  {
    FusedAgrees(Logged(va), Logged(vb), t, Start((a, []), (b, [])));
  }

  /** Fusion nests: a fused visitor is a visitor like any other. */
  lemma FusionNests<A, B, C, T>(va: Visitor<A, T>, vb: Visitor<B, T>, vc: Visitor<C, T>, t: Tree<T>, a: A, b: B, c: C)
    ensures var p := Traverse(Fuse(Fuse(va, vb), vc), t, Start(Start(a, b), c));
      p.a.a == Traverse(va, t, a) && p.a.b == Traverse(vb, t, b) && p.b == Traverse(vc, t, c)
  {
    FusedAgrees(Fuse(va, vb), vc, t, Start(Start(a, b), c));
    FusedAgrees(va, vb, t, Start(a, b));
  }

  ghost predicate EntersAlike<A, B, T>(v: Visitor<Pair<A, B>, T>, va: Visitor<A, T>, vb: Visitor<B, T>, p: Pair<A, B>, t: Tree<T>) {
    v.enter(p, t) == EnterBoth(va, vb, p, t)
  }

  ghost predicate LeavesAlike<A, B, T>(v: Visitor<Pair<A, B>, T>, va: Visitor<A, T>, vb: Visitor<B, T>, p: Pair<A, B>, t: Tree<T>) {
    v.leave(p, t) == LeaveBoth(va, vb, p, t)
  }

  /** The visitor does in each state what the fused object does. */
  ghost predicate ActsAlike<A(!new), B(!new), T(!new)>(v: Visitor<Pair<A, B>, T>, va: Visitor<A, T>, vb: Visitor<B, T>) {
    forall p: Pair<A, B>, t: Tree<T> :: EntersAlike(v, va, vb, p, t) && LeavesAlike(v, va, vb, p, t)
  }

  /** The loop's first condition: the object enters the node, and the cursor goes down if it is to and can. */
  method EnterAndDescend<A(!new), B(!new), T(!new)>(
      cursor: TreeCursor<T>, both: FusedVisitor<A, B, T>, ghost v: Visitor<Pair<A, B>, T>, ghost whole: Pair<A, B>)
      returns (down: bool)
    requires ActsAlike(v, both.va, both.vb) && cursor.Valid() && WillEnter(v, cursor.path, cursor.node, both.State(), whole)
    modifies cursor, both
    ensures cursor.Valid()
    ensures Pending(cursor.path) < old(Size(cursor.node) + Pending(cursor.path))
    ensures if down then
              WillEnter(v, cursor.path, cursor.node, both.State(), whole)
              && Size(cursor.node) + Pending(cursor.path) < old(Size(cursor.node) + Pending(cursor.path))
            else WillLeave(v, cursor.path, cursor.node, both.State(), whole)
  {
    ghost var s, path, node := both.State(), cursor.path, cursor.node;
    var descend := both.Enter(cursor.node);
    assert EntersAlike(v, both.va, both.vb, s, node);
    Entering(v, path, node, s, both.State(), descend, whole);
    if descend {
      down := cursor.GotoFirstChild();
    } else {
      down := false;
    }
  }

  /** The inner loop's round: the object leaves the node, and the cursor goes on to the next sibling or up. */
  method LeaveAndMoveOn<A(!new), B(!new), T(!new)>(
      cursor: TreeCursor<T>, both: FusedVisitor<A, B, T>, ghost v: Visitor<Pair<A, B>, T>, ghost whole: Pair<A, B>)
      returns (moved: bool, up: bool)
    requires ActsAlike(v, both.va, both.vb) && cursor.Valid() && WillLeave(v, cursor.path, cursor.node, both.State(), whole)
    modifies cursor, both
    ensures cursor.Valid()
    ensures if moved then
              WillEnter(v, cursor.path, cursor.node, both.State(), whole)
              && Size(cursor.node) + Pending(cursor.path) <= old(Pending(cursor.path))
            else if up then
              WillLeave(v, cursor.path, cursor.node, both.State(), whole)
              && |cursor.path| < old(|cursor.path|) && Pending(cursor.path) <= old(Pending(cursor.path))
            else both.State() == whole
  {
    ghost var path, s := cursor.path, both.State();
    Leaving(v, path, cursor.node, s, whole);
    assert LeavesAlike(v, both.va, both.vb, s, cursor.node);
    both.Leave(cursor.node);
    up := false;
    moved := cursor.GotoNextSibling();
    if !moved {
      up := cursor.GotoParent();
    }
  }

  /** The cursor loop of the shared walk, driving the fused object: it ends as the traversal of such a visitor does. */
  method DriveFused<A(!new), B(!new), T(!new)>(root: Tree<T>, both: FusedVisitor<A, B, T>, ghost v: Visitor<Pair<A, B>, T>)
    requires ActsAlike(v, both.va, both.vb)
    modifies both
    ensures both.State() == Traverse(v, root, old(both.State()))
  {
    var cursor := new TreeCursor(root);
    ghost var whole := Traverse(v, root, both.State());
    while true
      invariant cursor.Valid() && fresh(cursor)
      invariant WillEnter(v, cursor.path, cursor.node, both.State(), whole)
      decreases Size(cursor.node) + Pending(cursor.path)
    {
      ghost var before := Size(cursor.node) + Pending(cursor.path);
      var down := EnterAndDescend(cursor, both, v, whole);
      if down {
        continue;
      }
      while true
        invariant cursor.Valid() && fresh(cursor)
        invariant WillLeave(v, cursor.path, cursor.node, both.State(), whole)
        invariant Pending(cursor.path) < before
        decreases |cursor.path|
      {
        var moved, up := LeaveAndMoveOn(cursor, both, v, whole);
        if moved {
          break;
        }
        if !up {
          return;
        }
      }
    }
  }

  /** The single traversal that parses do, with both visitors in step. */
  method WalkFused<A(!new), B(!new), T(!new)>(root: Tree<T>, va: Visitor<A, T>, vb: Visitor<B, T>, a: A, b: B) returns (a': A, b': B)
    ensures a' == Traverse(va, root, a) && b' == Traverse(vb, root, b)
  {
    var both := new FusedVisitor(va, vb, a, b);
    DriveFused(root, both, Fuse(va, vb));
    FusedAgrees(va, vb, root, Start(a, b));
    return both.a, both.b;
  }

  /* Nodes inside syntax errors. */

  /** The depth of the walk and, inside an error, that of the outermost error node. */
  datatype Tracker = Tracker(depth: int, errorDepth: Option<int>)

  datatype Collected<T> = Collected(tracker: Tracker, out: seq<(Tree<T>, bool)>)

  function EnterTracker(tracker: Tracker, isError: bool): (Tracker, bool) {
    var errorDepth := if tracker.errorDepth.None? && isError then Some(tracker.depth) else tracker.errorDepth;
    (Tracker(tracker.depth + 1, errorDepth), errorDepth.Some?)
  }

  function LeaveTracker(tracker: Tracker): Tracker {
    var depth := tracker.depth - 1;
    Tracker(depth, if tracker.errorDepth == Some(depth) then None else tracker.errorDepth)
  }

  /** Collects the nodes that satisfy `wanted`, each with the tracker's answer. */
  function NodeCollector<T>(isError: T -> bool, wanted: T -> bool): Visitor<Collected<T>, T> {
    Visitor(
      (c: Collected<T>, t: Tree<T>) =>
        var (tracker, inError) := EnterTracker(c.tracker, isError(t.info));
        (Collected(tracker, if wanted(t.info) then c.out + [(t, inError)] else c.out), true),
      (c: Collected<T>, t: Tree<T>) => c.(tracker := LeaveTracker(c.tracker))
    )
  }

  /** The wanted nodes of a tree in text order, each with whether it or a node above it, up to the root, is an error. */
  function WantedNodes<T>(isError: T -> bool, wanted: T -> bool, t: Tree<T>, above: bool): seq<(Tree<T>, bool)>
    decreases t, 1
  {
    var here := above || isError(t.info);
    (if wanted(t.info) then [(t, here)] else []) + WantedNodesAll(isError, wanted, t.children, here)
  }

  function WantedNodesAll<T>(isError: T -> bool, wanted: T -> bool, ts: seq<Tree<T>>, above: bool): seq<(Tree<T>, bool)>
    decreases ts, 0
  {
    if ts == [] then []
    else WantedNodes(isError, wanted, ts[0], above) + WantedNodesAll(isError, wanted, ts[1..], above)
  }

  /** The tracker answers true exactly for error nodes and the nodes below them, and is as before when a node is left. */
  lemma {:induction false} TrackerKnowsAncestors<T>(isError: T -> bool, wanted: T -> bool, t: Tree<T>, c: Collected<T>)
    requires c.tracker.errorDepth.Some? ==> c.tracker.errorDepth.value < c.tracker.depth
    ensures Traverse(NodeCollector(isError, wanted), t, c)
         == c.(out := c.out + WantedNodes(isError, wanted, t, c.tracker.errorDepth.Some?))
    decreases t, 1
  {
    var (tracker, inError) := EnterTracker(c.tracker, isError(t.info));
    var own := if wanted(t.info) then [(t, inError)] else [];
    var c1 := Collected(tracker, c.out + own);
    assert wanted(t.info) || c.out + own == c.out;
    TrackerKnowsAncestorsAll(isError, wanted, t.children, c1);
    assert c.out + own + WantedNodesAll(isError, wanted, t.children, inError)
        == c.out + (own + WantedNodesAll(isError, wanted, t.children, inError));
  }

  lemma {:induction false} TrackerKnowsAncestorsAll<T>(isError: T -> bool, wanted: T -> bool, ts: seq<Tree<T>>, c: Collected<T>)
    requires c.tracker.errorDepth.Some? ==> c.tracker.errorDepth.value < c.tracker.depth
    ensures TraverseAll(NodeCollector(isError, wanted), ts, c)
         == c.(out := c.out + WantedNodesAll(isError, wanted, ts, c.tracker.errorDepth.Some?))
    decreases ts, 0
  {
    if ts == [] {
      assert c.out + [] == c.out;
    } else {
      var above := c.tracker.errorDepth.Some?;
      var first, rest := WantedNodes(isError, wanted, ts[0], above), WantedNodesAll(isError, wanted, ts[1..], above);
      var after := c.(out := c.out + first);
      TrackerKnowsAncestors(isError, wanted, ts[0], c);
      TrackerKnowsAncestorsAll(isError, wanted, ts[1..], after);
      TraverseFirst(NodeCollector(isError, wanted), ts, c, after);
      Assoc(c.out, first, rest);
    }
  }

  lemma TraverseFirst<S, T>(v: Visitor<S, T>, ts: seq<Tree<T>>, s: S, after: S)
    requires ts != [] && Traverse(v, ts[0], s) == after
    ensures TraverseAll(v, ts, s) == TraverseAll(v, ts[1..], after)
  {
  }

  lemma Assoc<T>(a: seq<T>, b: seq<T>, c: seq<T>)
    ensures a + (b + c) == a + b + c
  {
  }
}
