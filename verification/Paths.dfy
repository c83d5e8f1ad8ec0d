/** Places in a tree: the way from its root, as the indices of children. */
module Paths {
  import opened Wrappers
  import opened Walk

  predicate HasPath<T>(t: Tree<T>, path: seq<nat>)
    decreases |path|
  {
    path == [] || (path[0] < |t.children| && HasPath(t.children[path[0]], path[1..]))
  }

  function NodeAt<T>(t: Tree<T>, path: seq<nat>): Tree<T>
    requires HasPath(t, path)
    decreases |path|
  {
    if path == [] then t else NodeAt(t.children[path[0]], path[1..])
  }

  lemma BelowChild<T>(t: Tree<T>, i: nat, path: seq<nat>)
    requires i < |t.children|
    ensures HasPath(t, [i] + path) <==> HasPath(t.children[i], path)
    ensures HasPath(t.children[i], path) ==> NodeAt(t, [i] + path) == NodeAt(t.children[i], path)
  {
    assert ([i] + path)[1..] == path;
  }

  lemma {:induction false} PathPrefix<T>(t: Tree<T>, path: seq<nat>, k: nat)
    requires HasPath(t, path) && k <= |path|
    ensures HasPath(t, path[..k])
    decreases k
  {
    if k > 0 {
      PathPrefix(t.children[path[0]], path[1..], k - 1);
      assert path[..k][1..] == path[1..][..k - 1];
    }
  }

  /** `p` comes before `q` in the document: above it, or further left where they part. */
  predicate Before(p: seq<nat>, q: seq<nat>)
    decreases |p|
  {
    if q == [] then false
    else p == [] || p[0] < q[0] || (p[0] == q[0] && Before(p[1..], q[1..]))
  }

  ghost predicate InOrder(paths: seq<seq<nat>>) {
    forall i, j :: 0 <= i < j < |paths| ==> Before(paths[i], paths[j])
  }

  /** No path comes before itself, so that paths in order are all different. */
  lemma {:induction false} BeforeIsStrict(p: seq<nat>)
    ensures !Before(p, p)
    decreases |p|
  {
    if p != [] {
      BeforeIsStrict(p[1..]);
    }
  }

  function Prefixed(i: nat, paths: seq<seq<nat>>): (r: seq<seq<nat>>)
    ensures |r| == |paths| && forall k :: 0 <= k < |r| ==> r[k] == [i] + paths[k]
  {
    seq(|paths|, k requires 0 <= k < |paths| => [i] + paths[k])
  }

  lemma PrefixedIff(i: nat, paths: seq<seq<nat>>, path: seq<nat>)
    requires path != []
    ensures path in Prefixed(i, paths) <==> path[0] == i && path[1..] in paths
  {
    if path in Prefixed(i, paths) {
      var k :| 0 <= k < |paths| && Prefixed(i, paths)[k] == path;
      assert path[1..] == paths[k];
    }
    if path[0] == i && path[1..] in paths {
      var k :| 0 <= k < |paths| && paths[k] == path[1..];
      assert Prefixed(i, paths)[k] == [i] + path[1..] == path;
    }
  }

  lemma PrefixedInOrder(i: nat, paths: seq<seq<nat>>)
    requires InOrder(paths)
    ensures InOrder(Prefixed(i, paths))
  {
    forall a, b | 0 <= a < b < |paths|
      ensures Before(Prefixed(i, paths)[a], Prefixed(i, paths)[b])
    {
      assert Before(paths[a], paths[b]);
      assert ([i] + paths[a])[1..] == paths[a] && ([i] + paths[b])[1..] == paths[b];
    }
  }

  /** Paths through child `i` come before paths through later children. */
  lemma OrderConcat(i: nat, first: seq<seq<nat>>, rest: seq<seq<nat>>)
    requires InOrder(first) && InOrder(rest)
    requires forall p :: p in first ==> p != [] && p[0] == i
    requires forall p :: p in rest ==> p != [] && i < p[0]
    ensures InOrder(first + rest)
  {
    var all := first + rest;
    forall a, b | 0 <= a < b < |all|
      ensures Before(all[a], all[b])
    {
      if a < |first| <= b {
        assert all[a] in first && all[b] in rest;
      } else if a >= |first| {
        assert all[a] == rest[a - |first|] && all[b] == rest[b - |first|];
      }
    }
  }
}
