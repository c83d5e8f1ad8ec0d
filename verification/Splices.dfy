/** Applying edits to a text (src/resolve/edit_plan.rs, src/formatter/action.rs): rightmost first in place, left to right
    into a new text, and where an offset ends up. */
module Splices {
  import opened Wrappers

  /** The bytes `start..end` become `text`; an empty range is an insertion. */
  datatype Splice<T> = Splice(start: nat, end: nat, text: seq<T>)

  /** The stable sorts of the two appliers: by start, or by start downwards. */
  function Key<T>(s: Splice<T>, down: bool): int {
    if down then -(s.start as int) else s.start
  }

  function Insert<T>(sorted: seq<Splice<T>>, s: Splice<T>, down: bool): seq<Splice<T>> {
    if sorted == [] || Key(sorted[|sorted| - 1], down) <= Key(s, down) then sorted + [s]
    else Insert(sorted[..|sorted| - 1], s, down) + [sorted[|sorted| - 1]]
  }

  function Sort<T>(splices: seq<Splice<T>>, down: bool): seq<Splice<T>> {
    if splices == [] then []
    else Insert(Sort(splices[..|splices| - 1], down), splices[|splices| - 1], down)
  }

  /** `replace_range` panics outside the text. */
  function ReplaceRange<T>(text: seq<T>, s: Splice<T>): Option<seq<T>> {
    if s.start <= s.end <= |text| then Some(text[..s.start] + s.text + text[s.end..]) else None
  }

  /** One splice after another, each in the text the ones before it left. */
  function ReplaceAll<T>(text: seq<T>, ordered: seq<Splice<T>>): Option<seq<T>>
    decreases |ordered|
  {
    if ordered == [] then Some(text)
    else match ReplaceAll(text, ordered[..|ordered| - 1])
      case Some(t) => ReplaceRange(t, ordered[|ordered| - 1])
      case None => None
  }

  /** `text[cursor..end]` with the splices' texts put in from left to right; None where slicing the text would panic. */
  function CopyFrom<T>(text: seq<T>, ordered: seq<Splice<T>>, cursor: nat, end: nat): Option<seq<T>>
    decreases |ordered|
  {
    if ordered == [] then (if cursor <= end <= |text| then Some(text[cursor..end]) else None)
    else
      var s := ordered[0];
      if !(cursor <= s.start <= |text|) then None
      else match CopyFrom(text, ordered[1..], s.end, end)
        case Some(rest) => Some(text[cursor..s.start] + s.text + rest)
        case None => None
  }

  /** `apply_splices`. */
  method ApplySplices<T>(text: seq<T>, splices: seq<Splice<T>>) returns (applied: Option<seq<T>>)
    ensures applied == ReplaceAll(text, Sort(splices, true))
  {
    var ordered := Sort(splices, true);
    applied := Some(text);
    for i := 0 to |ordered|
      invariant applied == ReplaceAll(text, ordered[..i])
    {
      assert ordered[..i + 1][..i] == ordered[..i];
      if applied.Some? {
        applied := ReplaceRange(applied.value, ordered[i]);
      }
    }
    assert ordered[..|ordered|] == ordered;
  }

  /** `splice_subs`. */
  method SpliceSubs<T>(text: seq<T>, start: nat, end: nat, subs: seq<Splice<T>>) returns (r: Option<seq<T>>)
    ensures r == CopyFrom(text, Sort(subs, false), start, end)
  {
    var ordered := Sort(subs, false);
    var out: seq<T>, cursor: nat := [], start;
    assert ordered[0..] == ordered;
    for i := 0 to |ordered|
      invariant CopyFrom(text, ordered, start, end) == Prepend(out, CopyFrom(text, ordered[i..], cursor, end))
    {
      var sub := ordered[i];
      assert ordered[i..][1..] == ordered[i + 1..];
      if !(cursor <= sub.start <= |text|) {
        assert CopyFrom(text, ordered[i..], cursor, end) == None;
        return None;
      }
      PrependTwice(out, text[cursor..sub.start] + sub.text, CopyFrom(text, ordered[i + 1..], sub.end, end));
      out := out + (text[cursor..sub.start] + sub.text);
      cursor := sub.end;
    }
    r := if cursor <= end <= |text| then Some(out + text[cursor..end]) else None;
    assert ordered[|ordered|..] == [];
  }

  function Prepend<T>(front: seq<T>, rest: Option<seq<T>>): (r: Option<seq<T>>)
    ensures front == [] ==> r == rest
  {
    match rest
    case Some(x) => assert front == [] ==> front + x == x; Some(front + x)
    case None => None
  }

  lemma PrependTwice<T>(a: seq<T>, b: seq<T>, rest: Option<seq<T>>)
    ensures Prepend(a, Prepend(b, rest)) == Prepend(a + b, rest)
  {
    if rest.Some? {
      assert a + (b + rest.value) == a + b + rest.value;
    }
  }

  /* Edits that can be applied in any order. */

  predicate Apart<T>(a: Splice<T>, b: Splice<T>) {
    a.start != b.start && (a.end <= b.start || b.end <= a.start)
  }

  /** In bounds, pairwise disjoint, no two from the same start. */
  predicate Clean<T>(splices: seq<Splice<T>>, length: nat) {
    && (forall i :: 0 <= i < |splices| ==> splices[i].start <= splices[i].end <= length)
    && forall i, j :: 0 <= i < j < |splices| ==> Apart(splices[i], splices[j])
  }

  /** From left to right, each ending before the next starts. */
  predicate Chain<T>(ordered: seq<Splice<T>>, cursor: nat, length: nat) {
    && (forall i :: 0 <= i < |ordered| ==> cursor <= ordered[i].start <= ordered[i].end <= length)
    && forall i, j :: 0 <= i < j < |ordered| ==> ordered[i].end <= ordered[j].start && ordered[i].start < ordered[j].start
  }

  predicate Sorted<T>(xs: seq<Splice<T>>, down: bool) {
    forall i, j :: 0 <= i < j < |xs| ==> Key(xs[i], down) < Key(xs[j], down)
  }

  predicate Fresh<T>(xs: seq<Splice<T>>, s: Splice<T>) {
    forall i :: 0 <= i < |xs| ==> xs[i].start != s.start
  }

  lemma {:induction false} InsertHolds<T>(xs: seq<Splice<T>>, s: Splice<T>, down: bool)
    ensures multiset(Insert(xs, s, down)) == multiset(xs) + multiset{s}
  {
    if xs != [] && Key(xs[|xs| - 1], down) > Key(s, down) {
      InsertHolds(xs[..|xs| - 1], s, down);
      assert xs == xs[..|xs| - 1] + [xs[|xs| - 1]];
    }
  }

  lemma {:induction false} InsertSorts<T>(xs: seq<Splice<T>>, s: Splice<T>, down: bool)
    requires Sorted(xs, down) && Fresh(xs, s)
    ensures Sorted(Insert(xs, s, down), down)
    ensures forall i :: 0 <= i < |Insert(xs, s, down)| ==> Insert(xs, s, down)[i] == s || Insert(xs, s, down)[i] in xs
  {
    if xs != [] && Key(xs[|xs| - 1], down) > Key(s, down) {
      InsertSorts(xs[..|xs| - 1], s, down);
    }
  }

  /** With distinct starts the sorted list is strictly sorted, and holds the same edits. */
  lemma {:induction false} SortSorts<T>(xs: seq<Splice<T>>, down: bool, length: nat)
    requires Clean(xs, length)
    ensures Sorted(Sort(xs, down), down) && multiset(Sort(xs, down)) == multiset(xs)
  {
    if xs != [] {
      SortSorts(xs[..|xs| - 1], down, length);
      LastInserted(Sort(xs[..|xs| - 1], down), xs, down, length);
    }
  }

  lemma LastInserted<T>(sorted: seq<Splice<T>>, xs: seq<Splice<T>>, down: bool, length: nat)
    requires xs != [] && Clean(xs, length) && Sorted(sorted, down) && multiset(sorted) == multiset(xs[..|xs| - 1])
    ensures Sorted(Insert(sorted, xs[|xs| - 1], down), down) && multiset(Insert(sorted, xs[|xs| - 1], down)) == multiset(xs)
  {
    var front, last := xs[..|xs| - 1], xs[|xs| - 1];
    StartsDiffer(sorted, xs, length);
    InsertSorts(sorted, last, down);
    InsertHolds(sorted, last, down);
    assert xs == front + [last];
  }

  lemma StartsDiffer<T>(sorted: seq<Splice<T>>, xs: seq<Splice<T>>, length: nat)
    requires xs != [] && Clean(xs, length) && multiset(sorted) == multiset(xs[..|xs| - 1])
    ensures forall i :: 0 <= i < |sorted| ==> sorted[i].start != xs[|xs| - 1].start
  {
    var front, last := xs[..|xs| - 1], xs[|xs| - 1];
    forall i | 0 <= i < |sorted|
      ensures sorted[i].start != last.start
    {
      assert sorted[i] in multiset(front);
      var k :| 0 <= k < |front| && front[k] == sorted[i];
      assert Apart(xs[k], last);
    }
  }

  lemma RestHolds<T>(xs: seq<T>)
    requires xs != []
    ensures multiset(xs[1..]) == multiset(xs) - multiset{xs[0]}
  {
    assert xs == [xs[0]] + xs[1..];
  }

  lemma FirstIsUnique<T>(xs: seq<Splice<T>>, ys: seq<Splice<T>>, down: bool)
    requires Sorted(xs, down) && Sorted(ys, down) && multiset(xs) == multiset(ys) && xs != []
    ensures ys != [] && xs[0] == ys[0]
  {
    assert xs[0] in multiset(ys);
    var i :| 0 <= i < |ys| && ys[i] == xs[0];
    assert ys[0] in multiset(xs);
    var j :| 0 <= j < |xs| && xs[j] == ys[0];
    assert Key(ys[0], down) <= Key(ys[i], down) && Key(xs[0], down) <= Key(xs[j], down);
  }

  /** There is only one way to be sorted. */
  lemma {:induction false} SortedIsUnique<T>(xs: seq<Splice<T>>, ys: seq<Splice<T>>, down: bool)
    requires Sorted(xs, down) && Sorted(ys, down) && multiset(xs) == multiset(ys)
    ensures xs == ys
    decreases |xs|
  {
    if xs == [] {
      assert |multiset(ys)| == 0;
    } else {
      FirstIsUnique(xs, ys, down);
      RestHolds(xs);
      RestHolds(ys);
      SortedIsUnique(xs[1..], ys[1..], down);
    }
  }

  function Reverse<T>(xs: seq<T>): (r: seq<T>)
    ensures |r| == |xs| && forall i :: 0 <= i < |r| ==> r[i] == xs[|xs| - 1 - i]
  {
    if xs == [] then [] else Reverse(xs[1..]) + [xs[0]]
  }

  lemma {:induction false} ReverseKeepsAll<T>(xs: seq<T>)
    ensures multiset(Reverse(xs)) == multiset(xs)
  {
    if xs != [] {
      ReverseKeepsAll(xs[1..]);
      assert xs == [xs[0]] + xs[1..];
    }
  }

  /** Sorted, clean edits form a chain. */
  lemma CleanSortsToChain<T>(splices: seq<Splice<T>>, length: nat)
    requires Clean(splices, length)
    ensures Chain(Sort(splices, false), 0, length)
  {
    var up := Sort(splices, false);
    SortSorts(splices, false, length);
    forall i | 0 <= i < |up|
      ensures up[i] in splices
    {
      assert up[i] in multiset(up);
    }
    forall i, j | 0 <= i < j < |up|
      ensures up[i].start < up[j].start && up[i].end <= up[j].start
    {
      var a :| 0 <= a < |splices| && splices[a] == up[i];
      var b :| 0 <= b < |splices| && splices[b] == up[j];
      assert Key(up[i], false) < Key(up[j], false);
      assert Apart(splices[a], splices[b]) || Apart(splices[b], splices[a]);
    }
  }

  lemma ReplaceTail<T>(text: seq<T>, s: Splice<T>, rest: seq<T>)
    requires s.start <= s.end <= |text|
    ensures ReplaceRange(text[..s.end] + rest, s) == Some(text[..s.start] + s.text + rest)
  {
    var t := text[..s.end] + rest;
    assert t[..s.start] == text[..s.start] && t[s.end..] == rest;
  }

  lemma Rejoin<T>(text: seq<T>, from: nat, cursor: nat, start: nat, mid: seq<T>, rest: seq<T>)
    requires from <= cursor <= start <= |text|
    ensures text[from..cursor] + (text[cursor..start] + mid + rest) == text[from..start] + mid + rest
  {
  }

  lemma CopyFirst<T>(text: seq<T>, ordered: seq<Splice<T>>, cursor: nat, end: nat)
    requires ordered != [] && cursor <= ordered[0].start <= |text|
    ensures CopyFrom(text, ordered, cursor, end)
         == Prepend(text[cursor..ordered[0].start] + ordered[0].text, CopyFrom(text, ordered[1..], ordered[0].end, end))
  {
  }

  lemma ReplaceLast<T>(text: seq<T>, xs: seq<Splice<T>>, s: Splice<T>)
    ensures ReplaceAll(text, xs + [s]) == match ReplaceAll(text, xs) case Some(t) => ReplaceRange(t, s) case None => None
  {
    assert (xs + [s])[..|xs|] == xs;
  }

  /** Rightmost first is left to right, on a chain: what stands before the cursor is untouched. */
  lemma {:induction false} RightmostFirstCopies<T>(text: seq<T>, ordered: seq<Splice<T>>, cursor: nat)
    requires Chain(ordered, cursor, |text|) && cursor <= |text|
    ensures CopyFrom(text, ordered, cursor, |text|).Some?
    ensures ReplaceAll(text, Reverse(ordered)) == Some(text[..cursor] + CopyFrom(text, ordered, cursor, |text|).value)
    decreases |ordered|
  {
    if ordered == [] {
      assert text[..cursor] + text[cursor..|text|] == text;
    } else {
      var s := ordered[0];
      RightmostFirstCopies(text, ordered[1..], s.end);
      var rest := CopyFrom(text, ordered[1..], s.end, |text|).value;
      ReplaceLast(text, Reverse(ordered[1..]), s);
      CopyFirst(text, ordered, cursor, |text|);
      ReplaceTail(text, s, rest);
      Rejoin(text, 0, cursor, s.start, s.text, rest);
    }
  }

  lemma DownIsReverse<T>(splices: seq<Splice<T>>, length: nat)
    requires Clean(splices, length)
    ensures Sort(splices, true) == Reverse(Sort(splices, false))
  {
    var up := Sort(splices, false);
    SortSorts(splices, false, length);
    SortSorts(splices, true, length);
    ReverseKeepsAll(up);
    forall i, j | 0 <= i < j < |up|
      ensures Key(Reverse(up)[i], true) < Key(Reverse(up)[j], true)
    {
      assert Key(up[|up| - 1 - j], false) < Key(up[|up| - 1 - i], false);
    }
    SortedIsUnique(Sort(splices, true), Reverse(up), true);
  }

  /** On clean edits, in whatever order they are listed, the two appliers agree, and neither panics. */
  lemma AppliersAgree<T>(text: seq<T>, splices: seq<Splice<T>>)
    requires Clean(splices, |text|)
    ensures ReplaceAll(text, Sort(splices, true)).Some?
    ensures ReplaceAll(text, Sort(splices, true)) == CopyFrom(text, Sort(splices, false), 0, |text|)
  {
    CleanSortsToChain(splices, |text|);
    DownIsReverse(splices, |text|);
    RightmostFirstCopies(text, Sort(splices, false), 0);
    assert text[..0] == [];
    assert [] + CopyFrom(text, Sort(splices, false), 0, |text|).value == CopyFrom(text, Sort(splices, false), 0, |text|).value;
  }

  /** The order in which clean edits are listed makes no difference. */
  lemma ListOrderIsIrrelevant<T>(text: seq<T>, xs: seq<Splice<T>>, ys: seq<Splice<T>>)
    requires Clean(xs, |text|) && Clean(ys, |text|) && multiset(xs) == multiset(ys)
    ensures ReplaceAll(text, Sort(xs, true)) == ReplaceAll(text, Sort(ys, true))
  {
    SortSorts(xs, true, |text|);
    SortSorts(ys, true, |text|);
    SortedIsUnique(Sort(xs, true), Sort(ys, true), true);
  }

  /* Where an offset lands. */

  /** What the edits that end at or before `original` add up to. */
  function Shift<T>(splices: seq<Splice<T>>, original: nat): int {
    if splices == [] then 0
    else
      var s := splices[|splices| - 1];
      Shift(splices[..|splices| - 1], original) + if s.end <= original then |s.text| - (s.end - s.start) else 0
  }

  /** How much text those edits remove. */
  function Removed<T>(splices: seq<Splice<T>>, original: nat): int {
    if splices == [] then 0
    else
      var s := splices[|splices| - 1];
      Removed(splices[..|splices| - 1], original) + if s.end <= original then s.end - s.start else 0
  }

  lemma LastSums<T>(xs: seq<Splice<T>>, s: Splice<T>, original: nat)
    ensures Shift(xs + [s], original) == Shift(xs, original) + Shift([s], original)
    ensures Removed(xs + [s], original) == Removed(xs, original) + Removed([s], original)
  {
    assert (xs + [s])[..|xs|] == xs && [s][..0] == [];
  }

  lemma {:induction false} InsertKeepsSums<T>(xs: seq<Splice<T>>, s: Splice<T>, down: bool, original: nat)
    ensures Shift(Insert(xs, s, down), original) == Shift(xs + [s], original)
    ensures Removed(Insert(xs, s, down), original) == Removed(xs + [s], original)
  {
    if xs != [] && Key(xs[|xs| - 1], down) > Key(s, down) {
      var front, last := xs[..|xs| - 1], xs[|xs| - 1];
      InsertKeepsSums(front, s, down, original);
      LastSums(front, s, original);
      LastSums(Insert(front, s, down), last, original);
      assert xs == front + [last];
      LastSums(front, last, original);
      LastSums(xs, s, original);
    }
  }

  lemma {:induction false} SortKeepsSums<T>(xs: seq<Splice<T>>, down: bool, original: nat)
    ensures Shift(Sort(xs, down), original) == Shift(xs, original)
    ensures Removed(Sort(xs, down), original) == Removed(xs, original)
  {
    if xs != [] {
      var front, last := xs[..|xs| - 1], xs[|xs| - 1];
      SortKeepsSums(front, down, original);
      InsertKeepsSums(Sort(front, down), last, down, original);
      assert (Sort(front, down) + [last])[..|Sort(front, down)|] == Sort(front, down);
    }
  }

  lemma {:induction false} ChainRemovesLittle<T>(ordered: seq<Splice<T>>, length: nat, original: nat)
    requires Chain(ordered, 0, length)
    ensures 0 <= Removed(ordered, original) <= original
    ensures ordered != [] ==> Removed(ordered, original) <= ordered[|ordered| - 1].end
    decreases |ordered|
  {
    if ordered != [] {
      ChainRemovesLittle(ordered[..|ordered| - 1], length, original);
    }
  }

  lemma CleanRemovesLittle<T>(splices: seq<Splice<T>>, length: nat, original: nat)
    requires Clean(splices, length)
    ensures 0 <= Removed(splices, original) <= original
  {
    CleanSortsToChain(splices, length);
    ChainRemovesLittle(Sort(splices, false), length, original);
    SortKeepsSums(splices, false, original);
  }

  lemma {:induction false} ShiftAndRemoved<T>(splices: seq<Splice<T>>, original: nat)
    ensures Shift(splices, original) >= -Removed(splices, original)
  {
    if splices != [] {
      ShiftAndRemoved(splices[..|splices| - 1], original);
    }
  }

  /** `applied_offset`.  The subtraction never goes below zero, whatever the order of the list. */
  method AppliedOffset<T>(splices: seq<Splice<T>>, original: nat, ghost length: nat) returns (pos: nat)
    requires Clean(splices, length)
    ensures pos == original + Shift(splices, original)
  {
    pos := original;
    for i := 0 to |splices|
      invariant pos == original + Shift(splices[..i], original)
    {
      var s := splices[i];
      assert splices[..i + 1][..i] == splices[..i];
      if s.end <= original {
        CleanRemovesLittle(splices[..i + 1], length, original);
        ShiftAndRemoved(splices[..i], original);
        pos := pos + |s.text| - (s.end - s.start);
      }
    }
    assert splices[..|splices|] == splices;
  }

  /** No edit has the offset strictly inside it. */
  predicate Outside<T>(splices: seq<Splice<T>>, original: nat) {
    forall i :: 0 <= i < |splices| ==> splices[i].end <= original || original <= splices[i].start
  }

  /** How many edits of a chain end at or before the offset. */
  function Before<T>(ordered: seq<Splice<T>>, original: nat): (n: nat)
    ensures n <= |ordered|
  {
    if ordered == [] || ordered[0].end > original then 0 else 1 + Before(ordered[1..], original)
  }

  lemma {:induction false} BeforeSplits<T>(ordered: seq<Splice<T>>, cursor: nat, length: nat, original: nat)
    requires Chain(ordered, cursor, length) && Outside(ordered, original)
    ensures var n := Before(ordered, original);
      && (forall i :: 0 <= i < n ==> ordered[i].end <= original)
      && forall i :: n <= i < |ordered| ==> original <= ordered[i].start && ordered[i].end > original
    decreases |ordered|
  {
    if ordered != [] && ordered[0].end <= original {
      BeforeSplits(ordered[1..], cursor, length, original);
    }
  }

  /** The copy falls into what the first `n` edits make of the text before the offset and what the others make of the rest,
      and the first part ends `shift` away from the offset. */
  ghost predicate SplitsAt<T>(text: seq<T>, ordered: seq<Splice<T>>, cursor: nat, original: nat, n: nat, shift: int)
    requires n <= |ordered|
  {
    var a, b := CopyFrom(text, ordered[..n], cursor, original), CopyFrom(text, ordered[n..], original, |text|);
    && a.Some? && b.Some? && CopyFrom(text, ordered, cursor, |text|) == Some(a.value + b.value)
    && |a.value| == original - cursor + shift
  }

  lemma {:induction false} CopySplits<T>(text: seq<T>, ordered: seq<Splice<T>>, cursor: nat, original: nat)
    requires Chain(ordered, cursor, |text|) && Outside(ordered, original) && cursor <= original <= |text|
    ensures SplitsAt(text, ordered, cursor, original, Before(ordered, original), Shift(ordered, original))
    decreases |ordered|
  {
    BeforeSplits(ordered, cursor, |text|, original);
    if ordered == [] {
      NoneSplits(text, cursor, original);
    } else if ordered[0].end <= original {
      CopySplits(text, ordered[1..], ordered[0].end, original);
      ShiftFromFront(ordered, original);
      CopySplitsPast(text, ordered, cursor, original, Before(ordered[1..], original), Shift(ordered[1..], original));
    } else {
      CopySplitsHere(text, ordered, cursor, original);
      NothingBefore(ordered, original);
    }
  }

  lemma NoneSplits<T>(text: seq<T>, cursor: nat, original: nat)
    requires cursor <= original <= |text|
    ensures SplitsAt(text, [], cursor, original, 0, 0)
  {
    assert text[cursor..|text|] == text[cursor..original] + text[original..|text|];
  }

  lemma CopySplitsPast<T>(text: seq<T>, ordered: seq<Splice<T>>, cursor: nat, original: nat, n: nat, shift: int)
    requires ordered != [] && n < |ordered| && cursor <= ordered[0].start <= |text| && original <= |text|
    requires SplitsAt(text, ordered[1..], ordered[0].end, original, n, shift)
    ensures SplitsAt(text, ordered, cursor, original, n + 1,
                     |ordered[0].text| - (ordered[0].end - ordered[0].start) + shift)
  {
    var front := text[cursor..ordered[0].start] + ordered[0].text;
    var a := CopyFrom(text, ordered[1..][..n], ordered[0].end, original).value;
    CopyFirst(text, ordered, cursor, |text|);
    CopyFirst(text, ordered[..n + 1], cursor, original);
    assert ordered[..n + 1][1..] == ordered[1..][..n] && ordered[n + 1..] == ordered[1..][n..];
    PrependTwice(front, a, CopyFrom(text, ordered[n + 1..], original, |text|));
  }

  lemma CopySplitsHere<T>(text: seq<T>, ordered: seq<Splice<T>>, cursor: nat, original: nat)
    requires Chain(ordered, cursor, |text|) && ordered != [] && cursor <= original <= ordered[0].start
    ensures SplitsAt(text, ordered, cursor, original, 0, 0)
  {
    assert ordered[..0] == [] && ordered[0..] == ordered;
    CopyResumes(text, ordered, cursor, original);
  }

  lemma CopyResumes<T>(text: seq<T>, ordered: seq<Splice<T>>, cursor: nat, original: nat)
    requires Chain(ordered, cursor, |text|) && ordered != [] && cursor <= original <= ordered[0].start
    ensures var b := CopyFrom(text, ordered, original, |text|);
      b.Some? && CopyFrom(text, ordered, cursor, |text|) == Some(text[cursor..original] + b.value)
  {
    RightmostFirstCopies(text, ordered[1..], ordered[0].end);
    CopyFirst(text, ordered, cursor, |text|);
    CopyFirst(text, ordered, original, |text|);
    FrontResumes(text, ordered[0], cursor, original, CopyFrom(text, ordered[1..], ordered[0].end, |text|));
  }

  lemma FrontResumes<T>(text: seq<T>, s: Splice<T>, cursor: nat, original: nat, rest: Option<seq<T>>)
    requires cursor <= original <= s.start <= |text| && rest.Some?
    ensures var b := Prepend(text[original..s.start] + s.text, rest);
      b.Some? && Prepend(text[cursor..s.start] + s.text, rest) == Some(text[cursor..original] + b.value)
  {
    Rejoin(text, cursor, original, s.start, s.text, rest.value);
  }

  lemma {:induction false} ShiftFromFront<T>(xs: seq<Splice<T>>, original: nat)
    requires xs != []
    ensures Shift(xs, original)
         == (if xs[0].end <= original then |xs[0].text| - (xs[0].end - xs[0].start) else 0) + Shift(xs[1..], original)
    decreases |xs|
  {
    if |xs| > 1 {
      ShiftFromFront(xs[..|xs| - 1], original);
      assert xs[..|xs| - 1][1..] == xs[1..][..|xs| - 2];
    } else {
      assert xs[..0] == [] && xs[1..] == [];
    }
  }

  lemma {:induction false} NothingBefore<T>(xs: seq<Splice<T>>, original: nat)
    requires forall i :: 0 <= i < |xs| ==> xs[i].end > original
    ensures Shift(xs, original) == 0
  {
    if xs != [] {
      NothingBefore(xs[..|xs| - 1], original);
    }
  }

  /** For an offset not strictly inside an edit, the edited text is what the edits before it make of the text before it,
      followed by what the edits after it make of the rest; and the offset lands where that rest begins. */
  lemma OffsetLandsBetween<T>(text: seq<T>, splices: seq<Splice<T>>, original: nat)
    requires Clean(splices, |text|) && Outside(splices, original) && original <= |text|
    ensures var up := Sort(splices, false);
      var n := Before(up, original);
      var a, b := CopyFrom(text, up[..n], 0, original), CopyFrom(text, up[n..], original, |text|);
      && a.Some? && b.Some? && ReplaceAll(text, Sort(splices, true)) == Some(a.value + b.value)
      && |a.value| == original + Shift(splices, original)
  {
    var up := Sort(splices, false);
    CleanSortsToChain(splices, |text|);
    SortSorts(splices, false, |text|);
    forall i | 0 <= i < |up|
      ensures up[i].end <= original || original <= up[i].start
    {
      assert up[i] in multiset(splices);
    }
    CopySplits(text, up, 0, original);
    SortKeepsSums(splices, false, original);
    AppliersAgree(text, splices);
  }

  /* An insertion and a replacement together (`insert_and_replace`). */

  function InsertAndReplace<T>(insertAt: nat, insertText: seq<T>, start: nat, end: nat, replaceText: seq<T>)
      : seq<Splice<T>> {
    [Splice(insertAt, insertAt, insertText), Splice(start, end, replaceText)]
  }

  /** `part` stands at `at` in the text that was made. */
  predicate Stands<T(==)>(made: Option<seq<T>>, at: int, part: seq<T>) {
    made.Some? && 0 <= at <= at + |part| <= |made.value| && made.value[at..at + |part|] == part
  }

  /** The replacement text stands at the replaced range's shifted start, so a caret put into it there is on the text meant. */
  predicate CaretOn<T(==)>(text: seq<T>, insertAt: nat, insertText: seq<T>, start: nat, end: nat, replaceText: seq<T>) {
    var edits := InsertAndReplace(insertAt, insertText, start, end, replaceText);
    Stands(ReplaceAll(text, Sort(edits, true)), start + Shift(edits, start), replaceText)
  }

  /** It does if the insertion is not inside the replaced range nor at its start. */
  lemma {:induction false} CaretIsOnReplacement<T>(
      text: seq<T>, insertAt: nat, insertText: seq<T>, start: nat, end: nat, replaceText: seq<T>)
    requires start < end <= |text| && insertAt <= |text| && (insertAt < start || end <= insertAt)
    ensures Clean(InsertAndReplace(insertAt, insertText, start, end, replaceText), |text|)
    ensures CaretOn(text, insertAt, insertText, start, end, replaceText)
  {
    var edits := InsertAndReplace(insertAt, insertText, start, end, replaceText);
    PairApplied(text, edits, edits[0], edits[1]);
    PairShifts(edits, edits[0], edits[1]);
    CaretAt(text, edits[0], edits[1], ReplaceAll(text, Sort(edits, true)), start + Shift(edits, start));
  }

  lemma PairShifts<T>(edits: seq<Splice<T>>, ins: Splice<T>, rep: Splice<T>)
    requires edits == [ins, rep] && ins.start == ins.end && rep.start < rep.end
    requires ins.start < rep.start || rep.end <= ins.start
    ensures Shift(edits, rep.start) == if ins.start < rep.start then |ins.text| else 0
  {
    ShiftPair(ins, rep, rep.start);
  }

  lemma CaretAt<T>(text: seq<T>, ins: Splice<T>, rep: Splice<T>, applied: Option<seq<T>>, at: int)
    requires ins.start == ins.end <= |text| && rep.start < rep.end <= |text|
    requires ins.start < rep.start || rep.end <= ins.start
    requires applied == CopyFrom(text, if ins.start < rep.start then [ins, rep] else [rep, ins], 0, |text|)
    requires at == rep.start + if ins.start < rep.start then |ins.text| else 0
    ensures Stands(applied, at, rep.text)
  {
    if ins.start < rep.start {
      CaretAfterInsertion(text, ins, rep);
    } else {
      CaretBeforeInsertion(text, ins, rep);
    }
  }

  lemma PairApplied<T>(text: seq<T>, edits: seq<Splice<T>>, a: Splice<T>, b: Splice<T>)
    requires edits == [a, b] && a.start <= a.end <= |text| && b.start <= b.end <= |text| && Apart(a, b)
    ensures Clean(edits, |text|)
    ensures ReplaceAll(text, Sort(edits, true)) == CopyFrom(text, if a.start < b.start then [a, b] else [b, a], 0, |text|)
  {
    assert Clean(edits, |text|);
    AppliersAgree(text, edits);
    SortPair(a, b, false);
  }

  lemma CaretBeforeInsertion<T>(text: seq<T>, ins: Splice<T>, rep: Splice<T>)
    requires rep.start < rep.end <= ins.start == ins.end <= |text|
    ensures var applied := CopyFrom(text, [rep, ins], 0, |text|);
      applied.Some? && rep.start + |rep.text| <= |applied.value|
      && applied.value[rep.start..rep.start + |rep.text|] == rep.text
  {
    CopyPair(text, rep, ins);
    Middle(text[0..rep.start], rep.text, text[rep.end..ins.start] + ins.text + text[ins.end..|text|]);
  }

  lemma CaretAfterInsertion<T>(text: seq<T>, ins: Splice<T>, rep: Splice<T>)
    requires ins.start == ins.end < rep.start < rep.end <= |text|
    ensures var applied, at := CopyFrom(text, [ins, rep], 0, |text|), rep.start + |ins.text|;
      applied.Some? && at + |rep.text| <= |applied.value| && applied.value[at..at + |rep.text|] == rep.text
  {
    CopyPair(text, ins, rep);
    var front, back := text[0..ins.start] + ins.text, text[rep.end..|text|];
    Regroup(front, text[ins.end..rep.start], rep.text, back);
    Middle(front + text[ins.end..rep.start], rep.text, back);
  }

  lemma Regroup<T>(a: seq<T>, b: seq<T>, c: seq<T>, d: seq<T>)
    ensures a + (b + c + d) == (a + b) + c + d
  {
  }

  lemma Middle<T>(front: seq<T>, mid: seq<T>, back: seq<T>)
    ensures (front + mid + back)[|front|..|front| + |mid|] == mid
  {
  }

  lemma SortPair<T>(a: Splice<T>, b: Splice<T>, down: bool)
    ensures Sort([a, b], down) == if Key(a, down) <= Key(b, down) then [a, b] else [b, a]
  {
    assert [a, b][..1] == [a] && [a][..0] == [];
    assert [] + [a] == [a] && [] + [b] == [b];
    assert Sort([a], down) == [a];
    assert Insert([a], b, down) == if Key(a, down) <= Key(b, down) then [a] + [b] else [b] + [a];
  }

  lemma ShiftPair<T>(a: Splice<T>, b: Splice<T>, original: nat)
    ensures Shift([a, b], original)
         == (if a.end <= original then |a.text| - (a.end - a.start) else 0)
            + if b.end <= original then |b.text| - (b.end - b.start) else 0
  {
    assert [a, b][..1] == [a] && [a][..0] == [];
    assert Shift([a], original) == if a.end <= original then |a.text| - (a.end - a.start) else 0;
  }

  lemma CopyPair<T>(text: seq<T>, a: Splice<T>, b: Splice<T>)
    requires a.start <= a.end <= b.start <= b.end <= |text|
    ensures CopyFrom(text, [a, b], 0, |text|)
         == Some(text[0..a.start] + a.text + (text[a.end..b.start] + b.text + text[b.end..|text|]))
  {
    assert [a, b][1..] == [b] && [b][1..] == [];
    assert CopyFrom(text, [b], a.end, |text|) == Some(text[a.end..b.start] + b.text + text[b.end..|text|]);
  }

  /** With a shared start the insertion is made first and the replacement then overwrites the inserted text. */
  lemma SharedStartOverwrites<T>(text: seq<T>, p: nat, insertText: seq<T>, end: nat, replaceText: seq<T>)
    requires p <= end <= |text|
    ensures ReplaceAll(text, Sort(InsertAndReplace(p, insertText, p, end, replaceText), true))
         == Some(text[..p] + replaceText + (insertText + text[p..])[end - p..])
  {
    OverwritesInserted(text, p, insertText, end, replaceText);
    EditsMadeAs(text, p, insertText, p, end, replaceText,
                Some(text[..p] + replaceText + (insertText + text[p..])[end - p..]));
  }

  lemma OverwritesInserted<T>(text: seq<T>, p: nat, insertText: seq<T>, end: nat, replaceText: seq<T>)
    requires p <= end <= |text|
    ensures ReplaceTwo(text, Splice(p, p, insertText), Splice(p, end, replaceText))
         == Some(text[..p] + replaceText + (insertText + text[p..])[end - p..])
  {
    var t, back := text[..p] + insertText + text[p..], insertText + text[p..];
    assert t == text[..p] + back;
    assert t[..p] == text[..p] && t[end..] == back[end - p..];
  }

  /** So the two appliers then differ: insert `x` at the front and replace the first element by `y`. */
  lemma SharedStartDisagrees<T>(text: seq<T>, x: T, y: T)
    requires text != [] && x != y
    ensures var edits := InsertAndReplace(0, [x], 0, 1, [y]);
      && ReplaceAll(text, Sort(edits, true)) == Some([y] + text)
      && CopyFrom(text, Sort(edits, false), 0, |text|) == Some([x, y] + text[1..])
      && [y] + text != [x, y] + text[1..]
  {
    var ins, rep := Splice(0, 0, [x]), Splice(0, 1, [y]);
    SharedStartOverwrites(text, 0, [x], 1, [y]);
    FrontReplaced(text, x, y);
    SortPair(ins, rep, false);
    CopyPair(text, ins, rep);
    FrontCopied(text, x, y);
    assert ([y] + text)[0] != ([x, y] + text[1..])[0];
  }

  lemma FrontReplaced<T>(text: seq<T>, x: T, y: T)
    ensures text[..0] + [y] + ([x] + text[0..])[1 - 0..] == [y] + text
  {
  }

  lemma FrontCopied<T>(text: seq<T>, x: T, y: T)
    requires text != []
    ensures text[0..0] + [x] + (text[0..0] + [y] + text[1..|text|]) == [x, y] + text[1..]
  {
  }

  /* When the two appliers agree, whatever the replacement texts. */

  /** The two appliers give the same result, or both panic. */
  predicate Agree<T(==)>(text: seq<T>, splices: seq<Splice<T>>) {
    ReplaceAll(text, Sort(splices, true)) == CopyFrom(text, Sort(splices, false), 0, |text|)
  }

  datatype Range = Range(start: nat, end: nat)

  function WithTexts<T>(ranges: seq<Range>, texts: seq<seq<T>>): (r: seq<Splice<T>>)
    requires |ranges| == |texts|
    ensures |r| == |ranges| && forall i :: 0 <= i < |r| ==> r[i] == Splice(ranges[i].start, ranges[i].end, texts[i])
  {
    if ranges == [] then []
    else
      var n := |ranges| - 1;
      WithTexts(ranges[..n], texts[..n]) + [Splice(ranges[n].start, ranges[n].end, texts[n])]
  }

  predicate InBounds(ranges: seq<Range>, length: nat) {
    forall i :: 0 <= i < |ranges| ==> ranges[i].start <= ranges[i].end <= length
  }

  /** Pairwise disjoint, no two from the same start. */
  predicate AllApart(ranges: seq<Range>) {
    forall i, j :: 0 <= i < j < |ranges| ==>
      ranges[i].start != ranges[j].start && (ranges[i].end <= ranges[j].start || ranges[j].end <= ranges[i].start)
  }

  /* Sorting keeps the edits of one start together, in the order of the list. */

  lemma {:induction false} SortHolds<T>(xs: seq<Splice<T>>, down: bool)
    ensures multiset(Sort(xs, down)) == multiset(xs)
  {
    if xs != [] {
      SortHolds(xs[..|xs| - 1], down);
      InsertHolds(Sort(xs[..|xs| - 1], down), xs[|xs| - 1], down);
      assert xs == xs[..|xs| - 1] + [xs[|xs| - 1]];
    }
  }

  datatype Side = Under | Same | Over

  function SideOf<T>(s: Splice<T>, k: int, down: bool): Side {
    if Key(s, down) < k then Under else if Key(s, down) == k then Same else Over
  }

  function Part<T>(xs: seq<Splice<T>>, k: int, down: bool, side: Side): (r: seq<Splice<T>>)
    ensures forall i :: 0 <= i < |r| ==> r[i] in xs && SideOf(r[i], k, down) == side
  {
    if xs == [] then []
    else
      var front := Part(xs[..|xs| - 1], k, down, side);
      if SideOf(xs[|xs| - 1], k, down) == side then front + [xs[|xs| - 1]] else front
  }

  /** An insertion passes all greater keys. */
  lemma {:induction false} InsertPasses<T>(front: seq<Splice<T>>, over: seq<Splice<T>>, s: Splice<T>, down: bool)
    requires forall i :: 0 <= i < |over| ==> Key(over[i], down) > Key(s, down)
    ensures Insert(front + over, s, down) == Insert(front, s, down) + over
    decreases |over|
  {
    if over == [] {
      assert front + over == front;
    } else {
      var rest, last := over[..|over| - 1], over[|over| - 1];
      assert (front + over)[..|front + over| - 1] == front + rest;
      InsertPasses(front, rest, s, down);
      assert Insert(front, s, down) + rest + [last] == Insert(front, s, down) + over;
    }
  }

  /** And stays behind all others. */
  lemma {:induction false} InsertStays<T>(front: seq<Splice<T>>, rest: seq<Splice<T>>, s: Splice<T>, down: bool)
    requires forall i :: 0 <= i < |front| ==> Key(front[i], down) <= Key(s, down)
    ensures Insert(front + rest, s, down) == front + Insert(rest, s, down)
    decreases |rest|
  {
    if rest == [] {
      assert front + rest == front;
    } else {
      assert (front + rest)[..|front + rest| - 1] == front + rest[..|rest| - 1];
      InsertStays(front, rest[..|rest| - 1], s, down);
    }
  }

  lemma InsertAround<T>(under: seq<Splice<T>>, mid: seq<Splice<T>>, over: seq<Splice<T>>, s: Splice<T>, k: int, down: bool)
    requires forall i :: 0 <= i < |under| ==> Key(under[i], down) < k
    requires forall i :: 0 <= i < |mid| ==> Key(mid[i], down) == k
    requires forall i :: 0 <= i < |over| ==> Key(over[i], down) > k
    ensures Insert(under + mid + over, s, down)
         == match SideOf(s, k, down)
            case Under => Insert(under, s, down) + mid + over
            case Same => under + (mid + [s]) + over
            case Over => under + mid + Insert(over, s, down)
  {
    match SideOf(s, k, down) {
      case Under =>
        InsertPasses(under + mid, over, s, down);
        InsertPasses(under, mid, s, down);
      case Same =>
        InsertPasses(under + mid, over, s, down);
        InsertStays(under + mid, [], s, down);
        assert under + mid + [] == under + mid;
        assert under + mid + [s] == under + (mid + [s]);
      case Over =>
        InsertStays(under + mid, over, s, down);
    }
  }

  lemma {:induction false} SortSplits<T>(xs: seq<Splice<T>>, k: int, down: bool)
    ensures Sort(xs, down)
         == Sort(Part(xs, k, down, Under), down) + Part(xs, k, down, Same) + Sort(Part(xs, k, down, Over), down)
  {
    if xs != [] {
      var front, s := xs[..|xs| - 1], xs[|xs| - 1];
      var under, mid, over := Part(front, k, down, Under), Part(front, k, down, Same), Part(front, k, down, Over);
      SortSplits(front, k, down);
      SortedMembers(under, down);
      SortedMembers(over, down);
      InsertAround(Sort(under, down), mid, Sort(over, down), s, k, down);
      match SideOf(s, k, down) {
        case Under => assert (under + [s])[..|under|] == under;
        case Same =>
        case Over => assert (over + [s])[..|over|] == over;
      }
    }
  }

  lemma SortedMembers<T>(xs: seq<Splice<T>>, down: bool)
    ensures forall i :: 0 <= i < |Sort(xs, down)| ==> Sort(xs, down)[i] in xs
  {
    SortHolds(xs, down);
    forall i | 0 <= i < |Sort(xs, down)|
      ensures Sort(xs, down)[i] in xs
    {
      assert Sort(xs, down)[i] in multiset(Sort(xs, down));
    }
  }

  /** With `i` and `j` the last two of their start. */
  ghost predicate LastTwo<T>(xs: seq<Splice<T>>, i: nat, j: nat) {
    && i < j < |xs| && xs[i].start == xs[j].start
    && forall k :: i < k < |xs| && k != j ==> xs[k].start != xs[i].start
  }

  lemma {:induction false} SameEndsWith<T>(xs: seq<Splice<T>>, i: nat, j: nat, k: int, down: bool) returns (front: seq<Splice<T>>)
    requires LastTwo(xs, i, j) && k == Key(xs[i], down)
    ensures Part(xs, k, down, Same) == front + [xs[i], xs[j]]
    ensures forall e :: e in front ==> e in xs[..i] && e.start == xs[i].start
    decreases |xs|
  {
    var n := |xs| - 1;
    if n == j {
      front := OneSameBefore(xs[..n], i, k, down);
      assert xs[..n][..i] == xs[..i];
      assert front + [xs[i]] + [xs[j]] == front + [xs[i], xs[j]];
    } else {
      assert xs[..n][..i] == xs[..i];
      front := SameEndsWith(xs[..n], i, j, k, down);
    }
  }

  lemma {:induction false} OneSameBefore<T>(xs: seq<Splice<T>>, i: nat, k: int, down: bool) returns (front: seq<Splice<T>>)
    requires i < |xs| && k == Key(xs[i], down) && forall m :: i < m < |xs| ==> xs[m].start != xs[i].start
    ensures Part(xs, k, down, Same) == front + [xs[i]]
    ensures forall e :: e in front ==> e in xs[..i] && e.start == xs[i].start
    decreases |xs|
  {
    var n := |xs| - 1;
    if n == i {
      front := Part(xs[..n], k, down, Same);
    } else {
      assert xs[..n][..i] == xs[..i];
      front := OneSameBefore(xs[..n], i, k, down);
    }
  }

  /* Edits that change nothing. */

  /** The edit puts back what it replaces. */
  predicate Idle<T(==)>(text: seq<T>, s: Splice<T>) {
    s.start <= s.end <= |text| && s.text == text[s.start..s.end]
  }

  /** Idle edits before which the text is the same change nothing, in whatever order. */
  lemma {:induction false} IdleChangesNothing<T>(text: seq<T>, t: seq<T>, done: seq<Splice<T>>, more: seq<Splice<T>>, p: nat)
    requires ReplaceAll(text, done) == Some(t) && p <= |text| && p <= |t| && t[..p] == text[..p]
    requires forall i :: 0 <= i < |more| ==> Idle(text, more[i]) && more[i].end <= p
    ensures ReplaceAll(text, done + more) == Some(t)
    decreases |more|
  {
    if more == [] {
      assert done + more == done;
    } else {
      var front, s := more[..|more| - 1], more[|more| - 1];
      IdleChangesNothing(text, t, done, front, p);
      ReplaceLast(text, done + front, s);
      assert done + more == done + front + [s];
      IdleStep(text, t, s, p);
    }
  }

  lemma IdleStep<T>(text: seq<T>, t: seq<T>, s: Splice<T>, p: nat)
    requires Idle(text, s) && s.end <= p <= |text| && p <= |t| && t[..p] == text[..p]
    ensures ReplaceRange(t, s) == Some(t)
  {
    forall i | s.start <= i < s.end
      ensures t[i] == s.text[i - s.start]
    {
      assert t[i] == t[..p][i] == text[..p][i] == text[i];
    }
    assert t[s.start..s.end] == s.text;
    assert t[..s.start] + t[s.start..s.end] + t[s.end..] == t;
  }

  /** Copying idle edits up to one that puts in `x` at `p`: if the copy succeeds, `x` stands at `p`. */
  lemma {:induction false} CopyShows<T>(text: seq<T>, idle: seq<Splice<T>>, s: Splice<T>, rest: seq<Splice<T>>, cursor: nat, x: T)
    requires forall i :: 0 <= i < |idle| ==> Idle(text, idle[i]) && idle[i].start <= s.start
    requires s.text == [x] && cursor <= |text|
    ensures var r := CopyFrom(text, idle + [s] + rest, cursor, |text|);
      r.Some? ==> cursor <= s.start && s.start - cursor < |r.value| && r.value[s.start - cursor] == x
    decreases |idle|
  {
    var all := idle + [s] + rest;
    if idle == [] {
      assert all[0] == s;
    } else {
      var first := idle[0];
      assert all[0] == first && all[1..] == idle[1..] + [s] + rest;
      CopyShows(text, idle[1..], s, rest, first.end, x);
    }
  }

  /** A copy that succeeds takes the edits one behind the other. */
  lemma {:induction false} CopiedIsChain<T>(text: seq<T>, ordered: seq<Splice<T>>, cursor: nat)
    requires CopyFrom(text, ordered, cursor, |text|).Some?
    requires forall i :: 0 <= i < |ordered| ==> ordered[i].start <= ordered[i].end
    ensures forall i :: 0 <= i < |ordered| ==> cursor <= ordered[i].start
    ensures forall i, j :: 0 <= i < j < |ordered| ==> ordered[i].end <= ordered[j].start
    decreases |ordered|
  {
    if ordered != [] {
      CopiedIsChain(text, ordered[1..], ordered[0].end);
      forall i, j | 0 <= i < j < |ordered|
        ensures ordered[i].end <= ordered[j].start
      {
        if i > 0 {
          assert ordered[1..][i - 1].end <= ordered[1..][j - 1].start;
        } else {
          assert ordered[1..][j - 1] == ordered[j];
        }
      }
    }
  }

  /** The texts that put every range back as it is. */
  function OwnTexts<T>(text: seq<T>, ranges: seq<Range>): (texts: seq<seq<T>>)
    requires InBounds(ranges, |text|)
    ensures |texts| == |ranges| && forall i :: 0 <= i < |ranges| ==> texts[i] == text[ranges[i].start..ranges[i].end]
  {
    if ranges == [] then []
    else OwnTexts(text, ranges[..|ranges| - 1]) + [text[ranges[|ranges| - 1].start..ranges[|ranges| - 1].end]]
  }

  ghost predicate AgreeForAllTexts<T(!new)>(text: seq<T>, ranges: seq<Range>) {
    forall texts: seq<seq<T>> :: |texts| == |ranges| ==> Agree(text, WithTexts(ranges, texts))
  }

  /** One behind the other. */
  ghost predicate Chained<T>(ordered: seq<Splice<T>>) {
    forall a, b :: 0 <= a < b < |ordered| ==> ordered[a].end <= ordered[b].start
  }

  ghost predicate Ascending<T>(ordered: seq<Splice<T>>, down: bool) {
    forall a, b :: 0 <= a < b < |ordered| ==> Key(ordered[a], down) <= Key(ordered[b], down)
  }

  lemma {:induction false} InsertAscends<T>(xs: seq<Splice<T>>, s: Splice<T>, down: bool)
    requires Ascending(xs, down)
    ensures Ascending(Insert(xs, s, down), down)
    ensures forall i :: 0 <= i < |Insert(xs, s, down)| ==> Insert(xs, s, down)[i] == s || Insert(xs, s, down)[i] in xs
  {
    if xs != [] && Key(xs[|xs| - 1], down) > Key(s, down) {
      InsertAscends(xs[..|xs| - 1], s, down);
    }
  }

  lemma {:induction false} SortAscends<T>(xs: seq<Splice<T>>, down: bool)
    ensures Ascending(Sort(xs, down), down)
  {
    if xs != [] {
      SortAscends(xs[..|xs| - 1], down);
      InsertAscends(Sort(xs[..|xs| - 1], down), xs[|xs| - 1], down);
    }
  }

  /** If the appliers agree even on edits that change nothing, the copy succeeds, and takes them one behind the other. */
  lemma {:induction false} IdleCopies<T>(text: seq<T>, list: seq<Splice<T>>)
    requires Agree(text, list) && forall i :: 0 <= i < |list| ==> Idle(text, list[i])
    ensures Chained(Sort(list, false))
  {
    SortedMembers(list, true);
    SortedMembers(list, false);
    var down := Sort(list, true);
    assert text[..|text|] == text;
    IdleChangesNothing(text, text, [], down, |text|);
    assert [] + down == down;
    CopiedIsChain(text, Sort(list, false), 0);
  }

  /** Edits from different starts are then disjoint. */
  lemma ChainSeparates<T>(list: seq<Splice<T>>, i: nat, j: nat)
    requires Chained(Sort(list, false)) && i < |list| && j < |list| && list[i].start < list[j].start
    ensures list[i].end <= list[j].start
  {
    SortAscends(list, false);
    var a := PlaceOf(list, i);
    var b := PlaceOf(list, j);
    ChainOrder(Sort(list, false), a, b, list[i], list[j]);
  }

  lemma ChainOrder<T>(up: seq<Splice<T>>, a: nat, b: nat, s: Splice<T>, t: Splice<T>)
    requires Chained(up) && Ascending(up, false) && a < |up| && b < |up| && up[a] == s && up[b] == t && s.start < t.start
    ensures s.end <= t.start
  {
    assert b < a ==> Key(up[b], false) <= Key(up[a], false);
  }

  lemma PlaceOf<T>(list: seq<Splice<T>>, i: nat) returns (a: nat)
    requires i < |list|
    ensures a < |Sort(list, false)| && Sort(list, false)[a] == list[i]
  {
    SortHolds(list, false);
    assert list[i] in multiset(list);
    assert list[i] in Sort(list, false);
    a :| 0 <= a < |Sort(list, false)| && Sort(list, false)[a] == list[i];
  }

  /** And of the last two of one start the first listed is empty. */
  lemma SameStartIsEmpty<T>(list: seq<Splice<T>>, i: nat, j: nat)
    requires Chained(Sort(list, false)) && LastTwo(list, i, j)
    ensures list[i].end <= list[i].start
  {
    var k := list[i].start;
    SortSplits(list, k, false);
    var front := SameEndsWith(list, i, j, k, false);
    PairInChain(Sort(Part(list, k, false, Under), false), front, list[i], list[j], Sort(Part(list, k, false, Over), false));
  }

  lemma PairInChain<T>(under: seq<Splice<T>>, front: seq<Splice<T>>, a: Splice<T>, b: Splice<T>, over: seq<Splice<T>>)
    requires Chained(under + (front + [a, b]) + over)
    ensures a.end <= b.start
  {
    var all, n := under + (front + [a, b]) + over, |under| + |front|;
    assert all[n] == a && all[n + 1] == b;
  }

  /** Two edits from one start: the copy puts the text of the first listed there, the other applier that of the second. */
  lemma SharedStartSplits<T>(text: seq<T>, list: seq<Splice<T>>, i: nat, j: nat, x: T, y: T)
    requires LastTwo(list, i, j) && list[i].end == list[i].start <= list[j].end <= |text| && list[i].start <= |text|
    requires list[i].text == [x] && list[j].text == [y]
    requires forall k :: 0 <= k < |list| && k != i && k != j ==> Idle(text, list[k])
    requires forall k :: 0 <= k < |list| && list[k].start < list[i].start ==> list[k].end <= list[i].start
    ensures var r := ReplaceAll(text, Sort(list, true));
      r.Some? && list[i].start < |r.value| && r.value[list[i].start] == y
    ensures var c := CopyFrom(text, Sort(list, false), 0, |text|);
      c.Some? ==> list[i].start < |c.value| && c.value[list[i].start] == x
  {
    RightmostShowsSecond(text, list, i, j, x, y);
    CopyShowsFirst(text, list, i, j, x);
  }

  lemma CopyShowsFirst<T>(text: seq<T>, list: seq<Splice<T>>, i: nat, j: nat, x: T)
    requires LastTwo(list, i, j) && list[i].start <= |text| && list[i].text == [x]
    requires forall k :: 0 <= k < |list| && k != i && k != j ==> Idle(text, list[k])
    ensures var c := CopyFrom(text, Sort(list, false), 0, |text|);
      c.Some? ==> list[i].start < |c.value| && c.value[list[i].start] == x
  {
    var k := list[i].start;
    SortSplits(list, k, false);
    var front := SameEndsWith(list, i, j, k, false);
    SideIsIdle(text, list, i, j, k, false, Under);
    SortedMembers(Part(list, k, false, Under), false);
    FrontIsIdle(text, list, i, j, front);
    CopyShowsMiddle(text, Sort(Part(list, k, false, Under), false), front, list[i], list[j],
                    Sort(Part(list, k, false, Over), false), x);
  }

  lemma CopyShowsMiddle<T>(text: seq<T>, under: seq<Splice<T>>, front: seq<Splice<T>>, a: Splice<T>, b: Splice<T>,
                           over: seq<Splice<T>>, x: T)
    requires forall e :: e in under || e in front ==> Idle(text, e) && e.start <= a.start
    requires a.text == [x]
    ensures var c := CopyFrom(text, under + (front + [a, b]) + over, 0, |text|);
      c.Some? ==> a.start < |c.value| && c.value[a.start] == x
  {
    assert under + (front + [a, b]) + over == (under + front) + [a] + ([b] + over);
    CopyShows(text, under + front, a, [b] + over, 0, x);
  }

  /** The edits of another start are neither of the two, so they are idle; so are those listed before the two. */
  lemma SideIsIdle<T>(text: seq<T>, list: seq<Splice<T>>, i: nat, j: nat, k: int, down: bool, side: Side)
    requires LastTwo(list, i, j) && k == Key(list[i], down) && side != Same
    requires forall m :: 0 <= m < |list| && m != i && m != j ==> Idle(text, list[m])
    ensures forall e :: e in Part(list, k, down, side) ==> Idle(text, e) && e in list
  {
    forall e | e in Part(list, k, down, side)
      ensures Idle(text, e) && e in list
    {
      var m :| 0 <= m < |list| && list[m] == e;
      assert SideOf(e, k, down) == side;
    }
  }

  lemma FrontIsIdle<T>(text: seq<T>, list: seq<Splice<T>>, i: nat, j: nat, front: seq<Splice<T>>)
    requires i < j < |list| && forall m :: 0 <= m < |list| && m != i && m != j ==> Idle(text, list[m])
    requires forall e :: e in front ==> e in list[..i] && e.start == list[i].start
    ensures forall e :: e in front ==> Idle(text, e)
  {
  }

  lemma RightmostShowsSecond<T>(text: seq<T>, list: seq<Splice<T>>, i: nat, j: nat, x: T, y: T)
    requires LastTwo(list, i, j) && list[i].end == list[i].start <= list[j].end <= |text| && list[i].start <= |text|
    requires list[i].text == [x] && list[j].text == [y]
    requires forall k :: 0 <= k < |list| && k != i && k != j ==> Idle(text, list[k])
    requires forall k :: 0 <= k < |list| && list[k].start < list[i].start ==> list[k].end <= list[i].start
    ensures var r := ReplaceAll(text, Sort(list, true));
      r.Some? && list[i].start < |r.value| && r.value[list[i].start] == y
  {
    var k := Key(list[i], true);
    SortSplits(list, k, true);
    var front := SameEndsWith(list, i, j, k, true);
    SideIsIdle(text, list, i, j, k, true, Under);
    SideIsIdle(text, list, i, j, k, true, Over);
    SortedMembers(Part(list, k, true, Under), true);
    SortedMembers(Part(list, k, true, Over), true);
    FrontIsIdle(text, list, i, j, front);
    LaterEnd(list, i, k);
    MiddleShows(text, Sort(Part(list, k, true, Under), true), front, list[i], list[j], Sort(Part(list, k, true, Over), true), x, y);
  }

  lemma LaterEnd<T>(list: seq<Splice<T>>, i: nat, k: int)
    requires i < |list| && k == Key(list[i], true)
    requires forall m :: 0 <= m < |list| && list[m].start < list[i].start ==> list[m].end <= list[i].start
    ensures forall e :: e in Part(list, k, true, Over) ==> e.end <= list[i].start
  {
    forall e | e in Part(list, k, true, Over)
      ensures e.end <= list[i].start
    {
      var m :| 0 <= m < |list| && list[m] == e;
      assert SideOf(e, k, true) == Over;
    }
  }

  lemma MiddleShows<T>(text: seq<T>, under: seq<Splice<T>>, front: seq<Splice<T>>, a: Splice<T>, b: Splice<T>,
                       over: seq<Splice<T>>, x: T, y: T)
    requires forall e :: e in under || e in front || e in over ==> Idle(text, e)
    requires forall e :: e in over ==> e.end <= a.start
    requires a.start == a.end == b.start <= b.end <= |text| && a.text == [x] && b.text == [y]
    ensures var r := ReplaceAll(text, under + (front + [a, b]) + over);
      r.Some? && a.start < |r.value| && r.value[a.start] == y
  {
    var idle := under + front;
    assert text[..|text|] == text;
    IdleChangesNothing(text, text, [], idle, |text|);
    assert [] + idle == idle;
    var t := TwoAtOnce(text, idle, a, b, x, y);
    Associates(under, front, [a, b], over);
    IdleChangesNothing(text, t, idle + [a, b], over, a.start);
  }

  lemma Associates<T>(a: seq<T>, b: seq<T>, c: seq<T>, d: seq<T>)
    ensures a + (b + c) + d == (a + b + c) + d
  {
    assert a + (b + c) == a + b + c;
  }

  lemma TwoAtOnce<T>(text: seq<T>, idle: seq<Splice<T>>, a: Splice<T>, b: Splice<T>, x: T, y: T) returns (t: seq<T>)
    requires ReplaceAll(text, idle) == Some(text)
    requires a.start == a.end == b.start <= b.end <= |text| && a.text == [x] && b.text == [y]
    ensures ReplaceAll(text, idle + [a, b]) == Some(t) && a.start < |t| && t[a.start] == y && t[..a.start] == text[..a.start]
  {
    var one := text[..a.start] + [x] + text[a.start..];
    ReplaceLast(text, idle, a);
    assert idle + [a, b] == idle + [a] + [b];
    ReplaceLast(text, idle + [a], b);
    t := one[..a.start] + [y] + one[b.end..];
  }

  /** If some two ranges share a start, take the last two of one start. */
  lemma {:induction false} FindLastTwo<T>(xs: seq<Splice<T>>, a: nat, b: nat) returns (i: nat, j: nat)
    requires a < b < |xs| && xs[a].start == xs[b].start
    ensures LastTwo(xs, i, j)
    decreases |xs| - b, b - a
  {
    if k :| b < k < |xs| && xs[k].start == xs[a].start {
      i, j := FindLastTwo(xs, b, k);
    } else if k :| a < k < b && xs[k].start == xs[a].start {
      i, j := FindLastTwo(xs, k, b);
    } else {
      i, j := a, b;
    }
  }

  /** Two edits of the list swapped for others. */
  function OtherTexts<T>(texts: seq<seq<T>>, i: nat, j: nat, x: T, y: T): (r: seq<seq<T>>)
    requires i < j < |texts|
    ensures |r| == |texts| && r[i] == [x] && r[j] == [y] && forall k :: 0 <= k < |r| && k != i && k != j ==> r[k] == texts[k]
  {
    texts[i := [x]][j := [y]]
  }

  /** So if even idle edits agree, two ranges from one start can be given texts that do not. */
  lemma SharedStartDisagree<T>(text: seq<T>, ranges: seq<Range>, a: nat, b: nat, x: T, y: T) returns (texts: seq<seq<T>>)
    requires x != y && InBounds(ranges, |text|) && a < b < |ranges| && ranges[a].start == ranges[b].start
    requires Chained(Sort(WithTexts(ranges, OwnTexts(text, ranges)), false))
    ensures |texts| == |ranges| && !Agree(text, WithTexts(ranges, texts))
  {
    var own := WithTexts(ranges, OwnTexts(text, ranges));
    var i, j := FindLastTwo(own, a, b);
    SameStartIsEmpty(own, i, j);
    texts := OtherTexts(OwnTexts(text, ranges), i, j, x, y);
    var list := WithTexts(ranges, texts);
    forall k | 0 <= k < |list| && list[k].start < list[i].start
      ensures list[k].end <= list[i].start
    {
      ChainSeparates(own, k, i);
    }
    SameStarts(own, list, i, j);
    SharedStartSplits(text, list, i, j, x, y);
  }

  lemma SameStarts<T>(own: seq<Splice<T>>, list: seq<Splice<T>>, i: nat, j: nat)
    requires LastTwo(own, i, j) && |own| == |list| && forall k :: 0 <= k < |list| ==> list[k].start == own[k].start
    ensures LastTwo(list, i, j)
  {
  }

  lemma IdleAgreementSeparates<T>(text: seq<T>, ranges: seq<Range>, a: nat, b: nat)
    requires InBounds(ranges, |text|) && a < b < |ranges|
    requires Chained(Sort(WithTexts(ranges, OwnTexts(text, ranges)), false))
    ensures ranges[a].start == ranges[b].start || ranges[a].end <= ranges[b].start || ranges[b].end <= ranges[a].start
  {
    var list := WithTexts(ranges, OwnTexts(text, ranges));
    if list[a].start < list[b].start {
      ChainSeparates(list, a, b);
    } else if list[b].start < list[a].start {
      ChainSeparates(list, b, a);
    }
  }

  lemma AgreementNeedsApart<T(!new)>(text: seq<T>, ranges: seq<Range>, x: T, y: T)
    requires x != y && InBounds(ranges, |text|) && AgreeForAllTexts(text, ranges)
    ensures AllApart(ranges)
  {
    var own := OwnTexts(text, ranges);
    assert Agree(text, WithTexts(ranges, own));
    IdleCopies(text, WithTexts(ranges, own));
    forall a, b | 0 <= a < b < |ranges|
      ensures ranges[a].start != ranges[b].start
      ensures ranges[a].end <= ranges[b].start || ranges[b].end <= ranges[a].start
    {
      IdleAgreementSeparates(text, ranges, a, b);
      if ranges[a].start == ranges[b].start {
        var texts := SharedStartDisagree(text, ranges, a, b, x, y);
        assert false;
      }
    }
  }

  lemma ApartAgrees<T>(text: seq<T>, ranges: seq<Range>, texts: seq<seq<T>>)
    requires InBounds(ranges, |text|) && AllApart(ranges) && |texts| == |ranges|
    ensures Agree(text, WithTexts(ranges, texts))
  {
    AppliersAgree(text, WithTexts(ranges, texts));
  }

  /** Over an alphabet of at least two, the two appliers agree for all replacement texts exactly if the ranges are disjoint
      and no two start together. */
  lemma AgreeForAllTextsIff<T(!new)>(text: seq<T>, ranges: seq<Range>, x: T, y: T)
    requires x != y && InBounds(ranges, |text|)
    ensures AgreeForAllTexts(text, ranges) <==> AllApart(ranges)
  {
    if AgreeForAllTexts(text, ranges) {
      AgreementNeedsApart(text, ranges, x, y);
    }
    if AllApart(ranges) {
      forall texts: seq<seq<T>> | |texts| == |ranges|
        ensures Agree(text, WithTexts(ranges, texts))
      {
        ApartAgrees(text, ranges, texts);
      }
    }
  }

  /** For an insertion and a replacement: exactly if the insertion is neither inside the replaced range nor at its start. */
  lemma InsertAndReplaceAgreeIff<T(!new)>(text: seq<T>, at: nat, start: nat, end: nat, x: T, y: T)
    requires x != y && start <= end <= |text| && at <= |text|
    ensures (forall ins: seq<T>, rep: seq<T> :: Agree(text, InsertAndReplace(at, ins, start, end, rep)))
       <==> at < start || (end <= at && at != start)
  {
    var ranges := [Range(at, at), Range(start, end)];
    AgreeForAllTextsIff(text, ranges, x, y);
    PairApart(ranges, at, start, end);
    if AgreeForAllTexts(text, ranges) {
      forall ins: seq<T>, rep: seq<T>
        ensures Agree(text, InsertAndReplace(at, ins, start, end, rep))
      {
        PairTexts(ranges, [ins, rep], at, start, end);
      }
    }
    if forall ins: seq<T>, rep: seq<T> :: Agree(text, InsertAndReplace(at, ins, start, end, rep)) {
      forall texts: seq<seq<T>> | |texts| == |ranges|
        ensures Agree(text, WithTexts(ranges, texts))
      {
        PairTexts(ranges, texts, at, start, end);
      }
    }
  }

  lemma PairApart(ranges: seq<Range>, at: nat, start: nat, end: nat)
    requires ranges == [Range(at, at), Range(start, end)] && start <= end
    ensures AllApart(ranges) <==> at < start || (end <= at && at != start)
  {
    assert ranges[0] == Range(at, at) && ranges[1] == Range(start, end);
  }

  lemma PairTexts<T>(ranges: seq<Range>, texts: seq<seq<T>>, at: nat, start: nat, end: nat)
    requires ranges == [Range(at, at), Range(start, end)] && |texts| == 2
    ensures WithTexts(ranges, texts) == InsertAndReplace(at, texts[0], start, end, texts[1])
  {
  }

  /* Where the caret is. */

  lemma PairReplaced<T>(text: seq<T>, edits: seq<Splice<T>>, a: Splice<T>, b: Splice<T>)
    requires edits == [a, b]
    ensures ReplaceAll(text, Sort(edits, true)) == ReplaceTwo(text, if a.start >= b.start then a else b, if a.start >= b.start then b else a)
  {
    SortPair(a, b, true);
    PairInOrder(text, a, b);
    PairInOrder(text, b, a);
  }

  function ReplaceTwo<T>(text: seq<T>, first: Splice<T>, second: Splice<T>): Option<seq<T>> {
    match ReplaceRange(text, first)
    case Some(t) => ReplaceRange(t, second)
    case None => None
  }

  lemma PairInOrder<T>(text: seq<T>, first: Splice<T>, second: Splice<T>)
    ensures ReplaceAll(text, [first, second]) == ReplaceTwo(text, first, second)
  {
    assert [first, second] == [] + [first] + [second];
    ReplaceLast(text, [], first);
    ReplaceLast(text, [] + [first], second);
  }

  lemma EditsMade<T>(text: seq<T>, at: nat, ins: seq<T>, start: nat, end: nat, rep: seq<T>)
    ensures var a, b := Splice(at, at, ins), Splice(start, end, rep);
      ReplaceAll(text, Sort(InsertAndReplace(at, ins, start, end, rep), true))
        == ReplaceTwo(text, if at >= start then a else b, if at >= start then b else a)
  {
    PairReplaced(text, InsertAndReplace(at, ins, start, end, rep), Splice(at, at, ins), Splice(start, end, rep));
  }

  lemma EditsMadeAs<T>(text: seq<T>, at: nat, ins: seq<T>, start: nat, end: nat, rep: seq<T>, made: Option<seq<T>>)
    requires var a, b := Splice(at, at, ins), Splice(start, end, rep);
      ReplaceTwo(text, if at >= start then a else b, if at >= start then b else a) == made
    ensures ReplaceAll(text, Sort(InsertAndReplace(at, ins, start, end, rep), true)) == made
  {
    EditsMade(text, at, ins, start, end, rep);
  }

  lemma EditsShift<T>(at: nat, ins: seq<T>, start: nat, end: nat, rep: seq<T>)
    ensures Shift(InsertAndReplace(at, ins, start, end, rep), start)
         == (if at <= start then |ins| else 0) + if end <= start then |rep| - (end - start) else 0
  {
    ShiftPair(Splice(at, at, ins), Splice(start, end, rep), start);
  }

  /** What the two edits make of the text one after the other, and where the start ends up, say whether the caret is right. */
  lemma CaretOf<T>(text: seq<T>, at: nat, ins: seq<T>, start: nat, end: nat, rep: seq<T>, made: Option<seq<T>>, caret: int)
    requires var a, b := Splice(at, at, ins), Splice(start, end, rep);
      ReplaceTwo(text, if at >= start then a else b, if at >= start then b else a) == made
    requires caret == start + (if at <= start then |ins| else 0) + if end <= start then |rep| - (end - start) else 0
    ensures CaretOn(text, at, ins, start, end, rep) <==> Stands(made, caret, rep)
  {
    EditsMadeAs(text, at, ins, start, end, rep, made);
    EditsShift(at, ins, start, end, rep);
    CaretSays(text, at, ins, start, end, rep, made, caret);
  }

  lemma CaretSays<T>(text: seq<T>, at: nat, ins: seq<T>, start: nat, end: nat, rep: seq<T>, made: Option<seq<T>>, caret: int)
    requires ReplaceAll(text, Sort(InsertAndReplace(at, ins, start, end, rep), true)) == made
    requires start + Shift(InsertAndReplace(at, ins, start, end, rep), start) == caret
    ensures CaretOn(text, at, ins, start, end, rep) <==> Stands(made, caret, rep)
  {
  }

  /** Even an insertion inside the replaced range, which it overwrites, leaves the caret right. */
  lemma CaretOverInsertion<T>(text: seq<T>, at: nat, ins: seq<T>, start: nat, end: nat, rep: seq<T>)
    requires start < at < end <= |text|
    ensures CaretOn(text, at, ins, start, end, rep)
  {
    var made := ReplaceTwo(text, Splice(at, at, ins), Splice(start, end, rep));
    SecondStands(text, Splice(at, at, ins), Splice(start, end, rep));
    CaretOf(text, at, ins, start, end, rep, made, start);
  }

  lemma SecondStands<T>(text: seq<T>, a: Splice<T>, b: Splice<T>)
    requires b.start < a.start == a.end < b.end <= |text|
    ensures Stands(ReplaceTwo(text, a, b), b.start, b.text)
  {
    var t := text[..a.start] + a.text + text[a.end..];
    Middle(t[..b.start], b.text, t[b.end..]);
  }

  /** With a shared start it is `ins` too far. */
  lemma CaretPastReplacement<T>(text: seq<T>, start: nat, end: nat, x: T, y: T)
    requires start < end <= |text| && y != text[end - 1]
    ensures !CaretOn(text, start, [x], start, end, [y])
  {
    OverwritesInserted(text, start, [x], end, [y]);
    AfterOverwritten(text, start, end, x, y);
    CaretOf(text, start, [x], start, end, [y], Some(text[..start] + [y] + ([x] + text[start..])[end - start..]), start + 1);
  }

  lemma AfterOverwritten<T>(text: seq<T>, start: nat, end: nat, x: T, y: T)
    requires start < end <= |text|
    ensures var r := text[..start] + [y] + ([x] + text[start..])[end - start..];
      y != text[end - 1] ==> !Stands(Some(r), start + 1, [y])
  {
    var back := ([x] + text[start..])[end - start..];
    assert back[0] == ([x] + text[start..])[end - start] == text[start..][end - start - 1] == text[end - 1];
    var r := text[..start] + [y] + back;
    assert r[start + 1] == back[0] && r[start + 1..start + 2][0] == r[start + 1];
  }

  /** And a replacement of nothing counts towards its own shift. */
  lemma CaretPastInsertedText<T>(text: seq<T>, at: nat, start: nat, z: T)
    requires start <= |text| && at <= |text| && (start < |text| ==> z != text[start])
    ensures !CaretOn(text, at, [], start, start, [z])
  {
    InsertedOnce(text, at, start, z);
    NotBehind(text, start, z);
    CaretOf(text, at, [], start, start, [z], Some(text[..start] + [z] + text[start..]), start + 1);
  }

  lemma NotBehind<T>(text: seq<T>, start: nat, z: T)
    requires start <= |text| && (start < |text| ==> z != text[start])
    ensures !Stands(Some(text[..start] + [z] + text[start..]), start + 1, [z])
  {
    var r := text[..start] + [z] + text[start..];
    assert start + 2 <= |r| ==> r[start + 1..start + 2][0] == r[start + 1] == text[start];
  }

  lemma InsertedOnce<T>(text: seq<T>, at: nat, start: nat, z: T)
    requires start <= |text| && at <= |text|
    ensures var none, one := Splice(at, at, []), Splice(start, start, [z]);
      ReplaceTwo(text, if at >= start then none else one, if at >= start then one else none)
        == Some(text[..start] + [z] + text[start..])
  {
    var r := text[..start] + [z] + text[start..];
    assert text[..at] + [] + text[at..] == text;
    assert at < start ==> r[..at] + [] + r[at..] == r;
  }

  /** The caret is on the replacement, whatever the texts, exactly if something is replaced and the insertion is not at the
      replaced range's start. */
  lemma CaretIsOnReplacementIff<T(!new)>(text: seq<T>, at: nat, start: nat, end: nat, x: T, y: T)
    requires x != y && start <= end <= |text| && at <= |text|
    ensures (forall ins: seq<T>, rep: seq<T> :: CaretOn(text, at, ins, start, end, rep)) <==> start < end && at != start
  {
    if start == end {
      CaretPastInsertedText(text, at, start, if start < |text| && x == text[start] then y else x);
    } else if at == start {
      CaretPastReplacement(text, start, end, x, if x == text[end - 1] then y else x);
    } else {
      forall ins: seq<T>, rep: seq<T>
        ensures CaretOn(text, at, ins, start, end, rep)
      {
        if start < at < end {
          CaretOverInsertion(text, at, ins, start, end, rep);
        } else {
          CaretIsOnReplacement(text, at, ins, start, end, rep);
        }
      }
    }
  }
}
