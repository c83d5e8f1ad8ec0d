/** Semantic tokens (src/semantic_tokens/mod.rs, src/bin/witcherscript-lsp/semantic_tokens_cache.rs): collected in one
    traversal, encoded as deltas, and sent as an edit of what was sent before. */
module SemanticTokens {
  import opened Wrappers
  import opened LineIndex
  import opened Walk

  datatype RawToken = RawToken(line: nat, start: nat, length: nat, tokenType: nat, modifiers: nat)

  /** A node's bytes, and how it is classified, if it is. */
  datatype NodeInfo = NodeInfo(start: nat, end: nat, named: bool, class_: Option<(nat, nat)>)

  /* Collecting. */

  function TokenOf(source: string, info: NodeInfo, class_: (nat, nat)): Option<RawToken> {
    match ByteToPosition(source, LineStarts(source), info.start)
    case None => None
    case Some(p) => match ByteToPosition(source, LineStarts(source), info.end)
      case None => None
      case Some(q) =>
        if p.line == q.line && q.character > p.character
        then Some(RawToken(p.line, p.character, q.character - p.character, class_.0, class_.1))
        else None
  }

  /** `TokenCollector::enter`. */
  function EnterToken(source: string, from: nat, to: nat, tokens: seq<RawToken>, info: NodeInfo): (seq<RawToken>, bool) {
    if info.end <= from || info.start >= to then (tokens, false)
    else match info.class_
      case Some(c) => ((match TokenOf(source, info, c) case Some(t) => tokens + [t] case None => tokens), false)
      case None => (tokens, info.named)
  }

  function TokenCollector(source: string, from: nat, to: nat): Visitor<seq<RawToken>, NodeInfo> {
    Visitor(
      (tokens: seq<RawToken>, t: Tree<NodeInfo>) => EnterToken(source, from, to, tokens, t.info),
      (tokens: seq<RawToken>, t: Tree<NodeInfo>) => tokens)
  }

  /** Every node starts and ends on a character boundary, and the children of a node lie inside it one after another. */
  ghost predicate Placed(source: string, t: Tree<NodeInfo>)
    decreases t, 1
  {
    && t.info.start <= t.info.end
    && IndexOf(source, t.info.start).Some? && IndexOf(source, t.info.end).Some?
    && PlacedAll(source, t.children, t.info.start, t.info.end)
  }

  ghost predicate PlacedAll(source: string, ts: seq<Tree<NodeInfo>>, from: nat, to: nat)
    decreases ts, 0
  {
    if ts == [] then from <= to
    else from <= ts[0].info.start && Placed(source, ts[0]) && PlacedAll(source, ts[1..], ts[0].info.end, to)
  }

  /** Each token ends before the next starts. */
  predicate Ordered(tokens: seq<RawToken>) {
    && (forall i :: 0 <= i < |tokens| ==> tokens[i].length > 0)
    && forall i :: 0 <= i < |tokens| - 1 ==> EndsBy(tokens[i], Position(tokens[i + 1].line, tokens[i + 1].start))
  }

  predicate EndsBy(t: RawToken, p: Position) {
    t.line < p.line || (t.line == p.line && t.start + t.length <= p.character)
  }

  /** The tokens so far are in order and end by the position of this byte. */
  ghost predicate Upto(source: string, tokens: seq<RawToken>, byte: nat) {
    Ordered(tokens) && IndexOf(source, byte).Some?
    && (tokens != [] ==> EndsBy(tokens[|tokens| - 1], At(source, IndexOf(source, byte).value)))
  }

  lemma UptoLater(source: string, tokens: seq<RawToken>, a: nat, b: nat)
    requires Upto(source, tokens, a) && a <= b && IndexOf(source, b).Some?
    ensures Upto(source, tokens, b)
  {
    var i, j := IndexOf(source, a).value, IndexOf(source, b).value;
    if i < j {
      PositionsIncrease(source, i, j);
    } else if j < i {
      PrefixGrows(source, j, i);
    }
  }

  lemma {:induction false} UnitsWithinBytes(s: string)
    ensures Units(s) <= Bytes(s) && |CharStarts(s)| <= Bytes(s) + 1
  {
    if s != "" {
      UnitsWithinBytes(s[..|s| - 1]);
    }
  }

  lemma SliceFits(s: string, i: nat, k: nat)
    requires i <= k <= |s|
    ensures Units(s[i..k]) <= Bytes(s) && |CharStarts(s[..k])| <= Bytes(s) + 1
  {
    UnitsWithinBytes(s[i..k]);
    UnitsWithinBytes(s[..k]);
    LineCut(s, i, k, k - i);
    PrefixFits(s, k);
  }

  lemma PrefixFits(s: string, k: nat)
    requires k <= |s|
    ensures Bytes(s[..k]) <= Bytes(s)
  {
    SumsConcat(s[..k], s[k..]);
    assert s == s[..k] + s[k..];
  }

  /** In a text of less than 4 GiB no position is clamped. */
  lemma SmallTextFits(s: string, k: nat)
    requires Bytes(s) <= U32_MAX && k <= |s|
    ensures Row(s, k) <= U32_MAX && Column(s, k) <= U32_MAX
  {
    SliceFits(s, RowStart(s, k), k);
  }

  lemma PositionOf(source: string, byte: nat)
    requires Bytes(source) <= U32_MAX && IndexOf(source, byte).Some?
    ensures ByteToPosition(source, LineStarts(source), byte) == Some(At(source, IndexOf(source, byte).value))
  {
    var k := IndexOf(source, byte).value;
    ByteToPositionIs(source, k);
    SmallTextFits(source, k);
  }

  /** A token lies between the positions of its node's ends. */
  lemma TokenIsBetween(source: string, info: NodeInfo, class_: (nat, nat))
    requires Bytes(source) <= U32_MAX && IndexOf(source, info.start).Some? && IndexOf(source, info.end).Some?
    ensures var t := TokenOf(source, info, class_);
      t.Some? ==>
        && t.value.length > 0 && EndsBy(t.value, At(source, IndexOf(source, info.end).value))
        && Position(t.value.line, t.value.start) == At(source, IndexOf(source, info.start).value)
  {
    PositionOf(source, info.start);
    PositionOf(source, info.end);
  }

  lemma PushKeepsOrder(source: string, tokens: seq<RawToken>, t: RawToken, start: nat, end: nat)
    requires Upto(source, tokens, start) && IndexOf(source, end).Some? && t.length > 0
    requires Position(t.line, t.start) == At(source, IndexOf(source, start).value)
    requires EndsBy(t, At(source, IndexOf(source, end).value))
    ensures Upto(source, tokens + [t], end)
  {
  }

  lemma EnterKeepsOrder(source: string, from: nat, to: nat, tokens: seq<RawToken>, info: NodeInfo)
    requires Bytes(source) <= U32_MAX && Upto(source, tokens, info.start)
    requires info.start <= info.end && IndexOf(source, info.end).Some?
    ensures var (after, descend) := EnterToken(source, from, to, tokens, info);
      if descend then after == tokens else Upto(source, after, info.end)
  {
    UptoLater(source, tokens, info.start, info.end);
    if info.class_.Some? {
      var t := TokenOf(source, info, info.class_.value);
      TokenIsBetween(source, info, info.class_.value);
      if t.Some? {
        PushKeepsOrder(source, tokens, t.value, info.start, info.end);
      }
    }
  }

  lemma {:induction false} TraverseKeepsOrder(source: string, from: nat, to: nat, t: Tree<NodeInfo>, tokens: seq<RawToken>)
    requires Bytes(source) <= U32_MAX && Placed(source, t) && Upto(source, tokens, t.info.start)
    ensures Upto(source, Traverse(TokenCollector(source, from, to), t, tokens), t.info.end)
    decreases t, 1
  {
    EnterKeepsOrder(source, from, to, tokens, t.info);
    if EnterToken(source, from, to, tokens, t.info).1 {
      TraverseAllKeepsOrder(source, from, to, t.children, t.info.start, t.info.end, tokens);
    }
  }

  lemma {:induction false} TraverseAllKeepsOrder(
      source: string, from: nat, to: nat, ts: seq<Tree<NodeInfo>>, start: nat, end: nat, tokens: seq<RawToken>)
    requires Bytes(source) <= U32_MAX && PlacedAll(source, ts, start, end) && Upto(source, tokens, start)
    requires IndexOf(source, end).Some?
    ensures Upto(source, TraverseAll(TokenCollector(source, from, to), ts, tokens), end)
    decreases ts, 0
  {
    if ts == [] {
      UptoLater(source, tokens, start, end);
    } else {
      UptoLater(source, tokens, start, ts[0].info.start);
      TraverseKeepsOrder(source, from, to, ts[0], tokens);
      TraverseAllKeepsOrder(source, from, to, ts[1..], ts[0].info.end, end,
                            Traverse(TokenCollector(source, from, to), ts[0], tokens));
    }
  }

  /** The tokens of a document: those of the root's children, one child after another. */
  function Collect(source: string, from: nat, to: nat, root: Tree<NodeInfo>): seq<RawToken> {
    TraverseAll(TokenCollector(source, from, to), root.children, [])
  }

  /** Whatever the classification, the tokens come out in order, none overlapping the next. */
  lemma CollectedAreOrdered(source: string, from: nat, to: nat, root: Tree<NodeInfo>)
    requires Bytes(source) <= U32_MAX && Placed(source, root)
    ensures Ordered(Collect(source, from, to, root))
  {
    TraverseAllKeepsOrder(source, from, to, root.children, root.info.start, root.info.end, []);
  }

  /* Encoding. */

  /** `encode` from a given previous position; None where a subtraction would underflow. */
  function EncodeFrom(tokens: seq<RawToken>, prevLine: nat, prevStart: nat): Option<seq<nat>> {
    if tokens == [] then Some([])
    else
      var t := tokens[0];
      if t.line < prevLine || (t.line == prevLine && t.start < prevStart) then None
      else match EncodeFrom(tokens[1..], t.line, t.start)
        case None => None
        case Some(rest) =>
          Some([t.line - prevLine, if t.line == prevLine then t.start - prevStart else t.start,
                t.length, t.tokenType, t.modifiers] + rest)
  }

  method Encode(tokens: seq<RawToken>) returns (encoded: Option<seq<nat>>)
    ensures encoded == EncodeFrom(tokens, 0, 0)
  {
    var out: seq<nat>, prevLine: nat, prevStart: nat := [], 0, 0;
    assert tokens[0..] == tokens;
    ghost var all := EncodeFrom(tokens, 0, 0);
    assert all.Some? ==> [] + all.value == all.value;
    for i := 0 to |tokens|
      invariant EncodeFrom(tokens, 0, 0) == match EncodeFrom(tokens[i..], prevLine, prevStart)
                                            case Some(rest) => Some(out + rest)
                                            case None => None
    {
      var t := tokens[i];
      assert tokens[i..][1..] == tokens[i + 1..];
      if t.line < prevLine || (t.line == prevLine && t.start < prevStart) {
        return None;
      }
      var deltaLine := t.line - prevLine;
      var deltaStart := if deltaLine == 0 then t.start - prevStart else t.start;
      ghost var before := out;
      out := out + [deltaLine, deltaStart, t.length, t.tokenType, t.modifiers];
      ghost var rest := EncodeFrom(tokens[i + 1..], t.line, t.start);
      if rest.Some? {
        assert before + ([deltaLine, deltaStart, t.length, t.tokenType, t.modifiers] + rest.value) == out + rest.value;
      }
      prevLine, prevStart := t.line, t.start;
    }
    assert out + [] == out;
    encoded := Some(out);
  }

  /** What a client makes of the data: the positions added up again. */
  function DecodeFrom(data: seq<nat>, prevLine: nat, prevStart: nat): seq<RawToken> {
    if |data| < 5 then []
    else
      var line := prevLine + data[0];
      var start := if data[0] == 0 then prevStart + data[1] else data[1];
      [RawToken(line, start, data[2], data[3], data[4])] + DecodeFrom(data[5..], line, start)
  }

  predicate NonDecreasing(tokens: seq<RawToken>, prevLine: nat, prevStart: nat) {
    tokens == []
    || ((prevLine < tokens[0].line || (prevLine == tokens[0].line && prevStart <= tokens[0].start))
        && NonDecreasing(tokens[1..], tokens[0].line, tokens[0].start))
  }

  /** Encoding underflows exactly on tokens out of order. */
  lemma {:induction false} EncodeDefinedIff(tokens: seq<RawToken>, prevLine: nat, prevStart: nat)
    ensures EncodeFrom(tokens, prevLine, prevStart).Some? <==> NonDecreasing(tokens, prevLine, prevStart)
    ensures EncodeFrom(tokens, prevLine, prevStart).Some? ==>
      |EncodeFrom(tokens, prevLine, prevStart).value| == 5 * |tokens|
  {
    if tokens != [] {
      EncodeDefinedIff(tokens[1..], tokens[0].line, tokens[0].start);
    }
  }

  /** The five numbers from `i` on say that `t` is so many lines down from `line`, so far right of `start` or, on a new line, of
      the line's start, and then its length, type and modifiers. */
  predicate Says(data: seq<nat>, i: nat, line: nat, start: nat, t: RawToken) {
    && i + 5 <= |data| && line + data[i] == t.line && (if data[i] == 0 then start else 0) + data[i + 1] == t.start
    && data[i + 2] == t.length && data[i + 3] == t.tokenType && data[i + 4] == t.modifiers
  }

  /** Each token is told from the one before it, the first from the position given. */
  lemma {:induction false} EncodedAt(tokens: seq<RawToken>, prevLine: nat, prevStart: nat, k: nat)
    requires EncodeFrom(tokens, prevLine, prevStart).Some? && k < |tokens|
    ensures Says(EncodeFrom(tokens, prevLine, prevStart).value, 5 * k,
                 if k == 0 then prevLine else tokens[k - 1].line, if k == 0 then prevStart else tokens[k - 1].start, tokens[k])
    decreases |tokens|
  {
    var t := tokens[0];
    var rest := EncodedFirst(tokens, prevLine, prevStart);
    if k > 0 {
      EncodedAt(tokens[1..], t.line, t.start, k - 1);
      var before := if k == 1 then t else tokens[1..][k - 2];
      assert before == tokens[k - 1];
      Behind(EncodeFrom(tokens, prevLine, prevStart).value, rest, 5 * (k - 1), before.line, before.start, tokens[k]);
    }
  }

  /** The first five numbers, and that the others encode the rest. */
  lemma {:induction false} EncodedFirst(tokens: seq<RawToken>, prevLine: nat, prevStart: nat) returns (rest: seq<nat>)
    requires EncodeFrom(tokens, prevLine, prevStart).Some? && tokens != []
    ensures var data, t := EncodeFrom(tokens, prevLine, prevStart).value, tokens[0];
      && Says(data, 0, prevLine, prevStart, t) && data[5..] == rest && EncodeFrom(tokens[1..], t.line, t.start) == Some(rest)
  {
    rest := EncodeFrom(tokens[1..], tokens[0].line, tokens[0].start).value;
  }

  lemma {:induction false} Behind(data: seq<nat>, rest: seq<nat>, i: nat, line: nat, start: nat, t: RawToken)
    requires |data| >= 5 && data[5..] == rest && Says(rest, i, line, start, t)
    ensures Says(data, i + 5, line, start, t)
  {
  }

  /** Decoding undoes encoding, and encoding undoes decoding. */
  lemma {:induction false} DecodeUndoesEncode(tokens: seq<RawToken>, prevLine: nat, prevStart: nat)
    requires EncodeFrom(tokens, prevLine, prevStart).Some?
    ensures DecodeFrom(EncodeFrom(tokens, prevLine, prevStart).value, prevLine, prevStart) == tokens
  {
    if tokens != [] {
      DecodeUndoesEncode(tokens[1..], tokens[0].line, tokens[0].start);
      assert EncodeFrom(tokens, prevLine, prevStart).value[5..]
          == EncodeFrom(tokens[1..], tokens[0].line, tokens[0].start).value;
    }
  }

  lemma {:induction false} EncodeUndoesDecode(data: seq<nat>, prevLine: nat, prevStart: nat)
    requires |data| % 5 == 0
    ensures EncodeFrom(DecodeFrom(data, prevLine, prevStart), prevLine, prevStart) == Some(data)
    decreases |data|
  {
    if data != [] {
      var line := prevLine + data[0];
      var start := if data[0] == 0 then prevStart + data[1] else data[1];
      EncodeUndoesDecode(data[5..], line, start);
      var rest := DecodeFrom(data[5..], line, start);
      assert DecodeFrom(data, prevLine, prevStart)[1..] == rest;
      assert data == data[..5] + data[5..];
      assert data[..5] == [data[0], data[1], data[2], data[3], data[4]];
    }
  }

  lemma {:induction false} OrderedIsNonDecreasing(tokens: seq<RawToken>, prevLine: nat, prevStart: nat)
    requires Ordered(tokens)
    requires tokens != [] ==> prevLine < tokens[0].line || (prevLine == tokens[0].line && prevStart <= tokens[0].start)
    ensures NonDecreasing(tokens, prevLine, prevStart)
    decreases |tokens|
  {
    if |tokens| > 1 {
      assert EndsBy(tokens[0], Position(tokens[1].line, tokens[1].start));
      forall i | 0 <= i < |tokens[1..]| - 1
        ensures EndsBy(tokens[1..][i], Position(tokens[1..][i + 1].line, tokens[1..][i + 1].start))
      {
        assert EndsBy(tokens[i + 1], Position(tokens[i + 2].line, tokens[i + 2].start));
      }
      OrderedIsNonDecreasing(tokens[1..], tokens[0].line, tokens[0].start);
    }
  }

  /** What is collected can always be encoded, and decodes to what was collected. */
  lemma CollectedRoundTrip(source: string, from: nat, to: nat, root: Tree<NodeInfo>)
    requires Bytes(source) <= U32_MAX && Placed(source, root)
    ensures var data := EncodeFrom(Collect(source, from, to, root), 0, 0);
      data.Some? && |data.value| % 5 == 0 && DecodeFrom(data.value, 0, 0) == Collect(source, from, to, root)
  {
    var tokens := Collect(source, from, to, root);
    CollectedAreOrdered(source, from, to, root);
    OrderedIsNonDecreasing(tokens, 0, 0);
    EncodeDefinedIff(tokens, 0, 0);
    DecodeUndoesEncode(tokens, 0, 0);
  }

  /* Sending the difference. */

  datatype SemanticToken = SemanticToken(deltaLine: nat, deltaStart: nat, length: nat, tokenType: nat, modifiers: nat)

  datatype Edit = Edit(start: nat, deleteCount: nat, data: seq<SemanticToken>)

  /** `semantic_token_structs`: the data in chunks of five. */
  function Structs(data: seq<nat>): (r: seq<SemanticToken>)
    ensures 5 * |r| <= |data| < 5 * |r| + 5
  {
    if |data| < 5 then []
    else [SemanticToken(data[0], data[1], data[2], data[3], data[4])] + Structs(data[5..])
  }

  function Flatten(tokens: seq<SemanticToken>): (r: seq<nat>)
    ensures |r| == 5 * |tokens|
  {
    if tokens == [] then []
    else
      var t := tokens[0];
      [t.deltaLine, t.deltaStart, t.length, t.tokenType, t.modifiers] + Flatten(tokens[1..])
  }

  /** How far the two agree from the front, `i` being as far as has been seen. */
  function PrefixFrom(a: seq<SemanticToken>, b: seq<SemanticToken>, i: nat): (n: nat)
    requires i <= |a| && i <= |b|
    ensures i <= n <= |a| && n <= |b| && (forall k :: i <= k < n ==> a[k] == b[k])
    ensures n < |a| && n < |b| ==> a[n] != b[n]
    decreases |a| - i
  {
    if i < |a| && i < |b| && a[i] == b[i] then PrefixFrom(a, b, i + 1) else i
  }

  /** The same from the back, for at most `limit` tokens. */
  function SuffixFrom(a: seq<SemanticToken>, b: seq<SemanticToken>, limit: nat, i: nat): (n: nat)
    requires i <= limit <= |a| && limit <= |b|
    ensures i <= n <= limit && (forall m :: |a| - n <= m < |a| - i ==> a[m] == b[m + |b| - |a|])
    ensures n < limit ==> a[|a| - 1 - n] != b[|b| - 1 - n]
    decreases limit - i
  {
    if i < limit && a[|a| - 1 - i] == b[|b| - 1 - i] then SuffixFrom(a, b, limit, i + 1) else i
  }

  function CommonPrefix(a: seq<SemanticToken>, b: seq<SemanticToken>): (n: nat)
    ensures n <= |a| && n <= |b|
  {
    PrefixFrom(a, b, 0)
  }

  function CommonSuffix(a: seq<SemanticToken>, b: seq<SemanticToken>): (n: nat)
    ensures n + CommonPrefix(a, b) <= |a| && n + CommonPrefix(a, b) <= |b|
  {
    SuffixFrom(a, b, (if |a| < |b| then |a| else |b|) - CommonPrefix(a, b), 0)
  }

  /** `semantic_token_edits`. */
  function Edits(previous: seq<nat>, current: seq<nat>): seq<Edit> {
    EditsBetween(Structs(previous), Structs(current), current)
  }

  function EditsBetween(p: seq<SemanticToken>, c: seq<SemanticToken>, current: seq<nat>): seq<Edit>
    requires 5 * |c| <= |current|
  {
    var prefix, suffix := CommonPrefix(p, c), CommonSuffix(p, c);
    if |p| == |c| && prefix == |p| then []
    else [OneEdit(prefix, |p| - prefix - suffix, current[prefix * 5..|current| - suffix * 5])]
  }

  function OneEdit(prefix: nat, deleted: nat, inserted: seq<nat>): Edit {
    Edit(Clamp(prefix * 5), Clamp(deleted * 5), Structs(inserted))
  }

  /** What the client does with one edit, in the data it has. */
  function ApplyEdit(data: seq<nat>, e: Edit): Option<seq<nat>> {
    if e.start + e.deleteCount <= |data| then Some(data[..e.start] + Flatten(e.data) + data[e.start + e.deleteCount..]) else None
  }

  function ApplyEdits(data: seq<nat>, edits: seq<Edit>): Option<seq<nat>>
    decreases |edits|
  {
    if edits == [] then Some(data)
    else match ApplyEdits(data, edits[..|edits| - 1])
      case Some(d) => ApplyEdit(d, edits[|edits| - 1])
      case None => None
  }

  lemma {:induction false} FlattenUndoesStructs(data: seq<nat>)
    requires |data| % 5 == 0
    ensures Flatten(Structs(data)) == data
    decreases |data|
  {
    if data != [] {
      FlattenUndoesStructs(data[5..]);
      assert Structs(data)[1..] == Structs(data[5..]);
      assert data == [data[0], data[1], data[2], data[3], data[4]] + data[5..];
    }
  }

  lemma {:induction false} FlattenConcat(a: seq<SemanticToken>, b: seq<SemanticToken>)
    ensures Flatten(a + b) == Flatten(a) + Flatten(b)
  {
    if a == [] {
      assert a + b == b;
    } else {
      assert (a + b)[1..] == a[1..] + b;
      FlattenConcat(a[1..], b);
    }
  }

  lemma SplitThree<T>(xs: seq<T>, i: nat, j: nat)
    requires i <= j <= |xs|
    ensures xs == xs[..i] + xs[i..j] + xs[j..]
  {
  }

  lemma FlattenThree(tokens: seq<SemanticToken>, i: nat, j: nat)
    requires i <= j <= |tokens|
    ensures Flatten(tokens) == Flatten(tokens[..i]) + Flatten(tokens[i..j]) + Flatten(tokens[j..])
  {
    var a, b, c := tokens[..i], tokens[i..j], tokens[j..];
    SplitThree(tokens, i, j);
    FlattenConcat(a + b, c);
    FlattenConcat(a, b);
  }

  lemma CutMiddle<T>(a: seq<T>, b: seq<T>, d: seq<T>, x: seq<T>)
    ensures (a + b + d)[|a|..|a| + |b|] == b
    ensures (a + b + d)[..|a|] + x + (a + b + d)[|a| + |b|..] == a + x + d
  {
  }

  /** Whole tokens, cut out of the flat data. */
  lemma FlattenSlice(tokens: seq<SemanticToken>, i: nat, j: nat, data: seq<nat>, from: nat, to: nat)
    requires i <= j <= |tokens| && data == Flatten(tokens) && from == 5 * i && to == 5 * j
    ensures data[from..to] == Flatten(tokens[i..j])
  {
    FlattenThree(tokens, i, j);
    CutMiddle(Flatten(tokens[..i]), Flatten(tokens[i..j]), Flatten(tokens[j..]), []);
  }

  lemma {:induction false} StructsUndoFlatten(tokens: seq<SemanticToken>)
    ensures Structs(Flatten(tokens)) == tokens
  {
    if tokens != [] {
      StructsUndoFlatten(tokens[1..]);
      assert Flatten(tokens)[5..] == Flatten(tokens[1..]);
    }
  }

  /** Replacing the middle of `p` by the middle of `c` gives `c`, prefix and suffix being equal. */
  lemma MiddleReplaced(p: seq<SemanticToken>, c: seq<SemanticToken>, i: nat, j: nat, k: nat, e: Edit)
    requires i <= j <= |p| && i <= k <= |c| && p[..i] == c[..i] && p[j..] == c[k..]
    requires e == Edit(5 * i, 5 * (j - i), c[i..k])
    ensures ApplyEdit(Flatten(p), e) == Some(Flatten(c))
  {
    FlattenThree(p, i, j);
    FlattenThree(c, i, k);
    CutMiddle(Flatten(p[..i]), Flatten(p[i..j]), Flatten(p[j..]), Flatten(c[i..k]));
  }

  /** The one edit, in terms of the tokens `p` and `c` of the two documents: equal before `i`, equal from `j` and `k` on,
      and different at both ends in between. */
  ghost predicate Tight(p: seq<SemanticToken>, c: seq<SemanticToken>, i: nat, j: nat, k: nat) {
    && i <= j <= |p| && i <= k <= |c| && p[..i] == c[..i] && p[j..] == c[k..]
    && (i < j && i < k ==> p[i] != c[i] && p[j - 1] != c[k - 1])
  }

  lemma OneEditIs(prefix: nat, deleted: nat, inserted: seq<nat>, mid: seq<SemanticToken>)
    requires inserted == Flatten(mid) && 5 * prefix <= U32_MAX && 5 * deleted <= U32_MAX
    ensures OneEdit(prefix, deleted, inserted) == Edit(5 * prefix, 5 * deleted, mid)
  {
    StructsUndoFlatten(mid);
  }

  lemma LongestIsTight(p: seq<SemanticToken>, c: seq<SemanticToken>)
    requires p != c
    ensures Tight(p, c, CommonPrefix(p, c), |p| - CommonSuffix(p, c), |c| - CommonSuffix(p, c))
    ensures !(|p| == |c| && CommonPrefix(p, c) == |p|)
  {
  }

  lemma {:induction false} EditIs(p: seq<SemanticToken>, c: seq<SemanticToken>, current: seq<nat>) returns (i: nat, j: nat, k: nat)
    requires current == Flatten(c) && 5 * |p| <= U32_MAX && 5 * |c| <= U32_MAX && p != c
    ensures Tight(p, c, i, j, k) && EditsBetween(p, c, current) == [Edit(5 * i, 5 * (j - i), c[i..k])]
  {
    LongestIsTight(p, c);
    i, j, k := CommonPrefix(p, c), |p| - CommonSuffix(p, c), |c| - CommonSuffix(p, c);
    SlicedEdit(p, c, current, i, j, k);
  }

  lemma {:induction false} SlicedEdit(p: seq<SemanticToken>, c: seq<SemanticToken>, current: seq<nat>, i: nat, j: nat, k: nat)
    requires current == Flatten(c) && 5 * |p| <= U32_MAX && 5 * |c| <= U32_MAX
    requires i == CommonPrefix(p, c) && j == |p| - CommonSuffix(p, c) && k == |c| - CommonSuffix(p, c)
    requires i <= j && i <= k && !(|p| == |c| && i == |p|)
    ensures EditsBetween(p, c, current) == [Edit(5 * i, 5 * (j - i), c[i..k])]
  {
    var to := |current| - CommonSuffix(p, c) * 5;
    FlattenSlice(c, i, k, current, i * 5, to);
    OneEditIs(i, j - i, current[i * 5..to], c[i..k]);
  }

  /** Applied to the previous data the edits give the current data; and there is no edit exactly if they are the same. */
  lemma EditsLeadToCurrent(previous: seq<nat>, current: seq<nat>)
    requires |previous| % 5 == 0 && |current| % 5 == 0 && |previous| <= U32_MAX && |current| <= U32_MAX
    ensures ApplyEdits(previous, Edits(previous, current)) == Some(current)
    ensures Edits(previous, current) == [] <==> previous == current
  {
    FlattenUndoesStructs(previous);
    FlattenUndoesStructs(current);
    var p, c := Structs(previous), Structs(current);
    if p == c {
      NoEdit(previous);
    } else {
      var i, j, k := EditIs(p, c, current);
      MiddleReplaced(p, c, i, j, k, Edits(previous, current)[0]);
      ApplyOne(previous, Edits(previous, current)[0]);
    }
  }

  lemma NoEdit(data: seq<nat>)
    ensures Edits(data, data) == []
  {
  }

  lemma ApplyOne(data: seq<nat>, e: Edit)
    ensures ApplyEdits(data, [e]) == ApplyEdit(data, e)
  {
    assert [e][..0] == [];
  }

  /** There is at most one edit, and it is tight. */
  lemma EditIsTight(previous: seq<nat>, current: seq<nat>)
    requires |previous| % 5 == 0 && |current| % 5 == 0 && |previous| <= U32_MAX && |current| <= U32_MAX
    requires previous != current
    ensures var p, c := Structs(previous), Structs(current);
      exists i: nat, j: nat, k: nat :: Tight(p, c, i, j, k) && Edits(previous, current) == [Edit(5 * i, 5 * (j - i), c[i..k])]
  {
    FlattenUndoesStructs(previous);
    FlattenUndoesStructs(current);
    var i, j, k := EditIs(Structs(previous), Structs(current), current);
  }

  /** So a client that keeps its data up to date with the edits shows the tokens of the current document. */
  lemma ClientShowsTokens(previous: seq<nat>, source: string, from: nat, to: nat, root: Tree<NodeInfo>)
    requires Bytes(source) <= U32_MAX && Placed(source, root)
    requires |previous| % 5 == 0 && |previous| <= U32_MAX
    requires 5 * |Collect(source, from, to, root)| <= U32_MAX
    ensures var data := EncodeFrom(Collect(source, from, to, root), 0, 0);
      && data.Some? && ApplyEdits(previous, Edits(previous, data.value)).Some?
      && DecodeFrom(ApplyEdits(previous, Edits(previous, data.value)).value, 0, 0) == Collect(source, from, to, root)
  {
    CollectedRoundTrip(source, from, to, root);
    var tokens := Collect(source, from, to, root);
    EncodeDefinedIff(tokens, 0, 0);
    EditsLeadToCurrent(previous, EncodeFrom(tokens, 0, 0).value);
  }
}
