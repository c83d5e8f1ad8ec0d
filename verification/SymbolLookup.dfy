/** Position lookups on a table of symbols: `DocumentSymbols` in src/symbols/types.rs. */
module SymbolLookup {
  import opened Wrappers
  import opened Extractor
  import opened SymbolTable

  /* Stable sorting by a key. */

  ghost predicate InOrder(ids: seq<nat>, keys: seq<nat>) {
    && (forall i :: 0 <= i < |ids| ==> ids[i] < |keys|)
    && forall i, j :: 0 <= i < j < |ids| ==> AtOrBefore(keys, ids[i], ids[j]) && ids[i] != ids[j]
  }

  ghost predicate AtOrBefore(keys: seq<nat>, a: nat, b: nat)
    requires a < |keys| && b < |keys|
  {
    keys[a] < keys[b] || (keys[a] == keys[b] && a <= b)
  }

  function InsertByKey(ids: seq<nat>, keys: seq<nat>, id: nat): (r: seq<nat>)
    requires id < |keys| && forall i :: 0 <= i < |ids| ==> ids[i] < |keys|
    ensures forall i :: 0 <= i < |r| ==> r[i] < |keys|
  {
    if ids == [] || keys[ids[|ids| - 1]] <= keys[id] then ids + [id]
    else InsertByKey(ids[..|ids| - 1], keys, id) + [ids[|ids| - 1]]
  }

  function SortByKey(ids: seq<nat>, keys: seq<nat>): (r: seq<nat>)
    requires forall i :: 0 <= i < |ids| ==> ids[i] < |keys|
    ensures forall i :: 0 <= i < |r| ==> r[i] < |keys|
  {
    if ids == [] then []
    else InsertByKey(SortByKey(ids[..|ids| - 1], keys), keys, ids[|ids| - 1])
  }

  lemma {:induction false} InsertInRange(ids: seq<nat>, keys: seq<nat>, id: nat)
    requires id < |keys| && forall i :: 0 <= i < |ids| ==> ids[i] < |keys|
    ensures forall x :: x in InsertByKey(ids, keys, id) <==> x in ids || x == id
  {
    if ids != [] && keys[ids[|ids| - 1]] > keys[id] {
      InsertInRange(ids[..|ids| - 1], keys, id);
      assert ids == ids[..|ids| - 1] + [ids[|ids| - 1]];
    }
  }

  /** Inserting an id above all others keeps the order. */
  lemma {:induction false} InsertKeepsOrder(ids: seq<nat>, keys: seq<nat>, id: nat)
    requires id < |keys| && InOrder(ids, keys) && forall i :: 0 <= i < |ids| ==> ids[i] < id
    ensures InOrder(InsertByKey(ids, keys, id), keys)
  {
    if ids != [] && keys[ids[|ids| - 1]] > keys[id] {
      var front, last := ids[..|ids| - 1], ids[|ids| - 1];
      var inner := InsertByKey(front, keys, id);
      InsertKeepsOrder(front, keys, id);
      InsertInRange(front, keys, id);
      forall i | 0 <= i < |inner|
        ensures AtOrBefore(keys, inner[i], last) && inner[i] != last
      {
        assert inner[i] in inner;
        if inner[i] != id {
          var k :| 0 <= k < |front| && front[k] == inner[i];
          assert ids[k] == inner[i];
        }
      }
    }
  }

  /** Sorting ids that come in ascending order, as they do here, orders them by key and then by id, and loses none. */
  lemma {:induction false} SortIsStable(ids: seq<nat>, keys: seq<nat>)
    requires forall i :: 0 <= i < |ids| ==> ids[i] < |keys|
    requires forall i, j :: 0 <= i < j < |ids| ==> ids[i] < ids[j]
    ensures InOrder(SortByKey(ids, keys), keys)
    ensures forall x :: x in SortByKey(ids, keys) <==> x in ids
  {
    if ids != [] {
      var front, last := ids[..|ids| - 1], ids[|ids| - 1];
      SortIsStable(front, keys);
      InsertInRange(SortByKey(front, keys), keys, last);
      assert ids == front + [last];
      forall i | 0 <= i < |SortByKey(front, keys)|
        ensures SortByKey(front, keys)[i] < last
      {
        assert SortByKey(front, keys)[i] in front;
      }
      InsertKeepsOrder(SortByKey(front, keys), keys, last);
    }
  }

  /** How many ids at the front have a key up to `bound`. */
  function LeadingCount(ids: seq<nat>, keys: seq<nat>, bound: nat): (n: nat)
    requires forall i :: 0 <= i < |ids| ==> ids[i] < |keys|
    ensures n <= |ids|
    ensures forall i :: 0 <= i < n ==> keys[ids[i]] <= bound
    ensures n < |ids| ==> keys[ids[n]] > bound
  {
    if ids == [] || keys[ids[0]] > bound then 0 else 1 + LeadingCount(ids[1..], keys, bound)
  }

  function Starts(symbols: seq<Symbol>): seq<nat> {
    seq(|symbols|, i requires 0 <= i < |symbols| => symbols[i].start)
  }

  function SelStarts(symbols: seq<Symbol>): seq<nat> {
    seq(|symbols|, i requires 0 <= i < |symbols| => symbols[i].selStart)
  }

  function Ids(n: nat): seq<nat> {
    seq(n, i requires 0 <= i < n => i)
  }

  lemma IdsAreAll(n: nat)
    ensures forall x: nat :: x in Ids(n) <==> x < n
  {
    forall x: nat | x < n
      ensures x in Ids(n)
    {
      assert Ids(n)[x] == x;
    }
  }

  predicate IsCallable(kind: SymbolKind) {
    kind in {Function, Method, Event}
  }

  /** The innermost callable from a container upwards. */
  function CallableFrom(symbols: seq<Symbol>, at: Option<nat>): Option<nat>
    decreases if at.Some? then at.value + 1 else 0
  {
    if at.None? || at.value >= |symbols| then None
    else if IsCallable(symbols[at.value].kind) then at
    else if symbols[at.value].container.Some? && symbols[at.value].container.value >= at.value then None
    else CallableFrom(symbols, symbols[at.value].container)
  }

  method EnclosingCallableId(symbols: seq<Symbol>, container: Option<nat>) returns (r: Option<nat>)
    requires Numbered(symbols) && (container.Some? ==> container.value < |symbols|)
    ensures r == CallableFrom(symbols, container)
    ensures r.Some? ==> r.value < |symbols| && IsCallable(symbols[r.value].kind) && Below(symbols, container.value, r.value)
  {
    r := container;
    while r.Some? && !IsCallable(symbols[r.value].kind)
      invariant r.Some? ==> container.Some? && r.value < |symbols| && Below(symbols, container.value, r.value)
      invariant CallableFrom(symbols, r) == CallableFrom(symbols, container)
      decreases if r.Some? then r.value + 1 else 0
    {
      if symbols[r.value].container.Some? {
        BelowTransitive(symbols, container.value, r.value, symbols[r.value].container.value);
      }
      r := symbols[r.value].container;
    }
  }

  /** Symbol `i` is a local called `name` of callable `function`. */
  predicate IsLocal(symbols: seq<Symbol>, i: nat, function': nat, name: string) {
    i < |symbols| && symbols[i].kind in {Variable, Parameter} && symbols[i].name == name
    && CallableFrom(symbols, symbols[i].container) == Some(function')
  }

  function LocalIds(symbols: seq<Symbol>, n: nat, function': nat, name: string): (r: seq<nat>)
    requires n <= |symbols|
    ensures forall i :: 0 <= i < |r| ==> r[i] < n
    ensures forall x: nat :: x in r <==> x < n && IsLocal(symbols, x, function', name)
    ensures forall i, j :: 0 <= i < j < |r| ==> r[i] < r[j]
  {
    if n == 0 then []
    else if IsLocal(symbols, n - 1, function', name) then LocalIds(symbols, n - 1, function', name) + [n - 1]
    else LocalIds(symbols, n - 1, function', name)
  }

  type LocalIndex = map<nat, map<string, seq<nat>>>

  function Get(index: LocalIndex, function': nat, name: string): seq<nat> {
    if function' in index && name in index[function'] then index[function'][name] else []
  }

  function AddLocal(index: LocalIndex, function': nat, name: string, id: nat): (r: LocalIndex)
    ensures forall f, n :: Get(r, f, n) == if f == function' && n == name then Get(index, f, n) + [id] else Get(index, f, n)
  {
    var byName := if function' in index then index[function'] else map[];
    index[function' := byName[name := (if name in byName then byName[name] else []) + [id]]]
  }

  function SortIds(ids: seq<nat>, keys: seq<nat>): seq<nat> {
    if forall i :: 0 <= i < |ids| ==> ids[i] < |keys| then SortByKey(ids, keys) else ids
  }

  function SortIndex(index: LocalIndex, keys: seq<nat>): (r: LocalIndex)
    ensures forall f, n :: Get(r, f, n) == SortIds(Get(index, f, n), keys)
  {
    map f | f in index :: map n | n in index[f] :: SortIds(index[f][n], keys)
  }

  /** The loop that collects each callable's locals by name, in the order of the table. */
  method IndexLocals(symbols: seq<Symbol>) returns (index: LocalIndex)
    requires WellFormed(symbols)
    ensures forall f, name :: Get(index, f, name) == LocalIds(symbols, |symbols|, f, name)
  {
    index := map[];
    var i := 0;
    while i < |symbols|
      invariant 0 <= i <= |symbols|
      invariant forall f, name :: Get(index, f, name) == LocalIds(symbols, i, f, name)
    {
      var s := symbols[i];
      if s.kind in {Variable, Parameter} {
        var f := EnclosingCallableId(symbols, s.container);
        if f.Some? {
          index := AddLocal(index, f.value, s.name, i);
        }
      }
      i := i + 1;
    }
  }

  class DocumentSymbols {
    var symbols: seq<Symbol>
    var byStart: seq<nat>
    var locals: LocalIndex

    constructor (symbols: seq<Symbol>)
      ensures this.symbols == symbols && byStart == [] && locals == map[]
    {
      this.symbols, byStart, locals := symbols, [], map[];
    }

    /** The indexes are those of the table. */
    ghost predicate Indexed()
      reads this
    {
      && WellFormed(symbols)
      && InOrder(byStart, Starts(symbols))
      && (forall i: nat :: i in byStart <==> i < |symbols|)
      && forall f, name :: Get(locals, f, name) == SortByKey(LocalIds(symbols, |symbols|, f, name), SelStarts(symbols))
    }

    method BuildIndexes()
      requires WellFormed(symbols) && locals == map[]
      modifies this
      ensures Indexed() && symbols == old(symbols)
    {
      byStart := SortByKey(Ids(|symbols|), Starts(symbols));
      SortIsStable(Ids(|symbols|), Starts(symbols));
      IdsAreAll(|symbols|);
      var index := IndexLocals(symbols);
      locals := SortIndex(index, SelStarts(symbols));
      forall f, name
        ensures Get(locals, f, name) == SortByKey(LocalIds(symbols, |symbols|, f, name), SelStarts(symbols))
      {
        assert Get(index, f, name) == LocalIds(symbols, |symbols|, f, name);
      }
    }

    /** The innermost symbol of one of `kinds` around a byte offset. */
    method EnclosingSymbolAt(offset: nat, kinds: set<SymbolKind>) returns (r: Option<nat>)
      requires Indexed() && forall kind :: kind in kinds ==> Holds(kind)
      ensures r.None? ==> forall e :: 0 <= e < |symbols| ==> !Around(e, offset, kinds)
      ensures r.None? ==> forall c, e :: LastToStart(c, offset) && 0 <= e < |symbols| && Below(symbols, c, e) ==> !Reaches(e, offset, kinds)
      ensures r.Some? ==> forall c :: LastToStart(c, offset) ==>
        && Below(symbols, c, r.value)
        && forall e :: 0 <= e < |symbols| && Below(symbols, c, e) && Reaches(e, offset, kinds) ==> Below(symbols, r.value, e)
      ensures r.Some? ==>
        && r.value < |symbols| && symbols[r.value].kind in kinds
        && symbols[r.value].start <= offset <= symbols[r.value].end
        && forall e :: 0 <= e < |symbols| && Around(e, offset, kinds) ==>
             Below(symbols, r.value, e) && symbols[e].start <= symbols[r.value].start && symbols[r.value].end <= symbols[e].end
    {
      var upper := LeadingCount(byStart, Starts(symbols), offset);
      if upper == 0 {
        NothingStarts(offset, kinds, upper);
        return None;
      }
      var cursor: Option<nat> := Some(byStart[upper - 1]);
      ghost var last := byStart[upper - 1];
      LastStartIsBelow(offset, kinds, upper);
      OnlyLastToStart(offset, upper);
      while cursor.Some?
        invariant cursor.Some? ==> cursor.value < |symbols| && symbols[cursor.value].start <= offset
        invariant forall e :: 0 <= e < |symbols| && Around(e, offset, kinds) ==> cursor.Some? && Below(symbols, cursor.value, e)
        invariant cursor.Some? ==> Below(symbols, last, cursor.value)
        invariant forall e :: 0 <= e < |symbols| && Below(symbols, last, e) && Reaches(e, offset, kinds) ==>
          cursor.Some? && Below(symbols, cursor.value, e)
        decreases if cursor.Some? then cursor.value + 1 else 0
      {
        var id := cursor.value;
        if offset <= symbols[id].end && symbols[id].kind in kinds {
          forall e | 0 <= e < |symbols| && Around(e, offset, kinds)
            ensures symbols[e].start <= symbols[id].start && symbols[id].end <= symbols[e].end
          {
            BelowInside(symbols, id, e);
          }
          return Some(id);
        }
        cursor := symbols[id].container;
        if cursor.Some? {
          BelowTransitive(symbols, id, cursor.value, cursor.value);
          BelowTransitive(symbols, last, id, cursor.value);
        }
      }
      return None;
    }

    /** Symbol `c` is the last, in order of start, to start by the offset. */
    ghost predicate LastToStart(c: nat, offset: nat)
      reads this
    {
      c < |symbols| && symbols[c].start <= offset
      && forall e :: 0 <= e < |symbols| && symbols[e].start <= offset ==> AtOrBefore(Starts(symbols), e, c)
    }

    /** Symbol `e` is of one of the kinds and does not end before the offset. */
    ghost predicate Reaches(e: nat, offset: nat, kinds: set<SymbolKind>)
      reads this
      requires e < |symbols|
    {
      symbols[e].kind in kinds && offset <= symbols[e].end
    }

    lemma OnlyLastToStart(offset: nat, upper: nat)
      requires Indexed() && upper == LeadingCount(byStart, Starts(symbols), offset) > 0
      ensures forall c :: LastToStart(c, offset) ==> c == byStart[upper - 1]
    {
      forall c | LastToStart(c, offset)
        ensures c == byStart[upper - 1]
      {
        var b := byStart[upper - 1];
        assert b in byStart && c in byStart;
        assert AtOrBefore(Starts(symbols), b, c);
        var k :| 0 <= k < |byStart| && byStart[k] == c;
        RestStartLater(offset, upper, k);
        assert k == upper - 1 || AtOrBefore(Starts(symbols), c, b);
      }
    }

    /** Symbol `e` is of one of the kinds and its range holds the offset. */
    ghost predicate Around(e: nat, offset: nat, kinds: set<SymbolKind>)
      reads this
      requires e < |symbols|
    {
      symbols[e].kind in kinds && symbols[e].start <= offset < symbols[e].end
    }

    lemma NothingStarts(offset: nat, kinds: set<SymbolKind>, upper: nat)
      requires Indexed() && upper == LeadingCount(byStart, Starts(symbols), offset) == 0
      ensures forall e :: 0 <= e < |symbols| ==> offset < symbols[e].start
      ensures forall e :: 0 <= e < |symbols| ==> !Around(e, offset, kinds)
    {
      forall e | 0 <= e < |symbols|
        ensures offset < symbols[e].start
      {
        assert e in byStart;
        var k :| 0 <= k < |byStart| && byStart[k] == e;
        assert Starts(symbols)[byStart[0]] <= Starts(symbols)[e];
      }
    }

    /** The symbols past the leading ones start behind the offset. */
    lemma RestStartLater(offset: nat, upper: nat, k: nat)
      requires Indexed() && k < |byStart| && upper == LeadingCount(byStart, Starts(symbols), offset)
      ensures byStart[k] < |symbols| && (upper <= k ==> offset < symbols[byStart[k]].start)
    {
      if upper < k {
        assert AtOrBefore(Starts(symbols), byStart[upper], byStart[k]);
      }
    }

    /** Everything around the offset has the last symbol to start by then below it. */
    lemma LastStartIsBelow(offset: nat, kinds: set<SymbolKind>, upper: nat)
      requires Indexed() && (forall kind :: kind in kinds ==> Holds(kind))
      requires upper == LeadingCount(byStart, Starts(symbols), offset) > 0
      ensures byStart[upper - 1] < |symbols| && symbols[byStart[upper - 1]].start <= offset
      ensures forall e :: 0 <= e < |symbols| && Around(e, offset, kinds) ==> Below(symbols, byStart[upper - 1], e)
    {
      var c, keys := byStart[upper - 1], Starts(symbols);
      forall e | 0 <= e < |symbols| && Around(e, offset, kinds)
        ensures Below(symbols, c, e)
      {
        assert e in byStart;
        var k :| 0 <= k < |byStart| && byStart[k] == e;
        RestStartLater(offset, upper, k);
        assert k == upper - 1 || AtOrBefore(keys, e, c);
        assert StartsIn(symbols, c, e);
      }
    }

    /** The last local of that name to be declared at or before a byte. */
    method LocalAtByte(function': nat, name: string, before: nat) returns (r: Option<nat>)
      requires Indexed()
      ensures r.None? ==> forall j: nat :: IsLocal(symbols, j, function', name) ==> symbols[j].selStart > before
      ensures r.Some? ==>
        && IsLocal(symbols, r.value, function', name) && symbols[r.value].selStart <= before
        && forall j: nat :: IsLocal(symbols, j, function', name) && symbols[j].selStart <= before ==>
             AtOrBefore(SelStarts(symbols), j, r.value)
    {
      if function' !in locals || name !in locals[function'] {
        LocalsComplete(function', name);
        return None;
      }
      var ids := locals[function'][name];
      LocalsComplete(function', name);
      var i := |ids|;
      while i > 0
        invariant 0 <= i <= |ids|
        invariant forall k :: i <= k < |ids| ==> symbols[ids[k]].selStart > before
      {
        i := i - 1;
        if symbols[ids[i]].selStart <= before {
          forall j: nat | IsLocal(symbols, j, function', name) && symbols[j].selStart <= before
            ensures AtOrBefore(SelStarts(symbols), j, ids[i])
          {
            assert j in ids;
            var k :| 0 <= k < |ids| && ids[k] == j;
          }
          return Some(ids[i]);
        }
      }
      return None;
    }

    lemma LocalsComplete(function': nat, name: string)
      requires Indexed()
      ensures var ids := Get(locals, function', name);
        && InOrder(ids, SelStarts(symbols))
        && forall j: nat :: j in ids <==> IsLocal(symbols, j, function', name)
    {
      SortIsStable(LocalIds(symbols, |symbols|, function', name), SelStarts(symbols));
    }
  }

  /** From a syntax tree to its lookups. */
  method IndexDocument(root: Cst) returns (d: DocumentSymbols)
    requires Laid(root)
    ensures fresh(d) && d.Indexed() && d.symbols == ExtractDocument(root)
  {
    var symbols := ExtractSymbols(root);
    ExtractedTableIsWellFormed(root);
    d := new DocumentSymbols(symbols);
    d.BuildIndexes();
  }
}
