/** Exactly when a value keeps at a read, in every program: an observer follows whether something that the value reads may
    have been written since its definition took effect. */
module InlineTrail {
  import opened Wrappers
  import opened Syntax
  import opened ReachingDefs
  import opened Executions
  import opened Exactness
  import opened Collecting
  import opened InlineValue

  /** Definition `i` is not in force; or it is, and nothing its value reads can have been written since; or something can. */
  datatype Trail = Unset | Current | Touched

  /** A place in region `r` where the identifier is written. */
  predicate WritableAt(ident: Ident, writes: map<Ident, seq<nat>>, r: Span, p: nat) {
    r.start <= p < r.end && ident in writes && p in writes[ident]
  }

  /** While region `r` is evaluated something that the value reads may be written. */
  predicate Touches(value: Value, writes: map<Ident, seq<nat>>, r: Span) {
    exists ident :: ident in Idents(value.expr) && exists p :: r.start <= p < r.end && WritableAt(ident, writes, r, p)
  }

  /** Even between the definition's effect and the end of its own region, which the value itself is over by. */
  predicate Spills(value: Value, writes: map<Ident, seq<nat>>, r: Span) {
    exists ident :: ident in Idents(value.expr)
      && exists p :: r.start <= p < r.end && WritableAt(ident, writes, r, p) && OutOf(value.span, p)
  }

  predicate OutOf(span: Span, p: nat) {
    !(span.start <= p < span.end)
  }

  function NextTrail(value: Value, writes: map<Ident, seq<nat>>, i: nat, q: Trail, e: Event): Trail {
    match e
    case Def(j, r) => if j != i then Unset else if Spills(value, writes, r) then Touched else Current
    case Visit(r) => if q.Current? && Touches(value, writes, r) then Touched else q
  }

  function Watch(owners: seq<Span>, x: Span, value: Value, writes: map<Ident, seq<nat>>, i: nat): Observer<Trail> {
    Observer(owners, x, (q: Trail, e: Event) => NextTrail(value, writes, i, q, e), {Unset, Current, Touched})
  }

  function TrailOf(value: Value, writes: map<Ident, seq<nat>>, i: nat, trace: seq<Event>): Trail {
    Follow((q: Trail, e: Event) => NextTrail(value, writes, i, q, e), Unset, trace)
  }

  /* While the trail is current the value keeps. */

  ghost predicate Keeps(value: Value, target: nat, store: Store, ops: (nat, int, int) -> int) {
    Eval(value.expr, ops, store) == store(Local(target))
  }

  lemma {:induction false} CurrentKeeps(v: Variable, i: nat, value: Value, acts: seq<Act>, store: Store, ops: (nat, int, int) -> int)
    requires v.Lawful(acts, store, ops) && i < |v.sources| && v.sources[i].value == Some(value)
    requires Local(v.target) !in Idents(value.expr)
    requires TrailOf(value, v.writes, i, Project(acts)).Current?
    ensures Keeps(value, v.target, StoreAfter(acts, store, v.target), ops)
    decreases |acts|
  {
    if acts != [] {
      var n := |acts| - 1;
      var prior, act := acts[..n], acts[n];
      var before := StoreAfter(prior, store, v.target);
      LawfulBefore(v, acts, store, ops);
      assert v.LawfulStep(acts, n, store, ops);
      match act {
        case Visits(r) =>
          assert Project(acts)[..|Project(prior)|] == Project(prior);
          CurrentKeeps(v, i, value, prior, store, ops);
        case Defines(j, r, val) =>
          assert Project(acts)[..|Project(prior)|] == Project(prior);
          EvalAgrees(value.expr, ops, before, Set(before, Local(v.target), val));
        case Writes(ident, p, val) =>
          CurrentKeeps(v, i, value, prior, store, ops);
          NotWritten(v, i, value, prior, ident, p);
          EvalAgrees(value.expr, ops, before, Set(before, ident, val));
      }
    }
  }

  lemma LawfulBefore(v: Variable, acts: seq<Act>, store: Store, ops: (nat, int, int) -> int)
    requires acts != [] && v.Lawful(acts, store, ops)
    ensures v.Lawful(acts[..|acts| - 1], store, ops)
  {
    var prior := acts[..|acts| - 1];
    forall k | 0 <= k < |prior|
      ensures v.LawfulStep(prior, k, store, ops)
    {
      assert prior[..k] == acts[..k] && prior[k] == acts[k];
      assert v.LawfulStep(acts, k, store, ops);
    }
  }

  /** On a current trail no place of the region being evaluated can write what the value reads. */
  lemma {:induction false} NotWritten(v: Variable, i: nat, value: Value, acts: seq<Act>, ident: Ident, p: nat)
    requires i < |v.sources| && v.sources[i].value == Some(value)
    requires TrailOf(value, v.writes, i, Project(acts)).Current?
    requires v.Fits(InlineValue.Current(acts), p) && ident in v.writes && p in v.writes[ident]
    ensures ident !in Idents(value.expr)
    decreases |acts|
  {
    var last, prior := acts[|acts| - 1], acts[..|acts| - 1];
    match last {
      case Writes(_, _, _) => NotWritten(v, i, value, prior, ident, p);
      case Visits(r) =>
        assert Project(acts)[..|Project(prior)|] == Project(prior);
        if ident in Idents(value.expr) {
          assert WritableAt(ident, v.writes, r, p);
        }
      case Defines(j, r, _) =>
        assert Project(acts)[..|Project(prior)|] == Project(prior);
        if ident in Idents(value.expr) {
          assert WritableAt(ident, v.writes, r, p) && (j == i ==> OutOf(value.span, p));
        }
    }
  }

  /* Once it is touched some lawful course of values loses it. */

  /** Every definition that takes effect has its statement and its value inside its region. */
  ghost predicate Fitted(v: Variable, trace: seq<Event>) {
    forall k :: 0 <= k < |trace| && trace[k].Def? ==> FittedDef(v, trace[k])
  }

  predicate FittedDef(v: Variable, e: Event)
    requires e.Def?
  {
    && e.index < |v.sources| && v.sources[e.index].capturedAt <= e.region.start <= e.region.end
    && (v.sources[e.index].value.Some? ==> e.region.Contains(v.sources[e.index].value.value.span))
  }

  function Sum(op: nat, a: int, b: int): int {
    a + b
  }

  function Zero(ident: Ident): int {
    0
  }

  /** The quiet course of an execution: nothing is written but by the definitions. */
  function Quietly(v: Variable, trace: seq<Event>): seq<Act> {
    if trace == [] then []
    else
      var prior := Quietly(v, trace[..|trace| - 1]);
      match trace[|trace| - 1]
      case Visit(r) => prior + [Visits(r)]
      case Def(j, r) =>
        var val := if j < |v.sources| && v.sources[j].value.Some?
                   then Eval(v.sources[j].value.value.expr, Sum, StoreAfter(prior, Zero, v.target)) else 0;
        prior + [Defines(j, r, val)]
  }

  lemma {:induction false} QuietlyIsLawful(v: Variable, trace: seq<Event>)
    requires Fitted(v, trace)
    ensures v.Lawful(Quietly(v, trace), Zero, Sum) && Project(Quietly(v, trace)) == trace
    decreases |trace|
  {
    if trace != [] {
      var front, acts := trace[..|trace| - 1], Quietly(v, trace);
      var prior := Quietly(v, front);
      QuietlyIsLawful(v, front);
      assert acts[..|acts| - 1] == prior && trace == front + [trace[|trace| - 1]];
      forall k | 0 <= k < |acts|
        ensures v.LawfulStep(acts, k, Zero, Sum)
      {
        assert acts[..k] == prior[..k];
        if k < |prior| {
          assert v.LawfulStep(prior, k, Zero, Sum);
        }
      }
    }
  }

  /** How often the identifier is read in the expression. */
  function Uses(e: Expr, ident: Ident): (n: nat)
    ensures n > 0 <==> ident in Idents(e)
  {
    match e
    case Literal(_) => 0
    case Name(other) => if other == ident then 1 else 0
    case Op(_, left, right) => Uses(left, ident) + Uses(right, ident)
  }

  lemma {:induction false} SumGrows(e: Expr, ident: Ident, store: Store)
    ensures Eval(e, Sum, Set(store, ident, store(ident) + 1)) == Eval(e, Sum, store) + Uses(e, ident)
  {
    match e
    case Literal(_) =>
    case Name(_) =>
    case Op(_, left, right) =>
      SumGrows(left, ident, store);
      SumGrows(right, ident, store);
  }

  /** Where the trail of a trace was touched last: since then there were no definitions, and until then the value kept. */
  lemma {:induction false} FindTouch(value: Value, writes: map<Ident, seq<nat>>, i: nat, trace: seq<Event>) returns (m: nat)
    requires TrailOf(value, writes, i, trace).Touched?
    ensures m < |trace| && forall k :: m < k < |trace| ==> trace[k].Visit?
    ensures match trace[m]
            case Def(j, r) => j == i && Spills(value, writes, r)
            case Visit(r) => TrailOf(value, writes, i, trace[..m]).Current? && Touches(value, writes, r)
    decreases |trace|
  {
    var n := |trace| - 1;
    var front := trace[..n];
    if trace[n].Visit? && TrailOf(value, writes, i, front).Touched? {
      m := FindTouch(value, writes, i, front);
      assert front[..m] == trace[..m];
    } else {
      m := n;
    }
  }

  /** A write to `ident` at `p` slipped in after the first `m + 1` events, all later events being visits. */
  function WithWrite(v: Variable, trace: seq<Event>, m: nat, ident: Ident, p: nat): seq<Act>
    requires m < |trace|
  {
    var head := Quietly(v, trace[..m + 1]);
    head + [Writes(ident, p, StoreAfter(head, Zero, v.target)(ident) + 1)] + VisitsOf(trace[m + 1..])
  }

  function VisitsOf(trace: seq<Event>): (r: seq<Act>)
    ensures |r| == |trace| && forall k :: 0 <= k < |r| ==> r[k] == Visits(trace[k].region)
  {
    if trace == [] then [] else VisitsOf(trace[..|trace| - 1]) + [Visits(trace[|trace| - 1].region)]
  }

  lemma {:induction false} VisitsChangeNothing(v: Variable, acts: seq<Act>, tail: seq<Event>, store: Store)
    requires forall k :: 0 <= k < |tail| ==> tail[k].Visit?
    ensures Project(acts + VisitsOf(tail)) == Project(acts) + tail
    ensures StoreAfter(acts + VisitsOf(tail), store, v.target) == StoreAfter(acts, store, v.target)
    decreases |tail|
  {
    if tail == [] {
      assert acts + VisitsOf(tail) == acts && Project(acts) + tail == Project(acts);
    } else {
      var front, last := tail[..|tail| - 1], tail[|tail| - 1];
      VisitsChangeNothing(v, acts, front, store);
      OneVisit(v, acts + VisitsOf(front), last.region, store);
      assert acts + VisitsOf(tail) == acts + VisitsOf(front) + [Visits(last.region)];
      assert tail == front + [last] && Project(acts) + front + [last] == Project(acts) + tail;
    }
  }

  lemma OneVisit(v: Variable, acts: seq<Act>, r: Span, store: Store)
    ensures Project(acts + [Visits(r)]) == Project(acts) + [Visit(r)]
    ensures StoreAfter(acts + [Visits(r)], store, v.target) == StoreAfter(acts, store, v.target)
  {
    assert (acts + [Visits(r)])[..|acts|] == acts;
  }

  lemma LawfulAppend(v: Variable, acts: seq<Act>, act: Act, store: Store, ops: (nat, int, int) -> int)
    requires v.Lawful(acts, store, ops) && v.LawfulStep(acts + [act], |acts|, store, ops)
    ensures v.Lawful(acts + [act], store, ops)
  {
    var all := acts + [act];
    forall k | 0 <= k < |all|
      ensures v.LawfulStep(all, k, store, ops)
    {
      assert all[..k] == if k < |acts| then acts[..k] else acts;
      assert k < |acts| ==> v.LawfulStep(acts, k, store, ops);
    }
  }

  lemma {:induction false} VisitsAreLawful(v: Variable, acts: seq<Act>, tail: seq<Event>, store: Store, ops: (nat, int, int) -> int)
    requires v.Lawful(acts, store, ops)
    ensures v.Lawful(acts + VisitsOf(tail), store, ops)
    decreases |tail|
  {
    if tail == [] {
      assert acts + VisitsOf(tail) == acts;
    } else {
      var front, last := tail[..|tail| - 1], Visits(tail[|tail| - 1].region);
      VisitsAreLawful(v, acts, front, store, ops);
      LawfulAppend(v, acts + VisitsOf(front), last, store, ops);
      assert acts + VisitsOf(tail) == acts + VisitsOf(front) + [last];
    }
  }

  lemma WriteFits(v: Variable, acts: seq<Act>, write: Act, store: Store, ops: (nat, int, int) -> int)
    requires write.Writes? && write.ident != Local(v.target) && write.ident in v.writes && write.pos in v.writes[write.ident]
    requires v.Fits(InlineValue.Current(acts), write.pos)
    ensures v.LawfulStep(acts + [write], |acts|, store, ops)
  {
    assert (acts + [write])[..|acts|] == acts;
  }

  lemma {:induction false} WithWriteIsLawful(v: Variable, trace: seq<Event>, m: nat, ident: Ident, p: nat)
    requires Fitted(v, trace) && m < |trace| && forall k :: m < k < |trace| ==> trace[k].Visit?
    requires ident != Local(v.target) && ident in v.writes && p in v.writes[ident]
    requires v.Fits(InlineValue.Current(Quietly(v, trace[..m + 1])), p)
    ensures var acts := WithWrite(v, trace, m, ident, p);
      v.Lawful(acts, Zero, Sum) && Project(acts) == trace
  {
    var head := Quietly(v, trace[..m + 1]);
    var write := Writes(ident, p, StoreAfter(head, Zero, v.target)(ident) + 1);
    QuietlyIsLawful(v, trace[..m + 1]);
    WriteFits(v, head, write, Zero, Sum);
    LawfulAppend(v, head, write, Zero, Sum);
    OneWrite(v, head, write, Zero);
    VisitsAreLawful(v, head + [write], trace[m + 1..], Zero, Sum);
    VisitsChangeNothing(v, head + [write], trace[m + 1..], Zero);
    assert trace[..m + 1] + trace[m + 1..] == trace;
  }

  /** One more than it was, and the value that reads it is no longer what the variable holds. */
  lemma {:induction false} WriteLoses(v: Variable, value: Value, head: seq<Act>, now: Store, write: Act, acts: seq<Act>, tail: seq<Event>)
    requires now == StoreAfter(head, Zero, v.target) && Keeps(value, v.target, now, Sum)
    requires write.Writes? && write.ident in Idents(value.expr) && write.ident != Local(v.target) && write.val == now(write.ident) + 1
    requires acts == head + [write] + VisitsOf(tail) && forall k :: 0 <= k < |tail| ==> tail[k].Visit?
    ensures !Keeps(value, v.target, StoreAfter(acts, Zero, v.target), Sum)
  {
    VisitsChangeNothing(v, head + [write], tail, Zero);
    OneWrite(v, head, write, Zero);
    GrownLoses(value, v.target, now, write.ident);
  }

  lemma OneWrite(v: Variable, acts: seq<Act>, write: Act, store: Store)
    requires write.Writes?
    ensures StoreAfter(acts + [write], store, v.target) == Set(StoreAfter(acts, store, v.target), write.ident, write.val)
    ensures Project(acts + [write]) == Project(acts)
  {
    assert (acts + [write])[..|acts|] == acts;
  }

  lemma GrownLoses(value: Value, target: nat, now: Store, ident: Ident)
    requires ident in Idents(value.expr) && ident != Local(target) && Keeps(value, target, now, Sum)
    ensures !Keeps(value, target, Set(now, ident, now(ident) + 1), Sum)
  {
    SumGrows(value.expr, ident, now);
  }

  /** Right after the touch the value still keeps, and what it reads may be written. */
  lemma {:induction false} AtTouch(v: Variable, i: nat, value: Value, trace: seq<Event>, m: nat) returns (ident: Ident, p: nat)
    requires i < |v.sources| && v.sources[i].value == Some(value) && Local(v.target) !in Idents(value.expr)
    requires Fitted(v, trace) && m < |trace|
    requires match trace[m]
             case Def(j, r) => j == i && Spills(value, v.writes, r)
             case Visit(r) => TrailOf(value, v.writes, i, trace[..m]).Current? && Touches(value, v.writes, r)
    ensures ident in Idents(value.expr) && ident in v.writes && p in v.writes[ident]
    ensures var head := Quietly(v, trace[..m + 1]);
      v.Fits(InlineValue.Current(head), p) && Keeps(value, v.target, StoreAfter(head, Zero, v.target), Sum)
  {
    var front, head := trace[..m], Quietly(v, trace[..m + 1]);
    assert trace[..m + 1][..m] == front && trace[..m + 1] == front + [trace[m]];
    QuietlyIsLawful(v, front);
    var now := StoreAfter(head, Zero, v.target);
    assert head[..|head| - 1] == Quietly(v, front);
    var r := trace[m].region;
    if trace[m].Def? {
      ident, p :| ident in Idents(value.expr) && r.start <= p < r.end && WritableAt(ident, v.writes, r, p) && OutOf(value.span, p);
      EvalAgrees(value.expr, Sum, StoreAfter(Quietly(v, front), Zero, v.target), now);
    } else {
      ident, p :| ident in Idents(value.expr) && r.start <= p < r.end && WritableAt(ident, v.writes, r, p);
      CurrentKeeps(v, i, value, Quietly(v, front), Zero, Sum);
    }
  }

  /** An execution whose trail is touched has a lawful course of values in which the value no longer is what the variable
      holds. */
  lemma TouchedLoses(v: Variable, i: nat, value: Value, trace: seq<Event>) returns (acts: seq<Act>)
    requires i < |v.sources| && v.sources[i].value == Some(value) && Local(v.target) !in Idents(value.expr)
    requires Fitted(v, trace) && TrailOf(value, v.writes, i, trace).Touched?
    ensures v.Lawful(acts, Zero, Sum) && Project(acts) == trace
    ensures !Keeps(value, v.target, StoreAfter(acts, Zero, v.target), Sum)
  {
    var m := FindTouch(value, v.writes, i, trace);
    var ident, p := AtTouch(v, i, value, trace, m);
    acts := WithWrite(v, trace, m, ident, p);
    WithWriteIsLawful(v, trace, m, ident, p);
    var head := Quietly(v, trace[..m + 1]);
    var now := StoreAfter(head, Zero, v.target);
    WriteLoses(v, value, head, now, Writes(ident, p, now(ident) + 1), acts, trace[m + 1..]);
  }

  /* The exact conditions. */

  /** An execution of the body that is about to read `x`. */
  ghost predicate Reads(owners: seq<Span>, body: seq<Stmt>, run: Run, x: Span) {
    var o := Exec(owners, Block(body), run);
    o.Ended? && o.exit.Reading? && o.exit.region.Contains(x)
  }

  /** The course of values belongs to the execution and is lawful. */
  ghost predicate Courses(v: Variable, owners: seq<Span>, body: seq<Stmt>, run: Run, x: Span, acts: seq<Act>, store: Store,
                          ops: (nat, int, int) -> int) {
    Reads(owners, body, run, x) && Project(acts) == Exec(owners, Block(body), run).trace && v.Lawful(acts, store, ops)
  }

  /** Wherever definition `i` is in force at the read, its value evaluates there to what the variable holds. */
  ghost predicate KeptWhenInForce(v: Variable, i: nat, value: Value, owners: seq<Span>, body: seq<Stmt>, x: Span) {
    forall run: Run, acts: seq<Act>, store: Store, ops: (nat, int, int) -> int ::
      Courses(v, owners, body, run, x, acts, store, ops) && LastDef(Exec(owners, Block(body), run).trace, None) == Some(i) ==>
        Keeps(value, v.target, StoreAfter(acts, store, v.target), ops)
  }

  /** It does so in every execution that gets to the read, with or without a definition in force. */
  ghost predicate AlwaysKept(v: Variable, i: nat, value: Value, owners: seq<Span>, body: seq<Stmt>, x: Span) {
    forall run: Run, acts: seq<Act>, store: Store, ops: (nat, int, int) -> int ::
      Courses(v, owners, body, run, x, acts, store, ops) ==> Keeps(value, v.target, StoreAfter(acts, store, v.target), ops)
  }

  ghost predicate FittedBody(v: Variable, owners: seq<Span>, body: seq<Stmt>) {
    forall run: Run :: Exec(owners, Block(body), run).Ended? ==> Fitted(v, Exec(owners, Block(body), run).trace)
  }

  /** The trails that executions bring to the read. */
  function TrailsAt(owners: seq<Span>, body: seq<Stmt>, x: Span, value: Value, writes: map<Ident, seq<nat>>, i: nat): set<Trail> {
    Collect(Watch(owners, x, value, writes, i), Block(body), {Unset}).read
  }

  lemma {:induction false} UnsetIff(value: Value, writes: map<Ident, seq<nat>>, i: nat, trace: seq<Event>)
    ensures TrailOf(value, writes, i, trace).Unset? <==> LastDef(trace, None) != Some(i)
  {
    if trace != [] {
      UnsetIff(value, writes, i, trace[..|trace| - 1]);
    }
  }

  lemma TrailBrought(owners: seq<Span>, body: seq<Stmt>, x: Span, value: Value, writes: map<Ident, seq<nat>>, i: nat, run: Run)
    requires Reads(owners, body, run, x)
    ensures TrailOf(value, writes, i, Exec(owners, Block(body), run).trace) in TrailsAt(owners, body, x, value, writes, i)
  {
    NothingIsMissed(Watch(owners, x, value, writes, i), Block(body), run, Unset, {Unset});
  }

  lemma TrailFound(owners: seq<Span>, body: seq<Stmt>, x: Span, value: Value, writes: map<Ident, seq<nat>>, i: nat, t: Trail)
      returns (run: Run)
    requires t in TrailsAt(owners, body, x, value, writes, i)
    ensures Reads(owners, body, run, x) && TrailOf(value, writes, i, Exec(owners, Block(body), run).trace) == t
  {
    var q;
    q, run := NothingIsMadeUp(Watch(owners, x, value, writes, i), Block(body), {Unset}, ToRead, t);
  }

  /** For every program, however deep the declaration: the value keeps wherever its definition is in force exactly if no
      execution brings a touched trail to the read. */
  lemma {:induction false} KeptWhenInForceIff(v: Variable, i: nat, value: Value, owners: seq<Span>, body: seq<Stmt>, x: Span)
    requires i < |v.sources| && v.sources[i].value == Some(value) && Local(v.target) !in Idents(value.expr)
    requires FittedBody(v, owners, body)
    ensures KeptWhenInForce(v, i, value, owners, body, x) <==> Touched !in TrailsAt(owners, body, x, value, v.writes, i)
  {
    if Touched in TrailsAt(owners, body, x, value, v.writes, i) {
      var run := TrailFound(owners, body, x, value, v.writes, i, Touched);
      var acts := TouchedLoses(v, i, value, Exec(owners, Block(body), run).trace);
      UnsetIff(value, v.writes, i, Exec(owners, Block(body), run).trace);
      assert Courses(v, owners, body, run, x, acts, Zero, Sum);
    } else {
      forall run: Run, acts: seq<Act>, store: Store, ops: (nat, int, int) -> int
        | Courses(v, owners, body, run, x, acts, store, ops) && LastDef(Exec(owners, Block(body), run).trace, None) == Some(i)
        ensures Keeps(value, v.target, StoreAfter(acts, store, v.target), ops)
      {
        TrailBrought(owners, body, x, value, v.writes, i, run);
        UnsetIff(value, v.writes, i, Exec(owners, Block(body), run).trace);
        CurrentKeeps(v, i, value, acts, store, ops);
      }
    }
  }

  /** Where no other definition gets to the read, as the analysis says of a sole one: the value keeps in every execution
      exactly if every execution brings a current trail. */
  lemma AlwaysKeptIff(v: Variable, i: nat, value: Value, owners: seq<Span>, body: seq<Stmt>, x: Span)
    requires i < |v.sources| && v.sources[i].value == Some(value) && Local(v.target) !in Idents(value.expr)
    requires FittedBody(v, owners, body)
    requires forall run :: Reads(owners, body, run, x) ==> LastDef(Exec(owners, Block(body), run).trace, None) in {None, Some(i)}
    ensures AlwaysKept(v, i, value, owners, body, x) <==> TrailsAt(owners, body, x, value, v.writes, i) <= {Current}
  {
    var trails := TrailsAt(owners, body, x, value, v.writes, i);
    if trails <= {Current} {
      forall run: Run, acts: seq<Act>, store: Store, ops: (nat, int, int) -> int
        | Courses(v, owners, body, run, x, acts, store, ops)
        ensures Keeps(value, v.target, StoreAfter(acts, store, v.target), ops)
      {
        TrailBrought(owners, body, x, value, v.writes, i, run);
        CurrentKeeps(v, i, value, acts, store, ops);
      }
    } else if Touched in trails {
      KeptWhenInForceIff(v, i, value, owners, body, x);
    } else {
      assert Unset in trails by {
        var t :| t in trails && t != Current;
        assert t == Unset;
      }
      var run := TrailFound(owners, body, x, value, v.writes, i, Unset);
      var trace := Exec(owners, Block(body), run).trace;
      UnsetIff(value, v.writes, i, trace);
      var acts, store := UnsetLoses(v, value, trace);
      assert Courses(v, owners, body, run, x, acts, store, Sum);
    }
  }

  /** Without any definition the variable may hold anything. */
  lemma UnsetLoses(v: Variable, value: Value, trace: seq<Event>) returns (acts: seq<Act>, store: Store)
    requires LastDef(trace, None).None? && Local(v.target) !in Idents(value.expr)
    ensures v.Lawful(acts, store, Sum) && Project(acts) == trace
    ensures !Keeps(value, v.target, StoreAfter(acts, store, v.target), Sum)
  {
    NoneMeansNoDefs(trace);
    store := Set(Zero, Local(v.target), Eval(value.expr, Sum, Zero) + 1);
    acts := [] + VisitsOf(trace);
    VisitsChangeNothing(v, [], trace, store);
    assert [] + trace == trace;
    EvalAgrees(value.expr, Sum, Zero, store);
  }

  lemma {:induction false} NoneMeansNoDefs(trace: seq<Event>)
    requires LastDef(trace, None).None?
    ensures NoDefs(trace)
  {
    if trace != [] {
      NoneMeansNoDefs(trace[..|trace| - 1]);
    }
  }
}
