/** What the exact conditions say of the refactoring: which stable values are safe, and which are not. */
module InlineExact {
  import opened Wrappers
  import opened Syntax
  import opened ReachingDefs
  import opened Executions
  import opened Exactness
  import opened Soundness
  import opened TrueFlow
  import opened Window
  import opened InlineSafety
  import opened InlineValue
  import opened InlinePlan
  import opened InlineTrail
  import opened ForwardText

  ghost predicate StableSource(v: Variable, i: nat, value: Value) {
    && i < |v.sources| && v.sources[i].value == Some(value)
    && StabilityOf(value, v.sources[i].capturedAt, v.target, v.writes).Stable?
  }

  /* Safe. */

  /** What a settled value reads is written before its statement only, or inside the value itself.  So nothing touches it
      from its own region on. */
  lemma NothingTouches(v: Variable, i: nat, value: Value, def: Event, r: Span)
    requires StableSource(v, i, value) && Settled(value, v.sources[i].capturedAt, v.writes)
    requires def.Def? && def.index == i && FittedDef(v, def) && def.region.end <= r.start
    ensures !Spills(value, v.writes, def.region) && !Touches(value, v.writes, r)
  {
  }

  lemma {:induction false} ForwardIsNotTouched(v: Variable, i: nat, value: Value, trace: seq<Event>)
    requires StableSource(v, i, value) && Settled(value, v.sources[i].capturedAt, v.writes)
    requires Fitted(v, trace) && Forward(trace, i)
    ensures !TrailOf(value, v.writes, i, trace).Touched?
    decreases |trace|
  {
    if trace != [] {
      var front, e := trace[..|trace| - 1], trace[|trace| - 1];
      assert forall k :: 0 <= k < |front| ==> front[k] == trace[k];
      ForwardIsNotTouched(v, i, value, front);
      if e.Def? && e.index == i {
        NothingTouches(v, i, value, e, Span(e.region.end, e.region.end));
      } else if e.Visit? && TrailOf(value, v.writes, i, front).Current? {
        var k := SinceDef(value, v.writes, i, front);
        assert FittedDef(v, trace[k]);
        NothingTouches(v, i, value, trace[k], e.region);
      }
    }
  }

  lemma {:induction false} SinceDef(value: Value, writes: map<Ident, seq<nat>>, i: nat, trace: seq<Event>) returns (k: nat)
    requires !TrailOf(value, writes, i, trace).Unset?
    ensures LastAt(trace, k, i)
    decreases |trace|
  {
    var front := trace[..|trace| - 1];
    if trace[|trace| - 1].Def? {
      k := |trace| - 1;
    } else {
      k := SinceDef(value, writes, i, front);
      assert forall j :: 0 <= j < |front| ==> front[j] == trace[j];
    }
  }

  /** A definition outside every loop, under however many branches: its stable value, if no field of it is written later,
      keeps wherever the definition is in force. */
  lemma {:induction false} StraightDefinitionKeeps(v: Variable, i: nat, value: Value, owners: seq<Span>, body: seq<Stmt>, x: Span)
    requires StableSource(v, i, value) && Settled(value, v.sources[i].capturedAt, v.writes)
    requires FittedBody(v, owners, body) && i < |owners|
    requires PlaceBlock(body, 0).Some? && StraightBlock(body, 0, owners[i])
    ensures KeptWhenInForce(v, i, value, owners, body, x)
  {
    KeptWhenInForceIff(v, i, value, owners, body, x);
    if Touched in TrailsAt(owners, body, x, value, v.writes, i) {
      var run := TrailFound(owners, body, x, value, v.writes, i, Touched);
      MovesForward(owners, Block(body), 0, run, i);
      ForwardIsNotTouched(v, i, value, Exec(owners, Block(body), run).trace);
    }
  }

  /* Fields. */

  /** Between the last definition of the trace and its end a place is evaluated where a field of the value is written. */
  ghost predicate FieldWrittenAt(v: Variable, i: nat, value: Value, trace: seq<Event>, k: nat, m: nat, ident: Ident, p: nat) {
    && LastAt(trace, k, i) && k <= m < |trace| && (m == k ==> OutOf(value.span, p))
    && ident in Idents(value.expr) && ident.Other? && WritableAt(ident, v.writes, trace[m].region, p)
  }

  /** Some execution evaluates such a place between definition `i` and the read. */
  ghost predicate FieldWrittenBetween(v: Variable, i: nat, value: Value, owners: seq<Span>, body: seq<Stmt>, x: Span) {
    exists run: Run, k: nat, m: nat, ident: Ident, p: nat ::
      Reads(owners, body, run, x) && FieldWrittenAt(v, i, value, Exec(owners, Block(body), run).trace, k, m, ident, p)
  }

  /** A visit that may write what the value reads, after its last definition, leaves the trail touched. */
  lemma {:induction false} TouchedBy(value: Value, writes: map<Ident, seq<nat>>, i: nat, trace: seq<Event>, k: nat, m: nat)
    requires LastAt(trace, k, i) && k < m < |trace| && Touches(value, writes, trace[m].region)
    ensures TrailOf(value, writes, i, trace).Touched?
    decreases |trace|
  {
    var front := trace[..|trace| - 1];
    assert trace[|trace| - 1].Visit?;
    if m == |trace| - 1 {
      SetSince(value, writes, i, front, k);
    } else {
      assert front[k] == trace[k] && front[m] == trace[m];
      TouchedBy(value, writes, i, front, k, m);
    }
  }

  lemma {:induction false} SetSince(value: Value, writes: map<Ident, seq<nat>>, i: nat, trace: seq<Event>, k: nat)
    requires LastAt(trace, k, i)
    ensures !TrailOf(value, writes, i, trace).Unset?
    decreases |trace|
  {
    if k < |trace| - 1 {
      var front := trace[..|trace| - 1];
      assert trace[|trace| - 1].Visit? && front[k] == trace[k];
      SetSince(value, writes, i, front, k);
    }
  }

  /** A definition that is touched as soon as it takes effect stays so while nothing else defines. */
  lemma {:induction false} TouchedAtOnce(value: Value, writes: map<Ident, seq<nat>>, i: nat, trace: seq<Event>, k: nat)
    requires LastAt(trace, k, i) && Spills(value, writes, trace[k].region)
    ensures TrailOf(value, writes, i, trace).Touched?
    decreases |trace|
  {
    if k < |trace| - 1 {
      var front := trace[..|trace| - 1];
      assert front[k] == trace[k] && trace[|trace| - 1].Visit?;
      TouchedAtOnce(value, writes, i, front, k);
    }
  }

  lemma {:induction false} FieldLoses(v: Variable, i: nat, value: Value, owners: seq<Span>, body: seq<Stmt>, x: Span)
    requires StableSource(v, i, value) && FittedBody(v, owners, body) && FieldWrittenBetween(v, i, value, owners, body, x)
    ensures !KeptWhenInForce(v, i, value, owners, body, x)
  {
    var run: Run, k: nat, m: nat, ident: Ident, p: nat :|
      Reads(owners, body, run, x) && FieldWrittenAt(v, i, value, Exec(owners, Block(body), run).trace, k, m, ident, p);
    var trace := Exec(owners, Block(body), run).trace;
    if m == k {
      TouchedAtOnce(value, v.writes, i, trace, k);
    } else {
      TouchedBy(value, v.writes, i, trace, k, m);
    }
    TrailBrought(owners, body, x, value, v.writes, i, run);
    KeptWhenInForceIff(v, i, value, owners, body, x);
  }

  /** Where everything since the definition lies later in the text, what touches a stable value is a write to a field. */
  lemma TouchIsField(v: Variable, i: nat, value: Value, trace: seq<Event>, k: nat) returns (m: nat, ident: Ident, p: nat)
    requires StableSource(v, i, value) && Fitted(v, trace) && TrailOf(value, v.writes, i, trace).Touched?
    requires LastAt(trace, k, i) && LaterInText(trace, k)
    ensures FieldWrittenAt(v, i, value, trace, k, m, ident, p)
  {
    m := FindTouch(value, v.writes, i, trace);
    assert FittedDef(v, trace[k]);
    if trace[m].Def? {
      ident, p :| ident in Idents(value.expr) && WritableAt(ident, v.writes, trace[m].region, p) && OutOf(value.span, p);
    } else {
      var j := SinceDef(value, v.writes, i, trace[..m]);
      assert trace[..m][j] == trace[j];
      ident, p :| ident in Idents(value.expr) && WritableAt(ident, v.writes, trace[m].region, p);
    }
    LateIsOther(v, i, value, trace[k].region, trace[m].region, ident, p);
  }

  lemma LateIsOther(v: Variable, i: nat, value: Value, def: Span, r: Span, ident: Ident, p: nat)
    requires StableSource(v, i, value) && ident in Idents(value.expr) && WritableAt(ident, v.writes, r, p)
    requires v.sources[i].capturedAt <= def.start <= def.end && def.Contains(value.span)
    requires (r == def && OutOf(value.span, p)) || def.end <= r.start
    ensures ident.Other?
  {
    var j :| 0 <= j < |Idents(value.expr)| && Idents(value.expr)[j] == ident;
    assert !Unsettled(Idents(value.expr)[j], value.span, v.sources[i].capturedAt, v.writes);
    assert WrittenLater(v.writes, ident, value.span, v.sources[i].capturedAt);
  }

  /** A definition anywhere outside loops: its stable value keeps wherever the definition is in force exactly if no execution
      evaluates, between the definition and the read, a place where a field of the value is written. */
  lemma {:induction false} StraightValueKeptIff(v: Variable, i: nat, value: Value, owners: seq<Span>, body: seq<Stmt>, x: Span)
    requires StableSource(v, i, value) && FittedBody(v, owners, body) && i < |owners|
    requires PlaceBlock(body, 0).Some? && StraightBlock(body, 0, owners[i])
    ensures KeptWhenInForce(v, i, value, owners, body, x) <==> !FieldWrittenBetween(v, i, value, owners, body, x)
  {
    KeptWhenInForceIff(v, i, value, owners, body, x);
    if FieldWrittenBetween(v, i, value, owners, body, x) {
      FieldLoses(v, i, value, owners, body, x);
    } else if Touched in TrailsAt(owners, body, x, value, v.writes, i) {
      var run := TrailFound(owners, body, x, value, v.writes, i, Touched);
      MovesForward(owners, Block(body), 0, run, i);
      var trace := Exec(owners, Block(body), run).trace;
      var k := SinceDef(value, v.writes, i, trace);
      TouchedBetween(v, i, value, owners, body, x, run, k);
    }
  }

  /** The sole definition at a read, in a body that declares the variable in its own list: the same for every execution. */
  lemma {:induction false} StableValueKeptIff(v: Variable, b: Body, x: Span, i: nat, value: Value)
    requires b.Valid() && b.decl.end <= x.start < x.end && SoleDef(b.MaskFor(x)) == Some(i)
    requires StableSource(v, i, value) && FittedBody(v, b.owners, b.Stmts())
    ensures AlwaysKept(v, i, value, b.owners, b.Stmts(), x) <==> !FieldWrittenBetween(v, i, value, b.owners, b.Stmts(), x)
  {
    if FieldWrittenBetween(v, i, value, b.owners, b.Stmts(), x) {
      FieldLoses(v, i, value, b.owners, b.Stmts(), x);
      assert AlwaysKept(v, i, value, b.owners, b.Stmts(), x) ==> KeptWhenInForce(v, i, value, b.owners, b.Stmts(), x);
    } else {
      forall run: Run, acts: seq<Act>, store: Store, ops: (nat, int, int) -> int
        | Courses(v, b.owners, b.Stmts(), run, x, acts, store, ops)
        ensures Keeps(value, v.target, StoreAfter(acts, store, v.target), ops)
      {
        CurrentAtRead(v, b, x, i, value, run);
        CurrentKeeps(v, i, value, acts, store, ops);
      }
    }
  }

  lemma CurrentAtRead(v: Variable, b: Body, x: Span, i: nat, value: Value, run: Run)
    requires b.Valid() && b.Reads(run, x) && b.decl.end <= x.start < x.end && SoleDef(b.MaskFor(x)) == Some(i)
    requires StableSource(v, i, value) && FittedBody(v, b.owners, b.Stmts())
    ensures TrailOf(value, v.writes, i, b.Trace(run)).Current? || FieldWrittenBetween(v, i, value, b.owners, b.Stmts(), x)
  {
    var k := SoleDefinitionIsInForce(b, run, x, i);
    SetSince(value, v.writes, i, b.Trace(run), k);
    if TrailOf(value, v.writes, i, b.Trace(run)).Touched? {
      TouchedBetween(v, i, value, b.owners, b.Stmts(), x, run, k);
    }
  }

  lemma TouchedBetween(v: Variable, i: nat, value: Value, owners: seq<Span>, body: seq<Stmt>, x: Span, run: Run, k: nat)
    requires StableSource(v, i, value) && FittedBody(v, owners, body) && Reads(owners, body, run, x)
    requires var trace := Exec(owners, Block(body), run).trace;
      TrailOf(value, v.writes, i, trace).Touched? && LastAt(trace, k, i) && LaterInText(trace, k)
    ensures FieldWrittenBetween(v, i, value, owners, body, x)
  {
    var m, ident, p := TouchIsField(v, i, value, Exec(owners, Block(body), run).trace, k);
  }

  /* The refactoring. */

  /** The reads of a request as the analysis of a body labels them. */
  ghost predicate AnalyzedIn(q: Request, owners: seq<Span>, body: seq<Stmt>) {
    forall k :: 0 <= k < |q.asked| ==> q.asked[k].sole == SoleDef(MarkOfBlock(owners, body, {}, q.asked[k].range))
  }

  /** A read that planning keeps, in a body whose mask for it is sound: the value keeps in every execution exactly if every
      execution brings a current trail. */
  lemma {:induction false} PlannedReadKeptIff(q: Request, e: Eligible, owners: seq<Span>, body: seq<Stmt>)
    requires q.Valid() && e in q.Entries(|q.asked|) && FittedBody(q.variable, owners, body)
    requires AnalyzedIn(q, owners, body) && MaskSound(owners, body, e.range)
    ensures e.index < |q.variable.sources| && q.variable.sources[e.index].value.Some?
    ensures var value := q.variable.sources[e.index].value.value;
      AlwaysKept(q.variable, e.index, value, owners, body, e.range)
      <==> TrailsAt(owners, body, e.range, value, q.variable.writes, e.index) <= {Current}
  {
    var k := EntryComesFromRead(q, |q.asked|, e);
    assert SoleDef(MarkOfBlock(owners, body, {}, e.range)) == Some(e.index);
    forall run | Reads(owners, body, run, e.range)
      ensures LastDef(Exec(owners, Block(body), run).trace, None) in {None, Some(e.index)}
    {
      SoundMaskNames(owners, body, e.range, run, e.index);
    }
    AlwaysKeptIff(q.variable, e.index, q.variable.sources[e.index].value.value, owners, body, e.range);
  }

  lemma SoundMaskNames(owners: seq<Span>, body: seq<Stmt>, x: Span, run: Run, i: nat)
    requires MaskSound(owners, body, x) && Reads(owners, body, run, x) && SoleDef(MarkOfBlock(owners, body, {}, x)) == Some(i)
    ensures LastDef(Exec(owners, Block(body), run).trace, None) in {None, Some(i)}
  {
    var e := LastDef(Exec(owners, Block(body), run).trace, None);
    assert Leaves(owners, Block(body), run, ToRead, x, None, e);
    assert SomeRunLeaves(owners, Block(body), {}, ToRead, x, e);
  }

  /** Without definitions in conditions and `continue` in do-whiles the mask is sound. */
  lemma ModelledMaskIsSound(owners: seq<Span>, body: seq<Stmt>, x: Span)
    requires |owners| <= MAX_DEFS && Modelled(owners, Block(body))
    ensures MaskSound(owners, body, x)
  {
    forall e | SomeRunLeaves(owners, Block(body), {}, ToRead, x, e)
      ensures Covers(MarkOfBlock(owners, body, {}, x), e)
    {
      var run: Run, d: Option<nat> :| Covers({}, d) && Leaves(owners, Block(body), run, ToRead, x, d, e);
      RecordedMaskIsSound(owners, body, run, x);
    }
  }

  /** A read that inlining calls verified, of a definition outside loops: it keeps its value in every execution exactly if
      every execution that gets there has run the definition, and none has evaluated since a place where a field of the
      value is written. */
  lemma {:induction false} VerifiedReadKeptIff(q: Request, plan: Plan, x: Span, owners: seq<Span>, body: seq<Stmt>)
    requires q.Valid() && plan.eligible == q.Entries(|q.asked|) && InlineSingleRead(x, plan) == Some(true)
    requires FittedBody(q.variable, owners, body) && AnalyzedIn(q, owners, body) && MaskSound(owners, body, x)
    requires var i := FindRead(x, plan.eligible).value.index;
      i < |owners| && PlaceBlock(body, 0).Some? && StraightBlock(body, 0, owners[i])
    ensures var i := FindRead(x, plan.eligible).value.index;
      i < |q.variable.sources| && q.variable.sources[i].value.Some?
      && var value := q.variable.sources[i].value.value;
      AlwaysKept(q.variable, i, value, owners, body, x)
      <==> Unset !in TrailsAt(owners, body, x, value, q.variable.writes, i) && !FieldWrittenBetween(q.variable, i, value, owners, body, x)
  {
    var e := FindRead(x, plan.eligible).value;
    var k := EntryComesFromRead(q, |q.asked|, e);
    var value := q.variable.sources[e.index].value.value;
    PlannedReadKeptIff(q, e, owners, body);
    KeptWhenInForceIff(q.variable, e.index, value, owners, body, x);
    StraightValueKeptIff(q.variable, e.index, value, owners, body, x);
    TrailsAreTrails(TrailsAt(owners, body, x, value, q.variable.writes, e.index));
  }

  lemma TrailsAreTrails(trails: set<Trail>)
    ensures trails <= {Current} <==> Unset !in trails && Touched !in trails
  {
    forall t | t in trails && Unset !in trails && Touched !in trails
      ensures t == Current
    {
      assert t.Unset? || t.Current? || t.Touched?;
    }
  }
}
