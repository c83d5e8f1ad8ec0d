/** Which reads inline-variable rewrites, and when it calls the result verified (src/resolve/inline_var.rs). */
module InlinePlan {
  import opened Wrappers
  import opened Syntax
  import opened ReachingDefs
  import opened Executions
  import opened InlineSafety
  import opened InlineValue

  /** A read of the variable and the definition the analysis names for it. */
  datatype Read = Read(range: Span, sole: Option<nat>)

  /** What planning knows of one definition besides its value: whether the value calls or constructs, whether its
      statement can be deleted, and whether deleting that drops an observable effect. */
  datatype Fact = Fact(calls: bool, isDecl: bool, deletable: bool, observable: bool)

  datatype Eligible = Eligible(range: Span, verified: bool, calls: bool, index: nat)

  /** The variable, its definitions' facts, and its reads. */
  datatype Request = Request(variable: Variable, body: Body, facts: seq<Fact>, asked: seq<Read>) {
    predicate Valid() {
      && |facts| == |variable.sources|
      && forall k :: 0 <= k < |asked| ==> asked[k].sole.Some? ==> asked[k].sole.value < |facts|
    }

    /** The entry of a read in the plan: none without a sole definition, a plain value, or a value free of the target. */
    function Entry(r: Read): Option<Eligible>
      requires Valid() && (r.sole.Some? ==> r.sole.value < |facts|)
    {
      if r.sole.None? || variable.sources[r.sole.value].value.None? then None
      else
        var i := r.sole.value;
        match StabilityOf(variable.sources[i].value.value, variable.sources[i].capturedAt, variable.target, variable.writes)
        case ReferencesTarget => None
        case MayChange => Some(Eligible(r.range, false, facts[i].calls, i))
        case Stable => Some(Eligible(r.range, true, facts[i].calls, i))
    }

    /** The entries of the first `n` reads. */
    function Entries(n: nat): seq<Eligible>
      requires Valid() && n <= |asked|
    {
      if n == 0 then []
      else match Entry(asked[n - 1])
        case Some(e) => Entries(n - 1) + [e]
        case None => Entries(n - 1)
    }
  }

  datatype Plan = Plan(eligible: seq<Eligible>, totalReads: nat, teardownPossible: bool, teardownClean: bool)

  method PlanInline(q: Request) returns (plan: Option<Plan>)
    requires q.Valid()
    ensures plan.None? <==> q.asked == []
    ensures plan.Some? ==>
      && plan.value.eligible == q.Entries(|q.asked|)
      && plan.value.totalReads == |q.asked|
      && (plan.value.teardownPossible <==> forall i :: 0 <= i < |q.facts| ==> q.facts[i].isDecl || q.facts[i].deletable)
      && (plan.value.teardownClean <==> forall i :: 0 <= i < |q.facts| ==>
            (exists e :: e in plan.value.eligible && e.index == i) || !q.facts[i].observable)
  {
    if q.asked == [] {
      return None;
    }
    var eligible: seq<Eligible> := [];
    var used: set<nat> := {};
    var n := 0;
    while n < |q.asked|
      invariant 0 <= n <= |q.asked|
      invariant eligible == q.Entries(n)
      invariant used == set e | e in eligible :: e.index
    {
      var r := q.asked[n];
      if r.sole.Some? && q.variable.sources[r.sole.value].value.Some? {
        var i := r.sole.value;
        var source := q.variable.sources[i];
        var s := ValueStability(source.value.value, source.capturedAt, q.variable.target, q.variable.writes);
        if !s.ReferencesTarget? {
          eligible := eligible + [Eligible(r.range, s.Stable?, q.facts[i].calls, i)];
          used := used + {i};
        }
      }
      n := n + 1;
    }
    var possible := forall i :: 0 <= i < |q.facts| ==> q.facts[i].isDecl || q.facts[i].deletable;
    var clean := forall i :: 0 <= i < |q.facts| ==> i in used || !q.facts[i].observable;
    return Some(Plan(eligible, |q.asked|, possible, clean));
  }

  /** Two rewritten reads would each run the same definition's call or construction. */
  predicate RepeatsACall(eligible: seq<Eligible>, n: nat)
    requires n <= |eligible|
  {
    exists i, j :: 0 <= i < j < n && eligible[i].calls && eligible[j].calls && eligible[i].index == eligible[j].index
  }

  method DuplicatesACallOrConstruct(eligible: seq<Eligible>) returns (b: bool)
    ensures b <==> RepeatsACall(eligible, |eligible|)
  {
    var perDef: map<nat, nat> := map[];
    var n := 0;
    while n < |eligible|
      invariant 0 <= n <= |eligible|
      invariant forall d :: d in perDef ==> perDef[d] >= 1
      invariant forall d :: d in perDef <==> exists i :: 0 <= i < n && eligible[i].calls && eligible[i].index == d
      invariant (exists d :: d in perDef && perDef[d] > 1) <==> RepeatsACall(eligible, n)
    {
      ghost var before := perDef;
      var e := eligible[n];
      if e.calls {
        perDef := perDef[e.index := (if e.index in perDef then perDef[e.index] else 0) + 1];
        if e.index in before {
          var i :| 0 <= i < n && eligible[i].calls && eligible[i].index == e.index;
          assert RepeatsACall(eligible, n + 1);
          assert perDef[e.index] > 1;
        } else {
          assert forall d :: d in before ==> perDef[d] == before[d];
          if RepeatsACall(eligible, n) {
            var d :| d in before && before[d] > 1;
            assert d in perDef && perDef[d] > 1;
          }
        }
      }
      n := n + 1;
    }
    b := exists d :: d in perDef.Keys && perDef[d] > 1;
  }

  /** Rewriting every read and deleting the variable: refused, or done with or without being verified. */
  function InlineAllReads(plan: Plan): (verified: Option<bool>)
    ensures verified.None? <==> |plan.eligible| != plan.totalReads || !plan.teardownPossible
    ensures verified.Some? ==> (verified.value <==>
      && plan.teardownClean && (forall e :: e in plan.eligible ==> e.verified)
      && forall i, j :: 0 <= i < j < |plan.eligible| && plan.eligible[i].index == plan.eligible[j].index ==>
           !(plan.eligible[i].calls && plan.eligible[j].calls))
  {
    if |plan.eligible| != plan.totalReads || !plan.teardownPossible then None
    else Some(plan.teardownClean && (forall k :: 0 <= k < |plan.eligible| ==> plan.eligible[k].verified)
              && !RepeatsACall(plan.eligible, |plan.eligible|))
  }

  /** The first rewritable read at `range`, if any. */
  function FindRead(range: Span, eligible: seq<Eligible>): (r: Option<Eligible>)
    ensures r.Some? ==> exists i :: 0 <= i < |eligible| && eligible[i] == r.value && r.value.range == range
                                    && forall j :: 0 <= j < i ==> eligible[j].range != range
    ensures r.None? ==> forall e :: e in eligible ==> e.range != range
  {
    if eligible == [] then None
    else if eligible[0].range == range then Some(eligible[0])
    else
      var r := FindRead(range, eligible[1..]);
      assert r.Some? ==> exists i :: 0 < i < |eligible| && eligible[i] == r.value && r.value.range == range
                                     && forall j :: 0 <= j < i ==> eligible[j].range != range by {
        if r.Some? {
          var i :| 0 <= i < |eligible[1..]| && eligible[1..][i] == r.value && forall j :: 0 <= j < i ==> eligible[1..][j].range != range;
          assert eligible[i + 1] == r.value && forall j :: 1 <= j < i + 1 ==> eligible[j] == eligible[1..][j - 1];
        }
      }
      r
  }

  /** Rewriting one read; the variable goes with it when that was the only one. */
  function InlineSingleRead(range: Span, plan: Plan): (verified: Option<bool>)
    ensures verified.None? <==>
      (forall e :: e in plan.eligible ==> e.range != range) || (plan.totalReads == 1 && !plan.teardownPossible)
    ensures verified == Some(true) ==> exists e :: (
      && e in plan.eligible && e.range == range && e.verified
      && ((plan.totalReads == 1 && plan.teardownClean) || !e.calls))
  {
    var found := FindRead(range, plan.eligible);
    if found.None? then None
    else if plan.totalReads == 1 then
      if !plan.teardownPossible then None else Some(found.value.verified && plan.teardownClean)
    else Some(found.value.verified && !found.value.calls)
  }

  /** The entry a read should have, said outright. */
  ghost predicate EntryOfRead(q: Request, r: Read, e: Eligible)
    requires q.Valid()
  {
    && r.sole == Some(e.index) && e.index < |q.facts| && e.range == r.range && e.calls == q.facts[e.index].calls
    && q.variable.sources[e.index].value.Some?
    && var value, from := q.variable.sources[e.index].value.value, q.variable.sources[e.index].capturedAt;
       && Local(q.variable.target) !in Idents(value.expr)
       && (e.verified <==> Unresolved !in Idents(value.expr) && forall v, p ::
             Local(v) in Idents(value.expr) && Local(v) in q.variable.writes && p in q.variable.writes[Local(v)] ==>
               p < from || value.span.start <= p < value.span.end)
  }

  lemma EntryIs(q: Request, r: Read, e: Eligible)
    requires q.Valid() && (r.sole.Some? ==> r.sole.value < |q.facts|)
    ensures q.Entry(r) == Some(e) <==> EntryOfRead(q, r, e)
  {
    if r.sole.Some? && q.variable.sources[r.sole.value].value.Some? {
      StableIs(q.variable.sources[r.sole.value].value.value, q.variable.sources[r.sole.value].capturedAt, q.variable.target, q.variable.writes);
    }
  }

  lemma StableIs(value: Value, from: nat, target: nat, writes: map<Ident, seq<nat>>)
    ensures StabilityOf(value, from, target, writes).Stable? <==>
      && Local(target) !in Idents(value.expr) && Unresolved !in Idents(value.expr)
      && forall v :: Local(v) in Idents(value.expr) ==> !WrittenLater(writes, Local(v), value.span, from)
  {
    var idents := Idents(value.expr);
    if Unresolved in idents {
      var j :| 0 <= j < |idents| && idents[j] == Unresolved;
      assert Unsettled(idents[j], value.span, from, writes);
    }
    forall v | Local(v) in idents && WrittenLater(writes, Local(v), value.span, from)
      ensures !StabilityOf(value, from, target, writes).Stable?
    {
      var j :| 0 <= j < |idents| && idents[j] == Local(v);
      assert Unsettled(idents[j], value.span, from, writes);
    }
  }

  /** The plan has exactly the entries of the reads that can be rewritten. */
  lemma PlannedIff(q: Request, e: Eligible)
    requires q.Valid()
    ensures e in q.Entries(|q.asked|) <==> exists k :: 0 <= k < |q.asked| && EntryOfRead(q, q.asked[k], e)
  {
    if e in q.Entries(|q.asked|) {
      var k := EntryComesFromRead(q, |q.asked|, e);
      EntryIs(q, q.asked[k], e);
    }
    if exists k :: 0 <= k < |q.asked| && EntryOfRead(q, q.asked[k], e) {
      var k :| 0 <= k < |q.asked| && EntryOfRead(q, q.asked[k], e);
      EntryIs(q, q.asked[k], e);
      EntryIsThere(q, |q.asked|, k, e);
    }
  }

  lemma {:induction false} EntryIsThere(q: Request, n: nat, k: nat, e: Eligible)
    requires q.Valid() && k < n <= |q.asked| && q.Entry(q.asked[k]) == Some(e)
    ensures e in q.Entries(n)
    decreases n
  {
    if k < n - 1 {
      EntryIsThere(q, n - 1, k, e);
    }
  }

  lemma {:induction false} EntriesShorter(q: Request, n: nat)
    requires q.Valid() && n <= |q.asked|
    ensures |q.Entries(n)| <= n
  {
    if n > 0 {
      EntriesShorter(q, n - 1);
    }
  }

  /** When no read was dropped, entry k of the plan is that of read k. */
  lemma {:induction false} FullPlanCoversEveryRead(q: Request, n: nat, k: nat)
    requires q.Valid() && k < n <= |q.asked|
    requires |q.Entries(n)| == n
    ensures q.Entry(q.asked[k]) == Some(q.Entries(n)[k])
    decreases n
  {
    EntriesShorter(q, n - 1);
    if k < n - 1 {
      FullPlanCoversEveryRead(q, n - 1, k);
    }
  }

  lemma {:induction false} EntryComesFromRead(q: Request, n: nat, e: Eligible) returns (k: nat)
    requires q.Valid() && n <= |q.asked| && e in q.Entries(n)
    ensures k < n && q.Entry(q.asked[k]) == Some(e)
  {
    if q.Entry(q.asked[n - 1]) == Some(e) {
      k := n - 1;
    } else {
      k := EntryComesFromRead(q, n - 1, e);
    }
  }

  /** The reads of a request as the analysis of its body labels them. */
  ghost predicate Analyzed(q: Request) {
    forall k :: 0 <= k < |q.asked| ==> q.asked[k].sole == SoleDef(q.body.MaskFor(q.asked[k].range))
  }

  /** No value that planning may move has a field that is written later. */
  ghost predicate SettledValues(q: Request) {
    forall i :: 0 <= i < |q.variable.sources| && q.variable.sources[i].value.Some? ==>
      Settled(q.variable.sources[i].value.value, q.variable.sources[i].capturedAt, q.variable.writes)
  }

  /** Replacing read `x` by the value of definition `i` changes nothing in an execution about to read it. */
  ghost predicate SameValue(v: Variable, i: nat, acts: seq<Act>, store: Store, ops: (nat, int, int) -> int)
    requires i < |v.sources| && v.sources[i].value.Some?
  {
    var end := StoreAfter(acts, store, v.target);
    Eval(v.sources[i].value.value.expr, ops, end) == end(Local(v.target))
  }

  /** Inlining all reads, when verified, gives every read the value it had, in every execution. */
  lemma {:induction false} VerifiedInlineAllKeepsEveryRead(q: Request, plan: Plan, k: nat, run: Run, acts: seq<Act>, store: Store, ops: (nat, int, int) -> int)
    requires q.Valid() && Analyzed(q) && SettledValues(q) && k < |q.asked|
    requires plan.eligible == q.Entries(|q.asked|) && plan.totalReads == |q.asked|
    requires InlineAllReads(plan) == Some(true)
    requires var x := q.asked[k].range;
      q.body.Valid() && q.body.decl.end <= x.start < x.end && q.body.Reads(run, x)
    requires Project(acts) == q.body.Trace(run) && q.variable.Lawful(acts, store, ops)
    ensures q.asked[k].sole.Some? && q.variable.sources[q.asked[k].sole.value].value.Some?
    ensures SameValue(q.variable, q.asked[k].sole.value, acts, store, ops)
  {
    FullPlanCoversEveryRead(q, |q.asked|, k);
    StableReadKeepsValue(q.variable, q.body, q.asked[k].range, q.asked[k].sole.value, run, acts, store, ops);
  }

  /** Inlining one read, when verified, gives it the value it had, in every execution. */
  lemma {:induction false} VerifiedInlineSingleKeepsRead(q: Request, plan: Plan, x: Span, run: Run, acts: seq<Act>, store: Store, ops: (nat, int, int) -> int)
    requires q.Valid() && Analyzed(q) && SettledValues(q)
    requires plan.eligible == q.Entries(|q.asked|)
    requires InlineSingleRead(x, plan) == Some(true)
    requires q.body.Valid() && q.body.decl.end <= x.start < x.end && q.body.Reads(run, x)
    requires Project(acts) == q.body.Trace(run) && q.variable.Lawful(acts, store, ops)
    ensures var i := FindRead(x, plan.eligible).value.index;
      i < |q.variable.sources| && q.variable.sources[i].value.Some? && SameValue(q.variable, i, acts, store, ops)
  {
    var e := FindRead(x, plan.eligible).value;
    var k := EntryComesFromRead(q, |q.asked|, e);
    StableReadKeepsValue(q.variable, q.body, x, e.index, run, acts, store, ops);
  }
}
