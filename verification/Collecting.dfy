/** What executions can bring to each way out of a statement and to a read, computed: the statement tree is walked with the
    set of states that some finite observer of the trace can be in.  Unlike the walk of the language server it observes
    every region, conditions included, and it is exact for every program. */
module Collecting {
  import opened Wrappers
  import opened Syntax
  import opened Executions
  import opened Exactness

  /** An observer: its states, how an event changes them, the definitions it watches and the read it is asked about. */
  datatype Observer<!Q> = Observer(owners: seq<Span>, x: Span, step: (Q, Event) -> Q, states: set<Q>)

  /** The states in which executions leave each way, or reach the read. */
  datatype Places<Q> = Places(normal: set<Q>, breaks: set<Q>, continues: set<Q>, returned: set<Q>, read: set<Q>)

  function At<Q>(p: Places<Q>, way: Way): set<Q> {
    match way
    case ToNormal => p.normal
    case ToBreak => p.breaks
    case ToContinue => p.continues
    case ToReturn => p.returned
    case ToRead => p.read
  }

  function Either<Q(==)>(a: Places<Q>, b: Places<Q>): Places<Q> {
    Places(a.normal + b.normal, a.breaks + b.breaks, a.continues + b.continues, a.returned + b.returned, a.read + b.read)
  }

  function InTurn<Q(==)>(a: Places<Q>, b: Places<Q>): Places<Q> {
    Either(a, b).(normal := b.normal)
  }

  function Nowhere<Q(==)>(): Places<Q> {
    Places({}, {}, {}, {}, {})
  }

  function Follow<Q>(step: (Q, Event) -> Q, q: Q, trace: seq<Event>): Q {
    if trace == [] then q else step(Follow(step, q, trace[..|trace| - 1]), trace[|trace| - 1])
  }

  function Image<Q(==)>(step: (Q, Event) -> Q, from: set<Q>, trace: seq<Event>): set<Q> {
    set q | q in from :: Follow(step, q, trace)
  }

  /** The states after a region, and those at the read if the region holds it. */
  function Past<Q(==)>(g: Observer<Q>, region: Option<Span>, from: set<Q>): set<Q> {
    Image(g.step, from, RegionTrace(g.owners, region))
  }

  function Seeing<Q(==)>(g: Observer<Q>, region: Option<Span>, from: set<Q>): set<Q> {
    if region.Some? && region.value.Contains(g.x) then from else {}
  }

  function Collect<Q(==)>(g: Observer<Q>, stmt: Stmt, from: set<Q>): Places<Q>
    decreases stmt, 1, 0
  {
    match stmt
    case Block(stmts) => CollectBlock(g, stmts, from)
    case Leaf(r) => Places(Past(g, Some(r), from), {}, {}, {}, Seeing(g, Some(r), from))
    case Return(r) => Places({}, {}, {}, Past(g, Some(r), from), Seeing(g, Some(r), from))
    case Break => Places({}, from, {}, {}, {})
    case Continue => Places({}, {}, from, {}, {})
    case Nop => Places(from, {}, {}, {}, {})
    case If(cond, body, els) =>
      var inside := Past(g, cond, from);
      AlsoRead(Either(Collect(g, body, inside), Collect(g, els, inside)), Seeing(g, cond, from))
    case While(cond, body) => CollectLoop(g, cond, None, body, from)
    case DoWhile(body, cond) =>
      var top := Header(g, None, cond, body, from, |g.states|);
      DoPlaces(g, cond, Collect(g, body, top))
    case For(init, cond, iter, body) =>
      AlsoRead(CollectLoop(g, cond, iter, body, Past(g, init, from)), Seeing(g, init, from))
    case Switch(cond, sections) => AlsoRead(CollectSwitch(g, sections, Past(g, cond, from)), Seeing(g, cond, from))
    case Unmodelled(r) => Places(Past(g, Some(r), from), {}, {}, {}, Seeing(g, Some(r), from))
  }

  function AlsoRead<Q(==)>(p: Places<Q>, more: set<Q>): Places<Q> {
    p.(read := p.read + more)
  }

  function CollectBlock<Q(==)>(g: Observer<Q>, stmts: seq<Stmt>, from: set<Q>): Places<Q>
    decreases stmts, 0, 0
  {
    if stmts == [] then Places(from, {}, {}, {}, {})
    else
      var first := Collect(g, stmts[0], from);
      InTurn(first, CollectBlock(g, stmts[1..], first.normal))
  }

  /** The states in which a round that starts in `top` comes back to the top of the loop. */
  function Back<Q(==)>(g: Observer<Q>, cond: Option<Span>, iter: Option<Span>, body: Stmt, top: set<Q>): set<Q>
    decreases body, 2, 0
  {
    var b := Collect(g, body, Past(g, cond, top));
    Past(g, iter, b.normal + b.continues)
  }

  /** The states at the top of the loop after at most `n` rounds. */
  function Header<Q(==)>(g: Observer<Q>, cond: Option<Span>, iter: Option<Span>, body: Stmt, from: set<Q>, n: nat): (top: set<Q>)
    ensures top <= g.states
    decreases body, 3, n
  {
    if n == 0 then from * g.states
    else
      var top := Header(g, cond, iter, body, from, n - 1);
      top + Back(g, cond, iter, body, top) * g.states
  }

  function LoopPlaces<Q(==)>(g: Observer<Q>, cond: Option<Span>, iter: Option<Span>, top: set<Q>, b: Places<Q>): Places<Q> {
    Places(Past(g, cond, top) + b.breaks, {}, {}, b.returned,
           Seeing(g, cond, top) + b.read + Seeing(g, iter, b.normal + b.continues))
  }

  function DoPlaces<Q(==)>(g: Observer<Q>, cond: Option<Span>, b: Places<Q>): Places<Q> {
    Places(Past(g, cond, b.normal + b.continues) + b.breaks, {}, {}, b.returned,
           b.read + Seeing(g, cond, b.normal + b.continues))
  }

  function CollectLoop<Q(==)>(g: Observer<Q>, cond: Option<Span>, iter: Option<Span>, body: Stmt, from: set<Q>): Places<Q>
    decreases body, 4, 0
  {
    var top := Header(g, cond, iter, body, from, |g.states|);
    LoopPlaces(g, cond, iter, top, Collect(g, body, Past(g, cond, top)))
  }

  function CollectSections<Q(==)>(g: Observer<Q>, sections: seq<Section>, from: set<Q>): Places<Q>
    decreases sections, 0, 0
  {
    if sections == [] then Places(from, {}, {}, {}, {})
    else if !sections[0].Code? then CollectSections(g, sections[1..], from)
    else
      assert sections[0].stmt < sections[0];
      var first := Collect(g, sections[0].stmt, from);
      InTurn(first, CollectSections(g, sections[1..], first.normal))
  }

  /** The sections whose values are tested before control enters at `at`. */
  function Tested(sections: seq<Section>, at: nat): seq<Section>
    requires at < |sections|
  {
    if sections[at].CaseLabel? then sections[..at + 1] else sections
  }

  function EnterAt<Q(==)>(g: Observer<Q>, sections: seq<Section>, from: set<Q>, at: nat): Places<Q>
    requires at < |sections|
    decreases sections, 1, 0
  {
    if sections[at].Code? then Nowhere()
    else
      var p := CollectSections(g, sections[at + 1..], Image(g.step, from, LabelTests(g.owners, Tested(sections, at))));
      if sections[at].CaseLabel?
      then AlsoRead(p, Seeing(g, sections[at].value, Image(g.step, from, LabelTests(g.owners, sections[..at]))))
      else p
  }

  /** The places from entering at one of the first `n` labels. */
  function Entered<Q(==)>(g: Observer<Q>, sections: seq<Section>, from: set<Q>, n: nat): Places<Q>
    requires n <= |sections|
    decreases sections, 2, n
  {
    if n == 0 then Nowhere() else Either(Entered(g, sections, from, n - 1), EnterAt(g, sections, from, n - 1))
  }

  function CollectSwitch<Q(==)>(g: Observer<Q>, sections: seq<Section>, from: set<Q>): Places<Q>
    decreases sections, 3, 0
  {
    var p := Entered(g, sections, from, |sections|);
    var skipped := if HasDefault(sections) then {} else Image(g.step, from, LabelTests(g.owners, sections));
    p.(normal := skipped + p.normal + p.breaks, breaks := {})
  }

  /* Following traces. */

  lemma {:induction false} FollowConcat<Q>(step: (Q, Event) -> Q, q: Q, a: seq<Event>, b: seq<Event>)
    ensures Follow(step, q, a + b) == Follow(step, Follow(step, q, a), b)
  {
    if b == [] {
      assert a + b == a;
    } else {
      assert (a + b)[..|a + b| - 1] == a + b[..|b| - 1];
      FollowConcat(step, q, a, b[..|b| - 1]);
    }
  }

  predicate Known(owners: seq<Span>, e: Event) {
    e.Def? ==> e.index < |owners|
  }

  /** The observer's states are all it ever gets into. */
  ghost predicate Complete<Q(!new)>(g: Observer<Q>) {
    forall q, e :: q in g.states && Known(g.owners, e) ==> g.step(q, e) in g.states
  }

  lemma {:induction false} FollowStays<Q(!new)>(g: Observer<Q>, q: Q, trace: seq<Event>)
    requires Complete(g) && q in g.states && forall k :: 0 <= k < |trace| ==> Known(g.owners, trace[k])
    ensures Follow(g.step, q, trace) in g.states
  {
    if trace != [] {
      FollowStays(g, q, trace[..|trace| - 1]);
    }
  }

  lemma RegionStays<Q(!new)>(g: Observer<Q>, q: Q, region: Option<Span>)
    requires Complete(g) && q in g.states
    ensures Follow(g.step, q, RegionTrace(g.owners, region)) in g.states
  {
    FollowStays(g, q, RegionTrace(g.owners, region));
  }

  lemma {:induction false} TestsStay<Q(!new)>(g: Observer<Q>, q: Q, sections: seq<Section>)
    requires Complete(g) && q in g.states
    ensures Follow(g.step, q, LabelTests(g.owners, sections)) in g.states
  {
    if sections != [] {
      var first := if sections[0].CaseLabel? then RegionTrace(g.owners, sections[0].value) else [];
      FollowConcat(g.step, q, first, LabelTests(g.owners, sections[1..]));
      FollowStays(g, q, first);
      TestsStay(g, Follow(g.step, q, first), sections[1..]);
    }
  }

  /* Nothing is missed. */

  /** However the execution ends, the places have the state in which it leaves the observer. */
  ghost predicate Lands<Q(!new)>(g: Observer<Q>, p: Places<Q>, o: Outcome, q: Q) {
    o.Ended? ==>
      var e := Follow(g.step, q, o.trace);
      && e in g.states
      && match o.exit
         case Normal => e in p.normal
         case Breaks => e in p.breaks
         case Continues => e in p.continues
         case Returns => e in p.returned
         case Reading(region) => region.Contains(g.x) ==> e in p.read
  }

  lemma LandsAfter<Q(!new)>(g: Observer<Q>, p: Places<Q>, prefix: seq<Event>, o: Outcome, q: Q)
    requires Lands(g, p, o, Follow(g.step, q, prefix))
    ensures Lands(g, p, Before(prefix, o), q)
  {
    if o.Ended? {
      FollowConcat(g.step, q, prefix, o.trace);
    }
  }

  /** `p` has everything that `small` has. */
  predicate Within<Q(==)>(small: Places<Q>, p: Places<Q>) {
    && small.normal <= p.normal && small.breaks <= p.breaks && small.continues <= p.continues
    && small.returned <= p.returned && small.read <= p.read
  }

  lemma LandsWider<Q(!new)>(g: Observer<Q>, small: Places<Q>, p: Places<Q>, o: Outcome, q: Q)
    requires Lands(g, small, o, q) && Within(small, p)
    ensures Lands(g, p, o, q)
  {
  }

  lemma {:induction false} NothingIsMissed<Q(!new)>(g: Observer<Q>, stmt: Stmt, run: Run, q: Q, from: set<Q>)
    requires Complete(g) && q in from && q in g.states
    ensures Lands(g, Collect(g, stmt, from), Exec(g.owners, stmt, run), q)
    decreases run, 1, 0
  {
    var o := Exec(g.owners, stmt, run);
    match stmt {
      case Block(stmts) => BlockMissesNothing(g, stmts, run, q, from);
      case Leaf(r) => RegionStays(g, q, Some(r));
      case Return(r) => RegionStays(g, q, Some(r));
      case Unmodelled(r) => RegionStays(g, q, Some(r));
      case Break =>
      case Continue =>
      case Nop =>
      case If(cond, body, els) =>
        RegionStays(g, q, cond);
        var inside, c := Past(g, cond, from), RegionTrace(g.owners, cond);
        var branch := if run.Left? then body else els;
        if run.Left? || run.Right? {
          NothingIsMissed(g, branch, run.run, Follow(g.step, q, c), inside);
          LandsWider(g, Collect(g, branch, inside), Collect(g, stmt, from), Exec(g.owners, branch, run.run), Follow(g.step, q, c));
          LandsAfter(g, Collect(g, stmt, from), c, Exec(g.owners, branch, run.run), q);
        }
      case While(cond, body) =>
        var top := Header(g, cond, None, body, from, |g.states|);
        HeaderIsClosed(g, cond, None, body, from);
        LoopMissesNothing(g, cond, None, body, run, q, top);
      case DoWhile(body, cond) =>
        var top := Header(g, None, cond, body, from, |g.states|);
        HeaderIsClosed(g, None, cond, body, from);
        DoMissesNothing(g, body, cond, run, q, top);
      case For(init, cond, iter, body) =>
        RegionStays(g, q, init);
        if run.Begin? {
          var c := RegionTrace(g.owners, init);
          var top := Header(g, cond, iter, body, Past(g, init, from), |g.states|);
          HeaderIsClosed(g, cond, iter, body, Past(g, init, from));
          LoopMissesNothing(g, cond, iter, body, run.run, Follow(g.step, q, c), top);
          var o1 := ExecLoop(g.owners, cond, iter, body, run.run);
          LandsWider(g, CollectLoop(g, cond, iter, body, Past(g, init, from)), Collect(g, stmt, from), o1, Follow(g.step, q, c));
          LandsAfter(g, Collect(g, stmt, from), c, o1, q);
        }
      case Switch(cond, sections) =>
        RegionStays(g, q, cond);
        if !run.Pause? {
          var c := RegionTrace(g.owners, cond);
          SwitchMissesNothing(g, sections, run, Follow(g.step, q, c), Past(g, cond, from));
          var o1 := ExecSwitch(g.owners, sections, run);
          LandsWider(g, CollectSwitch(g, sections, Past(g, cond, from)), Collect(g, stmt, from), o1, Follow(g.step, q, c));
          LandsAfter(g, Collect(g, stmt, from), c, o1, q);
        }
    }
  }

  lemma {:induction false} BlockMissesNothing<Q(!new)>(g: Observer<Q>, stmts: seq<Stmt>, run: Run, q: Q, from: set<Q>)
    requires Complete(g) && q in from && q in g.states
    ensures Lands(g, CollectBlock(g, stmts, from), ExecBlock(g.owners, stmts, run), q)
    decreases run, 0, 0
  {
    if stmts != [] && run.Chain? {
      NothingIsMissed(g, stmts[0], run.first, q, from);
      var o := Exec(g.owners, stmts[0], run.first);
      if o.Ended? && o.exit.Normal? {
        var first, rest := Collect(g, stmts[0], from), ExecBlock(g.owners, stmts[1..], run.rest);
        BlockMissesNothing(g, stmts[1..], run.rest, Follow(g.step, q, o.trace), first.normal);
        LandsWider(g, CollectBlock(g, stmts[1..], first.normal), CollectBlock(g, stmts, from), rest, Follow(g.step, q, o.trace));
        LandsAfter(g, CollectBlock(g, stmts, from), o.trace, rest, q);
      }
    }
  }

  /** As many rounds as there are states reach every state there is to reach. */
  lemma {:induction false} HeaderGrows<Q>(g: Observer<Q>, cond: Option<Span>, iter: Option<Span>, body: Stmt, from: set<Q>, n: nat)
    ensures Header(g, cond, iter, body, from, n) <= Header(g, cond, iter, body, from, n + 1)
    ensures Header(g, cond, iter, body, from, n + 1) == Header(g, cond, iter, body, from, n)
         || |Header(g, cond, iter, body, from, n + 1)| > n
    decreases n
  {
    var now, next := Header(g, cond, iter, body, from, n), Header(g, cond, iter, body, from, n + 1);
    if n > 0 {
      HeaderGrows(g, cond, iter, body, from, n - 1);
    }
    if now != next {
      SubsetIsSmaller(now, next);
    }
  }

  lemma SubsetIsSmaller<Q>(a: set<Q>, b: set<Q>)
    requires a <= b
    ensures |a| <= |b| && (a != b ==> |a| < |b|)
  {
    assert b == a + (b - a);
    if a != b {
      var e :| e in b && e !in a;
      assert e in b - a;
    }
  }

  lemma HeaderIsClosed<Q>(g: Observer<Q>, cond: Option<Span>, iter: Option<Span>, body: Stmt, from: set<Q>)
    ensures var top := Header(g, cond, iter, body, from, |g.states|);
      from * g.states <= top && Back(g, cond, iter, body, top) * g.states <= top
  {
    HeaderGrows(g, cond, iter, body, from, |g.states|);
    SubsetIsSmaller(Header(g, cond, iter, body, from, |g.states| + 1), g.states);
    HeaderHasStart(g, cond, iter, body, from, |g.states|);
  }

  lemma {:induction false} HeaderHasStart<Q>(g: Observer<Q>, cond: Option<Span>, iter: Option<Span>, body: Stmt, from: set<Q>, n: nat)
    ensures from * g.states <= Header(g, cond, iter, body, from, n)
    decreases n
  {
    if n > 0 {
      HeaderHasStart(g, cond, iter, body, from, n - 1);
    }
  }

  lemma {:induction false} LoopMissesNothing<Q(!new)>(
      g: Observer<Q>, cond: Option<Span>, iter: Option<Span>, body: Stmt, run: Run, q: Q, top: set<Q>)
    requires Complete(g) && q in top && top <= g.states && Back(g, cond, iter, body, top) * g.states <= top
    ensures Lands(g, LoopPlaces(g, cond, iter, top, Collect(g, body, Past(g, cond, top))),
                  ExecLoop(g.owners, cond, iter, body, run), q)
    decreases run, 0, 0
  {
    RegionStays(g, q, cond);
    if run.Iterate? {
      var c, b := RegionTrace(g.owners, cond), Exec(g.owners, body, run.body);
      var p := LoopPlaces(g, cond, iter, top, Collect(g, body, Past(g, cond, top)));
      NothingIsMissed(g, body, run.body, Follow(g.step, q, c), Past(g, cond, top));
      if b.Ended? {
        FollowConcat(g.step, q, c, b.trace);
        var e := Follow(g.step, q, c + b.trace);
        if (b.exit.Normal? || b.exit.Continues?) && run.next.AtIter? {
          LandsAfter(g, p, c + b.trace, StopAt(iter), q);
        } else if b.exit.Normal? || b.exit.Continues? {
          var i := RegionTrace(g.owners, iter);
          RegionStays(g, e, iter);
          FollowConcat(g.step, q, c + b.trace, i);
          assert Follow(g.step, e, i) in Back(g, cond, iter, body, top);
          LoopMissesNothing(g, cond, iter, body, run.next, Follow(g.step, e, i), top);
          LandsAfter(g, p, c + b.trace + i, ExecLoop(g.owners, cond, iter, body, run.next), q);
        }
      }
    }
  }

  lemma {:induction false} DoMissesNothing<Q(!new)>(g: Observer<Q>, body: Stmt, cond: Option<Span>, run: Run, q: Q, top: set<Q>)
    requires Complete(g) && q in top && top <= g.states && Back(g, None, cond, body, top) * g.states <= top
    ensures Lands(g, DoPlaces(g, cond, Collect(g, body, top)), ExecDoWhile(g.owners, body, cond, run), q)
    decreases run, 0, 0
  {
    if run.Iterate? {
      var b, c := Exec(g.owners, body, run.body), RegionTrace(g.owners, cond);
      var p := DoPlaces(g, cond, Collect(g, body, top));
      NothingIsMissed(g, body, run.body, q, top);
      if b.Ended? && (b.exit.Normal? || b.exit.Continues?) {
        var e := Follow(g.step, q, b.trace);
        RegionStays(g, e, cond);
        FollowConcat(g.step, q, b.trace, c);
        if run.next.Pause? {
          LandsAfter(g, p, b.trace, StopAt(cond), q);
        } else if !run.next.Done? {
          PastNothing(g, top);
          assert Follow(g.step, e, c) in Back(g, None, cond, body, top);
          DoMissesNothing(g, body, cond, run.next, Follow(g.step, e, c), top);
          LandsAfter(g, p, b.trace + c, ExecDoWhile(g.owners, body, cond, run.next), q);
        }
      }
    }
  }

  lemma PastNothing<Q>(g: Observer<Q>, from: set<Q>)
    ensures Past(g, None, from) == from
  {
    assert forall q :: q in from ==> Follow(g.step, q, []) == q;
  }

  lemma {:induction false} SectionsMissNothing<Q(!new)>(g: Observer<Q>, sections: seq<Section>, run: Run, q: Q, from: set<Q>)
    requires Complete(g) && q in from && q in g.states
    ensures Lands(g, CollectSections(g, sections, from), ExecSections(g.owners, sections, run), q)
    decreases run, 0, |sections|
  {
    if sections != [] {
      if !sections[0].Code? {
        SectionsMissNothing(g, sections[1..], run, q, from);
      } else if run.Chain? {
        NothingIsMissed(g, sections[0].stmt, run.first, q, from);
        var o := Exec(g.owners, sections[0].stmt, run.first);
        if o.Ended? && o.exit.Normal? {
          var first, rest := Collect(g, sections[0].stmt, from), ExecSections(g.owners, sections[1..], run.rest);
          var e := Follow(g.step, q, o.trace);
          SectionsMissNothing(g, sections[1..], run.rest, e, first.normal);
          LandsWider(g, CollectSections(g, sections[1..], first.normal), CollectSections(g, sections, from), rest, e);
          LandsAfter(g, CollectSections(g, sections, from), o.trace, rest, q);
        }
      }
    }
  }

  lemma {:induction false} EnteredHas<Q>(g: Observer<Q>, sections: seq<Section>, from: set<Q>, at: nat, n: nat)
    requires at < n <= |sections|
    ensures Within(EnterAt(g, sections, from, at), Entered(g, sections, from, n))
    decreases n
  {
    if at < n - 1 {
      EnteredHas(g, sections, from, at, n - 1);
    }
  }

  lemma {:induction false} SwitchMissesNothing<Q(!new)>(g: Observer<Q>, sections: seq<Section>, run: Run, q: Q, from: set<Q>)
    requires Complete(g) && q in from && q in g.states && !run.Pause?
    ensures Lands(g, CollectSwitch(g, sections, from), ExecSwitch(g.owners, sections, run), q)
    decreases run, 0, |sections| + 1
  {
    var p := CollectSwitch(g, sections, from);
    if run.AtLabel? && run.at < |sections| && sections[run.at].CaseLabel? {
      EnteredHas(g, sections, from, run.at, |sections|);
      TestsStay(g, q, sections[..run.at]);
      LandsAfter(g, p, LabelTests(g.owners, sections[..run.at]), StopAt(sections[run.at].value), q);
    } else if run.Done? {
      TestsStay(g, q, sections);
    } else if run.Enter? && run.at < |sections| && !sections[run.at].Code? {
      EnteredHas(g, sections, from, run.at, |sections|);
      var tests := LabelTests(g.owners, Tested(sections, run.at));
      TestsStay(g, q, Tested(sections, run.at));
      var e, inside := Follow(g.step, q, tests), Image(g.step, from, tests);
      SectionsMissNothing(g, sections[run.at + 1..], run.run, e, inside);
      BreakLeaves(g, CollectSections(g, sections[run.at + 1..], inside), p, ExecSections(g.owners, sections[run.at + 1..], run.run), e);
      var o := ExecSections(g.owners, sections[run.at + 1..], run.run);
      LandsAfter(g, p, tests, if o.Ended? && o.exit.Breaks? then Ended(o.trace, Normal) else o, q);
    }
  }

  lemma BreakLeaves<Q(!new)>(g: Observer<Q>, inner: Places<Q>, p: Places<Q>, o: Outcome, q: Q)
    requires Lands(g, inner, o, q)
    requires inner.normal <= p.normal && inner.breaks <= p.normal && inner.continues <= p.continues
    requires inner.returned <= p.returned && inner.read <= p.read
    ensures Lands(g, p, if o.Ended? && o.exit.Breaks? then Ended(o.trace, Normal) else o, q)
  {
  }

  /* And nothing is made up. */

  /** The execution leaves that way and takes the observer from `q` to `e`. */
  ghost predicate Brings<Q>(g: Observer<Q>, o: Outcome, way: Way, q: Q, e: Q) {
    o.Ended? && Takes(o.exit, way, g.x) && Follow(g.step, q, o.trace) == e
  }

  lemma BringsAfter<Q>(g: Observer<Q>, prefix: seq<Event>, o: Outcome, way: Way, q: Q, e: Q)
    requires Brings(g, o, way, Follow(g.step, q, prefix), e)
    ensures Brings(g, Before(prefix, o), way, q, e)
  {
    FollowConcat(g.step, q, prefix, o.trace);
  }

  /** Every state that is collected is one in which some execution leaves the observer. */
  lemma {:induction false} NothingIsMadeUp<Q>(g: Observer<Q>, stmt: Stmt, from: set<Q>, way: Way, e: Q) returns (q: Q, run: Run)
    requires e in At(Collect(g, stmt, from), way)
    ensures q in from && Brings(g, Exec(g.owners, stmt, run), way, q, e)
    decreases stmt, 1, 0
  {
    match stmt {
      case Block(stmts) => q, run := BlockMakesNothingUp(g, stmts, from, way, e);
      case Leaf(r) => q, run := RegionMakesNothingUp(g, r, from, way, e, ToNormal);
      case Return(r) => q, run := RegionMakesNothingUp(g, r, from, way, e, ToReturn);
      case Unmodelled(r) => q, run := RegionMakesNothingUp(g, r, from, way, e, ToNormal);
      case Break => q, run := e, Done;
      case Continue => q, run := e, Done;
      case Nop => q, run := e, Done;
      case If(cond, body, els) =>
        var inside, c := Past(g, cond, from), RegionTrace(g.owners, cond);
        if way.ToRead? && e in Seeing(g, cond, from) {
          q, run := e, Pause;
        } else {
          var left := e in At(Collect(g, body, inside), way);
          var m, r := NothingIsMadeUp(g, if left then body else els, inside, way, e);
          q := Source(g, from, c, m);
          BringsAfter(g, c, Exec(g.owners, if left then body else els, r), way, q, e);
          run := if left then Left(r) else Right(r);
        }
      case While(cond, body) => q, run := LoopMakesNothingUp(g, cond, None, body, from, way, e);
      case DoWhile(body, cond) => q, run := DoMakesNothingUp(g, body, cond, from, way, e);
      case For(init, cond, iter, body) =>
        if way.ToRead? && e in Seeing(g, init, from) {
          q, run := e, Pause;
        } else {
          var m, r := LoopMakesNothingUp(g, cond, iter, body, Past(g, init, from), way, e);
          q := Source(g, from, RegionTrace(g.owners, init), m);
          BringsAfter(g, RegionTrace(g.owners, init), ExecLoop(g.owners, cond, iter, body, r), way, q, e);
          run := Begin(r);
        }
      case Switch(cond, sections) =>
        if way.ToRead? && e in Seeing(g, cond, from) {
          q, run := e, Pause;
        } else {
          var m, r := SwitchMakesNothingUp(g, sections, Past(g, cond, from), way, e);
          q := Source(g, from, RegionTrace(g.owners, cond), m);
          BringsAfter(g, RegionTrace(g.owners, cond), ExecSwitch(g.owners, sections, r), way, q, e);
          run := r;
        }
    }
  }

  /** A state that a trace leads to `e`. */
  lemma Source<Q>(g: Observer<Q>, from: set<Q>, trace: seq<Event>, e: Q) returns (q: Q)
    requires e in Image(g.step, from, trace)
    ensures q in from && Follow(g.step, q, trace) == e
  {
    q :| q in from && Follow(g.step, q, trace) == e;
  }

  lemma RegionMakesNothingUp<Q>(g: Observer<Q>, region: Span, from: set<Q>, way: Way, e: Q, done: Way) returns (q: Q, run: Run)
    requires done.ToNormal? || done.ToReturn?
    requires (way == done && e in Past(g, Some(region), from)) || (way.ToRead? && e in Seeing(g, Some(region), from))
    ensures q in from
    ensures Brings(g, ExecRegion(g.owners, region, run, if done.ToNormal? then Normal else Returns), way, q, e)
  {
    if way.ToRead? {
      q, run := e, Pause;
    } else {
      q := Source(g, from, RegionTrace(g.owners, Some(region)), e);
      run := Done;
    }
  }

  lemma {:induction false} BlockMakesNothingUp<Q>(g: Observer<Q>, stmts: seq<Stmt>, from: set<Q>, way: Way, e: Q)
      returns (q: Q, run: Run)
    requires e in At(CollectBlock(g, stmts, from), way)
    ensures q in from && Brings(g, ExecBlock(g.owners, stmts, run), way, q, e)
    decreases stmts, 0, 0
  {
    if stmts == [] {
      q, run := e, Done;
    } else {
      var first := Collect(g, stmts[0], from);
      if !way.ToNormal? && e in At(first, way) {
        var r;
        q, r := NothingIsMadeUp(g, stmts[0], from, way, e);
        run := Chain(r, Done);
      } else {
        var m, rest := BlockMakesNothingUp(g, stmts[1..], first.normal, way, e);
        var r;
        q, r := NothingIsMadeUp(g, stmts[0], from, ToNormal, m);
        BringsAfter(g, Exec(g.owners, stmts[0], r).trace, ExecBlock(g.owners, stmts[1..], rest), way, q, e);
        run := Chain(r, rest);
      }
    }
  }

  /** A round of a loop that comes back to the top in state `e`. */
  lemma {:induction false} RoundMakesNothingUp<Q>(g: Observer<Q>, cond: Option<Span>, iter: Option<Span>, body: Stmt, top: set<Q>, e: Q)
      returns (q: Q, round: Run)
    requires e in Back(g, cond, iter, body, top)
    ensures q in top
    ensures var b := Exec(g.owners, body, round);
      && b.Ended? && (b.exit.Normal? || b.exit.Continues?)
      && Follow(g.step, q, RegionTrace(g.owners, cond) + b.trace + RegionTrace(g.owners, iter)) == e
    decreases body, 2, 0
  {
    var b := Collect(g, body, Past(g, cond, top));
    var c, i := RegionTrace(g.owners, cond), RegionTrace(g.owners, iter);
    var m := Source(g, b.normal + b.continues, i, e);
    var n, r := NothingIsMadeUp(g, body, Past(g, cond, top), if m in b.normal then ToNormal else ToContinue, m);
    q := Source(g, top, c, n);
    FollowConcat(g.step, q, c, Exec(g.owners, body, r).trace);
    FollowConcat(g.step, q, c + Exec(g.owners, body, r).trace, i);
    round := r;
  }

  /** One more round before those of `next`. */
  lemma LoopRound<Q>(
      g: Observer<Q>, cond: Option<Span>, iter: Option<Span>, body: Stmt, round: Run, h: Q, m: Q, next: Run, way: Way, e: Q)
    requires var b := Exec(g.owners, body, round);
      && b.Ended? && (b.exit.Normal? || b.exit.Continues?)
      && Follow(g.step, h, RegionTrace(g.owners, cond) + b.trace + RegionTrace(g.owners, iter)) == m
    requires !next.AtIter? && Brings(g, ExecLoop(g.owners, cond, iter, body, next), way, m, e)
    ensures Brings(g, ExecLoop(g.owners, cond, iter, body, Iterate(round, next)), way, h, e)
  {
    var prefix := RegionTrace(g.owners, cond) + Exec(g.owners, body, round).trace + RegionTrace(g.owners, iter);
    BringsAfter(g, prefix, ExecLoop(g.owners, cond, iter, body, next), way, h, e);
    RoundUnfolds(g.owners, cond, iter, body, round, next);
  }

  lemma RoundUnfolds(owners: seq<Span>, cond: Option<Span>, iter: Option<Span>, body: Stmt, round: Run, next: Run)
    requires var b := Exec(owners, body, round); b.Ended? && (b.exit.Normal? || b.exit.Continues?)
    requires !next.AtIter?
    ensures ExecLoop(owners, cond, iter, body, Iterate(round, next))
         == Before(RegionTrace(owners, cond) + Exec(owners, body, round).trace + RegionTrace(owners, iter),
                   ExecLoop(owners, cond, iter, body, next))
  {
  }

  /** From the top of the loop back through the rounds that led there. */
  lemma {:induction false} RoundsBefore<Q>(
      g: Observer<Q>, cond: Option<Span>, iter: Option<Span>, body: Stmt, from: set<Q>, n: nat, m: Q, next: Run, way: Way, e: Q)
      returns (q: Q, run: Run)
    requires m in Header(g, cond, iter, body, from, n) && !next.AtIter?
    requires Brings(g, ExecLoop(g.owners, cond, iter, body, next), way, m, e)
    ensures q in from && Brings(g, ExecLoop(g.owners, cond, iter, body, run), way, q, e)
    decreases body, 3, n
  {
    if n == 0 {
      q, run := m, next;
    } else if m in Header(g, cond, iter, body, from, n - 1) {
      q, run := RoundsBefore(g, cond, iter, body, from, n - 1, m, next, way, e);
    } else {
      var h, round := RoundMakesNothingUp(g, cond, iter, body, Header(g, cond, iter, body, from, n - 1), m);
      LoopRound(g, cond, iter, body, round, h, m, next, way, e);
      q, run := RoundsBefore(g, cond, iter, body, from, n - 1, h, Iterate(round, next), way, e);
    }
  }

  lemma {:induction false} LoopMakesNothingUp<Q>(
      g: Observer<Q>, cond: Option<Span>, iter: Option<Span>, body: Stmt, from: set<Q>, way: Way, e: Q) returns (q: Q, run: Run)
    requires e in At(CollectLoop(g, cond, iter, body, from), way)
    ensures q in from && Brings(g, ExecLoop(g.owners, cond, iter, body, run), way, q, e)
    decreases body, 4, 0
  {
    var top := Header(g, cond, iter, body, from, |g.states|);
    var m, next := LastRoundOfLoop(g, cond, iter, body, top, way, e);
    q, run := RoundsBefore(g, cond, iter, body, from, |g.states|, m, next, way, e);
  }

  lemma {:induction false} LastRoundOfLoop<Q>(
      g: Observer<Q>, cond: Option<Span>, iter: Option<Span>, body: Stmt, top: set<Q>, way: Way, e: Q) returns (m: Q, next: Run)
    requires e in At(LoopPlaces(g, cond, iter, top, Collect(g, body, Past(g, cond, top))), way)
    ensures m in top && !next.AtIter? && Brings(g, ExecLoop(g.owners, cond, iter, body, next), way, m, e)
    decreases body, 3, 0
  {
    var b := Collect(g, body, Past(g, cond, top));
    if way.ToRead? && e in Seeing(g, cond, top) {
      m, next := e, Pause;
    } else if way.ToNormal? && e in Past(g, cond, top) {
      m := Source(g, top, RegionTrace(g.owners, cond), e);
      next := Done;
    } else {
      var atIter := way.ToRead? && e in Seeing(g, iter, b.normal + b.continues);
      var inner := if way.ToNormal? then ToBreak else if !atIter then way else if e in b.normal then ToNormal else ToContinue;
      var n, r := NothingIsMadeUp(g, body, Past(g, cond, top), inner, e);
      m := Source(g, top, RegionTrace(g.owners, cond), n);
      if atIter {
        LoopStops(g, cond, iter, body, r, inner, m, e);
        next := Iterate(r, AtIter);
      } else {
        LoopLeaves(g, cond, iter, body, r, inner, m, e);
        next := Iterate(r, Done);
      }
    }
  }

  lemma LoopLeaves<Q>(g: Observer<Q>, cond: Option<Span>, iter: Option<Span>, body: Stmt, r: Run, inner: Way, m: Q, e: Q)
    requires Brings(g, Exec(g.owners, body, r), inner, Follow(g.step, m, RegionTrace(g.owners, cond)), e)
    requires inner.ToBreak? || inner.ToReturn? || inner.ToRead?
    ensures Brings(g, ExecLoop(g.owners, cond, iter, body, Iterate(r, Done)), if inner.ToBreak? then ToNormal else inner, m, e)
  {
    FollowConcat(g.step, m, RegionTrace(g.owners, cond), Exec(g.owners, body, r).trace);
  }

  lemma {:induction false} LoopStops<Q>(g: Observer<Q>, cond: Option<Span>, iter: Option<Span>, body: Stmt, r: Run, inner: Way, m: Q, e: Q)
    requires Brings(g, Exec(g.owners, body, r), inner, Follow(g.step, m, RegionTrace(g.owners, cond)), e)
    requires (inner.ToNormal? || inner.ToContinue?) && iter.Some? && iter.value.Contains(g.x)
    ensures Brings(g, ExecLoop(g.owners, cond, iter, body, Iterate(r, AtIter)), ToRead, m, e)
  {
    var c, t := RegionTrace(g.owners, cond), Exec(g.owners, body, r).trace;
    FollowConcat(g.step, m, c, t);
    assert c + t + [] == c + t;
  }

  lemma {:induction false} DoRoundsBefore<Q>(
      g: Observer<Q>, body: Stmt, cond: Option<Span>, from: set<Q>, n: nat, m: Q, next: Run, way: Way, e: Q)
      returns (q: Q, run: Run)
    requires m in Header(g, None, cond, body, from, n)
    requires Brings(g, ExecDoWhile(g.owners, body, cond, next), way, m, e)
    ensures q in from && Brings(g, ExecDoWhile(g.owners, body, cond, run), way, q, e)
    decreases body, 3, n
  {
    if n == 0 {
      q, run := m, next;
    } else if m in Header(g, None, cond, body, from, n - 1) {
      q, run := DoRoundsBefore(g, body, cond, from, n - 1, m, next, way, e);
    } else {
      var h, round := RoundMakesNothingUp(g, None, cond, body, Header(g, None, cond, body, from, n - 1), m);
      DoRound(g, body, cond, round, h, m, next, way, e);
      q, run := DoRoundsBefore(g, body, cond, from, n - 1, h, Iterate(round, next), way, e);
    }
  }

  /** One more round before those of `next`. */
  lemma DoRound<Q>(g: Observer<Q>, body: Stmt, cond: Option<Span>, round: Run, h: Q, m: Q, next: Run, way: Way, e: Q)
    requires var b := Exec(g.owners, body, round);
      && b.Ended? && (b.exit.Normal? || b.exit.Continues?)
      && Follow(g.step, h, RegionTrace(g.owners, None) + b.trace + RegionTrace(g.owners, cond)) == m
    requires Brings(g, ExecDoWhile(g.owners, body, cond, next), way, m, e)
    ensures Brings(g, ExecDoWhile(g.owners, body, cond, Iterate(round, next)), way, h, e)
  {
    var b := Exec(g.owners, body, round).trace;
    assert [] + b == b;
    BringsAfter(g, b + RegionTrace(g.owners, cond), ExecDoWhile(g.owners, body, cond, next), way, h, e);
  }

  lemma {:induction false} DoMakesNothingUp<Q>(g: Observer<Q>, body: Stmt, cond: Option<Span>, from: set<Q>, way: Way, e: Q)
      returns (q: Q, run: Run)
    requires var top := Header(g, None, cond, body, from, |g.states|);
      e in At(DoPlaces(g, cond, Collect(g, body, top)), way)
    ensures q in from && Brings(g, ExecDoWhile(g.owners, body, cond, run), way, q, e)
    decreases body, 4, 0
  {
    var top := Header(g, None, cond, body, from, |g.states|);
    var m, next := LastRoundOfDo(g, body, cond, top, way, e);
    q, run := DoRoundsBefore(g, body, cond, from, |g.states|, m, next, way, e);
  }

  lemma {:induction false} LastRoundOfDo<Q>(g: Observer<Q>, body: Stmt, cond: Option<Span>, top: set<Q>, way: Way, e: Q)
      returns (m: Q, next: Run)
    requires e in At(DoPlaces(g, cond, Collect(g, body, top)), way)
    ensures m in top && Brings(g, ExecDoWhile(g.owners, body, cond, next), way, m, e)
    decreases body, 3, 0
  {
    var b, c := Collect(g, body, top), RegionTrace(g.owners, cond);
    if way.ToNormal? && e in Past(g, cond, b.normal + b.continues) {
      var n := Source(g, b.normal + b.continues, c, e);
      var inner, r := if n in b.normal then ToNormal else ToContinue, Pause;
      m, r := NothingIsMadeUp(g, body, top, inner, n);
      DoEnds(g, body, cond, r, inner, m, n);
      next := Iterate(r, Done);
    } else {
      var atCond := way.ToRead? && e in Seeing(g, cond, b.normal + b.continues);
      var inner := if way.ToNormal? then ToBreak else if !atCond then way else if e in b.normal then ToNormal else ToContinue;
      var r;
      m, r := NothingIsMadeUp(g, body, top, inner, e);
      DoStops(g, body, cond, r, inner, m, e);
      next := Iterate(r, Pause);
    }
  }

  lemma DoEnds<Q>(g: Observer<Q>, body: Stmt, cond: Option<Span>, r: Run, inner: Way, m: Q, n: Q)
    requires (inner.ToNormal? || inner.ToContinue?) && Brings(g, Exec(g.owners, body, r), inner, m, n)
    ensures Brings(g, ExecDoWhile(g.owners, body, cond, Iterate(r, Done)), ToNormal, m,
                   Follow(g.step, n, RegionTrace(g.owners, cond)))
  {
    FollowConcat(g.step, m, Exec(g.owners, body, r).trace, RegionTrace(g.owners, cond));
  }

  lemma DoStops<Q>(g: Observer<Q>, body: Stmt, cond: Option<Span>, r: Run, inner: Way, m: Q, e: Q)
    requires Brings(g, Exec(g.owners, body, r), inner, m, e)
    ensures var way := if inner.ToBreak? then ToNormal else if inner.ToReturn? then ToReturn else ToRead;
      inner.ToBreak? || inner.ToReturn? || inner.ToRead? || (cond.Some? && cond.value.Contains(g.x)) ==>
        Brings(g, ExecDoWhile(g.owners, body, cond, Iterate(r, Pause)), way, m, e)
  {
    var t := Exec(g.owners, body, r).trace;
    assert t + [] == t;
  }

  lemma {:induction false} SectionsMakeNothingUp<Q>(g: Observer<Q>, sections: seq<Section>, from: set<Q>, way: Way, e: Q)
      returns (q: Q, run: Run)
    requires e in At(CollectSections(g, sections, from), way)
    ensures q in from && Brings(g, ExecSections(g.owners, sections, run), way, q, e)
    decreases sections, 0, 0
  {
    if sections == [] {
      q, run := e, Done;
    } else if !sections[0].Code? {
      q, run := SectionsMakeNothingUp(g, sections[1..], from, way, e);
    } else {
      assert sections[0].stmt < sections[0];
      var first := Collect(g, sections[0].stmt, from);
      if !way.ToNormal? && e in At(first, way) {
        var r;
        q, r := NothingIsMadeUp(g, sections[0].stmt, from, way, e);
        run := Chain(r, Done);
      } else {
        var m, rest := SectionsMakeNothingUp(g, sections[1..], first.normal, way, e);
        var r;
        q, r := NothingIsMadeUp(g, sections[0].stmt, from, ToNormal, m);
        BringsAfter(g, Exec(g.owners, sections[0].stmt, r).trace, ExecSections(g.owners, sections[1..], rest), way, q, e);
        run := Chain(r, rest);
      }
    }
  }

  lemma {:induction false} EnteredSomewhere<Q>(g: Observer<Q>, sections: seq<Section>, from: set<Q>, n: nat, way: Way, e: Q)
      returns (at: nat)
    requires n <= |sections| && e in At(Entered(g, sections, from, n), way)
    ensures at < n && e in At(EnterAt(g, sections, from, at), way)
    decreases n
  {
    if e in At(EnterAt(g, sections, from, n - 1), way) {
      at := n - 1;
    } else {
      at := EnteredSomewhere(g, sections, from, n - 1, way, e);
    }
  }

  lemma {:induction false} SwitchMakesNothingUp<Q>(g: Observer<Q>, sections: seq<Section>, from: set<Q>, way: Way, e: Q)
      returns (q: Q, run: Run)
    requires e in At(CollectSwitch(g, sections, from), way)
    ensures q in from && Brings(g, ExecSwitch(g.owners, sections, run), way, q, e) && !run.Pause?
    decreases sections, 3, 0
  {
    var all := Entered(g, sections, from, |sections|);
    if way.ToNormal? && !HasDefault(sections) && e in Image(g.step, from, LabelTests(g.owners, sections)) {
      q := Source(g, from, LabelTests(g.owners, sections), e);
      run := Done;
    } else {
      var inner := if way.ToNormal? && e !in all.normal then ToBreak else way;
      var at := EnteredSomewhere(g, sections, from, |sections|, inner, e);
      q, run := EnterMakesNothingUp(g, sections, from, at, inner, e);
    }
  }

  lemma {:induction false} EnterMakesNothingUp<Q>(g: Observer<Q>, sections: seq<Section>, from: set<Q>, at: nat, inner: Way, e: Q)
      returns (q: Q, run: Run)
    requires at < |sections| && e in At(EnterAt(g, sections, from, at), inner)
    ensures q in from && !run.Pause?
    ensures Brings(g, ExecSwitch(g.owners, sections, run), if inner.ToBreak? then ToNormal else inner, q, e)
    decreases sections, 1, 0
  {
    var earlier := LabelTests(g.owners, sections[..at]);
    if inner.ToRead? && sections[at].CaseLabel? && e in Seeing(g, sections[at].value, Image(g.step, from, earlier)) {
      q := Source(g, from, earlier, e);
      assert earlier + [] == earlier;
      run := AtLabel(at);
    } else {
      var tests := LabelTests(g.owners, Tested(sections, at));
      var m, r := SectionsMakeNothingUp(g, sections[at + 1..], Image(g.step, from, tests), inner, e);
      q := Source(g, from, tests, m);
      BringsAfter(g, tests, ExecSections(g.owners, sections[at + 1..], r), inner, q, e);
      run := Enter(at, r);
    }
  }

  /** Some execution from one of these states leaves that way with the observer in state `e`. */
  ghost predicate Reachable<Q(!new)>(g: Observer<Q>, stmt: Stmt, from: set<Q>, way: Way, e: Q) {
    exists q: Q, run: Run :: q in from && Brings(g, Exec(g.owners, stmt, run), way, q, e)
  }

  /** Collecting is exact, for every statement and every way out of it: a state is collected exactly if it is reachable. */
  lemma {:induction false} CollectIsExact<Q(!new)>(g: Observer<Q>, stmt: Stmt, from: set<Q>, way: Way, e: Q)
    requires Complete(g) && from <= g.states
    ensures e in At(Collect(g, stmt, from), way) <==> Reachable(g, stmt, from, way, e)
  {
    if e in At(Collect(g, stmt, from), way) {
      var q, run := NothingIsMadeUp(g, stmt, from, way, e);
    } else if Reachable(g, stmt, from, way, e) {
      var q: Q, run: Run :| q in from && Brings(g, Exec(g.owners, stmt, run), way, q, e);
      NothingIsMissed(g, stmt, run, q, from);
    }
  }
}
