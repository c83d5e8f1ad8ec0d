/** The edit queue makes progress: handlers finish and give the lock back, and however the steps interleave, a time without
    new messages ends with everything published. */
module EditProgress {
  import opened Wrappers
  import opened EditQueue

  /* One handler. */

  /** How many steps a handler still has at most. */
  function Left<B>(h: Handler<B>): nat {
    match h
    case Arrived(_, _) => 9
    case Locked(_, _) => 8
    case NotPending(_, _) => 7
    case Applying(_, _, _) => 6
    case Allocating(_, _, _) => 5
    case Allocated(_, _, _, _) => 4
    case Inserting(_, _, _, _) => 3
    case Direct(_, _, _, _) => 2
    case Queued => 2
    case Notified => 1
    case Finished => 0
  }

  /** The handler's batch is not accepted yet. */
  predicate Undecided<B>(h: Handler<B>) {
    !h.Queued? && !h.Notified? && !h.Finished?
  }

  /** The document is open and the batch applies to its latest text. */
  predicate Usable<B>(apply: (string, B) -> Option<string>, s: State<B>, h: Handler<B>)
    requires Undecided(h)
  {
    Latest(s, h.uri).Some? && apply(Latest(s, h.uri).value, h.batch).Some?
  }

  /** A handler that has the lock, or finds it free, can step and gets nearer its end. */
  lemma {:induction false} HandlerCanStep<B(!new)>(apply: (string, B) -> Option<string>, s: State<B>, i: nat)
    requires i < |s.handlers| && !s.handlers[i].Finished? && (HoldsLock(s.handlers[i]) || s.treeLock.Free?)
    ensures StepHandler(apply, s, i).Some?
    ensures var t := StepHandler(apply, s, i).value; |t.handlers| == |s.handlers| && Left(t.handlers[i]) < Left(s.handlers[i])
  {
  }

  /** What a step does to the handler's own batch: nothing yet, unless it puts the text somewhere or gives up. */
  ghost predicate Decides<B>(apply: (string, B) -> Option<string>, s: State<B>, t: State<B>, h: Handler<B>, next: Handler<B>)
    requires Undecided(h)
  {
    if Undecided(next) then
      next.uri == h.uri && next.batch == h.batch && t.accepted == s.accepted && forall u :: Latest(t, u) == Latest(s, u)
    else if Usable(apply, s, h) then t.accepted == Accept(s, h.uri, h.batch) && !next.Finished?
    else t.accepted == s.accepted && next.Finished?
  }

  lemma {:induction false} StepDecides<B(!new)>(apply: (string, B) -> Option<string>, s: State<B>, i: nat, h: Handler<B>)
    requires Inv(apply, s) && i < |s.handlers| && h == s.handlers[i] && Undecided(h) && Act(apply, s, i, h).Some?
    ensures var o := Act(apply, s, i, h).value; Decides(apply, s, o.state, h, o.next)
  {
    assert HandlerOk(apply, s, h);
    if h.uri in s.initial {
      assert Latest(s, h.uri) == Expected(apply, s, h.uri);
    }
    if h.Inserting? || h.Direct? {
      SavingDecides(apply, s, i, h);
    } else if h.NotPending? || h.Applying? {
      LookingDecides(apply, s, i, h);
    } else {
      GettingOnDecides(apply, s, i, h);
    }
  }

  lemma {:induction false} SavingDecides<B(!new)>(apply: (string, B) -> Option<string>, s: State<B>, i: nat, h: Handler<B>)
    requires (h.Inserting? || h.Direct?) && HandlerOk(apply, s, h)
    requires h.uri in s.initial ==> Latest(s, h.uri) == Expected(apply, s, h.uri)
    ensures var o := Act(apply, s, i, h).value; Decides(apply, s, o.state, h, o.next)
  {
  }

  lemma {:induction false} LookingDecides<B(!new)>(apply: (string, B) -> Option<string>, s: State<B>, i: nat, h: Handler<B>)
    requires (h.NotPending? || h.Applying?) && HandlerOk(apply, s, h)
    requires h.uri in s.initial ==> Latest(s, h.uri) == Expected(apply, s, h.uri)
    ensures var o := Act(apply, s, i, h).value; Decides(apply, s, o.state, h, o.next)
  {
  }

  lemma {:induction false} GettingOnDecides<B(!new)>(apply: (string, B) -> Option<string>, s: State<B>, i: nat, h: Handler<B>)
    requires Undecided(h) && Act(apply, s, i, h).Some?
    requires !h.Inserting? && !h.Direct? && !h.NotPending? && !h.Applying?
    ensures var o := Act(apply, s, i, h).value; Decides(apply, s, o.state, h, o.next)
  {
  }

  lemma {:induction false} HandlerStepDecides<B(!new)>(apply: (string, B) -> Option<string>, s: State<B>, i: nat)
    requires Inv(apply, s) && i < |s.handlers| && Undecided(s.handlers[i]) && StepHandler(apply, s, i).Some?
    ensures var t := StepHandler(apply, s, i).value;
      |t.handlers| == |s.handlers| && Decides(apply, s, t, s.handlers[i], t.handlers[i])
  {
    StepDecides(apply, s, i, s.handlers[i]);
    var o := Act(apply, s, i, s.handlers[i]).value;
    SameTables(o.state, s.handlers[i := o.next]);
  }

  lemma SameTables<B>(s: State<B>, handlers: seq<Handler<B>>)
    ensures forall u :: Latest(s.(handlers := handlers), u) == Latest(s, u)
  {
  }

  lemma {:induction false} DecidedStays<B(!new)>(apply: (string, B) -> Option<string>, s: State<B>, i: nat)
    requires i < |s.handlers| && !Undecided(s.handlers[i]) && StepHandler(apply, s, i).Some?
    ensures var t := StepHandler(apply, s, i).value;
      |t.handlers| == |s.handlers| && !Undecided(t.handlers[i]) && t.accepted == s.accepted
  {
  }

  /** `n` steps of handler `i` in a row. */
  function HandlerSteps<B>(apply: (string, B) -> Option<string>, s: State<B>, i: nat, n: nat): Option<State<B>>
    decreases n
  {
    if n == 0 then Some(s)
    else if i >= |s.handlers| then None
    else match StepHandler(apply, s, i)
      case Some(t) => HandlerSteps(apply, t, i, n - 1)
      case None => None
  }

  /** A handler with the lock, or one that finds it free, finishes within nine steps of its own and leaves the lock free.
      Its batch is accepted exactly if the document is open and the batch applies to its latest text. */
  lemma {:induction false} HandlerFinishes<B(!new)>(apply: (string, B) -> Option<string>, s: State<B>, i: nat) returns (n: nat, t: State<B>)
    requires Inv(apply, s) && i < |s.handlers|
    requires HoldsLock(s.handlers[i]) || (s.handlers[i].Arrived? && s.treeLock.Free?)
    ensures n <= 9 && HandlerSteps(apply, s, i, n) == Some(t) && Inv(apply, t)
    ensures |t.handlers| == |s.handlers| && t.handlers[i].Finished? && t.treeLock.Free?
    ensures Verdict(apply, s, s.handlers[i], t)
  {
    n, t := FinishWithin(apply, s, i);
  }

  /** The verdict on the handler's batch that `t` shows. */
  ghost predicate Verdict<B>(apply: (string, B) -> Option<string>, s: State<B>, h: Handler<B>, t: State<B>) {
    t.accepted == if Undecided(h) && Usable(apply, s, h) then Accept(s, h.uri, h.batch) else s.accepted
  }

  lemma {:induction false} FinishWithin<B(!new)>(apply: (string, B) -> Option<string>, s: State<B>, i: nat) returns (n: nat, t: State<B>)
    requires Inv(apply, s) && i < |s.handlers|
    requires HoldsLock(s.handlers[i]) || s.treeLock.Free?
    ensures n <= Left(s.handlers[i]) && HandlerSteps(apply, s, i, n) == Some(t) && Inv(apply, t)
    ensures |t.handlers| == |s.handlers| && t.handlers[i].Finished? && t.treeLock.Free?
    ensures Verdict(apply, s, s.handlers[i], t)
    decreases Left(s.handlers[i])
  {
    if s.handlers[i].Finished? {
      n, t := 0, s;
    } else {
      var next := NearerByOne(apply, s, i);
      n, t := FinishWithin(apply, next, i);
      StepVerdict(apply, s, next, i, t);
      OneStepMore(apply, s, next, i, n);
      n := n + 1;
    }
  }

  lemma {:induction false} NearerByOne<B(!new)>(apply: (string, B) -> Option<string>, s: State<B>, i: nat) returns (next: State<B>)
    requires Inv(apply, s) && i < |s.handlers| && !s.handlers[i].Finished?
    requires HoldsLock(s.handlers[i]) || s.treeLock.Free?
    ensures StepHandler(apply, s, i) == Some(next) && Inv(apply, next) && |next.handlers| == |s.handlers|
    ensures Left(next.handlers[i]) < Left(s.handlers[i]) && (HoldsLock(next.handlers[i]) || next.treeLock.Free?)
  {
    HandlerCanStep(apply, s, i);
    HandlerKeepsInv(apply, s, i);
    next := StepHandler(apply, s, i).value;
    StillHasLock(apply, s, next, i);
  }

  lemma {:induction false} OneStepMore<B(!new)>(apply: (string, B) -> Option<string>, s: State<B>, next: State<B>, i: nat, n: nat)
    requires i < |s.handlers| && StepHandler(apply, s, i) == Some(next)
    ensures HandlerSteps(apply, s, i, n + 1) == HandlerSteps(apply, next, i, n)
  {
  }

  lemma {:induction false} StepVerdict<B(!new)>(apply: (string, B) -> Option<string>, s: State<B>, next: State<B>, i: nat, t: State<B>)
    requires Inv(apply, s) && i < |s.handlers| && StepHandler(apply, s, i) == Some(next)
    requires i < |next.handlers| && Verdict(apply, next, next.handlers[i], t)
    ensures Verdict(apply, s, s.handlers[i], t)
  {
    if Undecided(s.handlers[i]) {
      HandlerStepDecides(apply, s, i);
    } else {
      DecidedStays(apply, s, i);
    }
  }

  /** After its step the handler has the lock, or it is done and the lock is free. */
  lemma {:induction false} StillHasLock<B(!new)>(apply: (string, B) -> Option<string>, s: State<B>, t: State<B>, i: nat)
    requires LockOk(s) && i < |s.handlers| && StepHandler(apply, s, i) == Some(t)
    ensures |t.handlers| == |s.handlers| && (HoldsLock(t.handlers[i]) || t.treeLock.Free?)
  {
    HandlerLocks(apply, s, i, s.handlers[i]);
  }

  /* Every interleaving. */

  function HandlersLeft<B>(handlers: seq<Handler<B>>): nat {
    if handlers == [] then 0 else HandlersLeft(handlers[..|handlers| - 1]) + Left(handlers[|handlers| - 1])
  }

  /** Something is pending that the writer's current pass will not remove. */
  function Behind<B>(s: State<B>): nat {
    if s.writer.Unspawned? || s.writer.Waiting? || s.writer.Draining? then if s.pending == map[] then 0 else 1
    else if Settled(s) && s.pending.Keys <= ToDo(s.writer) then 0 else 1
  }

  function Permits<B>(s: State<B>): nat {
    if s.permit then 1 else 0
  }

  /** How far the writer is from waiting again, should it find nothing more. */
  function Away(w: Writer): nat {
    if w.Unspawned? || w.Waiting? then 0 else Distance(w) + 1
  }

  /** `t` is nearer to rest than `s`: the handlers have less to do; or as much, and the writer has fewer passes to make; or
      as many, and fewer notifications to take; or as many, and is nearer to waiting. */
  ghost predicate Progress<B>(s: State<B>, t: State<B>) {
    || HandlersLeft(t.handlers) < HandlersLeft(s.handlers)
    || (HandlersLeft(t.handlers) == HandlersLeft(s.handlers)
        && (Behind(t) < Behind(s)
            || (Behind(t) == Behind(s)
                && (Permits(t) < Permits(s) || (Permits(t) == Permits(s) && Away(t.writer) < Away(s.writer))))))
  }

  /** A step of a handler or of the writer, not a new message. */
  predicate Own<B>(a: Action<B>) {
    a.HandlerStep? || a.WriterStep?
  }

  lemma {:induction false} LeftUpdated<B>(handlers: seq<Handler<B>>, i: nat, next: Handler<B>)
    requires i < |handlers| && Left(next) < Left(handlers[i])
    ensures HandlersLeft(handlers[i := next]) < HandlersLeft(handlers)
    decreases |handlers|
  {
    var last := |handlers| - 1;
    if i < last {
      assert handlers[i := next][..last] == handlers[..last][i := next];
      LeftUpdated(handlers[..last], i, next);
    } else {
      assert handlers[i := next][..last] == handlers[..last];
    }
  }

  lemma {:induction false} HandlerProgress<B(!new)>(apply: (string, B) -> Option<string>, s: State<B>, i: nat)
    requires i < |s.handlers| && StepHandler(apply, s, i).Some?
    ensures HandlersLeft(StepHandler(apply, s, i).value.handlers) < HandlersLeft(s.handlers)
  {
    var o := Act(apply, s, i, s.handlers[i]).value;
    ActShortens(apply, s, i, s.handlers[i]);
    LeftUpdated(s.handlers, i, o.next);
  }

  lemma {:induction false} ActShortens<B(!new)>(apply: (string, B) -> Option<string>, s: State<B>, i: nat, h: Handler<B>)
    requires Act(apply, s, i, h).Some?
    ensures Left(Act(apply, s, i, h).value.next) < Left(h)
  {
  }

  lemma {:induction false} ListingProgress<B>(s: State<B>, order: seq<nat>, t: State<B>)
    requires StepWriter(s, order) == Some(t) && (s.writer.Waiting? || s.writer.Draining?)
    ensures Progress(s, t)
  {
    if s.writer.Draining? && order == [] {
      assert forall u :: u !in s.pending.Keys;
      assert s.pending == map[];
    } else if s.writer.Draining? {
      assert s.pending.Keys <= ToDo(t.writer);
      assert order[0] in s.pending;
    }
  }

  lemma {:induction false} NextProgress<B>(s: State<B>, order: seq<nat>, t: State<B>)
    requires StepWriter(s, order) == Some(t) && s.writer.Next?
    ensures Progress(s, t)
  {
    if s.writer.rest != [] {
      assert s.writer.rest == [s.writer.rest[0]] + s.writer.rest[1..];
      assert ToDo(t.writer) == ToDo(s.writer);
    } else if Behind(s) == 0 {
      assert s.pending.Keys == {};
      assert s.pending == map[];
    }
  }

  lemma {:induction false} HolderProgress<B>(s: State<B>, order: seq<nat>, t: State<B>)
    requires WriterOk(s) && StepWriter(s, order) == Some(t) && WriterHoldsLock(s.writer)
    ensures Progress(s, t)
  {
  }

  lemma {:induction false} RemovalProgress<B>(s: State<B>, order: seq<nat>, t: State<B>)
    requires StepWriter(s, order) == Some(t) && s.writer.Released?
    ensures Progress(s, t)
  {
  }

  /** Every step there is, of any handler or of the writer, is progress, so that a run without new messages comes to an end
      whatever its order. */
  lemma {:induction false} EveryStepIsProgress<B(!new)>(apply: (string, B) -> Option<string>, s: State<B>, a: Action<B>)
    requires Inv(apply, s) && Own(a) && Step(apply, s, a).Some?
    ensures Progress(s, Step(apply, s, a).value)
  {
    var t := Step(apply, s, a).value;
    match a
    case HandlerStep(i) => HandlerProgress(apply, s, i);
    case WriterStep(order) =>
      if s.writer.Waiting? || s.writer.Draining? {
        ListingProgress(s, order, t);
      } else if s.writer.Next? {
        NextProgress(s, order, t);
      } else if s.writer.Released? {
        RemovalProgress(s, order, t);
      } else {
        HolderProgress(s, order, t);
      }
  }

  /** Nobody can step. */
  ghost predicate AtRest<B(!new)>(apply: (string, B) -> Option<string>, s: State<B>) {
    forall a: Action<B> :: Own(a) ==> Step(apply, s, a).None?
  }

  /** Every handler is done, nothing is pending, the lock is free, and each published text is the initial text with the
      accepted batches applied. */
  ghost predicate AllPublished<B>(apply: (string, B) -> Option<string>, s: State<B>) {
    && (forall i :: 0 <= i < |s.handlers| ==> s.handlers[i].Finished?)
    && s.pending == map[] && s.treeLock.Free? && s.published.Keys == s.initial.Keys == s.accepted.Keys
    && forall u :: u in s.initial ==> Fold(apply, s.initial[u], s.accepted[u]) == Some(s.published[u].text)
  }

  /** All is done and the writer waits. */
  ghost predicate Done<B>(s: State<B>) {
    && (forall i :: 0 <= i < |s.handlers| ==> s.handlers[i].Finished?)
    && s.treeLock.Free? && s.writer.Waiting? && s.pending == map[]
  }

  /** There is no deadlock: unless all is done, someone can step. */
  lemma {:induction false} SomeoneCanStep<B(!new)>(apply: (string, B) -> Option<string>, s: State<B>) returns (a: Action<B>)
    requires Inv(apply, s) && !s.writer.Unspawned? && !Done(s)
    ensures Own(a) && Step(apply, s, a).Some?
  {
    if s.treeLock.ByHandler? {
      HandlerCanStep(apply, s, s.treeLock.i);
      a := HandlerStep(s.treeLock.i);
    } else if s.treeLock.ByWriter? {
      a := WriterStep([]);
    } else if i :| 0 <= i < |s.handlers| && !s.handlers[i].Finished? {
      HandlerCanStep(apply, s, i);
      a := HandlerStep(i);
    } else {
      a := WriterCanStep(apply, s);
    }
  }

  lemma {:induction false} WriterCanStep<B(!new)>(apply: (string, B) -> Option<string>, s: State<B>) returns (a: Action<B>)
    requires Inv(apply, s) && !s.writer.Unspawned? && !Done(s) && s.treeLock.Free?
    requires forall i :: 0 <= i < |s.handlers| ==> s.handlers[i].Finished?
    ensures a.WriterStep? && Step(apply, s, a).Some?
  {
    if s.writer.Draining? {
      var order := SomeListing(s.pending.Keys);
      a := WriterStep(order);
    } else {
      a := WriterStep([]);
    }
  }

  /** Where nobody can step, everything is published. */
  lemma {:induction false} RestIsPublished<B(!new)>(apply: (string, B) -> Option<string>, s: State<B>)
    requires Inv(apply, s) && !s.writer.Unspawned? && AtRest(apply, s)
    ensures AllPublished(apply, s)
  {
    if !Done(s) {
      var a := SomeoneCanStep(apply, s);
      assert false;
    }
    DoneIsPublished(apply, s);
  }

  lemma {:induction false} DoneIsPublished<B(!new)>(apply: (string, B) -> Option<string>, s: State<B>)
    requires Inv(apply, s) && Done(s)
    ensures AllPublished(apply, s)
  {
    forall u | u in s.initial
      ensures Fold(apply, s.initial[u], s.accepted[u]) == Some(s.published[u].text)
    {
      assert Latest(s, u) == Expected(apply, s, u);
    }
  }

  /** From every state that can be reached with the writer running, steps of the handlers and the writer lead to rest. */
  lemma {:induction false} ComesToRest<B(!new)>(apply: (string, B) -> Option<string>, s: State<B>) returns (actions: seq<Action<B>>, t: State<B>)
    requires Inv(apply, s) && !s.writer.Unspawned?
    ensures (forall k :: 0 <= k < |actions| ==> Own(actions[k])) && Run(apply, s, actions) == Some(t)
    ensures Inv(apply, t) && t.initial == s.initial && AllPublished(apply, t)
    decreases HandlersLeft(s.handlers), Behind(s), Permits(s), Away(s.writer)
  {
    if Done(s) {
      DoneIsPublished(apply, s);
      actions, t := [], s;
    } else {
      var a := SomeoneCanStep(apply, s);
      var next := Step(apply, s, a).value;
      EveryStepIsProgress(apply, s, a);
      StepKeepsInv(apply, s, a);
      StaysSpawned(apply, s, a);
      var rest;
      rest, t := ComesToRest(apply, next);
      actions := [a] + rest;
      RunFrom(apply, s, a, rest);
    }
  }

  lemma {:induction false} StaysSpawned<B(!new)>(apply: (string, B) -> Option<string>, s: State<B>, a: Action<B>)
    requires !s.writer.Unspawned? && Own(a) && Step(apply, s, a).Some?
    ensures var t := Step(apply, s, a).value; !t.writer.Unspawned? && t.initial == s.initial
  {
    if a.HandlerStep? {
      HandlerFrames(apply, s, a.i);
    } else {
      WriterFrames(s, a.order);
    }
  }

  /** A step and then a run is a run. */
  lemma {:induction false} RunFrom<B(!new)>(apply: (string, B) -> Option<string>, s: State<B>, a: Action<B>, rest: seq<Action<B>>)
    requires Step(apply, s, a).Some?
    ensures Run(apply, s, [a] + rest) == Run(apply, Step(apply, s, a).value, rest)
    decreases |rest|
  {
    if rest == [] {
      assert [a] + rest == [a] && [a][..0] == [];
      assert Run(apply, s, []) == Some(s);
    } else {
      RunFrom(apply, s, a, rest[..|rest| - 1]);
      assert ([a] + rest)[..|[a] + rest| - 1] == [a] + rest[..|rest| - 1];
    }
  }
}
