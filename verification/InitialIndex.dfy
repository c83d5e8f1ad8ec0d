/** Waiting for the initial index (edit_queue.rs `await_initial_index`, lifecycle.rs `_initialized`).  `notify_waiters`
    stores no permit: it wakes the waiters registered at that moment and nobody else. */
module InitialIndex {
  import opened Wrappers

  datatype Waiter =
    | Looping                      // about to create and enable its `Notified`
    | Registered(woken: bool)      // about to look at the flag
    | Parked(woken: bool)          // found it unset; awaiting
    | Returned

  datatype Indexer = Indexing | FlagSet | Notified

  datatype State = State(flag: bool, indexer: Indexer, waiters: seq<Waiter>)

  datatype Action = Arrive | Index | Wait(i: nat)

  function Wake(w: Waiter): Waiter {
    match w
    case Registered(_) => Registered(true)
    case Parked(_) => Parked(true)
    case _ => w
  }

  predicate Enabled(s: State, a: Action) {
    match a
    case Arrive => true
    case Index => !s.indexer.Notified?
    case Wait(i) => i < |s.waiters| && !s.waiters[i].Returned? && (s.waiters[i].Parked? ==> s.waiters[i].woken)
  }

  function StepWaiter(flag: bool, w: Waiter): Waiter {
    match w
    case Looping => Registered(false)
    case Registered(woken) => if flag then Returned else Parked(woken)
    case Parked(woken) => if woken then Looping else w
    case Returned => Returned
  }

  function Step(s: State, a: Action): State
    requires Enabled(s, a)
  {
    match a
    case Arrive => s.(waiters := s.waiters + [Looping])
    case Index =>
      if s.indexer.Indexing? then s.(flag := true, indexer := FlagSet)
      else s.(indexer := Notified, waiters := seq(|s.waiters|, i requires 0 <= i < |s.waiters| => Wake(s.waiters[i])))
    case Wait(i) => s.(waiters := s.waiters[i := StepWaiter(s.flag, s.waiters[i])])
  }

  const START := State(false, Indexing, [])

  /** The state after a sequence of actions, if all of them were possible. */
  function Run(actions: seq<Action>): Option<State> {
    if actions == [] then Some(START)
    else match Run(actions[..|actions| - 1])
      case Some(s) => if Enabled(s, actions[|actions| - 1]) then Some(Step(s, actions[|actions| - 1])) else None
      case None => None
  }

  /** A waiter that is parked and has not been woken. */
  predicate Asleep(w: Waiter) {
    w == Parked(false)
  }

  ghost predicate Inv(s: State) {
    && (s.flag <==> !s.indexer.Indexing?)
    && (s.indexer.Notified? ==> forall i :: 0 <= i < |s.waiters| ==> !Asleep(s.waiters[i]))
  }

  lemma StepKeepsInv(s: State, a: Action)
    requires Inv(s) && Enabled(s, a)
    ensures Inv(Step(s, a))
  {
  }

  lemma {:induction false} RunKeepsInv(actions: seq<Action>)
    requires Run(actions).Some?
    ensures Inv(Run(actions).value)
  {
    if actions != [] {
      RunKeepsInv(actions[..|actions| - 1]);
      StepKeepsInv(Run(actions[..|actions| - 1]).value, actions[|actions| - 1]);
    }
  }

  /** The notification wakes everybody who has registered, parked or not. */
  lemma NotificationWakes(s: State, i: nat)
    requires s.indexer.FlagSet? && i < |s.waiters|
    ensures Enabled(s, Index) && |Step(s, Index).waiters| == |s.waiters|
    ensures var before, after := s.waiters[i], Step(s, Index).waiters[i];
      if before.Looping? || before.Returned? then after == before
      else after.woken && (after.Parked? <==> before.Parked?) && (after.Registered? <==> before.Registered?)
  {
  }

  /** Nobody is left asleep once the flag is set and the waiters have been notified. */
  lemma NobodyLeftAsleep(actions: seq<Action>, s: State)
    requires Run(actions) == Some(s) && s.indexer.Notified?
    ensures s.flag && forall i :: 0 <= i < |s.waiters| ==> !Asleep(s.waiters[i])
  {
    RunKeepsInv(actions);
  }

  function RunWaiter(s: State, i: nat, n: nat): State
    decreases n
  {
    if n == 0 || !Enabled(s, Wait(i)) then s else RunWaiter(Step(s, Wait(i)), i, n - 1)
  }

  function StepsLeft(w: Waiter): nat {
    match w case Looping => 2 case Registered(_) => 1 case Parked(_) => 3 case Returned => 0
  }

  lemma {:induction false} WaiterReturns(s: State, i: nat, n: nat)
    requires Inv(s) && s.indexer.Notified? && i < |s.waiters| && StepsLeft(s.waiters[i]) <= n
    ensures i < |RunWaiter(s, i, n).waiters| && RunWaiter(s, i, n).waiters[i].Returned?
    decreases n
  {
    assert !Asleep(s.waiters[i]);
    if Enabled(s, Wait(i)) {
      StepKeepsInv(s, Wait(i));
      WaiterReturns(Step(s, Wait(i)), i, n - 1);
    }
  }

  /** From then on every waiter returns within three steps of its own. */
  lemma EveryWaiterReturns(actions: seq<Action>, s: State, i: nat)
    requires Run(actions) == Some(s) && s.indexer.Notified? && i < |s.waiters|
    ensures i < |RunWaiter(s, i, 3).waiters| && RunWaiter(s, i, 3).waiters[i].Returned?
  {
    RunKeepsInv(actions);
    WaiterReturns(s, i, 3);
  }

  /** No waiter returns before the flag is set. */
  lemma {:induction false} NobodyReturnsEarly(actions: seq<Action>, s: State, i: nat)
    requires Run(actions) == Some(s) && i < |s.waiters| && s.waiters[i].Returned?
    ensures s.flag
    decreases |actions|
  {
    if actions != [] {
      var r := Run(actions[..|actions| - 1]).value;
      if i < |r.waiters| && r.waiters[i].Returned? {
        NobodyReturnsEarly(actions[..|actions| - 1], r, i);
      }
    }
  }

  /* Every interleaving comes to rest. */

  predicate IsWoken(w: Waiter) {
    w == Registered(true) || w == Parked(true)
  }

  /** Nobody is woken before the notification. */
  lemma {:induction false} WokenLate(actions: seq<Action>, s: State)
    requires Run(actions) == Some(s) && !s.indexer.Notified?
    ensures forall i :: 0 <= i < |s.waiters| ==> !IsWoken(s.waiters[i])
    decreases |actions|
  {
    if actions != [] {
      WokenLate(actions[..|actions| - 1], Run(actions[..|actions| - 1]).value);
    }
  }

  function IndexerLeft(i: Indexer): nat {
    match i case Indexing => 2 case FlagSet => 1 case Notified => 0
  }

  function WaitLeft(w: Waiter): nat {
    match w case Parked(woken) => if woken then 4 else 1 case Looping => 3 case Registered(_) => 2 case Returned => 0
  }

  function WaitersLeft(waiters: seq<Waiter>): nat {
    if waiters == [] then 0 else WaitersLeft(waiters[..|waiters| - 1]) + WaitLeft(waiters[|waiters| - 1])
  }

  lemma {:induction false} OneWaits(waiters: seq<Waiter>, i: nat, next: Waiter)
    requires i < |waiters| && WaitLeft(next) < WaitLeft(waiters[i])
    ensures WaitersLeft(waiters[i := next]) < WaitersLeft(waiters)
    decreases |waiters|
  {
    var last := |waiters| - 1;
    if i < last {
      assert waiters[i := next][..last] == waiters[..last][i := next];
      OneWaits(waiters[..last], i, next);
    } else {
      assert waiters[i := next][..last] == waiters[..last];
    }
  }

  /** Each step of the indexer leaves it less to do, and each step of a waiter leaves the indexer alone and the waiters less:
      without new waiters every run comes to an end. */
  lemma {:induction false} EveryStepIsProgress(actions: seq<Action>, s: State, a: Action)
    requires Run(actions) == Some(s) && !a.Arrive? && Enabled(s, a)
    ensures var t := Step(s, a);
      IndexerLeft(t.indexer) < IndexerLeft(s.indexer)
      || (t.indexer == s.indexer && WaitersLeft(t.waiters) < WaitersLeft(s.waiters))
  {
    RunKeepsInv(actions);
    if a.Wait? {
      if !s.indexer.Notified? {
        WokenLate(actions, s);
      }
      OneWaits(s.waiters, a.i, StepWaiter(s.flag, s.waiters[a.i]));
    }
  }

  /** Where nobody can step, the index is there and every waiter has returned. */
  lemma RestIsReturned(actions: seq<Action>, s: State)
    requires Run(actions) == Some(s) && forall a: Action :: !a.Arrive? ==> !Enabled(s, a)
    ensures s.flag && s.indexer.Notified? && forall i :: 0 <= i < |s.waiters| ==> s.waiters[i].Returned?
  {
    RunKeepsInv(actions);
    assert !Enabled(s, Index);
    forall i | 0 <= i < |s.waiters|
      ensures s.waiters[i].Returned?
    {
      assert !Enabled(s, Wait(i));
      assert !Asleep(s.waiters[i]);
    }
  }
}
