/** The view refresher (view_refresh.rs and the two bumpers of `state_version` in backend.rs): any number of threads bump
    the version and notify, one task wakes up and emits the versions it sees. */
module ViewRefresh {
  import opened Wrappers

  /** A thread in `publish_compilation` (with a change of the views) or `mark_state_changed`. */
  datatype Bumper =
    | Starting  // about to add one to the version
    | Bumped    // about to notify
    | Done

  datatype Refresher =
    | Unspawned
    | Waiting             // for a notification
    | Awake               // about to load the version
    | Loaded(seen: nat)   // about to compare it with the last one emitted

  datatype State = State(version: nat, permit: bool, refresher: Refresher, lastEmitted: nat, emitted: seq<nat>,
                         bumpers: seq<Bumper>)

  datatype Action = Arrive | Spawn | Bump(i: nat) | Refresh

  predicate Enabled(s: State, a: Action) {
    match a
    case Arrive => true
    case Spawn => s.refresher.Unspawned?
    case Bump(i) => i < |s.bumpers| && !s.bumpers[i].Done?
    case Refresh => s.refresher.Awake? || s.refresher.Loaded? || (s.refresher.Waiting? && s.permit)
  }

  function Step(s: State, a: Action): State
    requires Enabled(s, a)
  {
    match a
    case Arrive => s.(bumpers := s.bumpers + [Starting])
    case Spawn => s.(refresher := Waiting)
    case Bump(i) =>
      if s.bumpers[i].Starting? then s.(version := s.version + 1, bumpers := s.bumpers[i := Bumped])
      else s.(permit := true, bumpers := s.bumpers[i := Done]) // notify_one keeps at most one permit
    case Refresh =>
      match s.refresher
      case Awake => s.(refresher := Loaded(s.version))
      case Loaded(v) =>
        if v == s.lastEmitted then s.(refresher := Waiting)
        else s.(refresher := Waiting, lastEmitted := v, emitted := s.emitted + [v])
      case _ => s.(permit := false, refresher := Awake)
  }

  const START := State(0, false, Unspawned, 0, [], [])

  /** The state after a sequence of actions, if all of them were possible. */
  function Run(actions: seq<Action>): Option<State> {
    if actions == [] then Some(START)
    else match Run(actions[..|actions| - 1])
      case Some(s) => if Enabled(s, actions[|actions| - 1]) then Some(Step(s, actions[|actions| - 1])) else None
      case None => None
  }

  /** The newest version the refresher will have dealt with once it is waiting again, if nobody bumps meanwhile. */
  function Covered(s: State): nat {
    match s.refresher
    case Awake => s.version
    case Loaded(v) => v
    case _ => s.lastEmitted
  }

  predicate Increasing(xs: seq<nat>) {
    forall i, j :: 0 <= i < j < |xs| ==> xs[i] < xs[j]
  }

  ghost predicate InFlight(s: State) {
    exists i :: 0 <= i < |s.bumpers| && s.bumpers[i].Bumped?
  }

  ghost predicate Inv(s: State) {
    && s.lastEmitted <= Covered(s) <= s.version
    && (Covered(s) == s.version || s.permit || InFlight(s))
    && Increasing(s.emitted) && (forall i :: 0 <= i < |s.emitted| ==> 0 < s.emitted[i] <= s.lastEmitted)
    && s.lastEmitted == if s.emitted == [] then 0 else s.emitted[|s.emitted| - 1]
  }

  lemma {:induction false} StepKeepsInv(s: State, a: Action)
    requires Inv(s) && Enabled(s, a)
    ensures Inv(Step(s, a))
  {
    var t := Step(s, a);
    if InFlight(s) {
      var k :| 0 <= k < |s.bumpers| && s.bumpers[k].Bumped?;
      if a != Bump(k) {
        assert t.bumpers[k].Bumped?;
      }
    }
    if a.Bump? && s.bumpers[a.i].Starting? {
      assert t.bumpers[a.i].Bumped?;
    }
  }

  lemma {:induction false} RunKeepsInv(actions: seq<Action>)
    requires Run(actions).Some?
    ensures Inv(Run(actions).value)
  {
    if actions != [] {
      RunKeepsInv(actions[..|actions| - 1]);
      StepKeepsInv(Run(actions[..|actions| - 1]).value, actions[|actions| - 1]);
    }
  }

  /** A version not yet emitted is always on its way: a permit is stored, the refresher is up and has seen it or will, or
      a bumper has yet to notify. */
  lemma NoLostWakeup(actions: seq<Action>, s: State)
    requires Run(actions) == Some(s) && s.version != s.lastEmitted
    ensures s.permit || InFlight(s) || s.refresher == Awake || s.refresher == Loaded(s.version)
  {
    RunKeepsInv(actions);
  }

  /** When everything has come to rest the client has been told of the last version. */
  lemma RestMeansEmitted(actions: seq<Action>, s: State)
    requires Run(actions) == Some(s) && s.refresher.Waiting? && !Enabled(s, Refresh) && !InFlight(s)
    ensures s.lastEmitted == s.version
    ensures s.version > 0 ==> s.emitted != [] && s.emitted[|s.emitted| - 1] == s.version
  {
    RunKeepsInv(actions);
  }

  /** Notifications coalesce: each emission is of a newer version, so there are never more of them than bumps. */
  lemma EmissionsCoalesce(actions: seq<Action>, s: State)
    requires Run(actions) == Some(s)
    ensures Increasing(s.emitted) && |s.emitted| <= s.version
  {
    RunKeepsInv(actions);
    IncreasingIsShort(s.emitted, s.lastEmitted);
  }

  lemma {:induction false} IncreasingIsShort(xs: seq<nat>, bound: nat)
    requires Increasing(xs) && forall i :: 0 <= i < |xs| ==> 0 < xs[i] <= bound
    ensures |xs| <= bound
    decreases |xs|
  {
    if xs != [] {
      var init := xs[..|xs| - 1];
      forall i | 0 <= i < |init|
        ensures 0 < init[i] <= xs[|xs| - 1] - 1
      {
      }
      IncreasingIsShort(init, xs[|xs| - 1] - 1);
    }
  }

  /** The refresher running on its own for up to `n` steps. */
  function RunRefresher(s: State, n: nat): State
    decreases n
  {
    if n == 0 || !Enabled(s, Refresh) then s else RunRefresher(Step(s, Refresh), n - 1)
  }

  /** How many steps the refresher has left if nobody bumps. */
  function StepsLeft(s: State): nat {
    (if s.permit then 3 else 0) + match s.refresher case Awake => 2 case Loaded(_) => 1 case _ => 0
  }

  /** Once no bumper is about to notify, the refresher comes to rest within five steps having emitted the version. */
  lemma {:induction false} RefresherSettles(s: State, n: nat)
    requires Inv(s) && !InFlight(s) && !s.refresher.Unspawned? && StepsLeft(s) <= n
    ensures var t := RunRefresher(s, n);
      && !Enabled(t, Refresh) && t.refresher.Waiting? && t.version == s.version && t.lastEmitted == s.version
    decreases n
  {
    if Enabled(s, Refresh) {
      StepKeepsInv(s, Refresh);
      assert Step(s, Refresh).bumpers == s.bumpers;
      RefresherSettles(Step(s, Refresh), n - 1);
    }
  }

  lemma FiveStepsSettle(actions: seq<Action>, s: State)
    requires Run(actions) == Some(s) && !InFlight(s) && !s.refresher.Unspawned?
    ensures RunRefresher(s, 5).refresher.Waiting? && !RunRefresher(s, 5).permit
    ensures RunRefresher(s, 5).lastEmitted == s.version
  {
    RunKeepsInv(actions);
    RefresherSettles(s, 5);
  }

  /* Every interleaving comes to rest. */

  /** A step of a bumper or of the refresher, not a new bumper. */
  predicate Own(a: Action) {
    a.Bump? || a.Refresh?
  }

  function BumpersLeft(bumpers: seq<Bumper>): nat {
    if bumpers == [] then 0
    else BumpersLeft(bumpers[..|bumpers| - 1]) + match bumpers[|bumpers| - 1] case Starting => 2 case Bumped => 1 case Done => 0
  }

  /** The bumpers that have added one to the version. */
  function Counted(bumpers: seq<Bumper>): nat {
    if bumpers == [] then 0 else Counted(bumpers[..|bumpers| - 1]) + if bumpers[|bumpers| - 1].Starting? then 0 else 1
  }

  lemma {:induction false} OneBumps(bumpers: seq<Bumper>, i: nat, next: Bumper)
    requires i < |bumpers|
    requires (bumpers[i].Starting? && next.Bumped?) || (bumpers[i].Bumped? && next.Done?)
    ensures BumpersLeft(bumpers[i := next]) < BumpersLeft(bumpers)
    ensures Counted(bumpers[i := next]) == Counted(bumpers) + if bumpers[i].Starting? then 1 else 0
    decreases |bumpers|
  {
    var last := |bumpers| - 1;
    if i < last {
      assert bumpers[i := next][..last] == bumpers[..last][i := next];
      OneBumps(bumpers[..last], i, next);
    } else {
      assert bumpers[i := next][..last] == bumpers[..last];
    }
  }

  /** Each step of a bumper leaves the bumpers less to do, and each step of the refresher leaves them alone and the refresher
      less: without new bumpers every run comes to an end. */
  lemma {:induction false} EveryStepIsProgress(s: State, a: Action)
    requires Own(a) && Enabled(s, a)
    ensures var t := Step(s, a);
      BumpersLeft(t.bumpers) < BumpersLeft(s.bumpers) || (t.bumpers == s.bumpers && StepsLeft(t) < StepsLeft(s))
  {
    if a.Bump? {
      OneBumps(s.bumpers, a.i, if s.bumpers[a.i].Starting? then Bumped else Done);
    }
  }

  /** The version is the number of bumpers that have added one to it. */
  lemma {:induction false} VersionCounts(actions: seq<Action>)
    requires Run(actions).Some?
    ensures Run(actions).value.version == Counted(Run(actions).value.bumpers)
  {
    if actions != [] {
      VersionCounts(actions[..|actions| - 1]);
      var s, a := Run(actions[..|actions| - 1]).value, actions[|actions| - 1];
      if a.Bump? {
        OneBumps(s.bumpers, a.i, if s.bumpers[a.i].Starting? then Bumped else Done);
      } else if a.Arrive? {
        assert (s.bumpers + [Starting])[..|s.bumpers|] == s.bumpers;
      }
    }
  }

  lemma {:induction false} AllCounted(bumpers: seq<Bumper>)
    requires forall i :: 0 <= i < |bumpers| ==> bumpers[i].Done?
    ensures Counted(bumpers) == |bumpers|
  {
    if bumpers != [] {
      AllCounted(bumpers[..|bumpers| - 1]);
    }
  }

  /** Where nobody can step, every bumper is done, the version has counted them all, and the client has been told of it. */
  lemma {:induction false} RestIsEmitted(actions: seq<Action>, s: State)
    requires Run(actions) == Some(s) && !s.refresher.Unspawned? && forall a :: Own(a) ==> !Enabled(s, a)
    ensures forall i :: 0 <= i < |s.bumpers| ==> s.bumpers[i].Done?
    ensures s.lastEmitted == s.version == |s.bumpers|
  {
    RunKeepsInv(actions);
    VersionCounts(actions);
    assert !Enabled(s, Refresh);
    forall i | 0 <= i < |s.bumpers|
      ensures s.bumpers[i].Done?
    {
      assert !Enabled(s, Bump(i));
    }
    AllCounted(s.bumpers);
  }
}
