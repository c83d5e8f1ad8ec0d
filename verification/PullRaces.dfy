/** Diagnostics pulls that overlap with publishes and with each other (cst_cache.rs, diagnostics_publish.rs in
    src/bin/witcherscript-lsp): a pull computes on a snapshot, commits to the cache later, and registers its subscriptions
    later still, each under its own lock and without looking at the state version again. */
module PullRaces {
  import opened Subscriptions
  import opened DiagnosticsCache
  import opened Wrappers

  /** The commit of the files computed on the snapshot `snap`. */
  function Commit<Text, Fact, Diag>(
      rules: Rules<Text, Fact, Diag>, s: Server<Text, Fact, Diag>, snap: Server<Text, Fact, Diag>, computed: set<Uri>)
      : Server<Text, Fact, Diag> {
    s.(cache := s.cache + FreshEntries(rules, snap.world, snap.documents, computed))
  }

  /** The registration of what they observed, in the registry that was theirs in the snapshot. */
  function Register<Text, Fact, Diag>(
      rules: Rules<Text, Fact, Diag>, s: Server<Text, Fact, Diag>, snap: Server<Text, Fact, Diag>, computed: set<Uri>)
      : Server<Text, Fact, Diag> {
    s.(looseSubs := s.looseSubs + FreshObservations(rules, snap.world, snap.documents, computed * snap.world.looseUris),
       workspaceSubs := s.workspaceSubs + FreshObservations(rules, snap.world, snap.documents, computed - snap.world.looseUris))
  }

  /** A pull lands: it commits and, unless it was cancelled, registers at once. */
  function Land<Text, Fact, Diag>(
      rules: Rules<Text, Fact, Diag>, s: Server<Text, Fact, Diag>, snap: Server<Text, Fact, Diag>, computed: set<Uri>, registers: bool)
      : Server<Text, Fact, Diag> {
    var committed := Commit(rules, s, snap, computed);
    if registers then Register(rules, committed, snap, computed) else committed
  }

  /** With nothing in between since the snapshot, that is a pull in one step. */
  lemma LandingIsPull<Text, Fact, Diag>(
      rules: Rules<Text, Fact, Diag>, s: Server<Text, Fact, Diag>, uris: set<Uri>, mayStart: bool, goesOn: set<Uri>)
    ensures AfterPull(rules, s, uris, mayStart, goesOn)
         == Land(rules, s, s, ComputedBy(s, uris, mayStart, goesOn), !CancelledIn(s, uris, mayStart, goesOn))
  {
    var computed := ComputedBy(s, uris, mayStart, goesOn);
    var docs := Pulled(s, uris);
    assert forall u :: u in computed ==> u in docs && docs[u] == s.documents[u];
    assert FreshEntries(rules, s.world, docs, computed) == FreshEntries(rules, s.world, s.documents, computed);
    SameObservations(rules, s, docs, computed * s.world.looseUris);
    SameObservations(rules, s, docs, computed - s.world.looseUris);
  }

  lemma SameObservations<Text, Fact, Diag>(
      rules: Rules<Text, Fact, Diag>, s: Server<Text, Fact, Diag>, docs: map<Uri, Document<Text>>, uris: set<Uri>)
    requires forall u :: u in uris ==> u in docs && u in s.documents && docs[u] == s.documents[u]
    ensures FreshObservations(rules, s.world, docs, uris) == FreshObservations(rules, s.world, s.documents, uris)
  {
  }

  /** The texts of the snapshot still go by their parse versions. */
  ghost predicate StillNamed<Text, Fact, Diag>(snap: Server<Text, Fact, Diag>, s: Server<Text, Fact, Diag>) {
    VersionsName(snap.documents, s.texts)
  }

  function Watching<Text, Fact, Diag>(rules: Rules<Text, Fact, Diag>, s: Server<Text, Fact, Diag>, u: Uri): Observations
    requires u in s.cache && s.cache[u].version in s.texts
  {
    rules.observe(u, s.texts[s.cache[u].version], FactsFor(s.world, u), s.cache[u].fingerprint)
  }

  /** The file is still on the side of the server where the snapshot had it. */
  predicate SameSide<Text, Fact, Diag>(snap: Server<Text, Fact, Diag>, s: Server<Text, Fact, Diag>, u: Uri) {
    u in snap.world.looseUris <==> u in s.world.looseUris
  }

  /** What registering does to the file's own subscriptions. */
  lemma {:induction false} Registered<Text, Fact, Diag>(
      rules: Rules<Text, Fact, Diag>, s: Server<Text, Fact, Diag>, snap: Server<Text, Fact, Diag>, computed: set<Uri>, u: Uri)
    ensures var t := Register(rules, s, snap, computed);
      if u in computed && u in snap.documents && SameSide(snap, s, u) then
        u in SubsFor(t, u) && SubsFor(t, u)[u] == Observing(rules, snap, u)
      else
        (u in SubsFor(t, u) <==> u in SubsFor(s, u)) && (u in SubsFor(s, u) ==> SubsFor(t, u)[u] == SubsFor(s, u)[u])
  {
  }

  /* Landing. */

  /** Nothing the file looked up has changed since the snapshot; and the file is on the same side and gets registered, or it
      is subscribed to all of it already. */
  ghost predicate InTime<Text, Fact, Diag>(
      rules: Rules<Text, Fact, Diag>, s: Server<Text, Fact, Diag>, snap: Server<Text, Fact, Diag>, registers: bool, u: Uri)
    requires u in snap.documents
  {
    var o := Observing(rules, snap, u);
    && AgreeOn(FactsFor(snap.world, u), FactsFor(s.world, u), o)
    && ((registers && SameSide(snap, s, u)) || Covered(SubsFor(s, u), u, o))
  }

  lemma LandKeepsInv<Text(!new), Fact(!new), Diag(!new)>(
      rules: Rules<Text, Fact, Diag>, s: Server<Text, Fact, Diag>, snap: Server<Text, Fact, Diag>, computed: set<Uri>, registers: bool)
    requires Determined(rules) && Inv(rules, s) && StillNamed(snap, s) && computed <= snap.documents.Keys
    requires forall u :: u in computed ==> InTime(rules, s, snap, registers, u)
    ensures Inv(rules, Land(rules, s, snap, computed, registers))
  {
    var t := Land(rules, s, snap, computed, registers);
    forall u | u in t.cache
      ensures Current(rules, t, u) && Subscribed(rules, t, u)
    {
      if u in computed {
        LandedInTime(rules, s, snap, computed, registers, u);
      } else {
        Registered(rules, Commit(rules, s, snap, computed), snap, computed, u);
        assert Current(rules, s, u) && Subscribed(rules, s, u);
      }
    }
  }

  lemma LandedInTime<Text(!new), Fact(!new), Diag(!new)>(
      rules: Rules<Text, Fact, Diag>, s: Server<Text, Fact, Diag>, snap: Server<Text, Fact, Diag>, computed: set<Uri>, registers: bool,
      u: Uri)
    requires Determined(rules) && StillNamed(snap, s) && u in computed && u in snap.documents && InTime(rules, s, snap, registers, u)
    ensures var t := Land(rules, s, snap, computed, registers);
      u in t.cache && Current(rules, t, u) && Subscribed(rules, t, u)
  {
    var t := Land(rules, s, snap, computed, registers);
    assert t.cache[u] == Fresh(rules, snap.world, u, snap.documents[u]);
    Registered(rules, Commit(rules, s, snap, computed), snap, computed, u);
    assert Watching(rules, t, u) == Observing(rules, snap, u);
  }

  /** Whatever rules look up the same keys and whatever is published next, the cache does not answer wrong. */
  ghost predicate LandsHarmless<Text(!new), Fact(!new), Diag(!new)>(
      rules: Rules<Text, Fact, Diag>, s: Server<Text, Fact, Diag>, snap: Server<Text, Fact, Diag>, computed: set<Uri>, registers: bool) {
    forall diagnose: (Uri, Text, map<ObservedKey, Fact>, nat) -> seq<Diag>, e: Event<Text, Fact> ::
      var others := Diagnosing(rules, diagnose);
      var t := Land(others, Under(others, s), snap, computed, registers);
      Determined(others) && e.Publish? && Allowed(t, e) ==> Coherent(others, AfterPublish(t, e))
  }

  /** The publish that brings a cached version of a file and its fingerprint back, and gives its side of the server other
      facts under some keys. */
  function Bringing<Text, Fact, Diag>(
      s: Server<Text, Fact, Diag>, u: Uri, changed: set<ObservedKey>, facts: map<ObservedKey, Fact>): Event<Text, Fact>
    requires u in s.cache && s.cache[u].version in s.texts
  {
    var e := s.cache[u];
    var documents := s.documents[u := Document(e.version, s.texts[e.version])];
    if u in s.world.looseUris then
      Publish(documents, s.texts, World(s.world.workspace, facts, s.world.looseUris, e.fingerprint), {}, changed, {})
    else
      Publish(documents, s.texts, World(facts, s.world.loose, s.world.looseUris, e.fingerprint), changed, {}, {})
  }

  /** Unless the file is subscribed to one of them, the entry stays, to hit with what it says. */
  lemma {:induction false} BroughtBack<Text, Fact, Diag>(
      rules: Rules<Text, Fact, Diag>, s: Server<Text, Fact, Diag>, u: Uri, changed: set<ObservedKey>, facts: map<ObservedKey, Fact>)
    requires VersionsName(s.documents, s.texts) && u in s.cache && s.cache[u].version in s.texts
    requires forall l :: l !in changed ==> SameFact(FactsFor(s.world, u), facts, l)
    requires u !in SubscribersOf(SubsFor(s, u), changed)
    requires rules.diagnose(u, s.texts[s.cache[u].version], facts, s.cache[u].fingerprint) != s.cache[u].diagnostics
    ensures Allowed(s, Bringing(s, u, changed, facts)) && !Coherent(rules, AfterPublish(s, Bringing(s, u, changed, facts)))
  {
    var e := Bringing(s, u, changed, facts);
    var t := AfterPublish(s, e);
    forall l
      ensures l !in e.looseChanged ==> SameFact(s.world.loose, e.world.loose, l)
      ensures l !in e.workspaceChanged ==> SameFact(s.world.workspace, e.world.workspace, l)
    {
      assert l !in changed ==> SameFact(FactsFor(s.world, u), facts, l);
    }
    assert Hit(t.cache, u, t.documents[u].version, t.world.fingerprint);
    assert t.cache[u].diagnostics != Fresh(rules, t.world, u, t.documents[u]).diagnostics;
  }

  /** An entry that rests on a key without a subscription goes stale when the key is published. */
  lemma UncoveredEntryGoesStale<Text(!new), Fact(!new), Diag(!new)>(
      rules: Rules<Text, Fact, Diag>, t: Server<Text, Fact, Diag>, u: Uri, k: ObservedKey, fact: Fact, d: Diag)
    requires Determined(rules) && VersionsName(t.documents, t.texts) && u in t.cache && Current(ComplainAbout(rules, k, d), t, u)
    requires Observed(Watching(rules, t, u), k) && (u in SubsFor(t, u) ==> !Observed(SubsFor(t, u)[u], k))
    ensures var e := Bringing(t, u, {k}, Flipped(FactsFor(t.world, u), k, fact));
      Allowed(t, e) && !Coherent(ComplainAbout(rules, k, d), AfterPublish(t, e))
  {
    var entry := t.cache[u];
    FlipIsObserved(rules, u, t.texts[entry.version], FactsFor(t.world, u), entry.fingerprint, k, fact);
    BroughtBack(ComplainAbout(rules, k, d), t, u, {k}, Flipped(FactsFor(t.world, u), k, fact));
  }

  function Found<Fact>(facts: map<ObservedKey, Fact>, k: ObservedKey): Option<Fact> {
    if k in facts then Some(facts[k]) else None
  }

  /** Rules that complain exactly if what is under the one key, where they look it up, is `was`. */
  function ComplainWhile<Text, Fact(==), Diag>(rules: Rules<Text, Fact, Diag>, k: ObservedKey, was: Option<Fact>, d: Diag)
      : Rules<Text, Fact, Diag> {
    Diagnosing(rules, (u: Uri, text: Text, facts: map<ObservedKey, Fact>, fp: nat) =>
                        if Observed(rules.observe(u, text, facts, fp), k) && Found(facts, k) == was then [d] else [])
  }

  lemma ComplainWhileIsDetermined<Text(!new), Fact(!new), Diag(!new)>(
      rules: Rules<Text, Fact, Diag>, k: ObservedKey, was: Option<Fact>, d: Diag)
    requires Determined(rules)
    ensures Determined(ComplainWhile(rules, k, was, d))
  {
    var others := ComplainWhile(rules, k, was, d);
    forall u, text: Text, a: map<ObservedKey, Fact>, b: map<ObservedKey, Fact>, fp: nat | AgreeOn(a, b, others.observe(u, text, a, fp))
      ensures others.diagnose(u, text, a, fp) == others.diagnose(u, text, b, fp)
      ensures others.observe(u, text, a, fp) == others.observe(u, text, b, fp)
    {
      assert rules.observe(u, text, a, fp) == rules.observe(u, text, b, fp);
      assert Observed(rules.observe(u, text, a, fp), k) ==> SameFact(a, b, k);
    }
  }

  lemma LandingRefuted<Text(!new), Fact(!new), Diag(!new)>(
      rules: Rules<Text, Fact, Diag>, others: Rules<Text, Fact, Diag>, s: Server<Text, Fact, Diag>, snap: Server<Text, Fact, Diag>,
      computed: set<Uri>, registers: bool, e: Event<Text, Fact>)
    requires others == Diagnosing(rules, others.diagnose) && Determined(others) && e.Publish?
    requires var t := Land(others, Under(others, s), snap, computed, registers);
      Allowed(t, e) && !Coherent(others, AfterPublish(t, e))
    ensures !LandsHarmless(rules, s, snap, computed, registers)
  {
    var diagnose := others.diagnose;
    var same := Diagnosing(rules, diagnose);
    assert !Coherent(same, AfterPublish(Land(same, Under(same, s), snap, computed, registers), e));
  }

  /** A fact the file looked up has changed since the snapshot: even unpublished, the entry is stale. */
  lemma {:induction false} LateIsHarmful<Text(!new), Fact(!new), Diag(!new)>(
      rules: Rules<Text, Fact, Diag>, s: Server<Text, Fact, Diag>, snap: Server<Text, Fact, Diag>, computed: set<Uri>, registers: bool,
      u: Uri, k: ObservedKey, d: Diag)
    requires Determined(rules) && Inv(rules, s) && StillNamed(snap, s) && computed <= snap.documents.Keys && u in computed
    requires Observed(Observing(rules, snap, u), k) && !SameFact(FactsFor(snap.world, u), FactsFor(s.world, u), k)
    ensures !LandsHarmless(rules, s, snap, computed, registers)
  {
    var others := ComplainWhile(rules, k, Found(FactsFor(snap.world, u), k), d);
    ComplainWhileIsDetermined(rules, k, Found(FactsFor(snap.world, u), k), d);
    var t := Land(others, Under(others, s), snap, computed, registers);
    assert t.cache[u] == Fresh(others, snap.world, u, snap.documents[u]);
    LateEntryGoesStale(rules, t, snap, u, k, d);
    LandingRefuted(rules, others, s, snap, computed, registers, Bringing(t, u, {}, FactsFor(t.world, u)));
  }

  /** Nothing has changed, but the file ends up without a subscription to a key it looked up. */
  lemma {:induction false} UncoveredIsHarmful<Text(!new), Fact(!new), Diag(!new)>(
      rules: Rules<Text, Fact, Diag>, s: Server<Text, Fact, Diag>, snap: Server<Text, Fact, Diag>, computed: set<Uri>, registers: bool,
      u: Uri, k: ObservedKey, fact: Fact, d: Diag)
    requires Determined(rules) && Inv(rules, s) && StillNamed(snap, s) && computed <= snap.documents.Keys && u in computed
    requires AgreeOn(FactsFor(snap.world, u), FactsFor(s.world, u), Observing(rules, snap, u)) && !(registers && SameSide(snap, s, u))
    requires Observed(Observing(rules, snap, u), k) && (u in SubsFor(s, u) ==> !Observed(SubsFor(s, u)[u], k))
    ensures !LandsHarmless(rules, s, snap, computed, registers)
  {
    var others := ComplainAbout(rules, k, d);
    ComplaintIsDetermined(rules, k, d);
    var t := Land(others, Under(others, s), snap, computed, registers);
    assert t.cache[u] == Fresh(others, snap.world, u, snap.documents[u]);
    Registered(others, Commit(others, Under(others, s), snap, computed), snap, computed, u);
    assert Watching(rules, t, u) == Observing(rules, snap, u);
    UncoveredEntryGoesStale(rules, t, u, k, fact, d);
    LandingRefuted(rules, others, s, snap, computed, registers, Bringing(t, u, {k}, Flipped(FactsFor(t.world, u), k, fact)));
  }

  lemma InTimeUnder<Text(!new), Fact(!new), Diag(!new)>(
      rules: Rules<Text, Fact, Diag>, others: Rules<Text, Fact, Diag>, s: Server<Text, Fact, Diag>, snap: Server<Text, Fact, Diag>,
      registers: bool, u: Uri)
    requires u in snap.documents && InTime(rules, s, snap, registers, u) && others.observe == rules.observe
    ensures InTime(others, Under(others, s), snap, registers, u)
  {
    assert Observing(others, snap, u) == Observing(rules, snap, u);
    assert SubsFor(Under(others, s), u) == SubsFor(s, u);
  }

  lemma InTimeIsHarmless<Text(!new), Fact(!new), Diag(!new)>(
      rules: Rules<Text, Fact, Diag>, others: Rules<Text, Fact, Diag>, s: Server<Text, Fact, Diag>, snap: Server<Text, Fact, Diag>,
      computed: set<Uri>, registers: bool, e: Event<Text, Fact>)
    requires Inv(rules, s) && StillNamed(snap, s) && computed <= snap.documents.Keys && others.observe == rules.observe
    requires forall u :: u in computed ==> InTime(rules, s, snap, registers, u)
    requires Determined(others) && e.Publish? && Allowed(Land(others, Under(others, s), snap, computed, registers), e)
    ensures Coherent(others, AfterPublish(Land(others, Under(others, s), snap, computed, registers), e))
  {
    InvUnder(rules, others, s);
    forall u | u in computed
      ensures InTime(others, Under(others, s), snap, registers, u)
    {
      InTimeUnder(rules, others, s, snap, registers, u);
    }
    LandKeepsInv(others, Under(others, s), snap, computed, registers);
    var t := Land(others, Under(others, s), snap, computed, registers);
    PublishKeepsInv(others, t, e);
    InvIsCoherent(others, AfterPublish(t, e));
  }

  /** A pull that was overtaken by other events lands without harm exactly if every file it computed is in time. */
  lemma LandsHarmlessIff<Text(!new), Fact(!new), Diag(!new)>(
      rules: Rules<Text, Fact, Diag>, s: Server<Text, Fact, Diag>, snap: Server<Text, Fact, Diag>, computed: set<Uri>, registers: bool,
      fact: Fact, d: Diag)
    requires Determined(rules) && Inv(rules, s) && StillNamed(snap, s) && computed <= snap.documents.Keys
    ensures LandsHarmless(rules, s, snap, computed, registers) <==> forall u :: u in computed ==> InTime(rules, s, snap, registers, u)
  {
    if u :| u in computed && !InTime(rules, s, snap, registers, u) {
      var o := Observing(rules, snap, u);
      if k :| Observed(o, k) && !SameFact(FactsFor(snap.world, u), FactsFor(s.world, u), k) {
        LateIsHarmful(rules, s, snap, computed, registers, u, k, d);
      } else {
        var k :| Observed(o, k) && !(u in SubsFor(s, u) && Observed(SubsFor(s, u)[u], k));
        UncoveredIsHarmful(rules, s, snap, computed, registers, u, k, fact, d);
      }
    } else {
      forall diagnose: (Uri, Text, map<ObservedKey, Fact>, nat) -> seq<Diag>, e: Event<Text, Fact>
        | Determined(Diagnosing(rules, diagnose)) && e.Publish?
          && Allowed(Land(Diagnosing(rules, diagnose), Under(Diagnosing(rules, diagnose), s), snap, computed, registers), e)
        ensures var others := Diagnosing(rules, diagnose);
          Coherent(others, AfterPublish(Land(others, Under(others, s), snap, computed, registers), e))
      {
        InTimeIsHarmless(rules, Diagnosing(rules, diagnose), s, snap, computed, registers, e);
      }
    }
  }

  /* Registering later. */

  /** What is registered covers what the entry in the cache by then rests on. */
  ghost predicate StillCovers<Text, Fact, Diag>(
      rules: Rules<Text, Fact, Diag>, s: Server<Text, Fact, Diag>, snap: Server<Text, Fact, Diag>, computed: set<Uri>) {
    forall u :: u in computed && u in snap.documents && SameSide(snap, s, u) && u in s.cache && s.cache[u].version in s.texts ==>
      forall k :: Observed(Watching(rules, s, u), k) ==> Observed(Observing(rules, snap, u), k)
  }

  lemma RegisterKeepsInv<Text, Fact, Diag>(
      rules: Rules<Text, Fact, Diag>, s: Server<Text, Fact, Diag>, snap: Server<Text, Fact, Diag>, computed: set<Uri>)
    requires Inv(rules, s) && StillCovers(rules, s, snap, computed)
    ensures Inv(rules, Register(rules, s, snap, computed))
  {
    var t := Register(rules, s, snap, computed);
    forall u | u in t.cache
      ensures Current(rules, t, u) && Subscribed(rules, t, u)
    {
      assert Current(rules, s, u) && Subscribed(rules, s, u);
      Registered(rules, s, snap, computed, u);
      assert Watching(rules, t, u) == Watching(rules, s, u);
    }
  }

  ghost predicate RegisterHarmless<Text(!new), Fact(!new), Diag(!new)>(
      rules: Rules<Text, Fact, Diag>, s: Server<Text, Fact, Diag>, snap: Server<Text, Fact, Diag>, computed: set<Uri>) {
    forall diagnose: (Uri, Text, map<ObservedKey, Fact>, nat) -> seq<Diag>, e: Event<Text, Fact> ::
      var others := Diagnosing(rules, diagnose);
      var t := Register(others, Under(others, s), snap, computed);
      Determined(others) && e.Publish? && Allowed(t, e) ==> Coherent(others, AfterPublish(t, e))
  }

  lemma RegisteringRefuted<Text(!new), Fact(!new), Diag(!new)>(
      rules: Rules<Text, Fact, Diag>, others: Rules<Text, Fact, Diag>, s: Server<Text, Fact, Diag>, snap: Server<Text, Fact, Diag>,
      computed: set<Uri>, e: Event<Text, Fact>)
    requires others == Diagnosing(rules, others.diagnose) && Determined(others) && e.Publish?
    requires var t := Register(others, Under(others, s), snap, computed);
      Allowed(t, e) && !Coherent(others, AfterPublish(t, e))
    ensures !RegisterHarmless(rules, s, snap, computed)
  {
    var diagnose := others.diagnose;
    var same := Diagnosing(rules, diagnose);
    assert !Coherent(same, AfterPublish(Register(same, Under(same, s), snap, computed), e));
  }

  lemma LostSubscriptionIsHarmful<Text(!new), Fact(!new), Diag(!new)>(
      rules: Rules<Text, Fact, Diag>, s: Server<Text, Fact, Diag>, snap: Server<Text, Fact, Diag>, computed: set<Uri>, u: Uri,
      k: ObservedKey, fact: Fact, d: Diag)
    requires Determined(rules) && Inv(rules, s) && u in computed && u in snap.documents && u in s.cache && s.cache[u].version in s.texts
    requires SameSide(snap, s, u) && Observed(Watching(rules, s, u), k) && !Observed(Observing(rules, snap, u), k)
    ensures !RegisterHarmless(rules, s, snap, computed)
  {
    var others := ComplainAbout(rules, k, d);
    ComplaintIsDetermined(rules, k, d);
    InvUnder(rules, others, s);
    var t := Register(others, Under(others, s), snap, computed);
    Registered(others, Under(others, s), snap, computed, u);
    assert Current(others, Under(others, s), u) && Current(others, t, u);
    assert Watching(rules, t, u) == Watching(rules, s, u);
    UncoveredEntryGoesStale(rules, t, u, k, fact, d);
    RegisteringRefuted(rules, others, s, snap, computed, Bringing(t, u, {k}, Flipped(FactsFor(t.world, u), k, fact)));
  }

  lemma CoveringIsHarmless<Text(!new), Fact(!new), Diag(!new)>(
      rules: Rules<Text, Fact, Diag>, others: Rules<Text, Fact, Diag>, s: Server<Text, Fact, Diag>, snap: Server<Text, Fact, Diag>,
      computed: set<Uri>, e: Event<Text, Fact>)
    requires Inv(rules, s) && StillCovers(rules, s, snap, computed) && others.observe == rules.observe
    requires Determined(others) && e.Publish? && Allowed(Register(others, Under(others, s), snap, computed), e)
    ensures Coherent(others, AfterPublish(Register(others, Under(others, s), snap, computed), e))
  {
    InvUnder(rules, others, s);
    CoversStillUnder(rules, others, s, snap, computed);
    RegisterKeepsInv(others, Under(others, s), snap, computed);
    var t := Register(others, Under(others, s), snap, computed);
    PublishKeepsInv(others, t, e);
    InvIsCoherent(others, AfterPublish(t, e));
  }

  lemma CoversStillUnder<Text(!new), Fact(!new), Diag(!new)>(
      rules: Rules<Text, Fact, Diag>, others: Rules<Text, Fact, Diag>, s: Server<Text, Fact, Diag>, snap: Server<Text, Fact, Diag>,
      computed: set<Uri>)
    requires Inv(rules, s) && StillCovers(rules, s, snap, computed) && others.observe == rules.observe
    ensures StillCovers(others, Under(others, s), snap, computed)
  {
    InvUnder(rules, others, s);
    var t := Under(others, s);
    forall u | u in computed && u in snap.documents && SameSide(snap, t, u) && u in t.cache && t.cache[u].version in t.texts
      ensures forall k :: Observed(Watching(others, t, u), k) ==> Observed(Observing(others, snap, u), k)
    {
      assert Watching(others, t, u) == Watching(rules, s, u) && Observing(others, snap, u) == Observing(rules, snap, u);
    }
  }

  /** A registration is harmless exactly if it takes no file a key that its cached entry rests on. */
  lemma RegisterHarmlessIff<Text(!new), Fact(!new), Diag(!new)>(
      rules: Rules<Text, Fact, Diag>, s: Server<Text, Fact, Diag>, snap: Server<Text, Fact, Diag>, computed: set<Uri>, fact: Fact, d: Diag)
    requires Determined(rules) && Inv(rules, s)
    ensures RegisterHarmless(rules, s, snap, computed) <==> StillCovers(rules, s, snap, computed)
  {
    if StillCovers(rules, s, snap, computed) {
      forall diagnose: (Uri, Text, map<ObservedKey, Fact>, nat) -> seq<Diag>, e: Event<Text, Fact>
        | Determined(Diagnosing(rules, diagnose)) && e.Publish?
          && Allowed(Register(Diagnosing(rules, diagnose), Under(Diagnosing(rules, diagnose), s), snap, computed), e)
        ensures var others := Diagnosing(rules, diagnose);
          Coherent(others, AfterPublish(Register(others, Under(others, s), snap, computed), e))
      {
        CoveringIsHarmless(rules, Diagnosing(rules, diagnose), s, snap, computed, e);
      }
    } else {
      var u :| u in computed && u in snap.documents && SameSide(snap, s, u) && u in s.cache && s.cache[u].version in s.texts
               && !(forall k :: Observed(Watching(rules, s, u), k) ==> Observed(Observing(rules, snap, u), k));
      var k :| Observed(Watching(rules, s, u), k) && !Observed(Observing(rules, snap, u), k);
      LostSubscriptionIsHarmful(rules, s, snap, computed, u, k, fact, d);
    }
  }

  /* A publish between the two. */

  /** A pull commits, `e` is published, the pull registers. */
  function AfterGap<Text, Fact, Diag>(
      rules: Rules<Text, Fact, Diag>, s: Server<Text, Fact, Diag>, snap: Server<Text, Fact, Diag>, computed: set<Uri>,
      e: Event<Text, Fact>): Server<Text, Fact, Diag>
    requires e.Publish?
  {
    Register(rules, AfterPublish(Commit(rules, s, snap, computed), e), snap, computed)
  }

  /** The publish evicts the file, or nothing the file looked up is different after it. */
  ghost predicate Spared<Text, Fact, Diag>(
      rules: Rules<Text, Fact, Diag>, s: Server<Text, Fact, Diag>, snap: Server<Text, Fact, Diag>, computed: set<Uri>,
      e: Event<Text, Fact>, u: Uri)
    requires e.Publish? && u in snap.documents
  {
    var p := AfterPublish(Commit(rules, s, snap, computed), e);
    u !in p.cache || InTime(rules, p, snap, true, u)
  }

  /** An entry computed on the snapshot is in order if nothing it rests on has changed and its keys are subscribed. */
  lemma EntryInTime<Text(!new), Fact(!new), Diag(!new)>(
      rules: Rules<Text, Fact, Diag>, t: Server<Text, Fact, Diag>, snap: Server<Text, Fact, Diag>, u: Uri)
    requires Determined(rules) && StillNamed(snap, t) && u in snap.documents && u in t.cache
    requires t.cache[u] == Fresh(rules, snap.world, u, snap.documents[u])
    requires AgreeOn(FactsFor(snap.world, u), FactsFor(t.world, u), Observing(rules, snap, u))
    requires Covered(SubsFor(t, u), u, Observing(rules, snap, u))
    ensures Current(rules, t, u) && Subscribed(rules, t, u)
  {
    assert Watching(rules, t, u) == Observing(rules, snap, u);
  }

  lemma GapKeepsInv<Text(!new), Fact(!new), Diag(!new)>(
      rules: Rules<Text, Fact, Diag>, s: Server<Text, Fact, Diag>, snap: Server<Text, Fact, Diag>, computed: set<Uri>,
      e: Event<Text, Fact>)
    requires Determined(rules) && Inv(rules, s) && StillNamed(snap, s) && computed <= snap.documents.Keys
    requires e.Publish? && Allowed(Commit(rules, s, snap, computed), e)
    requires forall u :: u in computed ==> Spared(rules, s, snap, computed, e, u)
    ensures Inv(rules, AfterGap(rules, s, snap, computed, e))
  {
    var t := AfterGap(rules, s, snap, computed, e);
    assert Allowed(s, e);
    PublishKeepsInv(rules, s, e);
    forall u | u in t.cache
      ensures Current(rules, t, u) && Subscribed(rules, t, u)
    {
      if u in computed {
        SparedThroughGap(rules, s, snap, computed, e, u);
      } else {
        KeptThroughGap(rules, s, snap, computed, e, u);
      }
    }
  }

  lemma {:induction false} SparedThroughGap<Text(!new), Fact(!new), Diag(!new)>(
      rules: Rules<Text, Fact, Diag>, s: Server<Text, Fact, Diag>, snap: Server<Text, Fact, Diag>, computed: set<Uri>,
      e: Event<Text, Fact>, u: Uri)
    requires Determined(rules) && StillNamed(snap, s) && e.Publish? && Allowed(Commit(rules, s, snap, computed), e)
    requires u in computed && u in snap.documents && Spared(rules, s, snap, computed, e, u)
    requires u in AfterGap(rules, s, snap, computed, e).cache
    ensures var t := AfterGap(rules, s, snap, computed, e);
      Current(rules, t, u) && Subscribed(rules, t, u)
  {
    var p, t := AfterPublish(Commit(rules, s, snap, computed), e), AfterGap(rules, s, snap, computed, e);
    Registered(rules, p, snap, computed, u);
    NamedLater(snap, s, e);
    assert t.cache[u] == Fresh(rules, snap.world, u, snap.documents[u]);
    EntryInTime(rules, t, snap, u);
  }

  lemma {:induction false} KeptThroughGap<Text, Fact, Diag>(
      rules: Rules<Text, Fact, Diag>, s: Server<Text, Fact, Diag>, snap: Server<Text, Fact, Diag>, computed: set<Uri>,
      e: Event<Text, Fact>, u: Uri)
    requires e.Publish? && Inv(rules, AfterPublish(s, e)) && u !in computed
    requires u in AfterGap(rules, s, snap, computed, e).cache
    ensures var t := AfterGap(rules, s, snap, computed, e);
      Current(rules, t, u) && Subscribed(rules, t, u)
  {
    var p, t := AfterPublish(Commit(rules, s, snap, computed), e), AfterGap(rules, s, snap, computed, e);
    var q := AfterPublish(s, e);
    assert u in q.cache && t.cache[u] == q.cache[u];
    Registered(rules, p, snap, computed, u);
    assert Current(rules, q, u) && Subscribed(rules, q, u);
  }

  ghost predicate GapHarmless<Text(!new), Fact(!new), Diag(!new)>(
      rules: Rules<Text, Fact, Diag>, s: Server<Text, Fact, Diag>, snap: Server<Text, Fact, Diag>, computed: set<Uri>,
      e: Event<Text, Fact>)
    requires e.Publish?
  {
    forall diagnose: (Uri, Text, map<ObservedKey, Fact>, nat) -> seq<Diag>, later: Event<Text, Fact> ::
      var others := Diagnosing(rules, diagnose);
      var t := AfterGap(others, Under(others, s), snap, computed, e);
      Determined(others) && later.Publish? && Allowed(t, later) ==> Coherent(others, AfterPublish(t, later))
  }

  lemma GapRefuted<Text(!new), Fact(!new), Diag(!new)>(
      rules: Rules<Text, Fact, Diag>, others: Rules<Text, Fact, Diag>, s: Server<Text, Fact, Diag>, snap: Server<Text, Fact, Diag>,
      computed: set<Uri>, e: Event<Text, Fact>, later: Event<Text, Fact>)
    requires e.Publish? && others == Diagnosing(rules, others.diagnose) && Determined(others) && later.Publish?
    requires var t := AfterGap(others, Under(others, s), snap, computed, e);
      Allowed(t, later) && !Coherent(others, AfterPublish(t, later))
    ensures !GapHarmless(rules, s, snap, computed, e)
  {
    var diagnose := others.diagnose;
    var same := Diagnosing(rules, diagnose);
    assert !Coherent(same, AfterPublish(AfterGap(same, Under(same, s), snap, computed, e), later));
  }

  /** Which files are cached after the commit does not depend on the rules, nor does what a publish may then be. */
  lemma CommitUnder<Text(!new), Fact(!new), Diag(!new)>(
      rules: Rules<Text, Fact, Diag>, others: Rules<Text, Fact, Diag>, s: Server<Text, Fact, Diag>, snap: Server<Text, Fact, Diag>,
      computed: set<Uri>, e: Event<Text, Fact>)
    requires Inv(rules, s) && others.observe == rules.observe && e.Publish? && Allowed(Commit(rules, s, snap, computed), e)
    ensures Commit(others, Under(others, s), snap, computed).cache.Keys == Commit(rules, s, snap, computed).cache.Keys
    ensures Allowed(Commit(others, Under(others, s), snap, computed), e)
  {
    InvUnder(rules, others, s);
    SameKeys(others, rules, snap, computed);
  }

  lemma SameKeys<Text, Fact, Diag>(
      a: Rules<Text, Fact, Diag>, b: Rules<Text, Fact, Diag>, snap: Server<Text, Fact, Diag>, computed: set<Uri>)
    ensures FreshEntries(a, snap.world, snap.documents, computed).Keys == FreshEntries(b, snap.world, snap.documents, computed).Keys
  {
  }

  lemma SparedUnder<Text(!new), Fact(!new), Diag(!new)>(
      rules: Rules<Text, Fact, Diag>, others: Rules<Text, Fact, Diag>, s: Server<Text, Fact, Diag>, snap: Server<Text, Fact, Diag>,
      computed: set<Uri>, e: Event<Text, Fact>, u: Uri)
    requires Inv(rules, s) && others.observe == rules.observe && u in snap.documents
    requires e.Publish? && Allowed(Commit(rules, s, snap, computed), e)
    ensures Spared(others, Under(others, s), snap, computed, e, u) <==> Spared(rules, s, snap, computed, e, u)
  {
    CommitUnder(rules, others, s, snap, computed, e);
    SameInTime(rules, others, AfterPublish(Commit(rules, s, snap, computed), e),
               AfterPublish(Commit(others, Under(others, s), snap, computed), e), snap, u);
  }

  lemma SameInTime<Text, Fact, Diag>(
      a: Rules<Text, Fact, Diag>, b: Rules<Text, Fact, Diag>, s: Server<Text, Fact, Diag>, t: Server<Text, Fact, Diag>,
      snap: Server<Text, Fact, Diag>, u: Uri)
    requires a.observe == b.observe && u in snap.documents
    requires s.world == t.world && s.workspaceSubs == t.workspaceSubs && s.looseSubs == t.looseSubs
    ensures InTime(a, s, snap, true, u) <==> InTime(b, t, snap, true, u)
  {
    assert Observing(a, snap, u) == Observing(b, snap, u) && SubsFor(s, u) == SubsFor(t, u);
  }

  /** Under other rules too, a file that is not spared is cached in the end with what it was computed to be. */
  lemma GapUnder<Text(!new), Fact(!new), Diag(!new)>(
      rules: Rules<Text, Fact, Diag>, others: Rules<Text, Fact, Diag>, s: Server<Text, Fact, Diag>, snap: Server<Text, Fact, Diag>,
      computed: set<Uri>, e: Event<Text, Fact>, u: Uri)
    requires Inv(rules, s) && StillNamed(snap, s) && computed <= snap.documents.Keys && others.observe == rules.observe
    requires e.Publish? && Allowed(Commit(rules, s, snap, computed), e) && u in computed
    requires u in AfterPublish(Commit(rules, s, snap, computed), e).cache
    ensures var t := AfterGap(others, Under(others, s), snap, computed, e);
      && VersionsName(t.documents, t.texts) && t.world == e.world && StillNamed(snap, t)
      && u in t.cache && t.cache[u] == Fresh(others, snap.world, u, snap.documents[u])
  {
    CommitUnder(rules, others, s, snap, computed, e);
    var c := Commit(others, Under(others, s), snap, computed);
    assert c.cache[u] == Fresh(others, snap.world, u, snap.documents[u]);
    NamedLater(snap, s, e);
  }

  lemma NamedLater<Text, Fact, Diag>(snap: Server<Text, Fact, Diag>, s: Server<Text, Fact, Diag>, e: Event<Text, Fact>)
    requires StillNamed(snap, s) && e.Publish? && forall v :: v in s.texts ==> v in e.texts && e.texts[v] == s.texts[v]
    ensures VersionsName(snap.documents, e.texts)
  {
  }

  lemma {:induction false} UnsparedIsHarmful<Text(!new), Fact(!new), Diag(!new)>(
      rules: Rules<Text, Fact, Diag>, s: Server<Text, Fact, Diag>, snap: Server<Text, Fact, Diag>, computed: set<Uri>,
      e: Event<Text, Fact>, u: Uri, fact: Fact, d: Diag)
    requires Determined(rules) && Inv(rules, s) && StillNamed(snap, s) && computed <= snap.documents.Keys
    requires e.Publish? && Allowed(Commit(rules, s, snap, computed), e) && u in computed && !Spared(rules, s, snap, computed, e, u)
    ensures !GapHarmless(rules, s, snap, computed, e)
  {
    var o := Observing(rules, snap, u);
    if k :| Observed(o, k) && !SameFact(FactsFor(snap.world, u), FactsFor(e.world, u), k) {
      LateInGap(rules, s, snap, computed, e, u, k, d);
    } else {
      var p := AfterPublish(Commit(rules, s, snap, computed), e);
      var k :| Observed(o, k) && !(u in SubsFor(p, u) && Observed(SubsFor(p, u)[u], k));
      UncoveredInGap(rules, s, snap, computed, e, u, k, fact, d);
    }
  }

  /** An entry that rests on a fact that has changed since it was computed is stale as soon as it hits. */
  lemma LateEntryGoesStale<Text(!new), Fact(!new), Diag(!new)>(
      rules: Rules<Text, Fact, Diag>, t: Server<Text, Fact, Diag>, snap: Server<Text, Fact, Diag>, u: Uri, k: ObservedKey, d: Diag)
    requires VersionsName(t.documents, t.texts) && StillNamed(snap, t) && u in snap.documents && u in t.cache
    requires var others := ComplainWhile(rules, k, Found(FactsFor(snap.world, u), k), d);
      t.cache[u] == Fresh(others, snap.world, u, snap.documents[u])
    requires Observed(Observing(rules, snap, u), k) && !SameFact(FactsFor(snap.world, u), FactsFor(t.world, u), k)
    ensures var e := Bringing(t, u, {}, FactsFor(t.world, u));
      Allowed(t, e) && !Coherent(ComplainWhile(rules, k, Found(FactsFor(snap.world, u), k), d), AfterPublish(t, e))
  {
    var others := ComplainWhile(rules, k, Found(FactsFor(snap.world, u), k), d);
    assert t.cache[u].diagnostics == [d];
    assert Found(FactsFor(t.world, u), k) != Found(FactsFor(snap.world, u), k);
    assert others.diagnose(u, snap.documents[u].text, FactsFor(t.world, u), snap.world.fingerprint) == [];
    BroughtBack(others, t, u, {}, FactsFor(t.world, u));
  }

  lemma LateInGap<Text(!new), Fact(!new), Diag(!new)>(
      rules: Rules<Text, Fact, Diag>, s: Server<Text, Fact, Diag>, snap: Server<Text, Fact, Diag>, computed: set<Uri>,
      e: Event<Text, Fact>, u: Uri, k: ObservedKey, d: Diag)
    requires Determined(rules) && Inv(rules, s) && StillNamed(snap, s) && computed <= snap.documents.Keys
    requires e.Publish? && Allowed(Commit(rules, s, snap, computed), e) && u in computed && !Spared(rules, s, snap, computed, e, u)
    requires Observed(Observing(rules, snap, u), k) && !SameFact(FactsFor(snap.world, u), FactsFor(e.world, u), k)
    ensures !GapHarmless(rules, s, snap, computed, e)
  {
    var others := ComplainWhile(rules, k, Found(FactsFor(snap.world, u), k), d);
    ComplainWhileIsDetermined(rules, k, Found(FactsFor(snap.world, u), k), d);
    GapUnder(rules, others, s, snap, computed, e, u);
    var t := AfterGap(others, Under(others, s), snap, computed, e);
    LateEntryGoesStale(rules, t, snap, u, k, d);
    GapRefuted(rules, others, s, snap, computed, e, Bringing(t, u, {}, FactsFor(t.world, u)));
  }

  lemma UncoveredInGap<Text(!new), Fact(!new), Diag(!new)>(
      rules: Rules<Text, Fact, Diag>, s: Server<Text, Fact, Diag>, snap: Server<Text, Fact, Diag>, computed: set<Uri>,
      e: Event<Text, Fact>, u: Uri, k: ObservedKey, fact: Fact, d: Diag)
    requires Determined(rules) && Inv(rules, s) && StillNamed(snap, s) && computed <= snap.documents.Keys
    requires e.Publish? && Allowed(Commit(rules, s, snap, computed), e) && u in computed && !Spared(rules, s, snap, computed, e, u)
    requires AgreeOn(FactsFor(snap.world, u), FactsFor(e.world, u), Observing(rules, snap, u))
    requires Observed(Observing(rules, snap, u), k)
    requires var p := AfterPublish(Commit(rules, s, snap, computed), e); u in SubsFor(p, u) ==> !Observed(SubsFor(p, u)[u], k)
    ensures !GapHarmless(rules, s, snap, computed, e)
  {
    var others := ComplainAbout(rules, k, d);
    ComplaintIsDetermined(rules, k, d);
    GapUnder(rules, others, s, snap, computed, e, u);
    var t := AfterGap(others, Under(others, s), snap, computed, e);
    Registered(others, AfterPublish(Commit(others, Under(others, s), snap, computed), e), snap, computed, u);
    assert Watching(rules, t, u) == Observing(rules, snap, u);
    UncoveredEntryGoesStale(rules, t, u, k, fact, d);
    GapRefuted(rules, others, s, snap, computed, e, Bringing(t, u, {k}, Flipped(FactsFor(t.world, u), k, fact)));
  }

  lemma SparedIsHarmless<Text(!new), Fact(!new), Diag(!new)>(
      rules: Rules<Text, Fact, Diag>, others: Rules<Text, Fact, Diag>, s: Server<Text, Fact, Diag>, snap: Server<Text, Fact, Diag>,
      computed: set<Uri>, e: Event<Text, Fact>, later: Event<Text, Fact>)
    requires Inv(rules, s) && StillNamed(snap, s) && computed <= snap.documents.Keys && others.observe == rules.observe
    requires e.Publish? && Allowed(Commit(rules, s, snap, computed), e) && Determined(others)
    requires forall u :: u in computed ==> Spared(rules, s, snap, computed, e, u)
    requires later.Publish? && Allowed(AfterGap(others, Under(others, s), snap, computed, e), later)
    ensures Coherent(others, AfterPublish(AfterGap(others, Under(others, s), snap, computed, e), later))
  {
    InvUnder(rules, others, s);
    CommitUnder(rules, others, s, snap, computed, e);
    forall u | u in computed
      ensures Spared(others, Under(others, s), snap, computed, e, u)
    {
      SparedUnder(rules, others, s, snap, computed, e, u);
    }
    GapKeepsInv(others, Under(others, s), snap, computed, e);
    var t := AfterGap(others, Under(others, s), snap, computed, e);
    PublishKeepsInv(others, t, later);
    InvIsCoherent(others, AfterPublish(t, later));
  }

  /** A publish between a pull's commit and its registration does no harm exactly if it evicts each file the pull computed
      or leaves everything the file looked up as it was in the snapshot. */
  lemma GapHarmlessIff<Text(!new), Fact(!new), Diag(!new)>(
      rules: Rules<Text, Fact, Diag>, s: Server<Text, Fact, Diag>, snap: Server<Text, Fact, Diag>, computed: set<Uri>,
      e: Event<Text, Fact>, fact: Fact, d: Diag)
    requires Determined(rules) && Inv(rules, s) && StillNamed(snap, s) && computed <= snap.documents.Keys
    requires e.Publish? && Allowed(Commit(rules, s, snap, computed), e)
    ensures GapHarmless(rules, s, snap, computed, e) <==> forall u :: u in computed ==> Spared(rules, s, snap, computed, e, u)
  {
    if u :| u in computed && !Spared(rules, s, snap, computed, e, u) {
      UnsparedIsHarmful(rules, s, snap, computed, e, u, fact, d);
    } else {
      forall diagnose: (Uri, Text, map<ObservedKey, Fact>, nat) -> seq<Diag>, later: Event<Text, Fact>
        | Determined(Diagnosing(rules, diagnose)) && later.Publish?
          && Allowed(AfterGap(Diagnosing(rules, diagnose), Under(Diagnosing(rules, diagnose), s), snap, computed, e), later)
        ensures var others := Diagnosing(rules, diagnose);
          Coherent(others, AfterPublish(AfterGap(others, Under(others, s), snap, computed, e), later))
      {
        SparedIsHarmless(rules, Diagnosing(rules, diagnose), s, snap, computed, e, later);
      }
    }
  }

  /* Whole runs. */

  /** What can happen: a publish or an eviction; a pull commits that took its snapshot in state `from`; it registers. */
  datatype Happening<Text, Fact> =
    | Other(event: Event<Text, Fact>)
    | Commits(from: nat, computed: set<Uri>)
    | Registers(from: nat, computed: set<Uri>)

  /** Nothing that a file of the pull looked up has changed between its snapshot and its commit; and a publish evicts each
      cached file that rests on something the publish changes, for which it is enough that the file is subscribed. */
  ghost predicate Happens<Text, Fact, Diag>(
      rules: Rules<Text, Fact, Diag>, s: seq<Server<Text, Fact, Diag>>, i: nat, h: Happening<Text, Fact>)
    requires i + 1 < |s|
  {
    match h
    case Other(e) =>
      && !e.Pull? && Allowed(s[i], e) && s[i + 1] == After(rules, s[i], e)
      && (e.Publish? ==> forall u :: u in s[i].cache && u in s[i + 1].cache ==> Subscribed(rules, s[i], u) || Undisturbed(rules, s[i], e, u))
    case Commits(from, computed) =>
      && from <= i && computed <= s[from].documents.Keys && s[i + 1] == Commit(rules, s[i], s[from], computed)
      && forall u :: u in computed ==>
           AgreeOn(FactsFor(s[from].world, u), FactsFor(s[i].world, u), Observing(rules, s[from], u))
    case Registers(from, computed) => from <= i && s[i + 1] == Register(rules, s[i], s[from], computed)
  }

  ghost predicate Undisturbed<Text, Fact, Diag>(rules: Rules<Text, Fact, Diag>, s: Server<Text, Fact, Diag>, e: Event<Text, Fact>, u: Uri)
    requires e.Publish? && u in s.cache
  {
    s.cache[u].version in s.texts && AgreeOn(FactsFor(s.world, u), FactsFor(e.world, u), Watching(rules, s, u))
  }

  ghost predicate Course<Text, Fact, Diag>(
      rules: Rules<Text, Fact, Diag>, w: World<Fact>, happenings: seq<Happening<Text, Fact>>, s: seq<Server<Text, Fact, Diag>>) {
    && |s| == |happenings| + 1 && s[0] == Empty(w)
    && forall i :: 0 <= i < |happenings| ==> Happens(rules, s, i, happenings[i])
  }

  ghost predicate AllCurrent<Text, Fact, Diag>(rules: Rules<Text, Fact, Diag>, s: Server<Text, Fact, Diag>) {
    VersionsName(s.documents, s.texts) && forall u :: u in s.cache ==> Current(rules, s, u)
  }

  /** Parse versions keep their texts. */
  lemma {:induction false} TextsStay<Text, Fact, Diag>(
      rules: Rules<Text, Fact, Diag>, w: World<Fact>, happenings: seq<Happening<Text, Fact>>, s: seq<Server<Text, Fact, Diag>>, m: nat,
      n: nat)
    requires Course(rules, w, happenings, s) && m <= n <= |happenings|
    ensures forall v :: v in s[m].texts ==> v in s[n].texts && s[n].texts[v] == s[m].texts[v]
    decreases n
  {
    if m < n {
      TextsStay(rules, w, happenings, s, m, n - 1);
      assert Happens(rules, s, n - 1, happenings[n - 1]);
    }
  }

  lemma PublishKeepsCurrent<Text(!new), Fact(!new), Diag(!new)>(
      rules: Rules<Text, Fact, Diag>, s: Server<Text, Fact, Diag>, e: Event<Text, Fact>)
    requires Determined(rules) && AllCurrent(rules, s) && e.Publish? && Allowed(s, e)
    requires forall u :: u in s.cache && u in AfterPublish(s, e).cache ==> Subscribed(rules, s, u) || Undisturbed(rules, s, e, u)
    ensures AllCurrent(rules, AfterPublish(s, e))
  {
    var t := AfterPublish(s, e);
    forall u | u in t.cache
      ensures Current(rules, t, u)
    {
      assert Current(rules, s, u);
      if Subscribed(rules, s, u) {
        var changed := if u in s.world.looseUris then e.looseChanged else e.workspaceChanged;
        UntouchedKeys(SubsFor(s, u), changed, u);
      }
      assert AgreeOn(FactsFor(s.world, u), FactsFor(e.world, u), Watching(rules, s, u));
    }
  }

  lemma CommitKeepsCurrent<Text(!new), Fact(!new), Diag(!new)>(
      rules: Rules<Text, Fact, Diag>, s: Server<Text, Fact, Diag>, snap: Server<Text, Fact, Diag>, computed: set<Uri>)
    requires Determined(rules) && AllCurrent(rules, s) && StillNamed(snap, s) && computed <= snap.documents.Keys
    requires forall u :: u in computed ==> AgreeOn(FactsFor(snap.world, u), FactsFor(s.world, u), Observing(rules, snap, u))
    ensures AllCurrent(rules, Commit(rules, s, snap, computed))
  {
    var t := Commit(rules, s, snap, computed);
    forall u | u in t.cache
      ensures Current(rules, t, u)
    {
      if u in computed {
        assert t.cache[u] == Fresh(rules, snap.world, u, snap.documents[u]);
        assert AgreeOn(FactsFor(snap.world, u), FactsFor(s.world, u), Observing(rules, snap, u));
      } else {
        assert Current(rules, s, u);
      }
    }
  }

  lemma CurrentIsCoherent<Text, Fact, Diag>(rules: Rules<Text, Fact, Diag>, s: Server<Text, Fact, Diag>)
    requires AllCurrent(rules, s)
    ensures Coherent(rules, s)
  {
    forall u | u in s.documents && Hit(s.cache, u, s.documents[u].version, s.world.fingerprint)
      ensures s.cache[u] == Fresh(rules, s.world, u, s.documents[u])
    {
      assert Current(rules, s, u);
    }
  }

  /** Over every such run, whatever pulls, publishes and evictions come between a pull's snapshot, its commit and its
      registration, the cache answers with what recomputation would give. */
  lemma {:induction false} OverlappingPullsAreCoherent<Text(!new), Fact(!new), Diag(!new)>(
      rules: Rules<Text, Fact, Diag>, w: World<Fact>, happenings: seq<Happening<Text, Fact>>, s: seq<Server<Text, Fact, Diag>>, n: nat)
    requires Determined(rules) && Course(rules, w, happenings, s) && n <= |happenings|
    ensures AllCurrent(rules, s[n]) && Coherent(rules, s[n])
  {
    if n > 0 {
      OverlappingPullsAreCoherent(rules, w, happenings, s, n - 1);
      assert Happens(rules, s, n - 1, happenings[n - 1]);
      match happenings[n - 1] {
        case Other(e) =>
          if e.Publish? {
            PublishKeepsCurrent(rules, s[n - 1], e);
          } else {
            assert forall u :: u in s[n].cache ==> Current(rules, s[n - 1], u);
          }
        case Commits(from, computed) =>
          OverlappingPullsAreCoherent(rules, w, happenings, s, from);
          TextsStay(rules, w, happenings, s, from, n - 1);
          CommitKeepsCurrent(rules, s[n - 1], s[from], computed);
        case Registers(from, computed) => assert forall u :: u in s[n].cache ==> Current(rules, s[n - 1], u);
      }
    }
    CurrentIsCoherent(rules, s[n]);
  }

  /* Two races. */

  /** The class C appears in the workspace. */
  function ClassAppears(s: Server<int, int, int>): Event<int, int> {
    Publish(s.documents, s.texts, World(map[TopLevel("C") := 0], map[], {}, 0), {TopLevel("C")}, {}, {})
  }

  lemma AppearingIsAllowed(s: Server<int, int, int>)
    requires s.world == World(map[], map[], {}, 0) && VersionsName(s.documents, s.texts)
    ensures Allowed(s, ClassAppears(s))
  {
  }

  /** A pull takes its snapshot, the class C appears, the pull lands: the file says nothing about C. */
  lemma OvertakenPullGoesStale()
    ensures var rules, snap := ComplainAboutC(), TwoFiles();
      var s := AfterPublish(snap, ClassAppears(snap));
      && Determined(rules) && Inv(rules, snap) && Allowed(snap, ClassAppears(snap))
      && Inv(rules, s) && !Coherent(rules, Land(rules, s, snap, {"a"}, true))
  {
    ComplaintAboutCIsDetermined();
    var snap := TwoFiles();
    AppearingIsAllowed(snap);
    PublishKeepsInv(ComplainAboutC(), snap, ClassAppears(snap));
    LandsBehind(AfterPublish(snap, ClassAppears(snap)));
  }

  lemma LandsBehind(s: Server<int, int, int>)
    requires s.documents == TwoFiles().documents && s.world == World(map[TopLevel("C") := 0], map[], {}, 0)
    ensures !Coherent(ComplainAboutC(), Land(ComplainAboutC(), s, TwoFiles(), {"a"}, true))
  {
    var t := Land(ComplainAboutC(), s, TwoFiles(), {"a"}, true);
    assert t.cache["a"] == Entry(0, 0, []);
    assert Fresh(ComplainAboutC(), t.world, "a", t.documents["a"]) == Entry(0, 0, [0]);
  }

  /** The first text of a file looks nothing up, the second the class C. */
  function LookUpCLater(): Rules<int, int, int> {
    Rules((u: Uri, text: int, facts: map<ObservedKey, int>, fp: nat) => if text == 1 && TopLevel("C") in facts then [0] else [],
          (u: Uri, text: int, facts: map<ObservedKey, int>, fp: nat) => Observations(if text == 1 then {"C"} else {}, {}, {}))
  }

  function OneFile(version: nat, text: int, cache: map<Uri, Entry<int>>, subs: map<Uri, Observations>): Server<int, int, int> {
    Server(map["a" := Document(version, text)], map[0 := 0, 1 := 1], World(map[], map[], {}, 0), cache, subs, map[])
  }

  /** The second text cached, and the file subscribed to these names. */
  function SecondText(names: set<string>): Server<int, int, int> {
    OneFile(1, 1, map["a" := Entry(1, 0, [])], map["a" := Observations(names, {}, {})])
  }

  lemma LateRegistrationForgets()
    ensures Register(LookUpCLater(), SecondText({"C"}), OneFile(0, 0, map[], map[]), {"a"}) == SecondText({})
    ensures !StillCovers(LookUpCLater(), SecondText({"C"}), OneFile(0, 0, map[], map[]), {"a"})
  {
    var rules, snap, s := LookUpCLater(), OneFile(0, 0, map[], map[]), SecondText({"C"});
    assert Observed(Watching(rules, s, "a"), TopLevel("C")) && !Observed(Observing(rules, snap, "a"), TopLevel("C"));
    Registered(rules, s, snap, {"a"}, "a");
    var t := Register(rules, s, snap, {"a"});
    assert t.workspaceSubs == map["a" := Observations({}, {}, {})];
    assert t.looseSubs == map[];
  }

  lemma {:induction false} SecondTextIsInOrder()
    ensures Inv(LookUpCLater(), SecondText({"C"}))
  {
    var s := SecondText({"C"});
    OnlyC(s.workspaceSubs["a"]);
    assert Current(LookUpCLater(), s, "a");
    assert Subscribed(LookUpCLater(), s, "a");
  }

  lemma {:induction false} OnlyC(o: Observations)
    requires o == Observations({"C"}, {}, {})
    ensures forall k :: Observed(o, k) <==> k == TopLevel("C")
  {
  }

  lemma ForgottenGoesStale()
    ensures !Coherent(LookUpCLater(), AfterPublish(SecondText({}), ClassAppears(SecondText({}))))
  {
    var s := SecondText({});
    assert "a" !in SubscribersOf(s.workspaceSubs, {TopLevel("C")});
    var after := AfterPublish(s, ClassAppears(s));
    assert after.cache["a"] == Entry(1, 0, []);
    assert Fresh(LookUpCLater(), after.world, "a", after.documents["a"]) == Entry(1, 0, [0]);
  }

  /** A pull on the first text registers after one on the second: the file loses its subscription to C, and when C appears
      it keeps its diagnostics. */
  lemma LateRegistrationGoesStale()
    ensures var rules, snap, s := LookUpCLater(), OneFile(0, 0, map[], map[]), SecondText({"C"});
      var t := Register(rules, s, snap, {"a"});
      && Inv(rules, s) && !StillCovers(rules, s, snap, {"a"})
      && Allowed(t, ClassAppears(t)) && !Coherent(rules, AfterPublish(t, ClassAppears(t)))
  {
    SecondTextIsInOrder();
    LateRegistrationForgets();
    AppearingIsAllowed(SecondText({}));
    ForgottenGoesStale();
  }
}
