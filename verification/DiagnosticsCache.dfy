/** The per-file diagnostics cache (cst_cache.rs, diagnostics_publish.rs, indexing/open_documents.rs in
    src/bin/witcherscript-lsp): pulls fill it, and publishes evict the subscribers of what they changed. */
module DiagnosticsCache {
  import opened Subscriptions
  import opened Wrappers

  datatype Document<Text> = Document(version: nat, text: Text)

  datatype Entry<Diag> = Entry(version: nat, fingerprint: nat, diagnostics: seq<Diag>)

  /** What the indexes say under each key, for workspace files and for loose ones.  The fingerprint stands for everything
      else a rule can see: base scripts, environment, legacy configuration. */
  datatype World<Fact> =
    World(workspace: map<ObservedKey, Fact>, loose: map<ObservedKey, Fact>, looseUris: set<Uri>, fingerprint: nat)

  function FactsFor<Fact>(w: World<Fact>, u: Uri): map<ObservedKey, Fact> {
    if u in w.looseUris then w.loose else w.workspace
  }

  /** The diagnostic rules, and the keys they look up while diagnosing a file. */
  datatype Rules<!Text, !Fact, Diag> = Rules(
    diagnose: (Uri, Text, map<ObservedKey, Fact>, nat) -> seq<Diag>,
    observe: (Uri, Text, map<ObservedKey, Fact>, nat) -> Observations)

  predicate SameFact<Fact(==)>(a: map<ObservedKey, Fact>, b: map<ObservedKey, Fact>, k: ObservedKey) {
    (k in a <==> k in b) && (k in a ==> a[k] == b[k])
  }

  ghost predicate AgreeOn<Fact>(a: map<ObservedKey, Fact>, b: map<ObservedKey, Fact>, o: Observations) {
    forall k :: Observed(o, k) ==> SameFact(a, b, k)
  }

  /** The rules see no more of the indexes than the keys they observe. */
  ghost predicate Determined<Text(!new), Fact(!new), Diag(!new)>(rules: Rules<Text, Fact, Diag>) {
    forall u, text, a, b, fp :: AgreeOn(a, b, rules.observe(u, text, a, fp)) ==>
      rules.diagnose(u, text, a, fp) == rules.diagnose(u, text, b, fp)
      && rules.observe(u, text, a, fp) == rules.observe(u, text, b, fp)
  }

  /* One pull. */

  predicate Hit<Diag>(entries: map<Uri, Entry<Diag>>, u: Uri, version: nat, fingerprint: nat) {
    u in entries && entries[u].version == version && entries[u].fingerprint == fingerprint
  }

  function Misses<Text, Diag>(entries: map<Uri, Entry<Diag>>, docs: map<Uri, Document<Text>>, fingerprint: nat): set<Uri> {
    set u | u in docs && !Hit(entries, u, docs[u].version, fingerprint)
  }

  /** The misses that are computed, `goesOn` being the files before which the pull was still current. */
  function Computed<Text, Diag>(entries: map<Uri, Entry<Diag>>, docs: map<Uri, Document<Text>>, fingerprint: nat, mayStart: bool,
                          goesOn: set<Uri>): set<Uri> {
    if mayStart then Misses(entries, docs, fingerprint) * goesOn else {}
  }

  predicate Cancelled<Text, Diag>(entries: map<Uri, Entry<Diag>>, docs: map<Uri, Document<Text>>, fingerprint: nat, mayStart: bool,
                            goesOn: set<Uri>) {
    !mayStart || !(Misses(entries, docs, fingerprint) <= goesOn)
  }

  function Fresh<Text, Fact, Diag>(rules: Rules<Text, Fact, Diag>, w: World<Fact>, u: Uri, doc: Document<Text>): Entry<Diag> {
    Entry(doc.version, w.fingerprint, rules.diagnose(u, doc.text, FactsFor(w, u), w.fingerprint))
  }

  function FreshEntries<Text, Fact, Diag>(rules: Rules<Text, Fact, Diag>, w: World<Fact>, docs: map<Uri, Document<Text>>, uris: set<Uri>)
      : (m: map<Uri, Entry<Diag>>)
    ensures uris <= docs.Keys ==> m.Keys == uris
  {
    map u | u in uris && u in docs :: Fresh(rules, w, u, docs[u])
  }

  function FreshObservations<Text, Fact, Diag>(rules: Rules<Text, Fact, Diag>, w: World<Fact>, docs: map<Uri, Document<Text>>, uris: set<Uri>)
      : map<Uri, Observations> {
    map u | u in uris && u in docs :: rules.observe(u, docs[u].text, FactsFor(w, u), w.fingerprint)
  }

  datatype PullResult<Diag> = PullResult(
    byUri: map<Uri, seq<Diag>>, hits: nat, misses: nat, newSubscriptions: map<Uri, Observations>, cancelled: bool)

  class CstCache<Text, Fact, Diag> {
    var entries: map<Uri, Entry<Diag>>

    constructor ()
      ensures entries == map[]
    {
      entries := map[];
    }

    /** `cst_diagnostics_with_cache`: hits come from the cache, misses are computed and committed. */
    method Diagnostics(rules: Rules<Text, Fact, Diag>, docs: map<Uri, Document<Text>>, w: World<Fact>, mayStart: bool, goesOn: set<Uri>)
        returns (r: PullResult<Diag>)
      modifies this
      ensures var computed := Computed(old(entries), docs, w.fingerprint, mayStart, goesOn);
        entries == old(entries) + FreshEntries(rules, w, docs, computed)
        && r.newSubscriptions == FreshObservations(rules, w, docs, computed)
      ensures r.cancelled <==> Cancelled(old(entries), docs, w.fingerprint, mayStart, goesOn)
      ensures r.hits + r.misses == |docs| && r.misses == |Misses(old(entries), docs, w.fingerprint)|
      ensures var added := FreshEntries(rules, w, docs, Computed(old(entries), docs, w.fingerprint, mayStart, goesOn));
        r.byUri == Reported(old(entries), Hits(old(entries), docs, w.fingerprint)) + Reported(added, added.Keys)
      ensures !r.cancelled ==> docs.Keys <= entries.Keys && r.byUri == Reported(entries, docs.Keys)
      ensures !r.cancelled ==> forall u :: u in docs ==>
        (u in r.byUri <==> entries[u].diagnostics != []) && (u in r.byUri ==> r.byUri[u] == entries[u].diagnostics)
    {
      var out, hits, misses := FindHits(entries, docs, w.fingerprint);
      var computed := if mayStart then misses * goesOn else {};
      var added := FreshEntries(rules, w, docs, computed);
      if mayStart && misses <= goesOn {
        assert computed == misses;
        AllReported(entries, docs, w.fingerprint, added);
      }
      entries := entries + added;
      out := out + Reported(added, added.Keys);
      r := PullResult(out, hits, |misses|, FreshObservations(rules, w, docs, computed), !mayStart || !(misses <= goesOn));
    }
  }

  /** The diagnostics of the entries that have some. */
  function Reported<Diag>(entries: map<Uri, Entry<Diag>>, uris: set<Uri>): map<Uri, seq<Diag>> {
    map u | u in uris && u in entries && entries[u].diagnostics != [] :: entries[u].diagnostics
  }

  function Hits<Text, Diag>(entries: map<Uri, Entry<Diag>>, docs: map<Uri, Document<Text>>, fingerprint: nat): set<Uri> {
    set u | u in docs && Hit(entries, u, docs[u].version, fingerprint)
  }

  /** The first loop, under the cache's lock: hits are reported at once, misses are put aside. */
  method FindHits<Text, Diag>(entries: map<Uri, Entry<Diag>>, docs: map<Uri, Document<Text>>, fingerprint: nat)
      returns (out: map<Uri, seq<Diag>>, hits: nat, misses: set<Uri>)
    ensures misses == Misses(entries, docs, fingerprint) && hits + |misses| == |docs|
    ensures out == Reported(entries, Hits(entries, docs, fingerprint))
  {
    out, hits, misses := map[], 0, {};
    var rest := docs.Keys;
    ghost var found: set<Uri> := {};
    while rest != {}
      invariant forall u :: u in docs.Keys <==> u in rest || u in found || u in misses
      invariant forall u :: u in rest ==> u !in found && u !in misses
      invariant forall u :: u in found ==> Hit(entries, u, docs[u].version, fingerprint)
      invariant forall u :: u in misses ==> !Hit(entries, u, docs[u].version, fingerprint)
      invariant hits + |misses| + |rest| == |docs.Keys|
      invariant out == Reported(entries, found)
      decreases rest
    {
      var u :| u in rest;
      if Hit(entries, u, docs[u].version, fingerprint) {
        hits := hits + 1;
        out := ReportOne(out, entries[u], u);
        OneMoreReported(entries, found, u);
        found := found + {u};
      } else {
        misses := misses + {u};
      }
      rest := rest - {u};
    }
    HitsAndMisses(entries, docs, fingerprint, found, misses);
  }

  function ReportOne<Diag>(out: map<Uri, seq<Diag>>, entry: Entry<Diag>, u: Uri): map<Uri, seq<Diag>> {
    if entry.diagnostics != [] then out[u := entry.diagnostics] else out
  }

  lemma HitsAndMisses<Text, Diag>(entries: map<Uri, Entry<Diag>>, docs: map<Uri, Document<Text>>, fingerprint: nat, found: set<Uri>,
                            misses: set<Uri>)
    requires forall u :: u in docs.Keys <==> u in found || u in misses
    requires forall u :: u in found ==> Hit(entries, u, docs[u].version, fingerprint)
    requires forall u :: u in misses ==> !Hit(entries, u, docs[u].version, fingerprint)
    ensures misses == Misses(entries, docs, fingerprint) && found == Hits(entries, docs, fingerprint)
  {
  }

  lemma OneMoreReported<Diag>(entries: map<Uri, Entry<Diag>>, found: set<Uri>, u: Uri)
    requires u in entries
    ensures Reported(entries, found + {u}) == ReportOne(Reported(entries, found), entries[u], u)
  {
  }

  /** The cached entries that hit and the ones just added are all there is to report. */
  lemma AllReported<Text, Diag>(entries: map<Uri, Entry<Diag>>, docs: map<Uri, Document<Text>>, fingerprint: nat,
                          added: map<Uri, Entry<Diag>>)
    requires added.Keys == Misses(entries, docs, fingerprint)
    ensures docs.Keys <= (entries + added).Keys
    ensures Reported(entries, Hits(entries, docs, fingerprint)) + Reported(added, added.Keys)
         == Reported(entries + added, docs.Keys)
  {
  }

  /* The server around it. */

  /** `texts` says what text each parse version was drawn for. */
  datatype Server<Text, Fact, Diag> = Server(
    documents: map<Uri, Document<Text>>, texts: map<nat, Text>, world: World<Fact>, cache: map<Uri, Entry<Diag>>,
    workspaceSubs: map<Uri, Observations>, looseSubs: map<Uri, Observations>)

  datatype Event<Text, Fact> =
    | Pull(uris: set<Uri>, mayStart: bool, goesOn: set<Uri>)
    | Publish(documents: map<Uri, Document<Text>>, texts: map<nat, Text>, world: World<Fact>,
              workspaceChanged: set<ObservedKey>, looseChanged: set<ObservedKey>, also: set<Uri>)
    | Retain(uris: set<Uri>)

  function Pulled<Text, Fact, Diag>(s: Server<Text, Fact, Diag>, uris: set<Uri>): map<Uri, Document<Text>> {
    map u | u in s.documents && u in uris :: s.documents[u]
  }

  function SubsFor<Text, Fact, Diag>(s: Server<Text, Fact, Diag>, u: Uri): map<Uri, Observations> {
    if u in s.world.looseUris then s.looseSubs else s.workspaceSubs
  }

  function Observing<Text, Fact, Diag>(rules: Rules<Text, Fact, Diag>, s: Server<Text, Fact, Diag>, u: Uri): Observations
    requires u in s.documents
  {
    rules.observe(u, s.documents[u].text, FactsFor(s.world, u), s.world.fingerprint)
  }

  function ComputedBy<Text, Fact, Diag>(s: Server<Text, Fact, Diag>, uris: set<Uri>, mayStart: bool, goesOn: set<Uri>): set<Uri> {
    Computed(s.cache, Pulled(s, uris), s.world.fingerprint, mayStart, goesOn)
  }

  predicate CancelledIn<Text, Fact, Diag>(s: Server<Text, Fact, Diag>, uris: set<Uri>, mayStart: bool, goesOn: set<Uri>) {
    Cancelled(s.cache, Pulled(s, uris), s.world.fingerprint, mayStart, goesOn)
  }

  /** A pull commits what it computed; only one that was not cancelled gets to register its subscriptions. */
  function AfterPull<Text, Fact, Diag>(rules: Rules<Text, Fact, Diag>, s: Server<Text, Fact, Diag>, uris: set<Uri>, mayStart: bool, goesOn: set<Uri>)
      : Server<Text, Fact, Diag> {
    var computed := ComputedBy(s, uris, mayStart, goesOn);
    var committed := s.(cache := s.cache + FreshEntries(rules, s.world, Pulled(s, uris), computed));
    if CancelledIn(s, uris, mayStart, goesOn) then committed
    else committed.(
      looseSubs := s.looseSubs + FreshObservations(rules, s.world, Pulled(s, uris), computed * s.world.looseUris),
      workspaceSubs := s.workspaceSubs + FreshObservations(rules, s.world, Pulled(s, uris), computed - s.world.looseUris))
  }

  function AfterPublish<Text, Fact, Diag>(s: Server<Text, Fact, Diag>, e: Event<Text, Fact>): Server<Text, Fact, Diag>
    requires e.Publish?
  {
    var evicted := SubscribersOf(s.workspaceSubs, e.workspaceChanged) + SubscribersOf(s.looseSubs, e.looseChanged) + e.also;
    s.(documents := e.documents, texts := e.texts, world := e.world, cache := s.cache - evicted)
  }

  function After<Text, Fact, Diag>(rules: Rules<Text, Fact, Diag>, s: Server<Text, Fact, Diag>, e: Event<Text, Fact>): Server<Text, Fact, Diag> {
    match e
    case Pull(uris, mayStart, goesOn) => AfterPull(rules, s, uris, mayStart, goesOn)
    case Publish(_, _, _, _, _, _) => AfterPublish(s, e)
    case Retain(uris) => s.(cache := map u | u in s.cache && u in uris :: s.cache[u])
  }

  ghost predicate VersionsName<Text>(documents: map<Uri, Document<Text>>, texts: map<nat, Text>) {
    forall u :: u in documents ==> documents[u].version in texts && texts[documents[u].version] == documents[u].text
  }

  /** A publish reports every key whose fact it changed, evicts the files it moves between the workspace and the loose
      set, and gives a changed text a parse version of its own. */
  ghost predicate Allowed<Text, Fact, Diag>(s: Server<Text, Fact, Diag>, e: Event<Text, Fact>) {
    e.Publish? ==>
      && (forall k :: k !in e.workspaceChanged ==> SameFact(s.world.workspace, e.world.workspace, k))
      && (forall k :: k !in e.looseChanged ==> SameFact(s.world.loose, e.world.loose, k))
      && (forall u :: u in s.cache && (u in s.world.looseUris) != (u in e.world.looseUris) ==> u in e.also)
      && (forall v :: v in s.texts ==> v in e.texts && e.texts[v] == s.texts[v])
      && VersionsName(e.documents, e.texts)
  }

  /** The entry is what the rules say now about the text it was computed from, under its own fingerprint. */
  ghost predicate Current<Text, Fact, Diag>(rules: Rules<Text, Fact, Diag>, s: Server<Text, Fact, Diag>, u: Uri)
    requires u in s.cache
  {
    var e := s.cache[u];
    e.version in s.texts
    && e.diagnostics == rules.diagnose(u, s.texts[e.version], FactsFor(s.world, u), e.fingerprint)
  }

  /** Every key of `o` is one the file is subscribed to. */
  ghost predicate Covered(subscribed: map<Uri, Observations>, u: Uri, o: Observations) {
    forall k :: Observed(o, k) ==> u in subscribed && Observed(subscribed[u], k)
  }

  /** The file is subscribed to every key the entry rests on. */
  ghost predicate Subscribed<Text, Fact, Diag>(rules: Rules<Text, Fact, Diag>, s: Server<Text, Fact, Diag>, u: Uri)
    requires u in s.cache
  {
    var e := s.cache[u];
    e.version in s.texts
    && Covered(SubsFor(s, u), u, rules.observe(u, s.texts[e.version], FactsFor(s.world, u), e.fingerprint))
  }

  ghost predicate Inv<Text, Fact, Diag>(rules: Rules<Text, Fact, Diag>, s: Server<Text, Fact, Diag>) {
    && VersionsName(s.documents, s.texts)
    && forall u :: u in s.cache ==> Current(rules, s, u) && Subscribed(rules, s, u)
  }

  /** Every entry that would hit is what recomputation would give. */
  ghost predicate Coherent<Text, Fact, Diag>(rules: Rules<Text, Fact, Diag>, s: Server<Text, Fact, Diag>) {
    forall u :: u in s.documents && Hit(s.cache, u, s.documents[u].version, s.world.fingerprint) ==>
      s.cache[u] == Fresh(rules, s.world, u, s.documents[u])
  }

  /** What a pull makes of one file's entry: one that hit stays, another is recomputed if it is asked about and the pull gets
      to it.  The pull is cancelled exactly if it could not start or left a file without an entry that hits. */
  lemma {:induction false} PullIs<Text, Fact, Diag>(
      rules: Rules<Text, Fact, Diag>, s: Server<Text, Fact, Diag>, uris: set<Uri>, mayStart: bool, goesOn: set<Uri>, u: Uri)
    ensures var t := AfterPull(rules, s, uris, mayStart, goesOn);
      var hit := u in s.documents && u in s.cache
                 && s.cache[u].version == s.documents[u].version && s.cache[u].fingerprint == s.world.fingerprint;
      if u in uris && u in s.documents && !hit && mayStart && u in goesOn then
        u in t.cache && t.cache[u] == Fresh(rules, s.world, u, s.documents[u])
      else (u in t.cache <==> u in s.cache) && (u in s.cache ==> t.cache[u] == s.cache[u])
    ensures var t := AfterPull(rules, s, uris, mayStart, goesOn);
      t.documents == s.documents && t.texts == s.texts && t.world == s.world
  {
  }

  lemma {:induction false} CancelledIff<Text, Fact, Diag>(
      rules: Rules<Text, Fact, Diag>, s: Server<Text, Fact, Diag>, uris: set<Uri>, mayStart: bool, goesOn: set<Uri>)
    ensures var t := AfterPull(rules, s, uris, mayStart, goesOn);
      CancelledIn(s, uris, mayStart, goesOn) <==>
        !mayStart || exists u :: u in uris && u in s.documents && !Hit(t.cache, u, s.documents[u].version, s.world.fingerprint)
  {
    var t := AfterPull(rules, s, uris, mayStart, goesOn);
    forall u | u in uris && u in s.documents
      ensures Hit(t.cache, u, s.documents[u].version, s.world.fingerprint)
        <==> Hit(s.cache, u, s.documents[u].version, s.world.fingerprint) || (mayStart && u in goesOn)
    {
      PullIs(rules, s, uris, mayStart, goesOn, u);
    }
    assert forall u :: u in Misses(s.cache, Pulled(s, uris), s.world.fingerprint) <==>
      u in uris && u in s.documents && !Hit(s.cache, u, s.documents[u].version, s.world.fingerprint);
  }

  /** An entry goes only for a reason: its file observed a key that changed on one of the two sides, or it was named. */
  lemma EvictedIff<Text, Fact, Diag>(s: Server<Text, Fact, Diag>, e: Event<Text, Fact>, u: Uri)
    requires e.Publish? && u in s.cache
    ensures var t := AfterPublish(s, e);
      && (u !in t.cache <==> (
            || u in e.also
            || (u in s.workspaceSubs && exists k :: k in e.workspaceChanged && Observed(s.workspaceSubs[u], k))
            || (u in s.looseSubs && exists k :: k in e.looseChanged && Observed(s.looseSubs[u], k))))
      && (u in t.cache ==> t.cache[u] == s.cache[u])
  {
  }

  /** Afterwards just the files in `uris` have entries, those they had. */
  lemma RetainIs<Text, Fact, Diag>(rules: Rules<Text, Fact, Diag>, s: Server<Text, Fact, Diag>, uris: set<Uri>)
    ensures var t := After(rules, s, Retain(uris));
      t.cache.Keys == s.cache.Keys * uris && forall u :: u in t.cache ==> t.cache[u] == s.cache[u]
  {
  }

  /** The cache saves work: after a pull that was not cancelled, the same files hit, and asking again computes nothing. */
  lemma {:induction false} PullAgainHits<Text, Fact, Diag>(
      rules: Rules<Text, Fact, Diag>, s: Server<Text, Fact, Diag>, uris: set<Uri>, mayStart: bool, goesOn: set<Uri>)
    requires !CancelledIn(s, uris, mayStart, goesOn)
    ensures var t := AfterPull(rules, s, uris, mayStart, goesOn);
      && (forall u :: u in uris && u in s.documents ==> Hit(t.cache, u, s.documents[u].version, s.world.fingerprint))
      && forall may, on :: ComputedBy(t, uris, may, on) == {} && !CancelledIn(t, uris, true, on)
  {
    var t := AfterPull(rules, s, uris, mayStart, goesOn);
    CancelledIff(rules, s, uris, mayStart, goesOn);
    forall may, on
      ensures ComputedBy(t, uris, may, on) == {} && !CancelledIn(t, uris, true, on)
    {
      NothingMissed(t, uris, may, on);
    }
  }

  lemma {:induction false} NothingMissed<Text, Fact, Diag>(s: Server<Text, Fact, Diag>, uris: set<Uri>, mayStart: bool, goesOn: set<Uri>)
    requires forall u :: u in uris && u in s.documents ==> Hit(s.cache, u, s.documents[u].version, s.world.fingerprint)
    ensures ComputedBy(s, uris, mayStart, goesOn) == {} && !CancelledIn(s, uris, true, goesOn)
  {
    assert Misses(s.cache, Pulled(s, uris), s.world.fingerprint) == {};
  }

  lemma InvIsCoherent<Text, Fact, Diag>(rules: Rules<Text, Fact, Diag>, s: Server<Text, Fact, Diag>)
    requires Inv(rules, s)
    ensures Coherent(rules, s)
  {
    forall u | u in s.documents && Hit(s.cache, u, s.documents[u].version, s.world.fingerprint)
      ensures s.cache[u] == Fresh(rules, s.world, u, s.documents[u])
    {
      assert Current(rules, s, u);
    }
  }

  lemma UntouchedKeys(subscribed: map<Uri, Observations>, keys: set<ObservedKey>, u: Uri)
    requires u !in SubscribersOf(subscribed, keys)
    ensures forall k :: u in subscribed && Observed(subscribed[u], k) ==> k !in keys
  {
  }

  lemma PublishKeepsInv<Text(!new), Fact(!new), Diag(!new)>(rules: Rules<Text, Fact, Diag>, s: Server<Text, Fact, Diag>, e: Event<Text, Fact>)
    requires Determined(rules) && Inv(rules, s) && e.Publish? && Allowed(s, e)
    ensures Inv(rules, AfterPublish(s, e))
  {
    var t := AfterPublish(s, e);
    forall u | u in t.cache
      ensures Current(rules, t, u) && Subscribed(rules, t, u)
    {
      assert Current(rules, s, u) && Subscribed(rules, s, u);
      var text, fp := s.texts[s.cache[u].version], s.cache[u].fingerprint;
      var changed := if u in s.world.looseUris then e.looseChanged else e.workspaceChanged;
      UntouchedKeys(SubsFor(s, u), changed, u);
      assert AgreeOn(FactsFor(s.world, u), FactsFor(e.world, u), rules.observe(u, text, FactsFor(s.world, u), fp));
    }
  }

  /** The pull was not cancelled, or each file it computed was already subscribed to every key it observed. */
  ghost predicate Covers<Text, Fact, Diag>(
      rules: Rules<Text, Fact, Diag>, s: Server<Text, Fact, Diag>, uris: set<Uri>, mayStart: bool, goesOn: set<Uri>) {
    CancelledIn(s, uris, mayStart, goesOn) ==>
      forall u :: u in ComputedBy(s, uris, mayStart, goesOn) && u in s.documents ==> Covered(SubsFor(s, u), u, Observing(rules, s, u))
  }

  /** From a state in order, a pull leaves one in order exactly then. */
  lemma {:induction false} PullKeepsInvIff<Text, Fact, Diag>(
      rules: Rules<Text, Fact, Diag>, s: Server<Text, Fact, Diag>, uris: set<Uri>, mayStart: bool, goesOn: set<Uri>)
    requires Inv(rules, s)
    ensures Inv(rules, AfterPull(rules, s, uris, mayStart, goesOn)) <==> Covers(rules, s, uris, mayStart, goesOn)
  {
    var t := AfterPull(rules, s, uris, mayStart, goesOn);
    forall u | u in t.cache
      ensures Current(rules, t, u) && (Subscribed(rules, t, u) <==> CoversEntry(rules, s, uris, mayStart, goesOn, u))
    {
      PulledEntry(rules, s, uris, mayStart, goesOn, u);
    }
    assert forall u :: u in ComputedBy(s, uris, mayStart, goesOn) && u in s.documents ==> u in t.cache;
    assert Covers(rules, s, uris, mayStart, goesOn) <==> forall u :: u in t.cache ==> CoversEntry(rules, s, uris, mayStart, goesOn, u);
  }

  ghost predicate CoversEntry<Text, Fact, Diag>(
      rules: Rules<Text, Fact, Diag>, s: Server<Text, Fact, Diag>, uris: set<Uri>, mayStart: bool, goesOn: set<Uri>, u: Uri) {
    CancelledIn(s, uris, mayStart, goesOn) && u in ComputedBy(s, uris, mayStart, goesOn) && u in s.documents ==>
      Covered(SubsFor(s, u), u, Observing(rules, s, u))
  }

  /** Every entry is current after a pull; the ones just computed are subscribed if the pull finished or they were before. */
  lemma {:induction false} PulledEntry<Text, Fact, Diag>(
      rules: Rules<Text, Fact, Diag>, s: Server<Text, Fact, Diag>, uris: set<Uri>, mayStart: bool, goesOn: set<Uri>, u: Uri)
    requires Inv(rules, s) && u in AfterPull(rules, s, uris, mayStart, goesOn).cache
    ensures var t := AfterPull(rules, s, uris, mayStart, goesOn);
      Current(rules, t, u) && (Subscribed(rules, t, u) <==> CoversEntry(rules, s, uris, mayStart, goesOn, u))
  {
    if u in ComputedBy(s, uris, mayStart, goesOn) && u in s.documents {
      ComputedEntry(rules, s, uris, mayStart, goesOn, u);
    } else {
      KeptEntry(rules, s, uris, mayStart, goesOn, u);
    }
  }

  lemma {:induction false} ComputedEntry<Text, Fact, Diag>(
      rules: Rules<Text, Fact, Diag>, s: Server<Text, Fact, Diag>, uris: set<Uri>, mayStart: bool, goesOn: set<Uri>, u: Uri)
    requires VersionsName(s.documents, s.texts) && u in ComputedBy(s, uris, mayStart, goesOn) && u in s.documents
    ensures var t := AfterPull(rules, s, uris, mayStart, goesOn);
      && u in t.cache && Current(rules, t, u)
      && (Subscribed(rules, t, u) <==>
            (CancelledIn(s, uris, mayStart, goesOn) ==> Covered(SubsFor(s, u), u, Observing(rules, s, u))))
  {
    ComputedIsCached(rules, s, uris, mayStart, goesOn, u);
    ComputedIsSubscribed(rules, s, uris, mayStart, goesOn, u);
    EntryIsCurrent(rules, s, AfterPull(rules, s, uris, mayStart, goesOn), u);
  }

  lemma {:induction false} ComputedIsCached<Text, Fact, Diag>(
      rules: Rules<Text, Fact, Diag>, s: Server<Text, Fact, Diag>, uris: set<Uri>, mayStart: bool, goesOn: set<Uri>, u: Uri)
    requires u in ComputedBy(s, uris, mayStart, goesOn) && u in s.documents
    ensures var t := AfterPull(rules, s, uris, mayStart, goesOn);
      && u in t.cache && t.cache[u] == Fresh(rules, s.world, u, s.documents[u])
      && t.world == s.world && t.texts == s.texts && t.documents == s.documents
  {
  }

  lemma {:induction false} ComputedIsSubscribed<Text, Fact, Diag>(
      rules: Rules<Text, Fact, Diag>, s: Server<Text, Fact, Diag>, uris: set<Uri>, mayStart: bool, goesOn: set<Uri>, u: Uri)
    requires u in ComputedBy(s, uris, mayStart, goesOn) && u in s.documents
    ensures var subs := SubsFor(AfterPull(rules, s, uris, mayStart, goesOn), u);
      if CancelledIn(s, uris, mayStart, goesOn) then subs == SubsFor(s, u)
      else u in subs && subs[u] == Observing(rules, s, u)
  {
  }

  /** An entry just computed is current, and subscribed if the file observes what the rules look up. */
  lemma {:induction false} EntryIsCurrent<Text, Fact, Diag>(
      rules: Rules<Text, Fact, Diag>, s: Server<Text, Fact, Diag>, t: Server<Text, Fact, Diag>, u: Uri)
    requires VersionsName(s.documents, s.texts) && u in s.documents
    requires t.world == s.world && t.texts == s.texts && u in t.cache && t.cache[u] == Fresh(rules, s.world, u, s.documents[u])
    ensures Current(rules, t, u) && (Subscribed(rules, t, u) <==> Covered(SubsFor(t, u), u, Observing(rules, s, u)))
  {
  }

  lemma {:induction false} KeptEntry<Text, Fact, Diag>(
      rules: Rules<Text, Fact, Diag>, s: Server<Text, Fact, Diag>, uris: set<Uri>, mayStart: bool, goesOn: set<Uri>, u: Uri)
    requires !(u in ComputedBy(s, uris, mayStart, goesOn) && u in s.documents)
    requires u in s.cache && Current(rules, s, u) && Subscribed(rules, s, u)
    ensures var t := AfterPull(rules, s, uris, mayStart, goesOn);
      u in t.cache && Current(rules, t, u) && Subscribed(rules, t, u)
  {
    var t := AfterPull(rules, s, uris, mayStart, goesOn);
    assert t.cache[u] == s.cache[u];
    assert u in SubsFor(s, u) ==> u in SubsFor(t, u) && SubsFor(t, u)[u] == SubsFor(s, u)[u];
  }

  lemma RetainKeepsInv<Text, Fact, Diag>(rules: Rules<Text, Fact, Diag>, s: Server<Text, Fact, Diag>, uris: set<Uri>)
    requires Inv(rules, s)
    ensures Inv(rules, After(rules, s, Retain(uris)))
  {
    var t := After(rules, s, Retain(uris));
    forall u | u in t.cache
      ensures Current(rules, t, u) && Subscribed(rules, t, u)
    {
      assert Current(rules, s, u) && Subscribed(rules, s, u);
    }
  }

  function Empty<Text, Fact, Diag>(w: World<Fact>): Server<Text, Fact, Diag> {
    Server(map[], map[], w, map[], map[], map[])
  }

  /** `s` is reached from the empty server by `events`. */
  ghost predicate Reached<Text, Fact, Diag>(rules: Rules<Text, Fact, Diag>, w: World<Fact>, events: seq<Event<Text, Fact>>, s: seq<Server<Text, Fact, Diag>>) {
    && |s| == |events| + 1 && s[0] == Empty(w)
    && forall i :: 0 <= i < |events| ==>
         && Allowed(s[i], events[i]) && s[i + 1] == After(rules, s[i], events[i])
         && (events[i].Pull? ==> Covers(rules, s[i], events[i].uris, events[i].mayStart, events[i].goesOn))
  }

  /** Over every run of publishes, evictions and such pulls, the cache never answers with anything but what
      recomputation would give. */
  lemma {:induction false} CacheIsCoherent<Text(!new), Fact(!new), Diag(!new)>(
      rules: Rules<Text, Fact, Diag>, w: World<Fact>, events: seq<Event<Text, Fact>>, s: seq<Server<Text, Fact, Diag>>, n: nat)
    requires Determined(rules) && Reached(rules, w, events, s) && n <= |events|
    ensures Inv(rules, s[n]) && Coherent(rules, s[n])
  {
    if n > 0 {
      CacheIsCoherent(rules, w, events, s, n - 1);
      match events[n - 1] {
        case Pull(uris, mayStart, goesOn) => PullKeepsInvIff(rules, s[n - 1], uris, mayStart, goesOn);
        case Publish(_, _, _, _, _, _) => PublishKeepsInv(rules, s[n - 1], events[n - 1]);
        case Retain(uris) => RetainKeepsInv(rules, s[n - 1], uris);
      }
    }
    InvIsCoherent(rules, s[n]);
  }

  /** So a pull that is not cancelled reports, for each file asked about, the diagnostics the rules give for it now, and
      nothing for a file without any. */
  lemma PullReportsFresh<Text, Fact, Diag>(
      rules: Rules<Text, Fact, Diag>, s: Server<Text, Fact, Diag>, uris: set<Uri>, goesOn: set<Uri>, u: Uri)
    requires Coherent(rules, s) && !CancelledIn(s, uris, true, goesOn) && u in Pulled(s, uris)
    ensures var t := AfterPull(rules, s, uris, true, goesOn);
      u in t.cache
      && t.cache[u].diagnostics == rules.diagnose(u, s.documents[u].text, FactsFor(s.world, u), s.world.fingerprint)
  {
  }

  /* What goes wrong otherwise. */

  /** What a publish of the key alone, adding a fact under it or taking it away, makes of the facts. */
  function Flipped<Fact>(facts: map<ObservedKey, Fact>, k: ObservedKey, fact: Fact): map<ObservedKey, Fact> {
    if k in facts then facts - {k} else facts[k := fact]
  }

  /** A publish that gives the file's side of the server other facts under one key. */
  function PublishOfKey<Text, Fact, Diag>(s: Server<Text, Fact, Diag>, u: Uri, k: ObservedKey, facts: map<ObservedKey, Fact>): Event<Text, Fact> {
    if u in s.world.looseUris then Publish(s.documents, s.texts, s.world.(loose := facts), {}, {k}, {})
    else Publish(s.documents, s.texts, s.world.(workspace := facts), {k}, {}, {})
  }

  /** A cached file depends on a key it is not subscribed to: a publish of that key alone, if it matters to the file, leaves
      an entry that hits and is stale. */
  lemma {:induction false} UnsubscribedGoesStale<Text, Fact, Diag>(
      rules: Rules<Text, Fact, Diag>, s: Server<Text, Fact, Diag>, u: Uri, k: ObservedKey, facts: map<ObservedKey, Fact>)
    requires u in s.documents && VersionsName(s.documents, s.texts)
    requires Hit(s.cache, u, s.documents[u].version, s.world.fingerprint)
    requires u in SubsFor(s, u) ==> !Observed(SubsFor(s, u)[u], k)
    requires forall l :: l != k ==> SameFact(FactsFor(s.world, u), facts, l)
    requires rules.diagnose(u, s.documents[u].text, facts, s.world.fingerprint) != s.cache[u].diagnostics
    ensures Allowed(s, PublishOfKey(s, u, k, facts)) && !Coherent(rules, AfterPublish(s, PublishOfKey(s, u, k, facts)))
  {
    var e := PublishOfKey(s, u, k, facts);
    var t := AfterPublish(s, e);
    forall l
      ensures l !in e.looseChanged ==> SameFact(s.world.loose, e.world.loose, l)
      ensures l !in e.workspaceChanged ==> SameFact(s.world.workspace, e.world.workspace, l)
    {
      assert l != k ==> SameFact(FactsFor(s.world, u), facts, l);
    }
    assert u !in SubscribersOf(SubsFor(s, u), {k});
    assert Hit(t.cache, u, t.documents[u].version, t.world.fingerprint);
    assert t.cache[u].diagnostics != Fresh(rules, t.world, u, t.documents[u]).diagnostics;
  }

  /** Other rules that look up the same keys. */
  function Diagnosing<Text, Fact, Diag>(
      rules: Rules<Text, Fact, Diag>, diagnose: (Uri, Text, map<ObservedKey, Fact>, nat) -> seq<Diag>): Rules<Text, Fact, Diag> {
    Rules(diagnose, rules.observe)
  }

  /** The server as it would stand under other rules: the same entries with their diagnostics. */
  function Under<Text, Fact, Diag>(rules: Rules<Text, Fact, Diag>, s: Server<Text, Fact, Diag>): Server<Text, Fact, Diag> {
    s.(cache := map u | u in s.cache && s.cache[u].version in s.texts ::
         var e := s.cache[u];
         Entry(e.version, e.fingerprint, rules.diagnose(u, s.texts[e.version], FactsFor(s.world, u), e.fingerprint)))
  }

  /** After the pull the cache never answers wrong: not under these rules nor under any others that look up the same keys,
      whatever is published next. */
  ghost predicate Harmless<Text(!new), Fact(!new), Diag(!new)>(
      rules: Rules<Text, Fact, Diag>, s: Server<Text, Fact, Diag>, uris: set<Uri>, mayStart: bool, goesOn: set<Uri>) {
    forall diagnose: (Uri, Text, map<ObservedKey, Fact>, nat) -> seq<Diag>, e: Event<Text, Fact> ::
      var others := Diagnosing(rules, diagnose);
      var t := AfterPull(others, Under(others, s), uris, mayStart, goesOn);
      Determined(others) && e.Publish? && Allowed(t, e) ==> Coherent(others, AfterPublish(t, e))
  }

  lemma InvUnder<Text(!new), Fact(!new), Diag(!new)>(rules: Rules<Text, Fact, Diag>, others: Rules<Text, Fact, Diag>, s: Server<Text, Fact, Diag>)
    requires Inv(rules, s) && others.observe == rules.observe
    ensures Inv(others, Under(others, s)) && Under(others, s).cache.Keys == s.cache.Keys
    ensures forall u, version: nat, fp: nat :: Hit(Under(others, s).cache, u, version, fp) <==> Hit(s.cache, u, version, fp)
  {
    var t := Under(others, s);
    forall u | u in s.cache
      ensures u in t.cache && Current(others, t, u) && Subscribed(others, t, u)
    {
      assert Current(rules, s, u) && Subscribed(rules, s, u);
    }
  }

  /** What a pull computes does not depend on the rules. */
  lemma SamePullUnder<Text(!new), Fact(!new), Diag(!new)>(
      rules: Rules<Text, Fact, Diag>, others: Rules<Text, Fact, Diag>, s: Server<Text, Fact, Diag>, uris: set<Uri>, mayStart: bool,
      goesOn: set<Uri>)
    requires Inv(rules, s) && others.observe == rules.observe
    ensures var t := Under(others, s);
      && ComputedBy(t, uris, mayStart, goesOn) == ComputedBy(s, uris, mayStart, goesOn)
      && CancelledIn(t, uris, mayStart, goesOn) == CancelledIn(s, uris, mayStart, goesOn)
  {
    InvUnder(rules, others, s);
    assert Pulled(Under(others, s), uris) == Pulled(s, uris);
    assert Misses(Under(others, s).cache, Pulled(s, uris), s.world.fingerprint) == Misses(s.cache, Pulled(s, uris), s.world.fingerprint);
  }

  /** Rules that complain exactly if there is something under the one key, where they look it up. */
  function ComplainAbout<Text, Fact, Diag>(rules: Rules<Text, Fact, Diag>, k: ObservedKey, d: Diag): Rules<Text, Fact, Diag> {
    Diagnosing(rules, (u: Uri, text: Text, facts: map<ObservedKey, Fact>, fp: nat) =>
                        if Observed(rules.observe(u, text, facts, fp), k) && k in facts then [d] else [])
  }

  lemma ComplaintIsDetermined<Text(!new), Fact(!new), Diag(!new)>(rules: Rules<Text, Fact, Diag>, k: ObservedKey, d: Diag)
    requires Determined(rules)
    ensures Determined(ComplainAbout(rules, k, d))
  {
    var others := ComplainAbout(rules, k, d);
    forall u, text: Text, a: map<ObservedKey, Fact>, b: map<ObservedKey, Fact>, fp: nat | AgreeOn(a, b, others.observe(u, text, a, fp))
      ensures others.diagnose(u, text, a, fp) == others.diagnose(u, text, b, fp)
      ensures others.observe(u, text, a, fp) == others.observe(u, text, b, fp)
    {
      assert rules.observe(u, text, a, fp) == rules.observe(u, text, b, fp);
      assert Observed(rules.observe(u, text, a, fp), k) ==> SameFact(a, b, k);
    }
  }

  /** A key that is looked up is looked up whether or not there is something under it. */
  lemma FlipIsObserved<Text(!new), Fact(!new), Diag(!new)>(
      rules: Rules<Text, Fact, Diag>, u: Uri, text: Text, facts: map<ObservedKey, Fact>, fp: nat, k: ObservedKey, fact: Fact)
    requires Determined(rules) && Observed(rules.observe(u, text, facts, fp), k)
    ensures Observed(rules.observe(u, text, Flipped(facts, k, fact), fp), k)
  {
    var after := Flipped(facts, k, fact);
    assert !Observed(rules.observe(u, text, after, fp), k) ==> AgreeOn(after, facts, rules.observe(u, text, after, fp));
  }

  /** One file that a cancelled pull computed without a subscription to a key it looked up is enough. */
  lemma {:induction false} UncoveredIsHarmful<Text(!new), Fact(!new), Diag(!new)>(
      rules: Rules<Text, Fact, Diag>, s: Server<Text, Fact, Diag>, uris: set<Uri>, mayStart: bool, goesOn: set<Uri>, u: Uri,
      k: ObservedKey, fact: Fact, d: Diag)
    requires Determined(rules) && Inv(rules, s) && CancelledIn(s, uris, mayStart, goesOn)
    requires u in ComputedBy(s, uris, mayStart, goesOn) && u in s.documents && Observed(Observing(rules, s, u), k)
    requires u in SubsFor(s, u) ==> !Observed(SubsFor(s, u)[u], k)
    ensures !Harmless(rules, s, uris, mayStart, goesOn)
  {
    var others := ComplainAbout(rules, k, d);
    ComplaintIsDetermined(rules, k, d);
    InvUnder(rules, others, s);
    SamePullUnder(rules, others, s, uris, mayStart, goesOn);
    var before := Under(others, s);
    var t := AfterPull(others, before, uris, mayStart, goesOn);
    assert t.cache[u] == Fresh(others, s.world, u, s.documents[u]);
    FlipIsObserved(rules, u, s.documents[u].text, FactsFor(s.world, u), s.world.fingerprint, k, fact);
    var facts := Flipped(FactsFor(s.world, u), k, fact);
    UnsubscribedGoesStale(others, t, u, k, facts);
    var e := PublishOfKey(t, u, k, facts);
    assert others == Diagnosing(rules, others.diagnose);
    assert Allowed(t, e) && !Coherent(others, AfterPublish(t, e));
  }

  lemma CoversUnder<Text(!new), Fact(!new), Diag(!new)>(
      rules: Rules<Text, Fact, Diag>, others: Rules<Text, Fact, Diag>, s: Server<Text, Fact, Diag>, uris: set<Uri>, mayStart: bool,
      goesOn: set<Uri>)
    requires Inv(rules, s) && others.observe == rules.observe && Covers(rules, s, uris, mayStart, goesOn)
    ensures Covers(others, Under(others, s), uris, mayStart, goesOn)
  {
    SamePullUnder(rules, others, s, uris, mayStart, goesOn);
    var t := Under(others, s);
    forall u | CancelledIn(t, uris, mayStart, goesOn) && u in ComputedBy(t, uris, mayStart, goesOn) && u in t.documents
      ensures Covered(SubsFor(t, u), u, Observing(others, t, u))
    {
      assert Covered(SubsFor(s, u), u, Observing(rules, s, u));
    }
  }

  /** A pull is harmless exactly if it was not cancelled, or each file it computed was already subscribed to every key it
      looked up. */
  lemma PullHarmlessIff<Text(!new), Fact(!new), Diag(!new)>(
      rules: Rules<Text, Fact, Diag>, s: Server<Text, Fact, Diag>, uris: set<Uri>, mayStart: bool, goesOn: set<Uri>, fact: Fact, d: Diag)
    requires Determined(rules) && Inv(rules, s)
    ensures Harmless(rules, s, uris, mayStart, goesOn) <==> Covers(rules, s, uris, mayStart, goesOn)
  {
    if Covers(rules, s, uris, mayStart, goesOn) {
      forall diagnose: (Uri, Text, map<ObservedKey, Fact>, nat) -> seq<Diag>, e: Event<Text, Fact>
        | Determined(Diagnosing(rules, diagnose)) && e.Publish?
          && Allowed(AfterPull(Diagnosing(rules, diagnose), Under(Diagnosing(rules, diagnose), s), uris, mayStart, goesOn), e)
        ensures var others := Diagnosing(rules, diagnose);
          Coherent(others, AfterPublish(AfterPull(others, Under(others, s), uris, mayStart, goesOn), e))
      {
        CoveredIsHarmless(rules, Diagnosing(rules, diagnose), s, uris, mayStart, goesOn, e);
      }
    } else {
      var u :| u in ComputedBy(s, uris, mayStart, goesOn) && u in s.documents && !Covered(SubsFor(s, u), u, Observing(rules, s, u));
      var k :| Observed(Observing(rules, s, u), k) && !(u in SubsFor(s, u) && Observed(SubsFor(s, u)[u], k));
      UncoveredIsHarmful(rules, s, uris, mayStart, goesOn, u, k, fact, d);
    }
  }

  lemma CoveredIsHarmless<Text(!new), Fact(!new), Diag(!new)>(
      rules: Rules<Text, Fact, Diag>, others: Rules<Text, Fact, Diag>, s: Server<Text, Fact, Diag>, uris: set<Uri>, mayStart: bool,
      goesOn: set<Uri>, e: Event<Text, Fact>)
    requires Inv(rules, s) && others.observe == rules.observe && Covers(rules, s, uris, mayStart, goesOn)
    requires Determined(others) && e.Publish? && Allowed(AfterPull(others, Under(others, s), uris, mayStart, goesOn), e)
    ensures Coherent(others, AfterPublish(AfterPull(others, Under(others, s), uris, mayStart, goesOn), e))
  {
    InvUnder(rules, others, s);
    CoversUnder(rules, others, s, uris, mayStart, goesOn);
    PullKeepsInvIff(others, Under(others, s), uris, mayStart, goesOn);
    var t := AfterPull(others, Under(others, s), uris, mayStart, goesOn);
    PublishKeepsInv(others, t, e);
    InvIsCoherent(others, AfterPublish(t, e));
  }

  /* Such a pull from start to finish. */

  /** One rule: complain if the class C exists. */
  function ComplainAboutC(): Rules<int, int, int> {
    Rules((u: Uri, text: int, facts: map<ObservedKey, int>, fp: nat) => if TopLevel("C") in facts then [0] else [],
          (u: Uri, text: int, facts: map<ObservedKey, int>, fp: nat) => Observations({"C"}, {}, {}))
  }

  /** Two files, and nothing cached yet. */
  function TwoFiles(): Server<int, int, int> {
    Server(map["a" := Document(0, 0), "b" := Document(1, 1)], map[0 := 0, 1 := 1], World(map[], map[], {}, 0),
           map[], map[], map[])
  }

  lemma ComplaintAboutCIsDetermined()
    ensures Determined(ComplainAboutC())
  {
    var rules := ComplainAboutC();
    forall u, text: int, a: map<ObservedKey, int>, b: map<ObservedKey, int>, fp: nat
      | AgreeOn(a, b, rules.observe(u, text, a, fp))
      ensures rules.diagnose(u, text, a, fp) == rules.diagnose(u, text, b, fp)
    {
      assert Observed(rules.observe(u, text, a, fp), TopLevel("C"));
      assert SameFact(a, b, TopLevel("C"));
    }
  }

  /** The pull is stopped between the two files: it caches the first without subscribing it to the class it looked up. */
  lemma StoppedBetweenFiles()
    ensures var t := AfterPull(ComplainAboutC(), TwoFiles(), {"a", "b"}, true, {"a"});
      && CancelledIn(TwoFiles(), {"a", "b"}, true, {"a"})
      && t == TwoFiles().(cache := map["a" := Entry(0, 0, [])])
  {
    var s := TwoFiles();
    assert Pulled(s, {"a", "b"}) == s.documents;
    assert Misses(s.cache, s.documents, 0) == {"a", "b"};
    assert ComputedBy(s, {"a", "b"}, true, {"a"}) == {"a"};
    var t := AfterPull(ComplainAboutC(), s, {"a", "b"}, true, {"a"});
    assert t.cache == map["a" := Entry(0, 0, [])];
  }

  /** When the class appears the file keeps its old diagnostics. */
  lemma {:induction false} CancelledPullGoesStale()
    ensures Determined(ComplainAboutC()) && Inv(ComplainAboutC(), TwoFiles())
    ensures var t := AfterPull(ComplainAboutC(), TwoFiles(), {"a", "b"}, true, {"a"});
      var e := Publish(t.documents, t.texts, t.world.(workspace := t.world.workspace[TopLevel("C") := 0]),
                       {TopLevel("C")}, {}, {});
      Allowed(t, e) && !Coherent(ComplainAboutC(), AfterPublish(t, e))
  {
    ComplaintAboutCIsDetermined();
    StoppedBetweenFiles();
    var t := AfterPull(ComplainAboutC(), TwoFiles(), {"a", "b"}, true, {"a"});
    UnsubscribedGoesStale(ComplainAboutC(), t, "a", TopLevel("C"), t.world.workspace[TopLevel("C") := 0]);
  }
}
