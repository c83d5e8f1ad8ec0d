/** The pending-edit queue (edit_queue.rs, text_sync.rs in src/bin/witcherscript-lsp): handlers of `did_change` and the
    background writer, one shared action at a time, in any interleaving. */
module EditQueue {
  import opened Wrappers

  /** A text and the parse version it was given. */
  datatype Edit = Edit(text: string, version: nat)

  /** Where one `did_change` handler is.  Everything from `Locked` to `Notified` holds the tree lock. */
  datatype Handler<B> =
    | Arrived(uri: nat, batch: B)
    | Locked(uri: nat, batch: B)                      // about to look for a pending edit
    | NotPending(uri: nat, batch: B)                  // found none; about to load the published document
    | Applying(uri: nat, base: string, batch: B)      // about to apply the changes
    | Allocating(uri: nat, text: string, batch: B)    // about to draw a parse version
    | Allocated(uri: nat, text: string, version: nat, batch: B) // about to see whether the writer runs
    | Inserting(uri: nat, text: string, version: nat, batch: B) // it does; about to queue the edit
    | Direct(uri: nat, text: string, version: nat, batch: B)    // it does not; about to publish
    | Queued                                          // about to notify
    | Notified                                        // about to release the lock
    | Finished

  datatype Writer =
    | Unspawned
    | Waiting                                         // for a notification
    | Draining                                        // about to list the pending edits
    | Next(rest: seq<nat>)                            // about to take the lock for the next of them
    | Holding(uri: nat, rest: seq<nat>)               // has the lock; about to copy the edit
    | Processing(uri: nat, edit: Edit, rest: seq<nat>) // about to publish its parse
    | Published(uri: nat, version: nat, rest: seq<nat>) // about to release the lock
    | Released(uri: nat, version: nat, rest: seq<nat>) // about to remove the edit if it is still that one

  datatype Lock = Free | ByHandler(i: nat) | ByWriter

  datatype State<B> = State(
    pending: map<nat, Edit>, published: map<nat, Edit>, nextVersion: nat, treeLock: Lock, permit: bool,
    writer: Writer, handlers: seq<Handler<B>>,
    initial: map<nat, string>, accepted: map<nat, seq<B>>)

  datatype Action<B> = Arrive(uri: nat, batch: B) | Spawn | HandlerStep(i: nat) | WriterStep(order: seq<nat>)

  /** `latest_edit_state`: the pending edit if there is one, else the published document. */
  function Latest<B>(s: State<B>, uri: nat): Option<string> {
    if uri in s.pending then Some(s.pending[uri].text)
    else if uri in s.published then Some(s.published[uri].text)
    else None
  }

  /** A document's initial text with all accepted batches applied to it. */
  function Fold<B>(apply: (string, B) -> Option<string>, text: string, batches: seq<B>): Option<string> {
    if batches == [] then Some(text)
    else match Fold(apply, text, batches[..|batches| - 1])
      case Some(t) => apply(t, batches[|batches| - 1])
      case None => None
  }

  function Expected<B>(apply: (string, B) -> Option<string>, s: State<B>, uri: nat): Option<string> {
    if uri in s.initial && uri in s.accepted then Fold(apply, s.initial[uri], s.accepted[uri]) else None
  }

  function Accept<B>(s: State<B>, uri: nat, batch: B): map<nat, seq<B>> {
    if uri in s.accepted then s.accepted[uri := s.accepted[uri] + [batch]] else s.accepted
  }

  /* The steps. */

  /** What a handler's action makes of the shared state, and where the handler goes next. */
  datatype Outcome<B> = Outcome(state: State<B>, next: Handler<B>)

  /** Handler `i`, being at `h`, acts. */
  function Act<B>(apply: (string, B) -> Option<string>, s: State<B>, i: nat, h: Handler<B>): Option<Outcome<B>> {
    match h
    case Arrived(u, b) => if s.treeLock.Free? then Some(Outcome(s.(treeLock := ByHandler(i)), Locked(u, b))) else None
    case Locked(u, b) =>
      Some(Outcome(s, if u in s.pending then Applying(u, s.pending[u].text, b) else NotPending(u, b)))
    case NotPending(u, b) =>
      if u in s.published then Some(Outcome(s, Applying(u, s.published[u].text, b)))
      else Some(Outcome(s.(treeLock := Free), Finished)) // a change before the document is open
    case Applying(u, base, b) =>
      (match apply(base, b)
       case Some(text) => Some(Outcome(s, Allocating(u, text, b)))
       case None => Some(Outcome(s.(treeLock := Free), Finished))) // out of range: the batch is dropped
    case Allocating(u, text, b) => Some(Outcome(s.(nextVersion := s.nextVersion + 1), Allocated(u, text, s.nextVersion, b)))
    case Allocated(u, text, v, b) =>
      Some(Outcome(s, if s.writer.Unspawned? then Direct(u, text, v, b) else Inserting(u, text, v, b)))
    case Inserting(u, text, v, b) =>
      Some(Outcome(s.(pending := s.pending[u := Edit(text, v)], accepted := Accept(s, u, b)), Queued))
    case Direct(u, text, v, b) =>
      Some(Outcome(s.(published := s.published[u := Edit(text, v)], accepted := Accept(s, u, b)), Notified))
    case Queued => Some(Outcome(s.(permit := true), Notified))
    case Notified => Some(Outcome(s.(treeLock := Free), Finished))
    case Finished => None
  }

  function StepHandler<B>(apply: (string, B) -> Option<string>, s: State<B>, i: nat): Option<State<B>>
    requires i < |s.handlers|
  {
    match Act(apply, s, i, s.handlers[i])
    case Some(o) => Some(o.state.(handlers := s.handlers[i := o.next]))
    case None => None
  }

  /** `order` lists each of the keys once, in whatever order the map gives them. */
  ghost predicate Lists(order: seq<nat>, keys: set<nat>) {
    && (forall u :: u in order <==> u in keys)
    && forall i, j :: 0 <= i < j < |order| ==> order[i] != order[j]
  }

  ghost function StepWriter<B>(s: State<B>, order: seq<nat>): Option<State<B>> {
    match s.writer
    case Unspawned => None
    case Waiting => if s.permit then Some(s.(permit := false, writer := Draining)) else None
    case Draining =>
      if !Lists(order, s.pending.Keys) then None
      else Some(s.(writer := if order == [] then Waiting else Next(order)))
    case Next(rest) =>
      if rest == [] then Some(s.(writer := Draining))
      else if s.treeLock.Free? then Some(s.(treeLock := ByWriter, writer := Holding(rest[0], rest[1..])))
      else None
    case Holding(u, rest) =>
      if u in s.pending then Some(s.(writer := Processing(u, s.pending[u], rest)))
      else Some(s.(treeLock := Free, writer := Next(rest)))
    case Processing(u, edit, rest) => Some(s.(published := s.published[u := edit], writer := Published(u, edit.version, rest)))
    case Published(u, v, rest) => Some(s.(treeLock := Free, writer := Released(u, v, rest)))
    case Released(u, v, rest) =>
      Some(s.(pending := if u in s.pending && s.pending[u].version == v then s.pending - {u} else s.pending, writer := Next(rest)))
  }

  ghost function Step<B>(apply: (string, B) -> Option<string>, s: State<B>, a: Action<B>): Option<State<B>> {
    match a
    case Arrive(u, b) => Some(s.(handlers := s.handlers + [Arrived(u, b)]))
    case Spawn => if s.writer.Unspawned? then Some(s.(writer := Waiting)) else None
    case HandlerStep(i) => if i < |s.handlers| then StepHandler(apply, s, i) else None
    case WriterStep(order) => StepWriter(s, order)
  }

  /** The open documents, published, and nothing else going on. */
  ghost predicate Init<B>(s: State<B>) {
    && s.pending == map[] && s.treeLock == Free && !s.permit && s.writer == Unspawned && s.handlers == []
    && s.published.Keys == s.initial.Keys == s.accepted.Keys
    && forall u :: u in s.initial ==>
         s.published[u].text == s.initial[u] && s.accepted[u] == [] && s.published[u].version < s.nextVersion
  }

  /** The state after a sequence of actions, if all of them were possible. */
  ghost function Run<B>(apply: (string, B) -> Option<string>, s: State<B>, actions: seq<Action<B>>): Option<State<B>> {
    if actions == [] then Some(s)
    else match Run(apply, s, actions[..|actions| - 1])
      case Some(t) => Step(apply, t, actions[|actions| - 1])
      case None => None
  }

  /* The invariant. */

  predicate HoldsLock<B>(h: Handler<B>) {
    !h.Arrived? && !h.Finished?
  }

  predicate WriterHoldsLock(w: Writer) {
    w.Holding? || w.Processing? || w.Published?
  }

  ghost predicate LockOk<B>(s: State<B>) {
    && (forall i :: 0 <= i < |s.handlers| ==> (HoldsLock(s.handlers[i]) <==> s.treeLock.ByHandler? && s.treeLock.i == i))
    && (WriterHoldsLock(s.writer) <==> s.treeLock.ByWriter?)
    && (s.treeLock.ByHandler? ==> s.treeLock.i < |s.handlers| && HoldsLock(s.handlers[s.treeLock.i]))
  }

  /** The latest text of every open document is its initial text with the accepted batches applied. */
  ghost predicate TextOk<B>(apply: (string, B) -> Option<string>, s: State<B>) {
    && s.published.Keys == s.initial.Keys == s.accepted.Keys && s.pending.Keys <= s.initial.Keys
    && forall u :: u in s.initial ==> Latest(s, u) == Expected(apply, s, u)
  }

  /** Versions in use are below the next one, and a pending edit is the published document or newer. */
  ghost predicate VersionsOk<B>(s: State<B>) {
    && (forall u :: u in s.published ==> s.published[u].version < s.nextVersion)
    && (forall u :: u in s.pending ==>
          s.pending[u].version < s.nextVersion
          && u in s.published && (s.pending[u] == s.published[u] || s.published[u].version < s.pending[u].version))
  }

  /** Version `v` is above every version in use but is itself drawn. */
  ghost predicate Fresh<B>(s: State<B>, v: nat) {
    && v < s.nextVersion
    && (forall u :: u in s.published ==> s.published[u].version < v)
    && (forall u :: u in s.pending ==> s.pending[u].version < v)
    && (s.writer.Released? ==> s.writer.version < v)
  }

  ghost predicate HandlerOk<B>(apply: (string, B) -> Option<string>, s: State<B>, h: Handler<B>) {
    match h
    case NotPending(u, _) => u !in s.pending
    case Applying(u, base, _) => u in s.initial && Expected(apply, s, u) == Some(base)
    case Allocating(u, text, b) => Extends(apply, s, u, text, b)
    case Allocated(u, text, v, b) => Extends(apply, s, u, text, b) && Fresh(s, v)
    case Inserting(u, text, v, b) => Extends(apply, s, u, text, b) && Fresh(s, v) && !s.writer.Unspawned?
    case Direct(u, text, v, b) => Extends(apply, s, u, text, b) && Fresh(s, v) && s.pending == map[]
    case Queued => !s.writer.Unspawned?
    case _ => true
  }

  /** `text` is what batch `b` makes of the document's latest text. */
  ghost predicate Extends<B>(apply: (string, B) -> Option<string>, s: State<B>, u: nat, text: string, b: B) {
    u in s.initial && Expected(apply, s, u).Some? && apply(Expected(apply, s, u).value, b) == Some(text)
  }

  ghost predicate WriterOk<B>(s: State<B>) {
    match s.writer
    case Unspawned => s.pending == map[]
    case Processing(u, edit, _) => u in s.pending && s.pending[u] == edit
    case Published(u, v, _) => u in s.pending && u in s.published && s.pending[u] == s.published[u] && s.published[u].version == v
    case Released(u, v, _) => u in s.pending && u in s.published && s.published[u].version == v
                              && (s.pending[u] == s.published[u] || v < s.pending[u].version)
    case _ => true
  }

  /** No lost wakeup: while something is pending, the writer is at work, or has a notification waiting for it, or is about
      to get one. */
  ghost predicate WakeupOk<B>(s: State<B>) {
    s.pending != map[] ==>
      s.permit || !s.writer.Waiting? || exists i :: 0 <= i < |s.handlers| && s.handlers[i].Queued?
  }

  ghost predicate Inv<B(!new)>(apply: (string, B) -> Option<string>, s: State<B>) {
    && LockOk(s) && TextOk(apply, s) && VersionsOk(s) && WriterOk(s) && WakeupOk(s)
    && forall i :: 0 <= i < |s.handlers| ==> HandlerOk(apply, s, s.handlers[i])
  }

  /* Every step keeps it. */

  lemma FoldOne<B>(apply: (string, B) -> Option<string>, text: string, batches: seq<B>, b: B)
    ensures Fold(apply, text, batches + [b]) == match Fold(apply, text, batches) case Some(t) => apply(t, b) case None => None
  {
    assert (batches + [b])[..|batches|] == batches;
  }

  /** What a handler's step leaves alone: the other handlers, the writer and, unless it puts its text somewhere, both
      tables. */
  ghost predicate HandlerFrame<B>(s: State<B>, t: State<B>, i: nat)
    requires i < |s.handlers|
  {
    && |t.handlers| == |s.handlers|
    && (forall j :: 0 <= j < |s.handlers| && j != i ==> t.handlers[j] == s.handlers[j])
    && t.writer == s.writer && t.initial == s.initial && s.nextVersion <= t.nextVersion
    && (s.permit || s.handlers[i].Queued? ==> t.permit)
    && (!s.handlers[i].Inserting? && !s.handlers[i].Direct? ==>
          t.pending == s.pending && t.published == s.published && t.accepted == s.accepted)
  }

  /** The lock is taken, kept or released by its rules. */
  predicate LockMoves(before: Lock, after: Lock, i: nat, held: bool, holds: bool) {
    && (if held then before == after || after.Free? else before.Free? && after == ByHandler(i))
    && (holds <==> !after.Free?)
  }

  /** The same of the action alone. */
  ghost predicate ActFrame<B>(s: State<B>, t: State<B>, h: Handler<B>) {
    && t.handlers == s.handlers && t.writer == s.writer && t.initial == s.initial && s.nextVersion <= t.nextVersion
    && (s.permit || h.Queued? ==> t.permit)
    && (!h.Inserting? && !h.Direct? ==> t.pending == s.pending && t.published == s.published && t.accepted == s.accepted)
  }

  lemma {:induction false} ActFrames<B>(apply: (string, B) -> Option<string>, s: State<B>, i: nat, h: Handler<B>)
    requires Act(apply, s, i, h).Some?
    ensures ActFrame(s, Act(apply, s, i, h).value.state, h)
  {
  }

  lemma {:induction false} HandlerFrames<B>(apply: (string, B) -> Option<string>, s: State<B>, i: nat)
    requires i < |s.handlers| && StepHandler(apply, s, i).Some?
    ensures HandlerFrame(s, StepHandler(apply, s, i).value, i)
  {
    ActFrames(apply, s, i, s.handlers[i]);
    var o := Act(apply, s, i, s.handlers[i]).value;
    FrameOfAct(s, o.state, o.next, i);
  }

  lemma {:induction false} FrameOfAct<B>(s: State<B>, t: State<B>, next: Handler<B>, i: nat)
    requires i < |s.handlers| && ActFrame(s, t, s.handlers[i])
    ensures HandlerFrame(s, t.(handlers := s.handlers[i := next]), i)
  {
  }

  lemma HandlerLocks<B>(apply: (string, B) -> Option<string>, s: State<B>, i: nat, h: Handler<B>)
    requires Act(apply, s, i, h).Some? && (HoldsLock(h) <==> s.treeLock == ByHandler(i))
    ensures var o := Act(apply, s, i, h).value;
      LockMoves(s.treeLock, o.state.treeLock, i, HoldsLock(h), HoldsLock(o.next))
  {
  }

  lemma {:induction false} HandlerKeepsInv<B(!new)>(apply: (string, B) -> Option<string>, s: State<B>, i: nat)
    requires Inv(apply, s) && i < |s.handlers| && StepHandler(apply, s, i).Some?
    ensures Inv(apply, StepHandler(apply, s, i).value)
  {
    var t := StepHandler(apply, s, i).value;
    HandlerFrames(apply, s, i);
    HandlerLocks(apply, s, i, s.handlers[i]);
    HandlerKeepsLock(s, t, i);
    HandlerKeepsOthers(apply, s, t, i);
    HandlerAdvances(apply, s, i);
    if s.handlers[i].Inserting? || s.handlers[i].Direct? {
      TextArrives(apply, s, i);
    } else {
      TablesStay(apply, s, t);
      WakeupStays(s, t, i);
    }
  }

  lemma HandlerKeepsLock<B>(s: State<B>, t: State<B>, i: nat)
    requires LockOk(s) && i < |s.handlers| && HandlerFrame(s, t, i)
    requires LockMoves(s.treeLock, t.treeLock, i, HoldsLock(s.handlers[i]), HoldsLock(t.handlers[i]))
    ensures LockOk(t)
  {
  }

  lemma {:induction false} TablesStay<B>(apply: (string, B) -> Option<string>, s: State<B>, t: State<B>)
    requires TextOk(apply, s) && VersionsOk(s) && WriterOk(s)
    requires t.pending == s.pending && t.published == s.published && t.accepted == s.accepted
    requires t.initial == s.initial && s.nextVersion <= t.nextVersion && t.writer == s.writer
    ensures TextOk(apply, t) && VersionsOk(t) && WriterOk(t)
  {
    assert forall u :: Latest(t, u) == Latest(s, u) && Expected(apply, t, u) == Expected(apply, s, u);
  }

  lemma WakeupStays<B>(s: State<B>, t: State<B>, i: nat)
    requires WakeupOk(s) && i < |s.handlers| && HandlerFrame(s, t, i) && t.pending == s.pending
    ensures WakeupOk(t)
  {
  }

  lemma {:induction false} TextArrives<B>(apply: (string, B) -> Option<string>, s: State<B>, i: nat)
    requires LockOk(s) && TextOk(apply, s) && VersionsOk(s) && WriterOk(s)
    requires i < |s.handlers| && HandlerOk(apply, s, s.handlers[i]) && (s.handlers[i].Inserting? || s.handlers[i].Direct?)
    ensures var t := StepHandler(apply, s, i).value; TextOk(apply, t) && VersionsOk(t) && WriterOk(t) && WakeupOk(t)
  {
    var t, h := StepHandler(apply, s, i).value, s.handlers[i];
    if h.Inserting? {
      TextIsQueued(apply, s, i, h);
    } else {
      TextIsPublished(apply, s, i, h);
    }
  }

  /** With the writer running, the text becomes the document's pending edit. */
  lemma {:induction false} TextIsQueued<B>(apply: (string, B) -> Option<string>, s: State<B>, i: nat, h: Handler<B>)
    requires LockOk(s) && TextOk(apply, s) && VersionsOk(s) && WriterOk(s)
    requires i < |s.handlers| && s.handlers[i] == h && h.Inserting? && HandlerOk(apply, s, h)
    ensures var t := StepHandler(apply, s, i).value; TextOk(apply, t) && VersionsOk(t) && WriterOk(t) && WakeupOk(t)
  {
    var t := StepHandler(apply, s, i).value;
    AcceptedText(apply, s, t, h.uri, h.batch);
    TextQueued(apply, s, t, h);
    assert t.handlers[i].Queued?;
  }

  /** Without a writer, nothing is pending and the text is published at once. */
  lemma {:induction false} TextIsPublished<B>(apply: (string, B) -> Option<string>, s: State<B>, i: nat, h: Handler<B>)
    requires LockOk(s) && TextOk(apply, s) && VersionsOk(s) && WriterOk(s)
    requires i < |s.handlers| && s.handlers[i] == h && h.Direct? && HandlerOk(apply, s, h)
    ensures var t := StepHandler(apply, s, i).value; TextOk(apply, t) && VersionsOk(t) && WriterOk(t) && WakeupOk(t)
  {
    var t := StepHandler(apply, s, i).value;
    AcceptedText(apply, s, t, h.uri, h.batch);
    assert !WriterHoldsLock(s.writer);
  }

  lemma {:induction false} TextQueued<B>(apply: (string, B) -> Option<string>, s: State<B>, t: State<B>, h: Handler<B>)
    requires TextOk(apply, s) && VersionsOk(s) && WriterOk(s) && h.Inserting? && HandlerOk(apply, s, h)
    requires !WriterHoldsLock(s.writer)
    requires t.pending == s.pending[h.uri := Edit(h.text, h.version)] && t.published == s.published
    requires t.writer == s.writer && t.nextVersion == s.nextVersion
    ensures VersionsOk(t) && WriterOk(t)
  {
  }

  /** The handler that steps is ready for its next step. */
  lemma {:induction false} HandlerAdvances<B>(apply: (string, B) -> Option<string>, s: State<B>, i: nat)
    requires TextOk(apply, s) && VersionsOk(s) && WriterOk(s) && i < |s.handlers| && StepHandler(apply, s, i).Some?
    requires HandlerOk(apply, s, s.handlers[i])
    ensures i < |StepHandler(apply, s, i).value.handlers|
    ensures HandlerOk(apply, StepHandler(apply, s, i).value, StepHandler(apply, s, i).value.handlers[i])
  {
    ActAdvances(apply, s, i, s.handlers[i]);
    var o := Act(apply, s, i, s.handlers[i]).value;
    HandlersDoNotMatter(apply, o.state, s.handlers[i := o.next], o.next);
  }

  lemma {:induction false} HandlersDoNotMatter<B>(apply: (string, B) -> Option<string>, s: State<B>, handlers: seq<Handler<B>>, h: Handler<B>)
    requires HandlerOk(apply, s, h)
    ensures HandlerOk(apply, s.(handlers := handlers), h)
  {
    assert forall u :: Expected(apply, s.(handlers := handlers), u) == Expected(apply, s, u);
  }

  lemma {:induction false} ActAdvances<B>(apply: (string, B) -> Option<string>, s: State<B>, i: nat, h: Handler<B>)
    requires TextOk(apply, s) && VersionsOk(s) && WriterOk(s) && Act(apply, s, i, h).Some? && HandlerOk(apply, s, h)
    ensures var o := Act(apply, s, i, h).value; HandlerOk(apply, o.state, o.next)
  {
    match h
    case Locked(_, _) => LookedUp(apply, s, i, h);
    case NotPending(_, _) => LookedUp(apply, s, i, h);
    case Allocating(_, _, _) => Drawn(apply, s, i, h);
    case _ =>
  }

  /** The text found, pending or published, is the latest. */
  lemma {:induction false} LookedUp<B>(apply: (string, B) -> Option<string>, s: State<B>, i: nat, h: Handler<B>)
    requires TextOk(apply, s) && (h.Locked? || h.NotPending?) && Act(apply, s, i, h).Some? && HandlerOk(apply, s, h)
    ensures var o := Act(apply, s, i, h).value; HandlerOk(apply, o.state, o.next)
  {
    var u := h.uri;
    assert u in s.pending ==> Latest(s, u) == Some(s.pending[u].text);
    assert u !in s.pending && u in s.published ==> Latest(s, u) == Some(s.published[u].text);
  }

  /** The version drawn is above all that are in use. */
  lemma {:induction false} Drawn<B>(apply: (string, B) -> Option<string>, s: State<B>, i: nat, h: Handler<B>)
    requires VersionsOk(s) && WriterOk(s) && h.Allocating? && HandlerOk(apply, s, h)
    ensures var o := Act(apply, s, i, h).value; HandlerOk(apply, o.state, o.next)
  {
    var t := s.(nextVersion := s.nextVersion + 1);
    assert Fresh(t, s.nextVersion);
    assert Expected(apply, t, h.uri) == Expected(apply, s, h.uri);
  }

  /** The others wait for the lock or are done, so nothing they rely on changes. */
  lemma HandlerKeepsOthers<B(!new)>(apply: (string, B) -> Option<string>, s: State<B>, t: State<B>, i: nat)
    requires LockOk(s) && LockOk(t) && i < |s.handlers| && HandlerFrame(s, t, i)
    requires LockMoves(s.treeLock, t.treeLock, i, HoldsLock(s.handlers[i]), HoldsLock(t.handlers[i]))
    ensures forall j :: 0 <= j < |t.handlers| && j != i ==> HandlerOk(apply, t, t.handlers[j])
  {
    forall j | 0 <= j < |t.handlers| && j != i
      ensures HandlerOk(apply, t, t.handlers[j])
    {
      assert !HoldsLock(s.handlers[j]);
    }
  }

  /** Accepting a batch whose result becomes the latest text. */
  lemma AcceptedText<B>(apply: (string, B) -> Option<string>, s: State<B>, t: State<B>, u: nat, b: B)
    requires TextOk(apply, s) && u in s.initial && Expected(apply, s, u).Some?
    requires t.initial == s.initial && t.accepted == Accept(s, u, b)
    requires t.published.Keys == s.published.Keys && t.pending.Keys <= s.pending.Keys + {u}
    requires Latest(t, u) == apply(Expected(apply, s, u).value, b)
    requires forall w :: w != u ==> Latest(t, w) == Latest(s, w)
    ensures TextOk(apply, t)
  {
    AcceptExtends(apply, s, t, u, b);
    forall w | w in t.initial
      ensures Latest(t, w) == Expected(apply, t, w)
    {
      assert Latest(s, w) == Expected(apply, s, w);
    }
  }

  lemma AcceptExtends<B>(apply: (string, B) -> Option<string>, s: State<B>, t: State<B>, u: nat, b: B)
    requires u in s.initial && Expected(apply, s, u).Some? && t.initial == s.initial && t.accepted == Accept(s, u, b)
    ensures Expected(apply, t, u) == apply(Expected(apply, s, u).value, b)
    ensures forall w :: w != u ==> Expected(apply, t, w) == Expected(apply, s, w)
  {
    FoldOne(apply, s.initial[u], s.accepted[u], b);
  }

  /** What the writer's step leaves alone. */
  ghost predicate WriterFrame<B>(s: State<B>, t: State<B>) {
    && t.handlers == s.handlers && t.initial == s.initial && t.accepted == s.accepted && t.nextVersion == s.nextVersion
    && (!s.writer.Processing? ==> t.published == s.published)
    && (!s.writer.Released? ==> t.pending == s.pending)
  }

  lemma {:induction false} ListingFrames<B>(s: State<B>, order: seq<nat>, t: State<B>)
    requires StepWriter(s, order) == Some(t) && (s.writer.Waiting? || s.writer.Draining? || s.writer.Next?)
    ensures WriterFrame(s, t)
  {
  }

  lemma {:induction false} PublishingFrames<B>(s: State<B>, order: seq<nat>, t: State<B>)
    requires StepWriter(s, order) == Some(t) && (s.writer.Holding? || s.writer.Processing?)
    ensures WriterFrame(s, t)
  {
  }

  lemma {:induction false} RemovingFrames<B>(s: State<B>, order: seq<nat>, t: State<B>)
    requires StepWriter(s, order) == Some(t) && (s.writer.Published? || s.writer.Released?)
    ensures WriterFrame(s, t)
  {
  }

  lemma {:induction false} WriterFrames<B>(s: State<B>, order: seq<nat>)
    requires StepWriter(s, order).Some?
    ensures WriterFrame(s, StepWriter(s, order).value)
  {
    var t := StepWriter(s, order).value;
    match s.writer
    case Holding(_, _) => PublishingFrames(s, order, t);
    case Processing(_, _, _) => PublishingFrames(s, order, t);
    case Published(_, _, _) => RemovingFrames(s, order, t);
    case Released(_, _, _) => RemovingFrames(s, order, t);
    case _ => ListingFrames(s, order, t);
  }

  /** The writer takes a free lock, keeps its own or frees it. */
  ghost predicate WriterLockMoves<B>(s: State<B>, t: State<B>) {
    && (WriterHoldsLock(t.writer) <==> t.treeLock.ByWriter?)
    && (s.treeLock == t.treeLock || (!s.treeLock.ByHandler? && !t.treeLock.ByHandler?))
  }

  lemma {:induction false} ListingLocks<B>(s: State<B>, order: seq<nat>, t: State<B>)
    requires (WriterHoldsLock(s.writer) <==> s.treeLock.ByWriter?) && StepWriter(s, order) == Some(t)
    requires s.writer.Waiting? || s.writer.Draining? || s.writer.Next?
    ensures WriterLockMoves(s, t)
  {
  }

  lemma {:induction false} PublishingLocks<B>(s: State<B>, order: seq<nat>, t: State<B>)
    requires (WriterHoldsLock(s.writer) <==> s.treeLock.ByWriter?) && StepWriter(s, order) == Some(t)
    requires !s.writer.Waiting? && !s.writer.Draining? && !s.writer.Next?
    ensures WriterLockMoves(s, t)
  {
  }

  lemma {:induction false} WriterLocks<B>(s: State<B>, order: seq<nat>)
    requires (WriterHoldsLock(s.writer) <==> s.treeLock.ByWriter?) && StepWriter(s, order).Some?
    ensures WriterLockMoves(s, StepWriter(s, order).value)
  {
    var t := StepWriter(s, order).value;
    match s.writer
    case Waiting => ListingLocks(s, order, t);
    case Draining => ListingLocks(s, order, t);
    case Next(_) => ListingLocks(s, order, t);
    case _ => PublishingLocks(s, order, t);
  }

  lemma WriterKeepsLock<B>(s: State<B>, t: State<B>)
    requires LockOk(s) && WriterFrame(s, t) && WriterLockMoves(s, t)
    ensures LockOk(t)
  {
  }

  /** Neither the publish nor the version-checked removal changes any document's latest text. */
  lemma WriterKeepsLatest<B>(s: State<B>, order: seq<nat>, u: nat)
    requires WriterOk(s) && StepWriter(s, order).Some?
    ensures Latest(StepWriter(s, order).value, u) == Latest(s, u)
  {
    var t := StepWriter(s, order).value;
    if s.writer.Released? {
      assert t.published == s.published;
    } else if s.writer.Processing? {
      assert t.pending == s.pending;
    } else {
      WriterFrames(s, order);
    }
  }

  lemma {:induction false} WriterKeepsTables<B>(apply: (string, B) -> Option<string>, s: State<B>, order: seq<nat>)
    requires TextOk(apply, s) && VersionsOk(s) && WriterOk(s) && StepWriter(s, order).Some?
    ensures var t := StepWriter(s, order).value; TextOk(apply, t) && VersionsOk(t)
  {
    var t := StepWriter(s, order).value;
    WriterFrames(s, order);
    assert t.published.Keys == s.published.Keys;
    forall u
      ensures Latest(t, u) == Latest(s, u) && Expected(apply, t, u) == Expected(apply, s, u)
    {
      WriterKeepsLatest(s, order, u);
    }
  }

  lemma {:induction false} WriterAdvances<B>(s: State<B>, order: seq<nat>)
    requires VersionsOk(s) && WriterOk(s) && StepWriter(s, order).Some?
    ensures WriterOk(StepWriter(s, order).value)
  {
  }

  lemma WriterKeepsWakeup<B>(s: State<B>, order: seq<nat>)
    requires WakeupOk(s) && StepWriter(s, order).Some?
    ensures WakeupOk(StepWriter(s, order).value)
  {
    WriterFrames(s, order);
    if s.writer.Draining? && order == [] {
      assert forall u :: u !in s.pending.Keys;
      assert s.pending == map[];
    }
  }

  /** A handler past `Arrived` holds the lock, so the writer is then at a step that takes nothing from it. */
  lemma WriterKeepsHandler<B>(apply: (string, B) -> Option<string>, s: State<B>, t: State<B>, h: Handler<B>)
    requires WriterOk(s) && HandlerOk(apply, s, h) && WriterFrame(s, t)
    requires HoldsLock(h) ==> !WriterHoldsLock(s.writer)
    requires s.writer.Released? ==> t.pending.Keys <= s.pending.Keys && forall u :: u in t.pending ==> t.pending[u] == s.pending[u]
    requires t.writer.Unspawned? <==> s.writer.Unspawned?
    requires t.writer.Released? ==> s.writer.Published?
    ensures HandlerOk(apply, t, h)
  {
    if HoldsLock(h) {
      assert t.published == s.published;
      assert forall u :: Expected(apply, t, u) == Expected(apply, s, u);
    }
  }

  lemma {:induction false} WriterKeepsInv<B(!new)>(apply: (string, B) -> Option<string>, s: State<B>, order: seq<nat>)
    requires Inv(apply, s) && StepWriter(s, order).Some?
    ensures Inv(apply, StepWriter(s, order).value)
  {
    var t := StepWriter(s, order).value;
    WriterFrames(s, order);
    WriterLocks(s, order);
    WriterKeepsLock(s, t);
    WriterKeepsTables(apply, s, order);
    WriterAdvances(s, order);
    WriterKeepsWakeup(s, order);
    forall i | 0 <= i < |t.handlers|
      ensures HandlerOk(apply, t, t.handlers[i])
    {
      WriterKeepsHandler(apply, s, t, s.handlers[i]);
    }
  }

  lemma {:induction false} ArriveKeepsInv<B(!new)>(apply: (string, B) -> Option<string>, s: State<B>, u: nat, b: B)
    requires Inv(apply, s)
    ensures Inv(apply, Step(apply, s, Arrive(u, b)).value)
  {
    var handlers := s.handlers + [Arrived(u, b)];
    var t := s.(handlers := handlers);
    TablesStay(apply, s, t);
    assert forall i :: 0 <= i < |s.handlers| ==> handlers[i] == s.handlers[i];
    forall i | 0 <= i < |t.handlers|
      ensures HandlerOk(apply, t, t.handlers[i])
    {
      if i < |s.handlers| {
        HandlersDoNotMatter(apply, s, handlers, s.handlers[i]);
      }
    }
  }

  lemma {:induction false} SpawnKeepsInv<B(!new)>(apply: (string, B) -> Option<string>, s: State<B>)
    requires Inv(apply, s) && s.writer.Unspawned?
    ensures Inv(apply, s.(writer := Waiting))
  {
    var t := s.(writer := Waiting);
    assert forall u :: Latest(t, u) == Latest(s, u) && Expected(apply, t, u) == Expected(apply, s, u);
    forall i | 0 <= i < |t.handlers|
      ensures HandlerOk(apply, t, t.handlers[i])
    {
      assert HandlerOk(apply, s, s.handlers[i]);
    }
  }

  lemma {:induction false} StepKeepsInv<B(!new)>(apply: (string, B) -> Option<string>, s: State<B>, a: Action<B>)
    requires Inv(apply, s) && Step(apply, s, a).Some?
    ensures Inv(apply, Step(apply, s, a).value)
  {
    match a
    case Arrive(u, b) => ArriveKeepsInv(apply, s, u, b);
    case Spawn => SpawnKeepsInv(apply, s);
    case HandlerStep(i) => HandlerKeepsInv(apply, s, i);
    case WriterStep(order) => WriterKeepsInv(apply, s, order);
  }

  lemma InitHolds<B(!new)>(apply: (string, B) -> Option<string>, s: State<B>)
    requires Init(s)
    ensures Inv(apply, s)
  {
  }

  lemma {:induction false} RunKeepsInv<B(!new)>(apply: (string, B) -> Option<string>, s: State<B>, actions: seq<Action<B>>)
    requires Inv(apply, s) && Run(apply, s, actions).Some?
    ensures Inv(apply, Run(apply, s, actions).value)
    decreases |actions|
  {
    if actions != [] {
      RunKeepsInv(apply, s, actions[..|actions| - 1]);
      StepKeepsInv(apply, Run(apply, s, actions[..|actions| - 1]).value, actions[|actions| - 1]);
    }
  }

  /* What follows. */

  /** In every interleaving, the latest text of an open document is its initial text with the accepted batches applied in
      turn. */
  lemma NoTextIsLost<B(!new)>(apply: (string, B) -> Option<string>, s: State<B>, actions: seq<Action<B>>, uri: nat)
    requires Init(s) && Run(apply, s, actions).Some? && uri in s.initial
    ensures var t := Run(apply, s, actions).value;
      && Latest(t, uri).Some? && uri in t.accepted
      && Latest(t, uri) == Fold(apply, s.initial[uri], t.accepted[uri])
  {
    InitHolds(apply, s);
    RunKeepsInv(apply, s, actions);
    InitialStays(apply, s, actions);
  }

  lemma {:induction false} InitialStays<B(!new)>(apply: (string, B) -> Option<string>, s: State<B>, actions: seq<Action<B>>)
    requires Run(apply, s, actions).Some?
    ensures Run(apply, s, actions).value.initial == s.initial
    decreases |actions|
  {
    if actions != [] {
      InitialStays(apply, s, actions[..|actions| - 1]);
      var t, a := Run(apply, s, actions[..|actions| - 1]).value, actions[|actions| - 1];
      if a.HandlerStep? {
        HandlerFrames(apply, t, a.i);
      } else if a.WriterStep? {
        WriterFrames(t, a.order);
      }
    }
  }

  /** A handler that gives up does so because the document is not open, or because its batch does not apply to the
      document's latest text. */
  lemma {:induction false} BatchDroppedOnlyIfUnusable<B(!new)>(apply: (string, B) -> Option<string>, s: State<B>, i: nat)
    requires Inv(apply, s) && i < |s.handlers| && StepHandler(apply, s, i).Some?
    requires StepHandler(apply, s, i).value.handlers[i].Finished? && !s.handlers[i].Notified?
    ensures var u := s.handlers[i].uri;
      match Latest(s, u) case Some(text) => apply(text, s.handlers[i].batch) == None case None => true
    ensures StepHandler(apply, s, i).value.accepted == s.accepted
  {
    assert s.handlers[i].NotPending? || s.handlers[i].Applying?;
  }

  /** No step takes a published document back to an older parse. */
  lemma {:induction false} PublishedNeverOlder<B(!new)>(apply: (string, B) -> Option<string>, s: State<B>, a: Action<B>, uri: nat)
    requires Inv(apply, s) && Step(apply, s, a).Some? && uri in s.published
    ensures var t := Step(apply, s, a).value;
      && uri in t.published && s.published[uri].version <= t.published[uri].version
      && (s.published[uri].version == t.published[uri].version ==> s.published[uri] == t.published[uri])
  {
    if a.HandlerStep? {
      HandlerFrames(apply, s, a.i);
      assert HandlerOk(apply, s, s.handlers[a.i]);
    } else if a.WriterStep? {
      WriterFrames(s, a.order);
    }
  }

  lemma {:induction false} PublishedVersionsGrow<B(!new)>(
      apply: (string, B) -> Option<string>, s: State<B>, actions: seq<Action<B>>, n: nat, uri: nat)
    requires Init(s) && n <= |actions| && Run(apply, s, actions).Some? && uri in s.published
    ensures Run(apply, s, actions[..n]).Some?
    ensures var early, late := Run(apply, s, actions[..n]).value, Run(apply, s, actions).value;
      && uri in early.published && uri in late.published
      && early.published[uri].version <= late.published[uri].version
    decreases |actions|
  {
    InitHolds(apply, s);
    RunKeepsInv(apply, s, actions);
    InitialStays(apply, s, actions);
    if n == |actions| {
      assert actions[..n] == actions;
    } else {
      var shorter := actions[..|actions| - 1];
      PublishedVersionsGrow(apply, s, shorter, n, uri);
      assert shorter[..n] == actions[..n];
      RunKeepsInv(apply, s, shorter);
      PublishedNeverOlder(apply, Run(apply, s, shorter).value, actions[|actions| - 1], uri);
    }
  }

  /** In every reachable state with something pending, the writer is at work or will be told to be. */
  lemma NoLostWakeup<B(!new)>(apply: (string, B) -> Option<string>, s: State<B>, actions: seq<Action<B>>)
    requires Init(s) && Run(apply, s, actions).Some? && Run(apply, s, actions).value.pending != map[]
    ensures var t := Run(apply, s, actions).value;
      && !t.writer.Unspawned?
      && (t.permit || !t.writer.Waiting? || exists i :: 0 <= i < |t.handlers| && t.handlers[i].Queued?)
  {
    InitHolds(apply, s);
    RunKeepsInv(apply, s, actions);
  }

  /* Once the handlers are quiet the writer publishes everything. */

  /** No handler is between taking the lock and releasing it. */
  predicate Quiet<B>(s: State<B>) {
    forall i :: 0 <= i < |s.handlers| ==> !HoldsLock(s.handlers[i])
  }

  /** The writer, stepping alone, can take `s` to `t`. */
  ghost predicate WriterReaches<B(!new)>(apply: (string, B) -> Option<string>, s: State<B>, t: State<B>) {
    exists actions: seq<Action<B>> :: WriterOnly(actions) && Run(apply, s, actions) == Some(t)
  }

  predicate WriterOnly<B>(actions: seq<Action<B>>) {
    forall i :: 0 <= i < |actions| ==> actions[i].WriterStep?
  }

  lemma {:induction false} WriterMoves<B(!new)>(
      apply: (string, B) -> Option<string>, s: State<B>, t: State<B>, order: seq<nat>, u: State<B>)
    requires WriterReaches(apply, s, t) && Inv(apply, t) && Quiet(t) && StepWriter(t, order) == Some(u)
    ensures WriterReaches(apply, s, u) && Inv(apply, u) && Quiet(u) && u.handlers == t.handlers
    ensures u.accepted == t.accepted && u.initial == t.initial
  {
    var actions: seq<Action<B>> :| WriterOnly(actions) && Run(apply, s, actions) == Some(t);
    var more := actions + [WriterStep(order)];
    assert more[..|actions|] == actions;
    assert Step(apply, t, WriterStep(order)) == Some(u);
    assert Run(apply, s, more) == Some(u);
    assert WriterOnly(more);
    WriterKeepsInv(apply, t, order);
    WriterFrames(t, order);
  }

  lemma ReachesItself<B(!new)>(apply: (string, B) -> Option<string>, s: State<B>)
    ensures WriterReaches(apply, s, s)
  {
    var none: seq<Action<B>> := [];
    assert WriterOnly(none) && Run(apply, s, none) == Some(s);
  }

  /** How many steps the writer is from listing the pending edits again. */
  function Distance(w: Writer): nat {
    match w
    case Next(rest) => 5 * |rest| + 1
    case Holding(_, rest) => 5 * |rest| + 5
    case Processing(_, _, rest) => 5 * |rest| + 4
    case Published(_, _, rest) => 5 * |rest| + 3
    case Released(_, _, rest) => 5 * |rest| + 2
    case _ => 0
  }

  /** The documents the writer's current pass still has to deal with. */
  function ToDo(w: Writer): set<nat> {
    match w
    case Next(rest) => set u | u in rest
    case Holding(v, rest) => {v} + (set u | u in rest)
    case Processing(v, _, rest) => {v} + (set u | u in rest)
    case Published(v, _, rest) => {v} + (set u | u in rest)
    case Released(v, _, rest) => {v} + (set u | u in rest)
    case _ => {}
  }

  /** The edit the writer is about to remove has not been replaced since it was published. */
  predicate Settled<B>(s: State<B>) {
    s.writer.Released? && s.writer.uri in s.pending ==> s.pending[s.writer.uri].version == s.writer.version
  }

  /** `t` is nearer the end of the writer's pass than `s`. */
  predicate Nearer<B>(s: State<B>, t: State<B>) {
    && Distance(t.writer) < Distance(s.writer)
    && (Distance(t.writer) == 0 ==> t.writer.Draining?)
    && (Settled(s) ==> Settled(t) && t.pending.Keys - ToDo(t.writer) <= s.pending.Keys - ToDo(s.writer))
  }

  lemma {:induction false} NextNearer<B>(s: State<B>, t: State<B>)
    requires s.writer.Next? && s.treeLock.Free? && StepWriter(s, []) == Some(t)
    ensures Nearer(s, t)
  {
    if s.writer.rest != [] {
      assert s.writer.rest == [s.writer.rest[0]] + s.writer.rest[1..];
      assert ToDo(t.writer) == ToDo(s.writer);
    }
  }

  lemma {:induction false} HolderNearer<B>(s: State<B>, t: State<B>)
    requires WriterOk(s) && WriterHoldsLock(s.writer) && StepWriter(s, []) == Some(t)
    ensures Nearer(s, t)
  {
  }

  lemma {:induction false} RemovalNearer<B>(s: State<B>, t: State<B>)
    requires s.writer.Released? && StepWriter(s, []) == Some(t)
    ensures Nearer(s, t)
  {
  }

  /** In the middle of a pass, with the handlers quiet, the writer can step, gets nearer the pass's end, and a document
      leaves the pass only once nothing is pending for it. */
  lemma {:induction false} PassStep<B(!new)>(apply: (string, B) -> Option<string>, s: State<B>)
    requires Inv(apply, s) && Quiet(s) && Distance(s.writer) > 0
    ensures StepWriter(s, []).Some?
    ensures Nearer(s, StepWriter(s, []).value)
  {
    assert !s.treeLock.ByHandler?;
    var t := StepWriter(s, []).value;
    match s.writer
    case Next(_) => NextNearer(s, t);
    case Released(_, _, _) => RemovalNearer(s, t);
    case _ => HolderNearer(s, t);
  }

  lemma {:induction false} FinishPass<B(!new)>(apply: (string, B) -> Option<string>, s: State<B>, t: State<B>)
      returns (u: State<B>)
    requires WriterReaches(apply, s, t) && Inv(apply, t) && Quiet(t) && (Distance(t.writer) > 0 || t.writer.Draining?)
    ensures WriterReaches(apply, s, u) && Inv(apply, u) && Quiet(u) && u.writer.Draining?
    ensures Settled(t) ==> u.pending.Keys <= t.pending.Keys - ToDo(t.writer)
    ensures u.accepted == t.accepted && u.initial == t.initial
    decreases Distance(t.writer)
  {
    if t.writer.Draining? {
      u := t;
    } else {
      PassStep(apply, t);
      var next := StepWriter(t, []).value;
      WriterMoves(apply, s, t, [], next);
      u := FinishPass(apply, s, next);
    }
  }

  lemma {:induction false} SomeListing(keys: set<nat>) returns (order: seq<nat>)
    ensures Lists(order, keys)
    decreases keys
  {
    if keys == {} {
      order := [];
    } else {
      var k :| k in keys;
      var rest := SomeListing(keys - {k});
      order := [k] + rest;
      assert forall u :: u in order <==> u == k || u in rest;
    }
  }

  lemma LatestIsPublished<B(!new)>(apply: (string, B) -> Option<string>, s: State<B>, t: State<B>)
    requires TextOk(apply, s) && TextOk(apply, t) && t.pending == map[]
    requires t.accepted == s.accepted && t.initial == s.initial
    ensures t.published.Keys == s.published.Keys
    ensures forall u :: u in t.published ==> Some(t.published[u].text) == Latest(s, u)
  {
    forall u | u in t.published
      ensures Some(t.published[u].text) == Latest(s, u)
    {
      assert Latest(t, u) == Expected(apply, t, u) == Expected(apply, s, u);
    }
  }

  /** From every reachable state whose handlers are quiet, the writer alone can publish the latest text of every
      document and leave nothing pending. */
  lemma {:induction false} WriterCatchesUp<B(!new)>(apply: (string, B) -> Option<string>, s: State<B>)
    requires Inv(apply, s) && Quiet(s) && !s.writer.Unspawned?
    ensures exists t ::
      && WriterReaches(apply, s, t) && t.pending == map[] && t.accepted == s.accepted
      && t.published.Keys == s.published.Keys
      && forall u :: u in t.published ==> Some(t.published[u].text) == Latest(s, u)
  {
    ReachesItself(apply, s);
    var t := s;
    if s.pending != map[] {
      t := ReachDraining(apply, s);
      t := DrainAll(apply, s, t);
    }
    LatestIsPublished(apply, s, t);
  }

  lemma {:induction false} ReachDraining<B(!new)>(apply: (string, B) -> Option<string>, s: State<B>)
      returns (t: State<B>)
    requires Inv(apply, s) && Quiet(s) && !s.writer.Unspawned? && s.pending != map[]
    ensures WriterReaches(apply, s, t) && Inv(apply, t) && Quiet(t) && t.writer.Draining?
    ensures t.accepted == s.accepted && t.initial == s.initial
  {
    ReachesItself(apply, s);
    t := s;
    if s.writer.Waiting? {
      t := StepWriter(s, []).value;
      WriterMoves(apply, s, s, [], t);
    }
    t := FinishPass(apply, s, t);
  }

  /** One pass over everything pending leaves nothing pending. */
  lemma {:induction false} DrainAll<B(!new)>(apply: (string, B) -> Option<string>, s: State<B>, t: State<B>)
      returns (u: State<B>)
    requires WriterReaches(apply, s, t) && Inv(apply, t) && Quiet(t) && t.writer.Draining?
    ensures WriterReaches(apply, s, u) && Inv(apply, u) && u.pending == map[]
    ensures u.accepted == t.accepted && u.initial == t.initial
  {
    u := t;
    if t.pending != map[] {
      var order := SomeListing(t.pending.Keys);
      assert order != [] by {
        var k :| k in t.pending;
        assert k in order;
      }
      var next := t.(writer := Next(order));
      WriterMoves(apply, s, t, order, next);
      u := FinishPass(apply, s, next);
      assert u.pending.Keys == {};
    }
  }
}
