/** The edit queue and the content changes together: what the server holds for a document is what the client typed. */
module DocumentSync {
  import opened Wrappers
  import opened LineIndex
  import EditQueue
  import EditProgress

  /** A change with a range.  A change without one replaces the document and does not go through the queue. */
  type RangeChange = c: Change | c.range.Some? witness Change(Some(Range(Position(0, 0), Position(0, 0))), "")

  type Batch = seq<RangeChange>

  /** What a handler makes of a batch. */
  function Applied(text: string, batch: Batch): Option<string> {
    match ApplyBatch(text, batch) case Some(b) => Some(b.text) case None => None
  }

  function Changes(batches: seq<Batch>): seq<RangeChange> {
    if batches == [] then [] else Changes(batches[..|batches| - 1]) + batches[|batches| - 1]
  }

  lemma {:induction false} BatchConcat(text: string, a: Batch, b: Batch)
    ensures Applied(text, a + b) == match Applied(text, a) case Some(t) => Applied(t, b) case None => None
    decreases |b|
  {
    if b == [] {
      assert a + b == a;
    } else {
      var front := b[..|b| - 1];
      assert (a + b)[..|a + b| - 1] == a + front;
      BatchConcat(text, a, front);
    }
  }

  /** Batch after batch is change after change. */
  lemma {:induction false} BatchesAreChanges(text: string, batches: seq<Batch>)
    ensures EditQueue.Fold(Applied, text, batches) == Applied(text, Changes(batches))
    decreases |batches|
  {
    if batches != [] {
      BatchesAreChanges(text, batches[..|batches| - 1]);
      BatchConcat(text, Changes(batches[..|batches| - 1]), batches[|batches| - 1]);
    }
  }

  /** A batch of ranged changes never invalidates the previous tree. */
  lemma {:induction false} RangedBatchIsIncremental(text: string, batch: Batch)
    ensures ApplyBatch(text, batch).Some? ==> ApplyBatch(text, batch).value.incremental
    decreases |batch|
  {
    if batch != [] {
      RangedBatchIsIncremental(text, batch[..|batch| - 1]);
    }
  }

  /** In every interleaving, the server's latest text of a document is the text it was opened with, with every change of
      every accepted batch applied to it in order. */
  lemma ServerHoldsWhatWasTyped(
      s: EditQueue.State<Batch>, actions: seq<EditQueue.Action<Batch>>, t: EditQueue.State<Batch>, uri: nat)
    requires EditQueue.Init(s) && EditQueue.Run(Applied, s, actions) == Some(t) && uri in s.initial
    ensures uri in t.accepted && EditQueue.Latest(t, uri).Some?
    ensures EditQueue.Latest(t, uri) == Applied(s.initial[uri], Changes(t.accepted[uri]))
  {
    EditQueue.NoTextIsLost(Applied, s, actions, uri);
    BatchesAreChanges(s.initial[uri], t.accepted[uri]);
  }

  /** However the handlers and the writer interleave: whenever nobody can step, the published documents are those texts. */
  lemma {:induction false} RestHoldsWhatWasTyped(
      s: EditQueue.State<Batch>, actions: seq<EditQueue.Action<Batch>>, t: EditQueue.State<Batch>)
    requires EditQueue.Init(s) && EditQueue.Run(Applied, s, actions) == Some(t)
    requires !t.writer.Unspawned? && EditProgress.AtRest(Applied, t)
    ensures t.pending == map[] && t.published.Keys == s.initial.Keys
    ensures forall uri :: uri in s.initial ==>
      uri in t.accepted && Some(t.published[uri].text) == Applied(s.initial[uri], Changes(t.accepted[uri]))
  {
    EditQueue.InitHolds(Applied, s);
    EditQueue.RunKeepsInv(Applied, s, actions);
    EditQueue.InitialStays(Applied, s, actions);
    EditProgress.RestIsPublished(Applied, t);
    forall uri | uri in s.initial
      ensures uri in t.accepted && Some(t.published[uri].text) == Applied(s.initial[uri], Changes(t.accepted[uri]))
    {
      BatchesAreChanges(s.initial[uri], t.accepted[uri]);
    }
  }

  /** And from every state that can be reached with the writer running, steps of the handlers and the writer lead there. */
  lemma {:induction false} WriterPublishesWhatWasTyped(
      s: EditQueue.State<Batch>, actions: seq<EditQueue.Action<Batch>>, t: EditQueue.State<Batch>)
      returns (more: seq<EditQueue.Action<Batch>>, u: EditQueue.State<Batch>)
    requires EditQueue.Init(s) && EditQueue.Run(Applied, s, actions) == Some(t) && !t.writer.Unspawned?
    ensures (forall k :: 0 <= k < |more| ==> EditProgress.Own(more[k])) && EditQueue.Run(Applied, t, more) == Some(u)
    ensures u.pending == map[] && u.published.Keys == s.initial.Keys
    ensures forall i :: 0 <= i < |u.handlers| ==> u.handlers[i].Finished?
    ensures forall uri :: uri in s.initial ==>
      uri in u.accepted && Some(u.published[uri].text) == Applied(s.initial[uri], Changes(u.accepted[uri]))
  {
    EditQueue.InitHolds(Applied, s);
    EditQueue.RunKeepsInv(Applied, s, actions);
    EditQueue.InitialStays(Applied, s, actions);
    more, u := EditProgress.ComesToRest(Applied, t);
    forall uri | uri in s.initial
      ensures uri in u.accepted && Some(u.published[uri].text) == Applied(s.initial[uri], Changes(u.accepted[uri]))
    {
      BatchesAreChanges(s.initial[uri], u.accepted[uri]);
    }
  }
}
