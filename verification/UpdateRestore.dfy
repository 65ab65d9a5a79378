/**
 Restoring the backup of an update into a new installation: what `punaro restore` with the update's receipt brings back,
 and that the receipt authorizes exactly that for as long as it is there.
 */
module UpdateRestore {
  import opened Options
  import opened UpdatePhases
  import opened UpdateHistory
  import opened UpdateTheorems

  /** The new installation: the database of the snapshot under a new timeline, its one unfinished row set to
      recovery_required with the marker rebuilt from the receipt; the previous configuration, nothing staged, nothing
      running. */
  function RestoredFrom(w: World, timeline: Name): World
    requires WellFormed(w) && HasReceipt(w)
  {
    var receipt := w.stage.value.receipt.value;
    var request := w.transactions[receipt.updateId].request;
    World(
      w.transactions[receipt.updateId := Transaction(request, RecoveryRequired, Some(ReceiptMarker(receipt)))],
      None, request.sourceImage, Stopped,
      Database(receipt.sourceSchema, false, ServerState(receipt.installationId, timeline, receipt.changeSequence)))
  }

  /** The staged update is the only one that can be active. */
  lemma OthersAreDone(w: World, id: Name)
    requires WellFormed(w) && HasReceipt(w) && id in w.transactions && id != w.stage.value.receipt.value.updateId
    ensures Terminal(w.transactions[id].phase)
  {
    assert !Active(w, id);
  }

  lemma RestoredIsOwned(w: World, timeline: Name)
    requires WellFormed(w) && HasReceipt(w)
    ensures Owned(RestoredFrom(w, timeline))
    ensures forall a | Active(RestoredFrom(w, timeline), a) :: a == w.stage.value.receipt.value.updateId
  {
    var w' := RestoredFrom(w, timeline);
    var id := w.stage.value.receipt.value.updateId;
    forall a | Active(w', a)
      ensures a == id
    {
      if a != id { OthersAreDone(w, a); }
    }
  }

  /** From whatever reachable world the receipt is taken, the restored installation is a well-formed one. */
  lemma RestoredIsWellFormed(w: World, timeline: Name)
    requires WellFormed(w) && HasReceipt(w) && timeline != EMPTY
    ensures WellFormed(RestoredFrom(w, timeline))
  {
    RestoredIsOwned(w, timeline);
    var w' := RestoredFrom(w, timeline);
    var id := w.stage.value.receipt.value.updateId;
    assert Active(w', id) && w'.transactions[id].request == w.transactions[id].request;
  }

  /** While a receipt stays bound no other row of the database changes, and the update keeps its request. */
  lemma RowsStay(w: World, last: Option<Event>, e: Event)
    requires WellFormed(w) && Guard(w, last, e) && HasReceipt(w) && !e.StageRemoved?
    ensures var id := w.stage.value.receipt.value.updateId;
            && id in Apply(w, e).transactions
            && Apply(w, e).transactions[id].request == w.transactions[id].request
            && Apply(w, e).transactions - {id} == w.transactions - {id}
  {
    if e.Advanced? { assert Active(w, e.id); }
  }

  lemma ReceiptStays(w: World, last: Option<Event>, e: Event)
    requires Guard(w, last, e) && HasReceipt(w) && !e.StageRemoved?
    ensures HasReceipt(Apply(w, e)) && Apply(w, e).stage.value.receipt == w.stage.value.receipt
  {
  }

  lemma SameRestored(w: World, w': World, timeline: Name)
    requires WellFormed(w) && WellFormed(w') && HasReceipt(w) && HasReceipt(w')
    requires w.stage.value.receipt == w'.stage.value.receipt
    requires var id := w.stage.value.receipt.value.updateId;
             && w'.transactions[id].request == w.transactions[id].request
             && w'.transactions - {id} == w.transactions - {id}
    ensures RestoredFrom(w', timeline) == RestoredFrom(w, timeline)
  {
    var id := w.stage.value.receipt.value.updateId;
    var marker := ReceiptMarker(w.stage.value.receipt.value);
    var t := Transaction(w.transactions[id].request, RecoveryRequired, Some(marker));
    assert (w.transactions - {id})[id := t] == w.transactions[id := t];
    assert (w'.transactions - {id})[id := t] == w'.transactions[id := t];
  }

  ghost predicate Kept(h: seq<Event>, k: nat, n: nat)
    requires n <= |h|
  {
    forall i: nat :: k <= i < n ==> !h[i].StageRemoved?
  }

  /** However far the update has come, its receipt brings back what it would have brought back when it was bound. */
  lemma {:induction false} RestoresTheSnapshot(start: World, h: seq<Event>, k: nat, n: nat, timeline: Name)
    requires WellFormed(start) && Legal(start, h) && k <= n <= |h| && Kept(h, k, n)
    requires HasReceipt(Replay(start, h[..k]))
    ensures WellFormed(Replay(start, h[..k])) && WellFormed(Replay(start, h[..n])) && HasReceipt(Replay(start, h[..n]))
    ensures RestoredFrom(Replay(start, h[..n]), timeline) == RestoredFrom(Replay(start, h[..k]), timeline)
  {
    LegalPrefix(start, h, k);
    ReachableIsWellFormed(start, h[..k]);
    if k < n {
      var m := n - 1;
      RestoresTheSnapshot(start, h, k, m, timeline);
      LegalPrefix(start, h, m);
      var w := Replay(start, h[..m]);
      WellFormedStep(w, Last(h[..m]), h[m]);
      RowsStay(w, Last(h[..m]), h[m]);
      ReceiptStays(w, Last(h[..m]), h[m]);
      SameRestored(w, Replay(start, h[..n]), timeline);
    }
  }

  /** And when it was bound, that was the database as it stood, but for the update's own row and the timeline. */
  lemma BoundToThePresent(start: World, h: seq<Event>, k: nat, timeline: Name)
    requires WellFormed(start) && Legal(start, h) && k < |h| && h[k].ReceiptBound?
    ensures WellFormed(Replay(start, h[..k + 1])) && HasReceipt(Replay(start, h[..k + 1]))
    ensures var w := Replay(start, h[..k + 1]);
            var restored := RestoredFrom(w, timeline);
            && restored.data == w.data.(state := w.data.state.(timelineId := timeline)) && restored.image == w.image
            && At(w, h[k].receipt.updateId, WritersStopped)
            && restored.transactions - {h[k].receipt.updateId} == w.transactions - {h[k].receipt.updateId}
  {
    LegalPrefix(start, h, k + 1);
    LegalPrefix(start, h, k);
    ReachableIsWellFormed(start, h[..k + 1]);
    var w := Replay(start, h[..k + 1]);
    assert Guarded(start, h, k);
    assert Active(w, h[k].receipt.updateId);
  }
}
