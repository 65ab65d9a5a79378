/**
 What the server doctor demands of the recovery receipt, and exactly when every run of updates meets it.
 */
module UpdateDoctor {
  import opened Options
  import opened UpdatePhases
  import opened UpdateHistory
  import opened UpdateTheorems

  /** The doctor's verdict when `id` is the latest update: in the phases that require a receipt, one that names this
      update and its backup; in all others none at all. */
  ghost predicate ReceiptAccepted(w: World, id: Name)
    requires id in w.transactions
  {
    var t := w.transactions[id];
    if !RequiresRecoveryReceipt(t.phase) then !HasReceipt(w) else
      && HasReceipt(w) && t.marker.Some?
      && var receipt := w.stage.value.receipt.value;
      && receipt.updateId == id && receipt.backupId == t.marker.value.backupId
      && receipt.targetRelease == t.request.targetRelease
      && receipt.manifestSha256 == t.marker.value.manifestSha256
  }

  ghost predicate Removed(h: seq<Event>, a: nat, b: nat)
    requires b <= |h|
  {
    exists k: nat :: a <= k < b && h[k].StageRemoved?
  }

  ghost predicate BoundAt(h: seq<Event>, k: nat, n: nat)
    requires k < n <= |h|
  {
    h[k].ReceiptBound? && !Removed(h, k + 1, n)
  }

  /** A receipt was bound since `j`, and its stage is still there. */
  ghost predicate BoundSince(h: seq<Event>, j: nat, n: nat)
    requires n <= |h|
  {
    exists k: nat :: j <= k < n && BoundAt(h, k, n)
  }

  ghost predicate NoneBegun(h: seq<Event>, j: nat, n: nat)
    requires n <= |h|
  {
    forall k: nat :: j <= k < n ==> !h[k].Began? && !h[k].BridgeCommitted?
  }

  lemma ReceiptMoves(w: World, last: Option<Event>, e: Event)
    requires Guard(w, last, e)
    ensures HasReceipt(Apply(w, e)) <==> e.ReceiptBound? || (HasReceipt(w) && !e.StageRemoved?)
  {
  }

  lemma OneMoreEvent(h: seq<Event>, j: nat, m: nat)
    requires j <= m < |h|
    ensures Removed(h, j, m + 1) <==> Removed(h, j, m) || h[m].StageRemoved?
    ensures BoundSince(h, j, m + 1) <==> h[m].ReceiptBound? || (BoundSince(h, j, m) && !h[m].StageRemoved?)
  {
    if h[m].ReceiptBound? { assert BoundAt(h, m, m + 1); }
    if BoundSince(h, j, m) && !h[m].StageRemoved? {
      var k: nat :| j <= k < m && BoundAt(h, k, m);
      assert BoundAt(h, k, m + 1);
    }
    if BoundSince(h, j, m + 1) && !h[m].ReceiptBound? {
      var k: nat :| j <= k < m + 1 && BoundAt(h, k, m + 1);
      assert !Removed(h, k + 1, m);
      assert BoundAt(h, k, m);
    }
  }

  /** There is a receipt exactly if the last event that bound one or removed the stage bound one. */
  lemma {:induction false} ReceiptSince(start: World, h: seq<Event>, j: nat, n: nat)
    requires Legal(start, h) && j <= n <= |h|
    ensures HasReceipt(Replay(start, h[..n]))
            <==> BoundSince(h, j, n) || (HasReceipt(Replay(start, h[..j])) && !Removed(h, j, n))
  {
    if j < n {
      var m := n - 1;
      ReceiptSince(start, h, j, m);
      LegalPrefix(start, h, m);
      ReceiptMoves(Replay(start, h[..m]), Last(h[..m]), h[m]);
      OneMoreEvent(h, j, m);
    }
  }

  /** A fenced update has no receipt yet. */
  lemma FencedIsAccepted(start: World, h: seq<Event>, n: nat, id: Name)
    requires WellFormed(start) && Legal(start, h) && n <= |h| && PhaseAt(start, h, n, id) == Some(Fenced)
    ensures ReceiptAccepted(Replay(start, h[..n]), id)
  {
    LegalPrefix(start, h, n);
    ReachableIsWellFormed(start, h[..n]);
    assert Active(Replay(start, h[..n]), id);
  }

  lemma StopsWithoutReceipt(start: World, h: seq<Event>, j: nat, id: Name)
    requires WellFormed(start) && Legal(start, h) && j < |h| && Enters(h[j], id, WritersStopped)
    ensures !HasReceipt(Replay(start, h[..j]))
  {
    LegalPrefix(start, h, j);
    ReachableIsWellFormed(start, h[..j]);
    assert Guarded(start, h, j);
    if h[j].Advanced? { assert Active(Replay(start, h[..j]), id); }
  }

  /** In writers_stopped the doctor is content until the backup binds its receipt, which it does before the phase
      advances, and again once an abort has removed the stage. */
  lemma StoppedAccepted(start: World, h: seq<Event>, j: nat, n: nat, id: Name)
    requires WellFormed(start) && Legal(start, h) && j < n <= |h| && Enters(h[j], id, WritersStopped)
    requires PhaseAt(start, h, n, id) == Some(WritersStopped)
    ensures ReceiptAccepted(Replay(start, h[..n]), id) <==> !BoundSince(h, j, n)
  {
    StopsWithoutReceipt(start, h, j, id);
    ReceiptSince(start, h, j, n);
  }

  lemma MarkerAgrees(w: World, id: Name)
    requires WellFormed(w) && Active(w, id) && RequiresRecoveryReceipt(w.transactions[id].phase)
    ensures ReceiptAccepted(w, id) <==> HasReceipt(w)
  {
    assert Consistent(w, w.transactions[id]);
  }

  /** From the backup on the doctor is content until one of the two removals. */
  lemma BackedAccepted(start: World, h: seq<Event>, j: nat, n: nat, id: Name)
    requires WellFormed(start) && Legal(start, h) && j < n <= |h| && Backed(start, h, j, id)
    requires Active(Replay(start, h[..n]), id)
    ensures ReceiptAccepted(Replay(start, h[..n]), id) <==> !LostBetween(start, h, j, n, id)
  {
    LegalPrefix(start, h, n);
    ReachableIsWellFormed(start, h[..n]);
    DemandedSinceBackup(start, h, j, n, id);
    MarkerAgrees(Replay(start, h[..n]), id);
    ReceiptUntilRemoval(start, h, j, n, id);
  }

  // ---- After the end of an update ----

  lemma StaysIdle(w: World, last: Option<Event>, e: Event)
    requires Idle(w) && Guard(w, last, e) && !e.Began? && !e.BridgeCommitted?
    ensures Idle(Apply(w, e)) && !e.ReceiptBound? && !e.Advanced?
  {
  }

  lemma {:induction false} IdleUntilBegun(start: World, h: seq<Event>, j: nat, n: nat)
    requires Legal(start, h) && j <= n <= |h| && Idle(Replay(start, h[..j])) && NoneBegun(h, j, n)
    ensures Idle(Replay(start, h[..n])) && !BoundSince(h, j, n)
    ensures Replay(start, h[..n]).transactions == Replay(start, h[..j]).transactions
  {
    if j < n {
      var m := n - 1;
      IdleUntilBegun(start, h, j, m);
      LegalPrefix(start, h, m);
      StaysIdle(Replay(start, h[..m]), Last(h[..m]), h[m]);
      OneMoreEvent(h, j, m);
    }
  }

  lemma IdleAtEnd(w: World, last: Option<Event>, e: Event)
    requires WellFormed(w) && Guard(w, last, e) && e.Advanced? && Terminal(e.to)
    ensures Idle(Apply(w, e)) && At(Apply(w, e), e.id, e.to)
    ensures !e.to.Committed? ==> w.stage.None?
    ensures HasReceipt(Apply(w, e)) <==> HasReceipt(w)
  {
    assert Active(w, e.id) && Consistent(w, w.transactions[e.id]);
    forall id | id in w.transactions && id != e.id
      ensures Terminal(w.transactions[id].phase)
    {
      assert !Active(w, id);
    }
  }

  /** Until the next update begins, a recovered or aborted one always satisfies the doctor, and a committed one exactly
      once its stage, if it still had a receipt, has been removed. */
  lemma EndedAccepted(start: World, h: seq<Event>, j: nat, n: nat)
    requires WellFormed(start) && Legal(start, h) && j < n <= |h| && h[j].Advanced? && Terminal(h[j].to)
    requires NoneBegun(h, j + 1, n)
    ensures h[j].id in Replay(start, h[..n]).transactions
    ensures ReceiptAccepted(Replay(start, h[..n]), h[j].id)
            <==> (h[j].to.Committed? && HasReceipt(Replay(start, h[..j])) ==> Removed(h, j + 1, n))
  {
    LegalPrefix(start, h, j);
    ReachableIsWellFormed(start, h[..j]);
    IdleAtEnd(Replay(start, h[..j]), Last(h[..j]), h[j]);
    IdleUntilBegun(start, h, j + 1, n);
    ReceiptSince(start, h, j + 1, n);
  }
}
