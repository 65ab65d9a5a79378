/**
 What holds of every legal update history: an invariant of every reachable world, and the order in which
 proofs must have appeared.
 */
module UpdateTheorems {
  import opened Options
  import opened UpdatePhases
  import opened UpdateHistory

  /** Host state that belongs to an unfinished transaction. */
  ghost predicate Consistent(w: World, t: Transaction) {
    var r := t.request;
    var p := t.phase;
    && (w.stage.Some? ==> w.stage.value.key == KeyOf(r))
    && (RequiresRecoveryReceipt(p) ==> t.marker.Some? && t.marker.value.updateId == r.updateId)
    && (w.stage.Some? && w.stage.value.receipt.Some? ==>
          && w.stage.value.receipt.value.updateId == r.updateId && !p.Fenced?
          && (RequiresRecoveryReceipt(p) ==> t.marker == Some(ReceiptMarker(w.stage.value.receipt.value))))
    && (w.image == r.sourceImage || w.image == r.targetImage)
    && (w.image == r.targetImage ==> p.ConfigPublished? || ((p.RecoveryRequired? || p.DoctorPassed?) && w.stage.Some?))
    && (w.image == r.sourceImage && w.stage.Some? && !Recovering(p) ==> !w.stage.value.published)
    && (p.ConfigPublished? ==> w.image == r.targetImage && w.stage.Some? && w.stage.value.published)
    && (p.CandidateReady? || p.DoctorPassed? || p.ConfigPublished? ==> w.writer == Running(r.targetImage))
    && (p.RecoveryReady? || p.RecoveryDoctor? || p.RecoveryConfig? ==> w.writer == Running(r.sourceImage))
    && (p.RecoveryConfig? ==> w.stage.None?)
  }

  /** The schema never leaves the window of the update, and stands where the phase says. A pending step is one of
      this update's migration. */
  predicate Levelled(w: World, t: Transaction) {
    var r := t.request;
    var p := t.phase;
    && r.sourceSchema <= w.data.schema <= r.targetSchema
    && (BeforeMigration(p) ==> w.data.schema == r.sourceSchema)
    && (p.Migrated? || p.CandidateReady? || p.DoctorPassed? || p.ConfigPublished? ==> w.data.schema == r.targetSchema)
    && (w.image == r.targetImage ==> w.data.schema == r.targetSchema)
    && (w.data.dirty ==> p.MigrationStarted? && w.data.schema < r.targetSchema)
  }

  /** A bound receipt is of the staged update, and its backup was taken for exactly that update. */
  ghost predicate Bound(w: World) {
    HasReceipt(w) ==>
      var receipt := w.stage.value.receipt.value;
      && receipt.updateId == w.stage.value.key.updateId && receipt.updateId in w.transactions
      && MarkerMatches(ReceiptMarker(receipt), w.transactions[receipt.updateId])
  }

  /** While an update is active nothing moves away from the snapshot of its backup. */
  ghost predicate Anchored(w: World) {
    HasReceipt(w) && !Idle(w) ==> AtBoundary(ReceiptMarker(w.stage.value.receipt.value), w.data.state)
  }

  ghost predicate Identified(w: World) {
    && w.data.state.installationId != EMPTY && w.data.state.timelineId != EMPTY
    && (Idle(w) ==> !w.data.dirty)
  }

  ghost predicate Owned(w: World) {
    && (forall id | id in w.transactions ::
          w.transactions[id].request.updateId == id && ValidRequest(w.transactions[id].request))
    && (forall a, b | Active(w, a) && Active(w, b) :: a == b)
  }

  /** A stage whose update never became durable is untouched: previous image, nothing published, no receipt. */
  ghost predicate Unclaimed(w: World) {
    w.stage.Some? && w.stage.value.key.updateId !in w.transactions ==>
      && w.image == w.stage.value.key.sourceImage != w.stage.value.key.targetImage
      && !w.stage.value.published && w.stage.value.receipt.None?
  }

  ghost predicate WellFormed(w: World) {
    && Owned(w)
    && (forall id | Active(w, id) :: Consistent(w, w.transactions[id]) && Levelled(w, w.transactions[id]))
    && Unclaimed(w) && Bound(w) && Anchored(w) && Identified(w)
  }

  /** An event that starts no transaction leaves none active that was not. */
  lemma NoneActivated(w: World, last: Option<Event>, e: Event, id: Name)
    requires Guard(w, last, e) && !e.Began? && !e.BridgeCommitted? && Active(Apply(w, e), id)
    ensures Active(w, id)
  {
    if e.Advanced? { assert At(w, e.id, e.from); }
  }

  lemma RequestsStay(w: World, last: Option<Event>, e: Event, id: Name)
    requires Owned(w) && Guard(w, last, e) && id in Apply(w, e).transactions
    ensures Apply(w, e).transactions[id].request.updateId == id && ValidRequest(Apply(w, e).transactions[id].request)
  {
  }

  lemma OwnedStep(w: World, last: Option<Event>, e: Event)
    requires Owned(w) && Guard(w, last, e)
    ensures Owned(Apply(w, e))
  {
    var w' := Apply(w, e);
    forall id | id in w'.transactions
      ensures w'.transactions[id].request.updateId == id && ValidRequest(w'.transactions[id].request)
    {
      RequestsStay(w, last, e, id);
    }
    forall a, b | Active(w', a) && Active(w', b)
      ensures a == b
    {
      if !e.Began? && !e.BridgeCommitted? {
        NoneActivated(w, last, e, a);
        NoneActivated(w, last, e, b);
      } else {
        assert Idle(w);
      }
    }
  }

  lemma AdvanceKeepsConsistent(w: World, last: Option<Event>, e: Event)
    requires WellFormed(w) && Guard(w, last, e) && e.Advanced?
    ensures Active(Apply(w, e), e.id) ==> Consistent(Apply(w, e), Apply(w, e).transactions[e.id])
  {
    assert Active(w, e.id);
  }

  lemma HostKeepsConsistent(w: World, last: Option<Event>, e: Event, id: Name)
    requires WellFormed(w) && Guard(w, last, e) && !e.Advanced? && !e.Began? && !e.BridgeCommitted?
    requires Active(w, id)
    ensures Active(Apply(w, e), id) && Consistent(Apply(w, e), w.transactions[id])
  {
    assert Consistent(w, w.transactions[id]);
    if e.WriterStarted? && !e.cause.ForCleanup? { assert Active(w, e.cause.update); }
    forall a, p | At(w, a, p) && !Terminal(p)
      ensures a == id
    {
      assert Active(w, a);
    }
  }

  lemma BeginIsConsistent(w: World, last: Option<Event>, e: Event)
    requires WellFormed(w) && Guard(w, last, e) && (e.Began? || e.BridgeCommitted?)
    ensures Consistent(Apply(w, e), Apply(w, e).transactions[e.request.updateId])
  {
  }

  /** Only an update that has begun publishes an image, and it has claimed the stage. */
  lemma PublicationIsClaimed(w: World, last: Option<Event>, e: Event)
    requires WellFormed(w) && Guard(w, last, e) && e.MarkerReplaced?
    ensures w.stage.Some? && w.stage.value.key.updateId in w.transactions
  {
    var id :| Active(w, id) && MayPublish(w.transactions[id], e.image);
    assert Consistent(w, w.transactions[id]);
  }

  lemma UnclaimedStep(w: World, last: Option<Event>, e: Event)
    requires WellFormed(w) && Guard(w, last, e)
    ensures Unclaimed(Apply(w, e))
  {
    if e.MarkerReplaced? {
      PublicationIsClaimed(w, last, e);
    } else if !e.StageReady? && !e.ReceiptBound? && !e.JournalPublished? && !e.StageRemoved? {
      assert Apply(w, e).stage == w.stage && Apply(w, e).image == w.image;
    }
  }

  lemma ConsistentStep(w: World, last: Option<Event>, e: Event, id: Name)
    requires WellFormed(w) && Guard(w, last, e) && Active(Apply(w, e), id)
    ensures Consistent(Apply(w, e), Apply(w, e).transactions[id])
  {
    if e.Began? || e.BridgeCommitted? {
      assert id != e.request.updateId ==> Active(w, id);
      BeginIsConsistent(w, last, e);
    } else if e.Advanced? {
      assert Active(w, e.id) && Active(w, id);
      AdvanceKeepsConsistent(w, last, e);
    } else {
      assert Active(w, id);
      HostKeepsConsistent(w, last, e, id);
    }
  }

  lemma AdvanceKeepsLevel(w: World, last: Option<Event>, e: Event)
    requires WellFormed(w) && Guard(w, last, e) && e.Advanced? && Active(Apply(w, e), e.id)
    ensures Levelled(Apply(w, e), Apply(w, e).transactions[e.id])
  {
    assert Active(w, e.id) && Levelled(w, w.transactions[e.id]);
  }

  lemma HostKeepsLevel(w: World, last: Option<Event>, e: Event, id: Name)
    requires WellFormed(w) && Guard(w, last, e) && !e.Advanced? && !e.Began? && !e.BridgeCommitted? && Active(w, id)
    ensures Levelled(Apply(w, e), w.transactions[id])
  {
    assert Consistent(w, w.transactions[id]) && Levelled(w, w.transactions[id]);
    OnlyOneActs(w, id);
  }

  lemma LevelledStep(w: World, last: Option<Event>, e: Event, id: Name)
    requires WellFormed(w) && Guard(w, last, e) && Active(Apply(w, e), id)
    ensures Levelled(Apply(w, e), Apply(w, e).transactions[id])
  {
    if e.Began? || e.BridgeCommitted? {
      assert id != e.request.updateId ==> Active(w, id);
    } else {
      NoneActivated(w, last, e, id);
      if e.Advanced? {
        assert Active(w, e.id);
        AdvanceKeepsLevel(w, last, e);
      } else {
        HostKeepsLevel(w, last, e, id);
      }
    }
  }

  lemma OnlyOneActs(w: World, id: Name)
    requires Owned(w) && Active(w, id)
    ensures forall a, p | At(w, a, p) && !Terminal(p) :: a == id
  {
    forall a, p | At(w, a, p) && !Terminal(p)
      ensures a == id
    {
      assert Active(w, a);
    }
  }

  /** A receipt is bound only where the backup of the staged update was, and only removed with its stage. */
  lemma BoundStep(w: World, last: Option<Event>, e: Event)
    requires WellFormed(w) && Guard(w, last, e)
    ensures Bound(Apply(w, e))
  {
  }

  /** The fence: while an update is active the application writes nothing. */
  lemma AnchoredStep(w: World, last: Option<Event>, e: Event)
    requires WellFormed(w) && Guard(w, last, e)
    ensures Anchored(Apply(w, e))
  {
    var w' := Apply(w, e);
    if HasReceipt(w') && !Idle(w') {
      var id :| id in w'.transactions && !Terminal(w'.transactions[id].phase);
      assert Active(w', id);
      if !e.Began? && !e.BridgeCommitted? {
        NoneActivated(w, last, e, id);
      }
    }
  }

  /** A schema is dirty only while an update is active, and then no phase advances. */
  lemma DirtyIsOwned(w: World, last: Option<Event>, e: Event)
    requires WellFormed(w) && Guard(w, last, e) && Apply(w, e).data.dirty
    ensures !Idle(Apply(w, e))
  {
    if e.StepStaged? {
      assert At(Apply(w, e), e.id, MigrationStarted);
    } else {
      var id :| id in w.transactions && !Terminal(w.transactions[id].phase);
      assert id in Apply(w, e).transactions && Apply(w, e).transactions[id] == w.transactions[id];
    }
  }

  lemma IdentifiedStep(w: World, last: Option<Event>, e: Event)
    requires WellFormed(w) && Guard(w, last, e)
    ensures Identified(Apply(w, e))
  {
    if Apply(w, e).data.dirty {
      DirtyIsOwned(w, last, e);
    }
  }

  lemma WellFormedStep(w: World, last: Option<Event>, e: Event)
    requires WellFormed(w) && Guard(w, last, e)
    ensures WellFormed(Apply(w, e))
  {
    OwnedStep(w, last, e);
    UnclaimedStep(w, last, e);
    BoundStep(w, last, e);
    AnchoredStep(w, last, e);
    IdentifiedStep(w, last, e);
    forall id | Active(Apply(w, e), id)
      ensures Consistent(Apply(w, e), Apply(w, e).transactions[id])
      ensures Levelled(Apply(w, e), Apply(w, e).transactions[id])
    {
      ConsistentStep(w, last, e, id);
      LevelledStep(w, last, e, id);
    }
  }

  /** Every world a legal history leads to is well formed. */
  lemma {:induction false} ReachableIsWellFormed(start: World, h: seq<Event>)
    requires WellFormed(start) && Legal(start, h)
    ensures WellFormed(Replay(start, h))
  {
    if h != [] {
      var k := |h| - 1;
      LegalPrefix(start, h, k);
      ReachableIsWellFormed(start, h[..k]);
      WellFormedStep(Replay(start, h[..k]), Last(h[..k]), h[k]);
    }
  }

  // ---- Whole histories ----

  function PhaseOf(w: World, id: Name): Option<Phase> {
    if id in w.transactions then Some(w.transactions[id].phase) else None
  }

  /** The durable phase of `id` after the first `n` events. */
  function PhaseAt(start: World, h: seq<Event>, n: nat, id: Name): Option<Phase>
    requires n <= |h|
  {
    PhaseOf(Replay(start, h[..n]), id)
  }

  /** The event that moves `id` into phase `p`. */
  predicate Enters(e: Event, id: Name, p: Phase) {
    match e
    case Began(r) => r.updateId == id && p.Fenced?
    case BridgeCommitted(r) => r.updateId == id && p.WritersStopped?
    case Advanced(a, _, to, _) => a == id && to == p
    case _ => false
  }

  /** A phase that holds now was entered now or held before. */
  lemma PhaseStep(w: World, last: Option<Event>, e: Event, id: Name, p: Phase)
    requires Guard(w, last, e) && PhaseOf(Apply(w, e), id) == Some(p)
    ensures Enters(e, id, p) || PhaseOf(w, id) == Some(p)
  {
  }

  /** The index at which the phase after `n` events was entered. */
  lemma {:induction false} Entry(start: World, h: seq<Event>, n: nat, id: Name, p: Phase) returns (k: nat)
    requires Legal(start, h) && n <= |h| && id !in start.transactions && PhaseAt(start, h, n, id) == Some(p)
    ensures k < n && Enters(h[k], id, p) && Guarded(start, h, k)
  {
    k := n - 1;
    LegalPrefix(start, h, k);
    PhaseStep(Replay(start, h[..k]), Last(h[..k]), h[k], id, p);
    if !Enters(h[k], id, p) {
      k := Entry(start, h, k, id, p);
    }
  }

  lemma PhaseMoves(w: World, last: Option<Event>, e: Event, id: Name)
    requires Guard(w, last, e) && id in w.transactions
    ensures id in Apply(w, e).transactions
    ensures var p, q := w.transactions[id].phase, Apply(w, e).transactions[id].phase; p == q || Allowed(p, q)
  {
  }

  lemma PhaseMovesAt(start: World, h: seq<Event>, m: nat, id: Name)
    requires Legal(start, h) && m < |h| && PhaseAt(start, h, m, id).Some?
    ensures PhaseAt(start, h, m + 1, id).Some?
    ensures var p, q := PhaseAt(start, h, m, id).value, PhaseAt(start, h, m + 1, id).value; p == q || Allowed(p, q)
  {
    LegalPrefix(start, h, m);
    PhaseMoves(Replay(start, h[..m]), Last(h[..m]), h[m], id);
  }

  /** The phase never leaves a set of phases that the transition table never leaves. */
  lemma {:induction false} Stays(start: World, h: seq<Event>, n: nat, m: nat, id: Name, keep: Phase -> bool)
    requires Legal(start, h) && n <= m <= |h|
    requires PhaseAt(start, h, n, id).Some? && keep(PhaseAt(start, h, n, id).value)
    requires forall p, q :: keep(p) && Allowed(p, q) ==> keep(q)
    ensures PhaseAt(start, h, m, id).Some? && keep(PhaseAt(start, h, m, id).value)
  {
    if n < m {
      Stays(start, h, n, m - 1, id, keep);
      PhaseMovesAt(start, h, m - 1, id);
    }
  }

  /** The only phase from which each forward phase is entered. */
  function Previous(p: Phase): Phase {
    match p
    case MigrationStarted => BackupVerified
    case Migrated => MigrationStarted
    case CandidateReady => Migrated
    case DoctorPassed => CandidateReady
    case ConfigPublished => DoctorPassed
    case Committed => ConfigPublished
    case _ => WritersStopped
  }

  /** What was proved right before a forward phase was entered. */
  ghost predicate Proved(e: Event, id: Name, p: Phase) {
    match p
    case Migrated => e == MigrateReturned(id)
    case CandidateReady => e == CandidateUp(id)
    case DoctorPassed => e == DoctorOk(id, false)
    case ConfigPublished => e == PublishOk(id, false)
    case _ => true
  }

  /** One forward phase back: where it was entered, from which phase, and on what proof. */
  lemma Back(start: World, h: seq<Event>, n: nat, id: Name, p: Phase) returns (k: nat)
    requires Legal(start, h) && n <= |h| && id !in start.transactions && PhaseAt(start, h, n, id) == Some(p)
    requires PastMigration(p) && !Recovering(p) && !p.Recovered?
    ensures k + 1 < n && PhaseAt(start, h, k + 1, id) == Some(Previous(p)) && Proved(h[k], id, p)
  {
    k := Entry(start, h, n, id, p);
    k := k - 1;
  }

  lemma CallsAtMigrationStarted(start: World, h: seq<Event>, i: nat, id: Name)
    requires Legal(start, h) && i < |h| && h[i] == MigrateCalled(id)
    ensures PhaseAt(start, h, i, id) == Some(MigrationStarted)
  {
    assert Guarded(start, h, i);
  }

  /** A marker that is durable for `id`, taken by its own backup, of what the database still holds, and bound on the
      host at that moment. */
  ghost predicate Backed(start: World, h: seq<Event>, j: nat, id: Name) {
    && 0 < j < |h| && h[j].Advanced? && h[j].id == id && h[j].to == BackupVerified && h[j].marker.Some?
    && var m := h[j].marker.value;
       var w := Replay(start, h[..j]);
    && id in w.transactions && m.updateId == id && MarkerMatches(m, w.transactions[id]) && AtBoundary(m, w.data.state)
    && h[j - 1] == BackedUp(id, m)
    && w.stage.Some? && w.stage.value.receipt.Some? && ReceiptMarker(w.stage.value.receipt.value) == m
  }

  lemma BackedBefore(start: World, h: seq<Event>, n: nat, id: Name) returns (j: nat)
    requires Legal(start, h) && n <= |h| && id !in start.transactions
    requires PhaseAt(start, h, n, id) == Some(BackupVerified)
    ensures j < n && Backed(start, h, j, id)
  {
    j := Entry(start, h, n, id, BackupVerified);
  }

  /** Every phase for which the server doctor demands a receipt was reached through a step that bound one. */
  lemma {:induction false} ReceiptPhaseWasBacked(start: World, h: seq<Event>, n: nat, id: Name) returns (j: nat)
    requires Legal(start, h) && n <= |h| && id !in start.transactions
    requires PhaseAt(start, h, n, id).Some? && RequiresRecoveryReceipt(PhaseAt(start, h, n, id).value)
    ensures j < n && Backed(start, h, j, id)
    decreases n
  {
    var p := PhaseAt(start, h, n, id).value;
    if p.BackupVerified? {
      j := BackedBefore(start, h, n, id);
    } else {
      var k := Entry(start, h, n, id, p);
      j := ReceiptPhaseWasBacked(start, h, k, id);
    }
  }

  /** Migration is called only after this update's backup was verified, its receipt bound on the host and its
      marker made durable. */
  lemma MigrateAfterBackup(start: World, h: seq<Event>, i: nat, id: Name) returns (j: nat)
    requires Legal(start, h) && id !in start.transactions && i < |h| && h[i] == MigrateCalled(id)
    ensures j < i && Backed(start, h, j, id)
  {
    CallsAtMigrationStarted(start, h, i, id);
    var k := Back(start, h, i, id, MigrationStarted);
    j := BackedBefore(start, h, k + 1, id);
  }

  /** An aborted update never had its migration called. */
  lemma AbortedNeverMigrated(start: World, h: seq<Event>, id: Name)
    requires Legal(start, h) && PhaseAt(start, h, |h|, id) == Some(Aborted)
    ensures MigrateCalled(id) !in h
  {
    if i: nat :| i < |h| && h[i] == MigrateCalled(id) {
      CallsAtMigrationStarted(start, h, i, id);
      Stays(start, h, i, |h|, id, p => PastMigration(p));
    }
  }

  /** Once the target configuration is published, the update can only commit. */
  lemma PublishedOnlyCommits(start: World, h: seq<Event>, n: nat, m: nat, id: Name)
    requires Legal(start, h) && n <= m <= |h| && PhaseAt(start, h, n, id) == Some(ConfigPublished)
    ensures PhaseAt(start, h, m, id) == Some(ConfigPublished) || PhaseAt(start, h, m, id) == Some(Committed)
  {
    Stays(start, h, n, m, id, p => PastPublication(p));
  }

  /** A candidate that passed its doctor had been started, after the migration returned. */
  lemma ExaminedInOrder(start: World, h: seq<Event>, n: nat, id: Name) returns (a: nat, b: nat, c: nat)
    requires Legal(start, h) && n <= |h| && id !in start.transactions && PhaseAt(start, h, n, id) == Some(DoctorPassed)
    ensures a < b < c < n - 1 && h[a] == MigrateReturned(id) && h[b] == CandidateUp(id) && h[c] == DoctorOk(id, false)
  {
    c := Back(start, h, n, id, DoctorPassed);
    b := Back(start, h, c + 1, id, CandidateReady);
    a := Back(start, h, b + 1, id, Migrated);
  }

  /** A committed update was migrated, started, examined and published, in that order. */
  lemma CommittedInOrder(start: World, h: seq<Event>, id: Name) returns (a: nat, b: nat, c: nat, d: nat)
    requires Legal(start, h) && id !in start.transactions && PhaseAt(start, h, |h|, id) == Some(Committed)
    ensures a < b < c < d < |h|
    ensures h[a] == MigrateReturned(id) && h[b] == CandidateUp(id) && h[c] == DoctorOk(id, false)
    ensures h[d] == PublishOk(id, false)
  {
    var n := Back(start, h, |h|, id, Committed);
    d := Back(start, h, n + 1, id, ConfigPublished);
    a, b, c := ExaminedInOrder(start, h, d + 1, id);
  }

  // ---- The host around the terminal phases, the stage and the receipt ----

  /** What a terminal phase leaves on the host at the moment it becomes durable. */
  ghost predicate OutcomeHolds(w: World, r: Request, outcome: Phase) {
    match outcome
    case Committed => w.image == r.targetImage && w.writer == Running(r.targetImage) && w.data.schema == r.targetSchema
    case _ => w.image == r.sourceImage && w.writer == Running(r.sourceImage) && w.stage.None?
  }

  /** Committed means the target image is published and running on the target schema; recovered and aborted
      mean the previous image is published and running and nothing is left staged. */
  lemma TerminalOutcome(start: World, h: seq<Event>, i: nat)
    requires WellFormed(start) && Legal(start, h) && i < |h| && h[i].Advanced? && Terminal(h[i].to)
    ensures h[i].id in Replay(start, h[..i]).transactions
    ensures OutcomeHolds(Replay(start, h[..i]), Replay(start, h[..i]).transactions[h[i].id].request, h[i].to)
  {
    LegalPrefix(start, h, i);
    ReachableIsWellFormed(start, h[..i]);
    assert Active(Replay(start, h[..i]), h[i].id);
  }

  /** The host stage of an update that never became durable is removed only when no transaction of it exists.
      If its writer had been stopped, the previous writer was restarted and answered just before; if it was
      found running, it runs. Only an uninspected writer may be down. */
  lemma RemovalIsSafe(start: World, h: seq<Event>, i: nat)
    requires WellFormed(start) && Legal(start, h) && i < |h| && h[i].StageRemoved?
    requires (h[i].why.Pending? || h[i].why.Unpublished?)
    ensures var w := Replay(start, h[..i]);
            && w.stage.Some? && w.stage.value.key.updateId !in w.transactions && w.stage.value.receipt.None?
            && w.image == w.stage.value.key.sourceImage
            && (h[i].why == Pending || h[i].why == Unpublished(Restored) ==> Ready(w, Last(h[..i])))
            && (h[i].why == Unpublished(SeenRunning) ==> w.writer.Running?)
  {
    LegalPrefix(start, h, i);
    ReachableIsWellFormed(start, h[..i]);
    assert Guarded(start, h, i);
  }

  /** A stage that is there now was there before, unless it was reserved just now. */
  lemma StageStep(w: World, last: Option<Event>, e: Event)
    requires Guard(w, last, e) && Apply(w, e).stage.Some?
    ensures !e.StageRemoved?
    ensures w.stage.None? ==> e == StageReady(Apply(w, e).stage.value.key)
    ensures w.stage.Some? ==> w.stage.value.key == Apply(w, e).stage.value.key
  {
  }

  /** A stage that is there after a removal was reserved anew in between. */
  lemma {:induction false} StagedAgain(start: World, h: seq<Event>, i: nat, j: nat) returns (k: nat)
    requires Legal(start, h) && i < j <= |h| && h[i].StageRemoved? && Replay(start, h[..j]).stage.Some?
    ensures i < k < j && h[k] == StageReady(Replay(start, h[..j]).stage.value.key)
  {
    LegalPrefix(start, h, j - 1);
    StageStep(Replay(start, h[..j - 1]), Last(h[..j - 1]), h[j - 1]);
    if Replay(start, h[..j - 1]).stage.None? {
      k := j - 1;
    } else {
      k := StagedAgain(start, h, i, j - 1);
    }
  }

  /** The two ways to lose the receipt: an abort at backup_verified and the publication of a recovery. */
  ghost predicate LosesReceipt(start: World, h: seq<Event>, k: nat, id: Name)
    requires k < |h|
  {
    || (h[k] == StageRemoved(Abandoned) && PhaseAt(start, h, k, id) == Some(BackupVerified))
    || (h[k] == StageRemoved(RecoveryDone) && PhaseAt(start, h, k, id) == Some(RecoveryDoctor))
  }

  ghost predicate LostBetween(start: World, h: seq<Event>, j: nat, n: nat, id: Name)
    requires n <= |h|
  {
    exists k: nat :: j < k < n && LosesReceipt(start, h, k, id)
  }

  lemma ReceiptStep(w: World, last: Option<Event>, e: Event, id: Name)
    requires WellFormed(w) && Guard(w, last, e) && id in w.transactions && Active(Apply(w, e), id)
    requires PastBackup(w.transactions[id].phase)
    ensures Active(w, id)
    ensures HasReceipt(Apply(w, e)) <==> HasReceipt(w) && !e.StageRemoved?
  {
  }

  /** While an update with a backup is active, only these two remove the stage. */
  lemma RemovalStep(w: World, last: Option<Event>, e: Event, id: Name)
    requires WellFormed(w) && Guard(w, last, e) && Active(w, id) && PastBackup(w.transactions[id].phase)
    requires e.StageRemoved?
    ensures (e.why.Abandoned? && At(w, id, BackupVerified)) || (e.why.RecoveryDone? && At(w, id, RecoveryDoctor))
  {
    assert Consistent(w, w.transactions[id]);
  }

  lemma ReceiptAt(start: World, h: seq<Event>, m: nat, id: Name)
    requires WellFormed(start) && Legal(start, h) && m < |h| && Active(Replay(start, h[..m + 1]), id)
    requires PhaseAt(start, h, m, id).Some? && PastBackup(PhaseAt(start, h, m, id).value)
    ensures Active(Replay(start, h[..m]), id)
    ensures HasReceipt(Replay(start, h[..m + 1]))
            <==> HasReceipt(Replay(start, h[..m])) && !LosesReceipt(start, h, m, id)
  {
    LegalPrefix(start, h, m);
    ReachableIsWellFormed(start, h[..m]);
    assert Guarded(start, h, m);
    var w := Replay(start, h[..m]);
    ReceiptStep(w, Last(h[..m]), h[m], id);
    if h[m].StageRemoved? { RemovalStep(w, Last(h[..m]), h[m], id); }
  }

  lemma JustBacked(start: World, h: seq<Event>, j: nat, id: Name)
    requires Legal(start, h) && Backed(start, h, j, id)
    ensures PhaseAt(start, h, j + 1, id) == Some(BackupVerified) && HasReceipt(Replay(start, h[..j + 1]))
  {
    LegalPrefix(start, h, j);
    assert Guarded(start, h, j);
  }

  /** After the backup of `id` was made durable at `j` and while the update is active, the receipt is missing if
      and only if an abort at backup_verified or the publication of a recovery took it away. */
  lemma {:induction false} ReceiptUntilRemoval(start: World, h: seq<Event>, j: nat, n: nat, id: Name)
    requires WellFormed(start) && Legal(start, h) && j < n <= |h| && Backed(start, h, j, id)
    requires Active(Replay(start, h[..n]), id)
    ensures HasReceipt(Replay(start, h[..n])) <==> !LostBetween(start, h, j, n, id)
  {
    JustBacked(start, h, j, id);
    if n > j + 1 {
      var m := n - 1;
      StaysBacked(start, h, j + 1, m, id);
      ReceiptAt(start, h, m, id);
      ReceiptUntilRemoval(start, h, j, m, id);
      LostOneMore(start, h, j, m, id);
    }
  }

  /** And the doctor demands it all that time. */
  lemma DemandedSinceBackup(start: World, h: seq<Event>, j: nat, n: nat, id: Name)
    requires Legal(start, h) && j < n <= |h| && Backed(start, h, j, id) && Active(Replay(start, h[..n]), id)
    ensures RequiresRecoveryReceipt(Replay(start, h[..n]).transactions[id].phase)
  {
    JustBacked(start, h, j, id);
    StaysBacked(start, h, j + 1, n, id);
  }

  lemma StaysBacked(start: World, h: seq<Event>, n: nat, m: nat, id: Name)
    requires Legal(start, h) && n <= m <= |h|
    requires PhaseAt(start, h, n, id).Some? && PastBackup(PhaseAt(start, h, n, id).value)
    ensures PhaseAt(start, h, m, id).Some? && PastBackup(PhaseAt(start, h, m, id).value)
  {
    Stays(start, h, n, m, id, p => PastBackup(p));
  }

  lemma LostOneMore(start: World, h: seq<Event>, j: nat, m: nat, id: Name)
    requires j < m < |h|
    ensures LostBetween(start, h, j, m + 1, id) <==> LostBetween(start, h, j, m, id) || LosesReceipt(start, h, m, id)
  {
  }

  /** The server doctor asks for the receipt in RecoveryConfig, where the recovery has already removed it. */
  lemma RecoveryConfigHasNoReceipt(start: World, h: seq<Event>, id: Name)
    requires WellFormed(start) && Legal(start, h) && PhaseAt(start, h, |h|, id) == Some(RecoveryConfig)
    ensures RequiresRecoveryReceipt(RecoveryConfig) && !HasReceipt(Replay(start, h))
  {
    assert h[..|h|] == h;
    ReachableIsWellFormed(start, h);
    assert Active(Replay(start, h), id);
  }

  // ---- The writer at the moment of migration ----

  /** An `--abort` of `id` restarted the previous writer. */
  predicate AbortStarted(e: Event, id: Name) {
    e.WriterStarted? && e.cause == ForAbort(id)
  }

  ghost predicate AbortedBetween(h: seq<Event>, j: nat, n: nat, id: Name)
    requires n <= |h|
  {
    exists k :: j < k < n && AbortStarted(h[k], id)
  }

  predicate StopsToMigrate(p: Phase) {
    p.WritersStopped? || p.BackupVerified? || p.MigrationStarted?
  }

  /** The phase before one of these phases is one of them, or fenced. */
  lemma PhaseBefore(w: World, last: Option<Event>, e: Event, id: Name)
    requires Guard(w, last, e) && id in w.transactions && !w.transactions[id].phase.Fenced?
    requires PhaseOf(Apply(w, e), id).Some? && StopsToMigrate(PhaseOf(Apply(w, e), id).value)
    ensures StopsToMigrate(w.transactions[id].phase)
  {
    PhaseStep(w, last, e, id, PhaseOf(Apply(w, e), id).value);
  }

  /** Between the writer stop and the migration nothing stops the writer again, and only an abort of this
      very update starts it. */
  lemma WriterStep(w: World, last: Option<Event>, e: Event, id: Name)
    requires Owned(w) && Guard(w, last, e) && id in w.transactions && StopsToMigrate(w.transactions[id].phase)
    ensures e.WriterStarted? ==> AbortStarted(e, id)
    ensures Apply(w, e).writer.Stopped? <==> w.writer.Stopped? && !AbortStarted(e, id)
  {
    assert Active(w, id);
    if e.WriterStarted? {
      assert !e.cause.ForCleanup?;
      assert Active(w, e.cause.update);
    }
  }

  lemma WriterAt(start: World, h: seq<Event>, m: nat, id: Name)
    requires WellFormed(start) && Legal(start, h) && m < |h|
    requires PhaseAt(start, h, m, id).Some? && !PhaseAt(start, h, m, id).value.Fenced?
    requires PhaseAt(start, h, m + 1, id).Some? && StopsToMigrate(PhaseAt(start, h, m + 1, id).value)
    ensures StopsToMigrate(PhaseAt(start, h, m, id).value)
    ensures Replay(start, h[..m + 1]).writer.Stopped?
            <==> Replay(start, h[..m]).writer.Stopped? && !AbortStarted(h[m], id)
  {
    LegalPrefix(start, h, m);
    ReachableIsWellFormed(start, h[..m]);
    assert Guarded(start, h, m);
    PhaseBefore(Replay(start, h[..m]), Last(h[..m]), h[m], id);
    WriterStep(Replay(start, h[..m]), Last(h[..m]), h[m], id);
  }

  lemma JustStopped(start: World, h: seq<Event>, j: nat, id: Name)
    requires Legal(start, h) && j < |h| && Enters(h[j], id, WritersStopped)
    ensures PhaseAt(start, h, j + 1, id) == Some(WritersStopped) && Replay(start, h[..j + 1]).writer.Stopped?
  {
    LegalPrefix(start, h, j);
    assert Guarded(start, h, j);
  }

  lemma {:induction false} NotFencedAgain(start: World, h: seq<Event>, n: nat, m: nat, id: Name)
    requires Legal(start, h) && n <= m <= |h|
    requires PhaseAt(start, h, n, id).Some? && !PhaseAt(start, h, n, id).value.Fenced?
    ensures PhaseAt(start, h, m, id).Some? && !PhaseAt(start, h, m, id).value.Fenced?
  {
    Stays(start, h, n, m, id, p => !StartsFenced(p));
  }

  predicate StartsFenced(p: Phase) {
    p.Fenced?
  }

  lemma AbortedOneMore(h: seq<Event>, j: nat, m: nat, id: Name)
    requires j < m < |h|
    ensures AbortedBetween(h, j, m + 1, id) <==> AbortedBetween(h, j, m, id) || AbortStarted(h[m], id)
  {
  }

  /** From writers_stopped up to the migration the writer is down exactly until an abort of this update restarts it. */
  lemma {:induction false} DownUntilAbort(start: World, h: seq<Event>, j: nat, n: nat, id: Name)
    requires WellFormed(start) && Legal(start, h) && j < n <= |h| && Enters(h[j], id, WritersStopped)
    requires PhaseAt(start, h, n, id).Some? && StopsToMigrate(PhaseAt(start, h, n, id).value)
    ensures Replay(start, h[..n]).writer.Stopped? <==> !AbortedBetween(h, j, n, id)
  {
    JustStopped(start, h, j, id);
    if n > j + 1 {
      NotFencedAgain(start, h, j + 1, n - 1, id);
      WriterAt(start, h, n - 1, id);
      DownUntilAbort(start, h, j, n - 1, id);
      AbortedOneMore(h, j, n - 1, id);
    }
  }

  /** The writer is down while the migration runs if and only if no abort of this update took effect since the
      writer was proved stopped. */
  lemma WriterDownAtMigration(start: World, h: seq<Event>, i: nat, id: Name) returns (j: nat)
    requires WellFormed(start) && Legal(start, h) && id !in start.transactions && i < |h| && h[i] == MigrateCalled(id)
    ensures j < i && Enters(h[j], id, WritersStopped)
    ensures Replay(start, h[..i]).writer.Stopped? <==> !AbortedBetween(h, j, i, id)
  {
    CallsAtMigrationStarted(start, h, i, id);
    var k := Back(start, h, i, id, MigrationStarted);
    var b := BackedBefore(start, h, k + 1, id);
    assert Guarded(start, h, b);
    j := Entry(start, h, b, id, WritersStopped);
    DownUntilAbort(start, h, j, i, id);
  }

  // ---- Migration steps ----

  lemma SchemaStep(w: World, last: Option<Event>, e: Event)
    requires Guard(w, last, e)
    ensures w.data.schema <= Apply(w, e).data.schema
    ensures e.StepApplied? ==> w.data.schema < e.version == Apply(w, e).data.schema
  {
  }

  lemma {:induction false} SchemaRises(start: World, h: seq<Event>, n: nat, m: nat)
    requires Legal(start, h) && n <= m <= |h|
    ensures Replay(start, h[..n]).data.schema <= Replay(start, h[..m]).data.schema
  {
    if n < m {
      SchemaRises(start, h, n, m - 1);
      LegalPrefix(start, h, m - 1);
      SchemaStep(Replay(start, h[..m - 1]), Last(h[..m - 1]), h[m - 1]);
    }
  }

  /** Over all crashes, retries and updates the migration steps are applied in rising order, so none twice. */
  lemma AppliedOnce(start: World, h: seq<Event>, i: nat, j: nat)
    requires Legal(start, h) && i < j < |h| && h[i].StepApplied? && h[j].StepApplied?
    ensures h[i].version < h[j].version
  {
    LegalPrefix(start, h, i);
    SchemaStep(Replay(start, h[..i]), Last(h[..i]), h[i]);
    SchemaRises(start, h, i + 1, j);
    LegalPrefix(start, h, j);
    SchemaStep(Replay(start, h[..j]), Last(h[..j]), h[j]);
  }

  /** What the migrator of `id` does. */
  predicate Migrating(e: Event, id: Name) {
    || e == MigrateReturned(id) || e == MigrateCalled(id)
    || ((e.StepStaged? || e.StepApplied?) && e.id == id)
  }

  /** It does nothing before it was called. */
  lemma {:induction false} CalledBefore(start: World, h: seq<Event>, k: nat, id: Name) returns (i: nat)
    requires Legal(start, h) && k < |h| && Migrating(h[k], id)
    ensures i <= k && h[i] == MigrateCalled(id)
  {
    assert Guarded(start, h, k);
    if h[k] == MigrateCalled(id) {
      i := k;
    } else {
      i := CalledBefore(start, h, k - 1, id);
    }
  }

  /** A migration that was called after `n`, when the update at `n` had only got as far as its backup. */
  lemma CalledAfter(start: World, h: seq<Event>, n: nat, id: Name) returns (i: nat)
    requires Legal(start, h) && id !in start.transactions && n <= |h|
    requires PhaseAt(start, h, n, id) == Some(BackupVerified) && PhaseAt(start, h, |h|, id) == Some(Committed)
    ensures n <= i < |h| && h[i] == MigrateCalled(id)
  {
    var a, b, c, d := CommittedInOrder(start, h, id);
    i := CalledBefore(start, h, a, id);
    CallsNotBefore(start, h, i, n, id);
  }

  lemma CallsNotBefore(start: World, h: seq<Event>, i: nat, n: nat, id: Name)
    requires Legal(start, h) && i < |h| && n <= |h| && h[i] == MigrateCalled(id)
    requires PhaseAt(start, h, n, id) == Some(BackupVerified)
    ensures n <= i
  {
    CallsAtMigrationStarted(start, h, i, id);
    if i < n { Stays(start, h, i, n, id, p => PastMigration(p)); }
  }

  lemma StoppedBefore(start: World, h: seq<Event>, j: nat, n: nat, id: Name)
    requires Legal(start, h) && j < |h| && n <= |h| && Enters(h[j], id, WritersStopped)
    requires PhaseAt(start, h, n, id) == Some(BackupVerified)
    ensures j < n
  {
    JustStopped(start, h, j, id);
    if n <= j { StaysBacked(start, h, n, j + 1, id); }
  }

  /** If the stage is gone and the writer up while a backup is verified, an update that commits all the same has
      migrated with the writer up and no receipt. */
  lemma MigratesUnguarded(start: World, h: seq<Event>, n: nat, id: Name) returns (i: nat)
    requires WellFormed(start) && Legal(start, h) && id !in start.transactions && n <= |h|
    requires PhaseAt(start, h, n, id) == Some(BackupVerified) && PhaseAt(start, h, |h|, id) == Some(Committed)
    requires Replay(start, h[..n]).stage.None? && Replay(start, h[..n]).writer.Running?
    ensures n <= i < |h| && h[i] == MigrateCalled(id)
    ensures Replay(start, h[..i]).writer.Running? && !HasReceipt(Replay(start, h[..i]))
  {
    i := CalledAfter(start, h, n, id);
    WriterStaysUp(start, h, n, i, id);
    ReceiptStaysLost(start, h, n, i, id);
  }

  lemma WriterStaysUp(start: World, h: seq<Event>, n: nat, i: nat, id: Name)
    requires WellFormed(start) && Legal(start, h) && id !in start.transactions && n <= i < |h|
    requires PhaseAt(start, h, n, id) == Some(BackupVerified) && h[i] == MigrateCalled(id)
    requires Replay(start, h[..n]).writer.Running?
    ensures Replay(start, h[..i]).writer.Running?
  {
    var j := WriterDownAtMigration(start, h, i, id);
    StoppedBefore(start, h, j, n, id);
    DownUntilAbort(start, h, j, n, id);
    AbortedLater(h, j, n, i, id);
  }

  lemma AbortedLater(h: seq<Event>, j: nat, n: nat, i: nat, id: Name)
    requires n <= i <= |h| && AbortedBetween(h, j, n, id)
    ensures AbortedBetween(h, j, i, id)
  {
  }

  lemma ReceiptStaysLost(start: World, h: seq<Event>, n: nat, i: nat, id: Name)
    requires WellFormed(start) && Legal(start, h) && id !in start.transactions && n <= i < |h|
    requires PhaseAt(start, h, n, id) == Some(BackupVerified) && h[i] == MigrateCalled(id)
    requires !HasReceipt(Replay(start, h[..n]))
    ensures !HasReceipt(Replay(start, h[..i]))
  {
    var b := BackedBefore(start, h, n, id);
    CallsAtMigrationStarted(start, h, i, id);
    ReceiptUntilRemoval(start, h, b, n, id);
    ReceiptUntilRemoval(start, h, b, i, id);
    LostLater(start, h, b, n, i, id);
  }

  lemma LostLater(start: World, h: seq<Event>, b: nat, n: nat, i: nat, id: Name)
    requires n <= i <= |h| && LostBetween(start, h, b, n, id)
    ensures LostBetween(start, h, b, i, id)
  {
  }
}
