/**
 What an update leaves behind. The world is the durable state of the host and the database; an event is
 one durable change or one confirmed proof. `Replay` computes the world a history leads to, `Guard` says
 what must hold when an event is appended, and `Legal` histories are those whose every event was guarded.
 The events themselves are unrestricted: nothing in `Apply` prevents, say, a migration without a backup.
 */
module UpdateHistory {
  import opened Options
  import opened UpdatePhases

  /** The identity under which the host reserves its stage directory. */
  datatype StageKey = StageKey(
    updateId: Name, sourceRelease: Name, sourceImage: Image, targetRelease: Name, targetImage: Image)

  function KeyOf(r: Request): StageKey {
    StageKey(r.updateId, r.sourceRelease, r.sourceImage, r.targetRelease, r.targetImage)
  }

  /** The `.update` directory: its journal, and the recovery receipt that lives beside the journal. */
  datatype Stage = Stage(key: StageKey, published: bool, receipt: Option<Receipt>)

  datatype Writer = Stopped | Running(image: Image)

  /** The database besides its update rows. `schema` is the last migration applied; the database is dirty while the
      next one is recorded as being applied. */
  datatype Database = Database(schema: int, dirty: bool, state: ServerState)

  datatype World = World(
    transactions: map<Name, Transaction>,
    stage: Option<Stage>,
    image: Image,
    writer: Writer,
    data: Database)

  predicate HasReceipt(w: World) {
    w.stage.Some? && w.stage.value.receipt.Some?
  }

  /** What is known of the writer when a stage without a transaction goes. */
  datatype Sighting = Unseen | SeenRunning | Restored

  datatype Removal =
    | Unpublished(seen: Sighting)  // no transaction became durable
    | Pending                      // the open bridge transaction was rolled back
    | Abandoned                    // the operator aborted a durable transaction
    | RecoveryDone                 // the previous configuration was published
    | Finished                     // clean-up after a terminal phase

  /** Why a writer is started. */
  datatype Cause = ForCandidate(update: Name) | ForRecovery(update: Name) | ForAbort(update: Name) | ForCleanup

  datatype Event =
    | Began(request: Request)
    | BridgeCommitted(request: Request)
    | Advanced(id: Name, from: Phase, to: Phase, marker: Option<Marker>)
    | WriterStopped
    | StopProved
    | WriterStarted(image: Image, cause: Cause)
    | PreviousReady(image: Image)
    | StageReady(key: StageKey)
    | StageRemoved(why: Removal)
    | ReceiptBound(receipt: Receipt)
    | BackedUp(id: Name, taken: Marker)
    | MigrateCalled(id: Name)
    | StepStaged(id: Name, version: int)
    | StepApplied(id: Name, version: int)
    | MigrateReturned(id: Name)
    | CandidateUp(id: Name)
    | DoctorOk(id: Name, recovery: bool)
    | MarkerReplaced(image: Image)
    | JournalPublished
    | PublishOk(id: Name, recovery: bool)
    | RecoverOk(id: Name)
    | PreviousRestored(id: Name)
    | ApplicationWrote(sequence: int)

  function Apply(w: World, e: Event): World {
    match e
    case Began(r) => w.(transactions := w.transactions[r.updateId := Transaction(r, Fenced, None)])
    case BridgeCommitted(r) => w.(transactions := w.transactions[r.updateId := Transaction(r, WritersStopped, None)])
    case Advanced(id, from, to, marker) =>
      if id !in w.transactions then w else
      var t := w.transactions[id];
      w.(transactions := w.transactions[id := t.(phase := to, marker := if marker.Some? then marker else t.marker)])
    case WriterStopped => w.(writer := Stopped)
    case WriterStarted(image, _) => w.(writer := Running(image))
    case StageReady(key) =>
      if w.stage.None? then w.(stage := Some(Stage(key, false, None)))
      else w.(stage := Some(w.stage.value.(published := w.stage.value.published || w.image == key.targetImage)))
    case StageRemoved(_) => w.(stage := None)
    case ReceiptBound(receipt) =>
      if w.stage.None? then w else w.(stage := Some(w.stage.value.(receipt := Some(receipt))))
    case StepStaged(_, _) => w.(data := w.data.(dirty := true))
    case StepApplied(_, version) => w.(data := w.data.(schema := version, dirty := false))
    case ApplicationWrote(sequence) => w.(data := w.data.(state := w.data.state.(changeSequence := sequence)))
    case MarkerReplaced(image) => w.(image := image)
    case JournalPublished => if w.stage.None? then w else w.(stage := Some(w.stage.value.(published := true)))
    case _ => w
  }

  /** The events that record a proof and change nothing. */
  predicate Silent(e: Event) {
    || e.StopProved? || e.PreviousReady? || e.BackedUp? || e.MigrateCalled? || e.MigrateReturned? || e.CandidateUp?
    || e.DoctorOk? || e.PublishOk? || e.RecoverOk? || e.PreviousRestored?
  }

  function Replay(start: World, h: seq<Event>): World {
    if h == [] then start else Apply(Replay(start, h[..|h| - 1]), h[|h| - 1])
  }

  predicate At(w: World, id: Name, p: Phase) {
    id in w.transactions && w.transactions[id].phase == p
  }

  predicate Active(w: World, id: Name) {
    id in w.transactions && !Terminal(w.transactions[id].phase)
  }

  ghost predicate Idle(w: World) {
    forall id | id in w.transactions :: Terminal(w.transactions[id].phase)
  }

  /** An installation before its first modelled update: nothing active, nothing staged, the writer up. */
  ghost predicate Fresh(w: World) {
    Idle(w) && w.stage.None? && w.writer == Running(w.image)
  }

  function Last(h: seq<Event>): Option<Event> {
    if h == [] then None else Some(h[|h| - 1])
  }

  /** What must have been proved immediately before a transaction may move to `to`. */
  ghost predicate Evidence(w: World, last: Option<Event>, id: Name, to: Phase, marker: Option<Marker>)
    requires id in w.transactions
  {
    var r := w.transactions[id].request;
    match to
    case WritersStopped => last == Some(StopProved) && w.writer.Stopped?
    case BackupVerified =>
      && marker.Some? && marker.value.updateId == id
      && MarkerMatches(marker.value, w.transactions[id]) && AtBoundary(marker.value, w.data.state)
      && last == Some(BackedUp(id, marker.value))
      && w.stage.Some? && w.stage.value.receipt.Some? && ReceiptMarker(w.stage.value.receipt.value) == marker.value
    case Migrated => last == Some(MigrateReturned(id)) && w.data.schema == r.targetSchema
    case CandidateReady => last == Some(CandidateUp(id)) && w.writer == Running(r.targetImage)
    case DoctorPassed => last == Some(DoctorOk(id, false))
    case ConfigPublished =>
      && last == Some(PublishOk(id, false)) && w.image == r.targetImage
      && w.stage.Some? && w.stage.value.published
    case RecoveryReady => last == Some(RecoverOk(id)) && w.image == r.sourceImage && w.writer == Running(r.sourceImage)
    case RecoveryDoctor => last == Some(DoctorOk(id, true))
    case RecoveryConfig => last == Some(PublishOk(id, true)) && w.stage.None?
    case Aborted =>
      && last == Some(PreviousRestored(id)) && w.stage.None?
      && w.image == r.sourceImage && w.writer == Running(r.sourceImage)
    case _ => true
  }

  /** The phases in which the previous image may be put back and the update given up. */
  predicate BeforeMigration(p: Phase) {
    p.Fenced? || p.WritersStopped? || p.BackupVerified?
  }

  /** When a writer may be started, and from which image, by what it is started for. */
  ghost predicate MayStart(w: World, image: Image, cause: Cause) {
    match cause
    case ForCandidate(id) => At(w, id, Migrated) && image == w.transactions[id].request.targetImage
    case ForRecovery(id) =>
      && id in w.transactions && image == w.image == w.transactions[id].request.sourceImage
      && Recovering(w.transactions[id].phase) && !w.transactions[id].phase.RecoveryConfig?
    case ForAbort(id) =>
      && id in w.transactions && image == w.image == w.transactions[id].request.sourceImage
      && BeforeMigration(w.transactions[id].phase)
    case ForCleanup => Idle(w) && image == w.image
  }

  /** The migrator has been called for `id` and is between two of its steps. */
  predicate BetweenSteps(last: Option<Event>, id: Name) {
    last.Some? && (last.value == MigrateCalled(id) || (last.value.StepApplied? && last.value.id == id))
  }

  /** When the installation marker may name `image`. */
  predicate MayPublish(t: Transaction, image: Image) {
    if image == t.request.targetImage then t.phase.DoctorPassed?
    else image == t.request.sourceImage
         && (t.phase.RecoveryRequired? || t.phase.RecoveryReady? || t.phase.RecoveryDoctor?)
  }

  /** When a proof may be recorded. */
  ghost predicate Proves(w: World, last: Option<Event>, e: Event) {
    match e
    case StopProved => w.writer.Stopped?
    case PreviousReady(image) =>
      last.Some? && last.value.WriterStarted? && last.value.image == image && w.writer == Running(image)
    case BackedUp(id, marker) => At(w, id, WritersStopped)
    case MigrateCalled(id) => At(w, id, MigrationStarted)
    case MigrateReturned(id) =>
      && At(w, id, MigrationStarted) && BetweenSteps(last, id) && !w.data.dirty
      && w.data.schema == w.transactions[id].request.targetSchema
    case CandidateUp(id) =>
      At(w, id, Migrated) && last == Some(WriterStarted(w.transactions[id].request.targetImage, ForCandidate(id)))
    case DoctorOk(id, recovery) =>
      if recovery then At(w, id, RecoveryReady) && last == Some(RecoverOk(id)) else At(w, id, CandidateReady)
    case PublishOk(id, recovery) =>
      if recovery then At(w, id, RecoveryDoctor) && w.stage.None? else At(w, id, DoctorPassed)
    case RecoverOk(id) =>
      && Active(w, id) && (At(w, id, RecoveryRequired) || At(w, id, RecoveryReady) || At(w, id, RecoveryDoctor))
      && w.image == w.transactions[id].request.sourceImage && w.writer == Running(w.image)
    case PreviousRestored(id) =>
      && id in w.transactions && BeforeMigration(w.transactions[id].phase)
      && w.stage.None? && w.writer == Running(w.transactions[id].request.sourceImage)
    case _ => false
  }

  /** When the world may be changed. */
  ghost predicate Permits(w: World, last: Option<Event>, e: Event) {
    match e
    case Began(r) =>
      && ValidRequest(r) && w.data.schema == r.sourceSchema && !w.data.dirty && r.updateId !in w.transactions && Idle(w)
      && w.stage.Some? && w.stage.value.key == KeyOf(r)
    case BridgeCommitted(r) =>
      && ValidRequest(r) && w.data.schema == r.sourceSchema && !w.data.dirty && NeedsBridge(r)
      && r.updateId !in w.transactions && Idle(w)
      && w.stage.Some? && w.stage.value.key == KeyOf(r)
      && last == Some(StopProved) && w.writer.Stopped?
    case Advanced(id, from, to, marker) =>
      && !w.data.dirty && At(w, id, from) && Allowed(from, to) && (marker.Some? <==> to.BackupVerified?)
      && Evidence(w, last, id, to, marker)
    case WriterStopped =>
      forall id | Active(w, id) :: w.transactions[id].phase.Fenced?
    case WriterStarted(image, cause) => MayStart(w, image, cause)
    case StageReady(key) =>
      && key.sourceImage != key.targetImage
      && (if w.stage.None? then w.image == key.sourceImage
          else
            && w.stage.value.key == key
            && (w.image == key.targetImage || (w.image == key.sourceImage && !w.stage.value.published)))
      && (forall id | Active(w, id) ::
            key == KeyOf(w.transactions[id].request) && !Recovering(w.transactions[id].phase))
    case StageRemoved(why) =>
      w.stage.Some? && Removable(w, last, why, w.stage.value)
    case ReceiptBound(receipt) =>
      && w.stage.Some? && !w.stage.value.published
      && (w.stage.value.receipt.None? || w.stage.value.receipt == Some(receipt))
      && receipt.updateId == w.stage.value.key.updateId
      && At(w, receipt.updateId, WritersStopped)
      && MarkerMatches(ReceiptMarker(receipt), w.transactions[receipt.updateId])
      && AtBoundary(ReceiptMarker(receipt), w.data.state)
    case StepStaged(id, version) =>
      && At(w, id, MigrationStarted) && BetweenSteps(last, id) && !w.data.dirty
      && version == w.data.schema + 1 <= w.transactions[id].request.targetSchema
    case StepApplied(id, version) =>
      && At(w, id, MigrationStarted) && last == Some(StepStaged(id, version)) && w.data.dirty
      && version == w.data.schema + 1
    case MarkerReplaced(image) =>
      && w.stage.Some?
      && exists id :: Active(w, id) && MayPublish(w.transactions[id], image)
    case JournalPublished =>
      && w.stage.Some? && w.image == w.stage.value.key.targetImage
    case ApplicationWrote(sequence) => Idle(w) && w.writer.Running? && w.data.state.changeSequence < sequence
    case _ => false
  }

  ghost predicate Guard(w: World, last: Option<Event>, e: Event) {
    if Silent(e) then Proves(w, last, e) else Permits(w, last, e)
  }

  /** The previous writer has just been restarted and answered its probes. */
  predicate Ready(w: World, last: Option<Event>) {
    last == Some(PreviousReady(w.image)) && w.writer == Running(w.image)
  }

  /** When each kind of removal of the host stage may happen. */
  ghost predicate Removable(w: World, last: Option<Event>, why: Removal, stage: Stage) {
    match why
    case Unpublished(seen) =>
      && stage.key.updateId !in w.transactions && Idle(w)
      && (seen.SeenRunning? ==> w.writer.Running?)
      && (seen.Restored? ==> Ready(w, last))
    case Pending => stage.key.updateId !in w.transactions && Idle(w) && Ready(w, last)
    case Abandoned =>
      && stage.key.updateId in w.transactions && BeforeMigration(w.transactions[stage.key.updateId].phase)
      && Ready(w, last) && w.image == stage.key.sourceImage
    case RecoveryDone => At(w, stage.key.updateId, RecoveryDoctor)
    case Finished => stage.key.updateId in w.transactions && Terminal(w.transactions[stage.key.updateId].phase)
  }

  /** The `i`-th event was guarded by the world and the event before it. */
  ghost predicate Guarded(start: World, h: seq<Event>, i: nat)
    requires i < |h|
  {
    Guard(Replay(start, h[..i]), Last(h[..i]), h[i])
  }

  ghost predicate Legal(start: World, h: seq<Event>) {
    forall i: nat {:trigger Guarded(start, h, i)} :: i < |h| ==> Guarded(start, h, i)
  }

  /** Appending one guarded event keeps a history legal. */
  lemma LegalAppend(start: World, h: seq<Event>, e: Event)
    requires Legal(start, h) && Guard(Replay(start, h), Last(h), e)
    ensures Legal(start, h + [e]) && Replay(start, h + [e]) == Apply(Replay(start, h), e)
  {
    var h' := h + [e];
    assert h'[..|h|] == h;
    forall i: nat | i < |h'|
      ensures Guarded(start, h', i)
    {
      if i < |h| {
        assert Guarded(start, h, i) && h'[..i] == h[..i];
      }
    }
  }

  /** Every prefix of a legal history is legal, and replays one guarded event at a time. */
  lemma LegalPrefix(start: World, h: seq<Event>, n: nat)
    requires Legal(start, h) && n <= |h|
    ensures Legal(start, h[..n])
    ensures n < |h| ==> Guarded(start, h, n) && Replay(start, h[..n + 1]) == Apply(Replay(start, h[..n]), h[n])
  {
    forall i: nat | i < n
      ensures Guarded(start, h[..n], i)
    {
      assert Guarded(start, h, i) && h[..n][..i] == h[..i];
    }
    if n < |h| { assert h[..n + 1][..n] == h[..n]; }
  }
}
