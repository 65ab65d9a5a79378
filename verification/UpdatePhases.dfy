/**
 The durable phases of one server update, the compare-and-swap transition table
 that the database enforces, and the records an update carries.
 */
module UpdatePhases {
  import opened Options

  /** Identifiers, release names, digests and paths are only ever compared, so a name is a number. */
  type Name = nat

  const EMPTY: Name := 0

  datatype Phase =
    | Fenced | WritersStopped | BackupVerified
    | MigrationStarted | Migrated | CandidateReady | DoctorPassed | ConfigPublished
    | RecoveryRequired | RecoveryReady | RecoveryDoctor | RecoveryConfig
    | Committed | Recovered | Aborted

  predicate Terminal(p: Phase) {
    p.Committed? || p.Recovered? || p.Aborted?
  }

  /** The transition table of AdvanceUpdate. */
  predicate Allowed(from: Phase, to: Phase) {
    match from
    case Fenced => to.WritersStopped? || to.Aborted?
    case WritersStopped => to.BackupVerified? || to.Aborted?
    case BackupVerified => to.MigrationStarted? || to.Aborted?
    case MigrationStarted => to.Migrated? || to.RecoveryRequired?
    case Migrated => to.CandidateReady? || to.RecoveryRequired?
    case CandidateReady => to.DoctorPassed? || to.RecoveryRequired?
    case DoctorPassed => to.ConfigPublished? || to.RecoveryRequired?
    case ConfigPublished => to.Committed?
    case RecoveryRequired => to.RecoveryReady?
    case RecoveryReady => to.RecoveryDoctor?
    case RecoveryDoctor => to.RecoveryConfig?
    case RecoveryConfig => to.Recovered?
    case _ => false
  }

  /** Phases in which an explicit recovery is being driven. */
  predicate Recovering(p: Phase) {
    p.RecoveryRequired? || p.RecoveryReady? || p.RecoveryDoctor? || p.RecoveryConfig?
  }

  /** The phases for which the server doctor demands the recovery receipt. */
  predicate RequiresRecoveryReceipt(p: Phase) {
    match p
    case BackupVerified => true
    case MigrationStarted => true
    case Migrated => true
    case CandidateReady => true
    case DoctorPassed => true
    case ConfigPublished => true
    case RecoveryRequired => true
    case RecoveryReady => true
    case RecoveryDoctor => true
    case RecoveryConfig => true
    case _ => false
  }

  /** How many phase transitions can still happen inside the phase loop. */
  function Rank(p: Phase): (n: nat)
    ensures n <= 8
    ensures n == 0 <==> Terminal(p)
    ensures Recovering(p) ==> n <= 4
  {
    match p
    case Fenced => 8
    case WritersStopped => 7
    case BackupVerified => 6
    case MigrationStarted => 5
    case Migrated => 4
    case CandidateReady => 3
    case DoctorPassed => 2
    case ConfigPublished => 1
    case RecoveryRequired => 4
    case RecoveryReady => 3
    case RecoveryDoctor => 2
    case RecoveryConfig => 1
    case _ => 0
  }

  /** The phase a successful pass of the loop moves to. */
  function Next(p: Phase): (q: Phase)
    ensures !Terminal(p) ==> Allowed(p, q) && Rank(q) < Rank(p)
    ensures Recovering(p) ==> Recovering(q) || q.Recovered?
    ensures !Recovering(p) ==> !Recovering(q)
  {
    match p
    case Fenced => WritersStopped
    case WritersStopped => BackupVerified
    case BackupVerified => MigrationStarted
    case MigrationStarted => Migrated
    case Migrated => CandidateReady
    case CandidateReady => DoctorPassed
    case DoctorPassed => ConfigPublished
    case ConfigPublished => Committed
    case RecoveryRequired => RecoveryReady
    case RecoveryReady => RecoveryDoctor
    case RecoveryDoctor => RecoveryConfig
    case RecoveryConfig => Recovered
    case _ => p
  }

  /** From the irreversible migration boundary on. */
  predicate PastMigration(p: Phase) {
    !p.Fenced? && !p.WritersStopped? && !p.BackupVerified? && !p.Aborted?
  }

  predicate PastBackup(p: Phase) {
    !p.Fenced? && !p.WritersStopped?
  }

  predicate PastPublication(p: Phase) {
    p.ConfigPublished? || p.Committed?
  }

  datatype Image = Image(repository: Name, digest: Name)

  /** One immutable update boundary; `boundary` stands for the release, Compose and migration digests
      and the schema window, which are only ever compared for equality. */
  datatype Request = Request(
    updateId: Name,
    sourceRelease: Name, targetRelease: Name,
    sourceImage: Image, targetImage: Image,
    sourceSchema: int, targetSchema: int,
    boundary: Name)

  predicate ValidRequest(r: Request) {
    && r.updateId != EMPTY
    && r.sourceRelease != r.targetRelease
    && r.sourceImage != r.targetImage
    && 1 <= r.sourceSchema <= r.targetSchema
  }

  /** The schema-5 source has no durable fence, so its first transition runs inside an open transaction. */
  predicate NeedsBridge(r: Request) {
    r.sourceSchema == 5 && r.targetSchema == 6
  }

  datatype Marker = Marker(
    updateId: Name, backupId: Name, installationId: Name, timelineId: Name,
    changeSequence: int, sourceSchema: int, targetRelease: Name, targetImageDigest: Name,
    exportedSnapshotId: Name, manifestSha256: Name)

  datatype Receipt = Receipt(
    version: int, updateId: Name, backupId: Name, backupDirectory: Name,
    installationId: Name, timelineId: Name,
    changeSequence: int, sourceSchema: int, targetRelease: Name, targetImageDigest: Name,
    exportedSnapshotId: Name, manifestSha256: Name)

  function BindMarker(m: Marker, directory: Name): Receipt {
    Receipt(1, m.updateId, m.backupId, directory, m.installationId, m.timelineId, m.changeSequence,
            m.sourceSchema, m.targetRelease, m.targetImageDigest, m.exportedSnapshotId, m.manifestSha256)
  }

  function ReceiptMarker(r: Receipt): Marker {
    Marker(r.updateId, r.backupId, r.installationId, r.timelineId, r.changeSequence,
           r.sourceSchema, r.targetRelease, r.targetImageDigest, r.exportedSnapshotId, r.manifestSha256)
  }

  /** Binding a marker to a receipt loses nothing, and a receipt adds only where the backup lies. */
  lemma MarkerSurvivesReceipt(m: Marker, directory: Name, r: Receipt)
    ensures ReceiptMarker(BindMarker(m, directory)) == m
    ensures r.version == 1 ==> BindMarker(ReceiptMarker(r), r.backupDirectory) == r
  {
  }

  datatype Transaction = Transaction(request: Request, phase: Phase, marker: Option<Marker>)

  /** The installation's identity and how far its data have changed; application writes raise the sequence. */
  datatype ServerState = ServerState(installationId: Name, timelineId: Name, changeSequence: int)

  /** What a new backup does not take from the transaction or the snapshot. */
  datatype Taken = Taken(backupId: Name, exportedSnapshotId: Name, manifestSha256: Name)

  /** A backup names its transaction and otherwise what the exported snapshot shows. */
  function TakenMarker(s: ServerState, schema: int, t: Transaction, taken: Taken): Marker {
    Marker(t.request.updateId, taken.backupId, s.installationId, s.timelineId, s.changeSequence, schema,
           t.request.targetRelease, t.request.targetImage.digest, taken.exportedSnapshotId, taken.manifestSha256)
  }

  /** The database's own check of a marker: nothing has changed since its snapshot. */
  predicate AtBoundary(m: Marker, s: ServerState) {
    && m.installationId == s.installationId && m.timelineId == s.timelineId
    && m.changeSequence == s.changeSequence
  }

  predicate MarkerMatches(m: Marker, t: Transaction) {
    && m.updateId == t.request.updateId
    && m.installationId != EMPTY && m.timelineId != EMPTY
    && m.sourceSchema == t.request.sourceSchema
    && m.targetRelease == t.request.targetRelease
    && m.targetImageDigest == t.request.targetImage.digest
  }
}
