/**
 Whole runs of the update command: the runs in which the code does less than it promises, driven from an installation
 by the commands an operator would give, and the ways out of a failed migration.
 */
module UpdateRuns {
  import opened Faults
  import opened Options
  import opened UpdatePhases
  import opened UpdateHistory
  import opened UpdateTheorems
  import opened UpdateExecutor
  import opened UpdateRestore

  const UNDISTURBED := Environment(map[])
  const BACKUPS: Name := 1

  /** The process dies instead of making one durable step. */
  function DyingAt(site: Site): Environment {
    Environment(map[site := Died(false)])
  }

  /** A request that starts from this installation. */
  ghost predicate Starts(w: World, r: Request) {
    && ValidRequest(r) && r.updateId !in w.transactions && w.image == r.sourceImage && w.data.schema == r.sourceSchema
  }

  /** The first command for a new update, whose process dies at one durable step. */
  method StartAndDie(w: Installation, r: Request, taken: Taken, site: Site)
    returns (e: CommandUpdateExecutor, ghost outcome: Result, t: Transaction)
    requires Starts(w, r) && Durable(site)
    ensures fresh(e) && e.Valid() && e.start == w && t.request == r
    ensures Commits(e.world, t, Fenced, r.sourceSchema, DyingAt(site), outcome)
  {
    e := new CommandUpdateExecutor(w);
    var result, passes;
    result, t, passes := e.ExecuteUpdate(Execution(r, false, Unchosen), taken, BACKUPS, DyingAt(site));
    outcome := result;
  }

  /** The first command dies before a phase becomes durable, and leaves the update in the phase before. */
  method StartUpTo(w: Installation, r: Request, taken: Taken, to: Phase)
    returns (e: CommandUpdateExecutor, t: Transaction)
    requires Starts(w, r) && Forward(to) && !to.Fenced? && !to.WritersStopped?
    ensures fresh(e) && e.Valid() && e.start == w && t.request == r && Recorded(e.world, t) && !e.world.data.dirty
    ensures Forward(t.phase) && Next(t.phase) == to && HasReceipt(e.world)
  {
    ghost var outcome;
    e, outcome, t := StartAndDie(w, r, taken, Advancing(to));
    assert DyingAt(Advancing(to)).On(Advancing(to)).Died?;
  }

  /** The first command dies at one step of the migration: before recording it, or before applying it. */
  method StartUpToStep(w: Installation, r: Request, taken: Taken, v: int, recorded: bool)
    returns (e: CommandUpdateExecutor, t: Transaction)
    requires Starts(w, r) && r.sourceSchema < v <= r.targetSchema
    ensures fresh(e) && e.Valid() && e.start == w && t.request == r && Recorded(e.world, t) && t.phase.MigrationStarted?
    ensures e.world.data.schema == v - 1 && e.world.data.dirty == recorded && HasReceipt(e.world)
  {
    ghost var outcome;
    var site := if recorded then StepApply(v) else StepStage(v);
    e, outcome, t := StartAndDie(w, r, taken, site);
    if outcome.Success? { EveryStep(DyingAt(site), r.sourceSchema, v, r.targetSchema); }
  }

  /** The doctor refuses the receipt of an update that has just stopped its writers. */
  method StopWithReceipt(w: Installation, r: Request, taken: Taken) returns (e: CommandUpdateExecutor)
    requires Starts(w, r)
    ensures fresh(e) && e.Valid() && At(e.world, r.updateId, WritersStopped) && HasReceipt(e.world)
    ensures !RequiresRecoveryReceipt(WritersStopped)
  {
    var t;
    e, t := StartUpTo(w, r, taken, BackupVerified);
  }

  // ---- An abort that dies halfway ----

  /** From every state in backup_verified: an abort that dies before the database hears of it, and a plain resume that
      nothing disturbs, migrate with the previous writer up and no recovery receipt on the host. */
  method ResumeAfterHalfAbort(e: CommandUpdateExecutor, t: Transaction, taken: Taken) returns (ghost i: nat)
    requires e.Valid() && Recorded(e.world, t) && t.phase.BackupVerified? && t.request.updateId !in e.start.transactions
    modifies e
    ensures e.Valid() && |old(e.history)| <= i < |e.history| && e.history[i] == MigrateCalled(t.request.updateId)
    ensures Replay(e.start, e.history[..i]).writer.Running? && !HasReceipt(Replay(e.start, e.history[..i]))
    ensures At(e.world, t.request.updateId, Committed)
  {
    e.ActsAlone(t);
    var r, t', passes :=
      e.ExecuteUpdate(Execution(t.request, true, Unchosen), taken, BACKUPS, DyingAt(Advancing(Aborted)));
    ghost var h := e.history;
    r, t', passes := e.ExecuteUpdate(Execution(t.request, false, Unchosen), taken, BACKUPS, UNDISTURBED);
    assert e.history[..|h|] == h && e.history[..|e.history|] == e.history;
    i := MigratesUnguarded(e.start, e.history, |h|, t.request.updateId);
  }

  /** Three commands from an installation to a migration without a receipt under a running writer. */
  method MigrateUnguarded(w: Installation, r: Request, taken: Taken) returns (e: CommandUpdateExecutor, ghost i: nat)
    requires Starts(w, r)
    ensures fresh(e) && e.Valid() && i < |e.history| && e.history[i] == MigrateCalled(r.updateId)
    ensures Replay(w, e.history[..i]).writer.Running? && !HasReceipt(Replay(w, e.history[..i]))
  {
    var t;
    e, t := StartUpTo(w, r, taken, MigrationStarted);
    i := ResumeAfterHalfAbort(e, t, taken);
  }

  // ---- Recovery ----

  /** From every migrated state: a compatible recovery that dies before its last step. */
  method RecoverUpToConfig(e: CommandUpdateExecutor, t: Transaction, taken: Taken)
    requires e.Valid() && Recorded(e.world, t) && t.phase.Migrated?
    modifies e
    ensures e.Valid() && At(e.world, t.request.updateId, RecoveryConfig) && !HasReceipt(e.world)
  {
    e.ActsAlone(t);
    var outcome, t', passes :=
      e.ExecuteUpdate(Execution(t.request, false, Compatible), taken, BACKUPS, DyingAt(Advancing(Recovered)));
    e.ActsAlone(t');
  }

  /** Two commands to recovery_config, where the doctor demands a receipt and there is none. */
  method ReachRecoveryConfig(w: Installation, r: Request, taken: Taken) returns (e: CommandUpdateExecutor)
    requires Starts(w, r)
    ensures fresh(e) && e.Valid() && At(e.world, r.updateId, RecoveryConfig) && !HasReceipt(e.world)
  {
    var t;
    e, t := StartUpTo(w, r, taken, CandidateReady);
    RecoverUpToConfig(e, t, taken);
  }

  /** Which recovery can be driven on the spot: the compatible one needs the target schema, the restore one the source
      schema. Between the two, and until the doctor has passed, neither can. */
  lemma OnTheSpot(w: World, t: Transaction)
    requires WellFormed(w) && Recorded(w, t) && MayRecover(t.phase) && !w.data.dirty
    ensures Recovers(w, t, Compatible, w.image)
            <==> t.phase.RecoveryDoctor? || t.phase.RecoveryConfig? || w.data.schema == t.request.targetSchema
    ensures Recovers(w, t, Compatible, w.image) || Recovers(w, t, Restore, w.image)
            <==> || t.phase.RecoveryDoctor? || t.phase.RecoveryConfig?
                 || w.data.schema == t.request.sourceSchema || w.data.schema == t.request.targetSchema
  {
    assert Active(w, t.request.updateId);
    assert Consistent(w, t) && Levelled(w, t);
  }

  /** A migration that died before recording step `v`: the compatible recovery fails, undisturbed, and so does the
      restore one if any step had been made. */
  method FailToRecover(w: Installation, r: Request, taken: Taken, v: int, mode: RecoveryMode)
    returns (e: CommandUpdateExecutor, outcome: Result)
    requires Starts(w, r) && r.sourceSchema < v <= r.targetSchema
    requires mode.Compatible? || (mode.Restore? && r.sourceSchema + 1 < v)
    ensures fresh(e) && e.Valid() && !outcome.Success?
  {
    var t, passes;
    e, t := StartUpToStep(w, r, taken, v, false);
    outcome, t, passes := e.ExecuteUpdate(Execution(r, false, mode), taken, BACKUPS, UNDISTURBED);
  }

  /** A migration that died between the halves of a step: whatever commands are given, nothing is ever done again. */
  method StrandMigration(w: Installation, r: Request, taken: Taken, v: int, commands: seq<Command>)
    returns (e: CommandUpdateExecutor)
    requires Starts(w, r) && r.sourceSchema < v <= r.targetSchema
    ensures fresh(e) && e.Valid() && At(e.world, r.updateId, MigrationStarted) && HasReceipt(e.world)
    ensures e.world.data.dirty && e.world.data.schema == v - 1
  {
    var t;
    e, t := StartUpToStep(w, r, taken, v, true);
    e.RunInvocations(commands);
  }

  // ---- The way out ----

  /** `punaro restore` with the receipt of an update: a new installation beside the old one. */
  method RestoreInstallation(e: CommandUpdateExecutor, timeline: Name) returns (restored: CommandUpdateExecutor)
    requires e.Valid() && HasReceipt(e.world) && timeline != EMPTY
    ensures WellFormed(e.world) && fresh(restored) && restored.Valid()
    ensures restored.world == RestoredFrom(e.world, timeline)
  {
    e.Reached();
    RestoredIsWellFormed(e.world, timeline);
    restored := new CommandUpdateExecutor(RestoredFrom(e.world, timeline));
  }

  /** From every reachable world that holds a receipt, however its migration ended: restored and recovered, undisturbed,
      the previous release runs again on the previous schema. */
  method RecoverFromReceipt(e: CommandUpdateExecutor, timeline: Name, taken: Taken)
    returns (restored: CommandUpdateExecutor, t: Transaction)
    requires e.Valid() && HasReceipt(e.world) && timeline != EMPTY
    ensures fresh(restored) && restored.Valid() && Recorded(restored.world, t) && t.phase.Recovered?
    ensures t.request.updateId == e.world.stage.value.receipt.value.updateId
    ensures OutcomeHolds(restored.world, t.request, Recovered) && restored.world.data.schema == t.request.sourceSchema
  {
    restored := RestoreInstallation(e, timeline);
    var id := e.world.stage.value.receipt.value.updateId;
    var request := e.world.transactions[id].request;
    var outcome, passes;
    restored.Reached();
    outcome, t, passes := restored.ExecuteUpdate(Execution(request, false, Restore), taken, BACKUPS, UNDISTURBED);
  }

  predicate PastRecoveryDoctor(p: Phase) {
    p.RecoveryDoctor? || p.RecoveryConfig? || p.Recovered?
  }

  ghost predicate AbandonedAt(start: World, h: seq<Event>, k: nat, id: Name)
    requires k < |h|
  {
    h[k] == StageRemoved(Abandoned) && PhaseAt(start, h, k, id) == Some(BackupVerified)
  }

  lemma AbandonedOrReturned(start: World, h: seq<Event>, k: nat, id: Name)
    requires Legal(start, h) && k < |h| && LosesReceipt(start, h, k, id) && !AbandonedAt(start, h, k, id)
    ensures PhaseAt(start, h, |h|, id).Some? && PastRecoveryDoctor(PhaseAt(start, h, |h|, id).value)
  {
    Stays(start, h, k, |h|, id, p => PastRecoveryDoctor(p));
  }

  lemma LostSince(start: World, h: seq<Event>, id: Name) returns (k: nat)
    requires WellFormed(start) && Legal(start, h) && id !in start.transactions && Active(Replay(start, h), id)
    requires RequiresRecoveryReceipt(Replay(start, h).transactions[id].phase) && !HasReceipt(Replay(start, h))
    ensures k < |h| && LosesReceipt(start, h, k, id)
  {
    assert h[..|h|] == h;
    var j := ReceiptPhaseWasBacked(start, h, |h|, id);
    ReceiptUntilRemoval(start, h, j, |h|, id);
    k :| j < k < |h| && LosesReceipt(start, h, k, id);
  }

  /** The receipt is there whenever it is needed, unless an abort at backup_verified took it away: without it, the
      recovery has passed its doctor already and can be driven to its end on the spot. */
  lemma ReceiptWhenNeeded(start: World, h: seq<Event>, id: Name)
    requires WellFormed(start) && Legal(start, h) && id !in start.transactions && id in Replay(start, h).transactions
    requires MayRecover(Replay(start, h).transactions[id].phase) && !HasReceipt(Replay(start, h))
    ensures PastRecoveryDoctor(Replay(start, h).transactions[id].phase)
            || exists k: nat :: k < |h| && AbandonedAt(start, h, k, id)
  {
    var k := LostSince(start, h, id);
    assert h[..|h|] == h;
    if !AbandonedAt(start, h, k, id) { AbandonedOrReturned(start, h, k, id); }
  }

  // ---- A stopped writer whose stage is lost ----

  const DYING_BEFORE_COMMIT := Environment(map[Revalidate(true) := Died(false)])
  const REFUSED_START := Environment(map[CleanupResume := Refused, PathCheck := Refused])

  /** The first command of a bridged update dies with its bridge open right after it stopped the writer. */
  method DieStopped(e: CommandUpdateExecutor, r: Request, taken: Taken, dying: Environment)
    requires e.Valid() && CommandUpdateExecutor.Startable(e.world, Execution(r, false, Unchosen)) && CutShort(dying)
    requires dying.On(ActiveById(false)).Done? && dying.On(ActiveAny(false)).Done?
    requires StartsCleanly(e.world, r) && NeedsBridge(r)
    modifies e
    ensures e.Valid() && CommandUpdateExecutor.LeftStopped(old(e.world), e.world, r)
  {
    var outcome, t, passes := e.ExecuteUpdate(Execution(r, false, Unchosen), taken, BACKUPS, dying);
  }

  /** From every such state, a second command that is refused and cannot resume the stage loses it. */
  method RefuseAndLose(e: CommandUpdateExecutor, w: World, r: Request, taken: Taken)
    requires e.Valid() && ValidRequest(r) && r.updateId !in w.transactions && Idle(w) && w.image == r.sourceImage
    requires CommandUpdateExecutor.LeftStopped(w, e.world, r)
    modifies e
    ensures e.Valid() && e.world.writer.Stopped? && e.world.stage.None? && Idle(e.world)
  {
    var x := Execution(r, false, Unchosen);
    e.Reached();
    assert LosesStoppedWriter(e.world, KeyOf(r), false, REFUSED_START);
    var outcome, t, passes := e.ExecuteUpdate(x, taken, BACKUPS, REFUSED_START);
  }

  /** Two commands that end with the writer down and no stage left to restart it from. */
  method LoseStoppedWriter(w: Installation, r: Request, taken: Taken) returns (e: CommandUpdateExecutor)
    requires Starts(w, r) && NeedsBridge(r)
    ensures fresh(e) && e.Valid() && e.world.writer.Stopped? && e.world.stage.None? && Idle(e.world)
  {
    e := new CommandUpdateExecutor(w);
    DieStopped(e, r, taken, DYING_BEFORE_COMMIT);
    RefuseAndLose(e, w, r, taken);
  }
}
