/**
 The update command as the program runs it: `ExecuteUpdate` and the executor actions it calls, over a world
 in which every external action may succeed, be refused, end uncertainly (with or without having taken
 effect) or kill the process. `env` is the environment's answer at each call site of one invocation; each
 site is reached at most once per invocation. A dead process leaves only the world and the history.
 */
module UpdateExecutor {
  import opened Faults
  import opened Options
  import opened UpdatePhases
  import opened UpdateHistory
  import opened UpdateTheorems

  datatype Lookup = Found(transaction: Transaction) | Missing | Unavailable | Lost

  datatype Site =
    | ActiveById(retry: bool) | ActiveAny(retry: bool)
    | PathCheck | HealthProbe | OrphanResume | OrphanInspect | IdentityCheck
    | TargetImage(resume: bool) | StageWrite(resume: bool)
    | Revalidate(committing: bool) | FenceWrite
    | Stop | StopInspect | BridgeCommit | BridgeRollback | BridgeLookup
    | Advancing(to: Phase) | FinishStage
    | ReceiptRead | BackupVerify | BackupCreate | ReceiptWrite
    | StepStage(version: int) | StepApply(version: int) | Migrator | CandidateStart | CandidateProbe | DoctorRun
    | PublishStage | PublishMarker | PublishJournal
    | RecoverInspect(at: Phase) | RecoverMarker(at: Phase) | RecoverStart(at: Phase) | RecoverProbe(at: Phase)
    | RecoveryDoctorRun | RecoveryPublish | RecoveryRemove
    | AbortStart | AbortProbe | AbortDoctor | AbortRemove
    | CleanupResume | CleanupInspect | CleanupRemove | RestoreStart | RestoreProbe

  /** How the external actions of one invocation end. Those not listed succeed. */
  datatype Environment = Environment(disturbed: map<Site, Outcome>) {
    function On(site: Site): Outcome {
      if site in disturbed then disturbed[site] else Done
    }
  }

  /** The `--recover` choice; `Unchosen` is the empty one. */
  datatype RecoveryMode = Unchosen | Compatible | Restore | Unknown

  datatype Execution = Execution(request: Request, abort: bool, recoveryMode: RecoveryMode)

  /** Can the staged request be resumed by this key? A published stage must show the target image. */
  predicate Resumable(w: World, key: StageKey) {
    && w.stage.Some? && w.stage.value.key == key
    && (w.image == key.targetImage || (w.image == key.sourceImage && !w.stage.value.published))
  }

  /** AbortStage removes only an exact, unpublished stage over the previous image. */
  predicate Abortable(w: World, key: StageKey) {
    && w.stage.Some? && w.stage.value.key == key && !w.stage.value.published
    && w.image == key.sourceImage != key.targetImage
  }

  /** The case in which cleaning up an unpublished stage leaves nothing to restart the writer from. */
  predicate LosesStoppedWriter(w: World, key: StageKey, orphaned: bool, env: Environment) {
    && w.writer.Stopped? && Abortable(w, key)
    && !orphaned && Report(env.On(CleanupResume)).Failure? && Applied(env.On(CleanupRemove))
  }

  predicate Vanishes(before: World, after: World) {
    before.stage.Some? && after.stage.None? && after.writer.Stopped?
  }

  /** The stage disappears under a stopped writer exactly in that case. */
  predicate Loses(before: World, after: World, key: StageKey, orphaned: bool, env: Environment) {
    && after.transactions == before.transactions
    && (Vanishes(before, after) <==> LosesStoppedWriter(before, key, orphaned, env))
  }

  /** An invocation that nothing disturbs. */
  predicate Calm(env: Environment) {
    forall site | site in env.disturbed :: env.disturbed[site].Done?
  }

  /** The steps a run makes durable in the database one by one. */
  predicate Durable(site: Site) {
    site.Advancing? || site.StepStage? || site.StepApply?
  }

  /** Nothing disturbs the invocation, except that the process may die instead of making such a step. */
  predicate Orderly(env: Environment) {
    forall site | site in env.disturbed ::
      env.disturbed[site].Done? || (Durable(site) && env.disturbed[site] == Died(false))
  }

  /** A new update can be staged: nothing is staged and the writer runs, or its own stage is there already. */
  predicate StartsCleanly(w: World, r: Request) {
    w.data.schema == r.sourceSchema
    && ((w.stage.None? && w.image == r.sourceImage && w.writer.Running?) || Resumable(w, KeyOf(r)))
  }

  /** Nothing disturbs the start of an update, up to and including its fence. */
  predicate StartsUndisturbed(env: Environment) {
    && env.On(PathCheck).Done? && env.On(HealthProbe).Done? && env.On(OrphanResume).Done? && env.On(OrphanInspect).Done?
    && env.On(IdentityCheck).Done? && env.On(TargetImage(false)).Done? && env.On(StageWrite(false)).Done?
    && env.On(Revalidate(false)).Done? && env.On(FenceWrite).Done?
  }

  // The actions of the host, step by step.

  predicate FenceSteady(env: Environment) {
    env.On(Stop).Done? && env.On(StopInspect).Done? && env.On(Revalidate(true)).Done? && env.On(BridgeCommit).Done?
  }

  predicate BackupSteady(env: Environment) {
    && env.On(ReceiptRead).Done? && env.On(BackupVerify).Done?
    && env.On(BackupCreate).Done? && env.On(ReceiptWrite).Done?
  }

  predicate PublishSteady(env: Environment) {
    env.On(PublishStage).Done? && env.On(PublishMarker).Done? && env.On(PublishJournal).Done?
  }

  predicate RecoverSteady(env: Environment, p: Phase) {
    && env.On(RecoverInspect(p)).Done? && env.On(RecoverMarker(p)).Done?
    && env.On(RecoverStart(p)).Done? && env.On(RecoverProbe(p)).Done?
  }

  predicate ReturnSteady(env: Environment) {
    env.On(RecoveryDoctorRun).Done? && env.On(RecoveryPublish).Done? && env.On(RecoveryRemove).Done?
  }

  predicate AbortSteady(env: Environment) {
    && env.On(AbortStart).Done? && env.On(AbortProbe).Done?
    && env.On(AbortDoctor).Done? && env.On(AbortRemove).Done?
  }

  predicate CandidateSteady(env: Environment) {
    env.On(Migrator).Done? && env.On(CandidateStart).Done? && env.On(CandidateProbe).Done? && env.On(DoctorRun).Done?
  }

  predicate StageSteady(env: Environment) {
    env.On(TargetImage(true)).Done? && env.On(StageWrite(true)).Done? && env.On(FinishStage).Done?
  }

  lemma OrderlyGoesForward(env: Environment)
    requires Orderly(env)
    ensures FenceSteady(env) && BackupSteady(env) && CandidateSteady(env) && PublishSteady(env) && StageSteady(env)
  {
  }

  lemma OrderlyGoesBack(env: Environment, p: Phase)
    requires Orderly(env)
    ensures RecoverSteady(env, p) && ReturnSteady(env) && AbortSteady(env) && StageSteady(env) && CandidateSteady(env)
  {
  }

  lemma OrderlyStarts(env: Environment)
    requires Orderly(env)
    ensures StartsUndisturbed(env)
  {
  }

  /** The process stops the writer and dies before it commits the open bridge. */
  predicate StopsThenDies(env: Environment) {
    env.On(Stop).Done? && env.On(StopInspect).Done? && env.On(Revalidate(true)).Died?
  }

  /** The first command of a bridged update, cut short right after it stopped the writer. */
  predicate CutShort(env: Environment) {
    StartsUndisturbed(env) && StopsThenDies(env) && env.On(TargetImage(true)).Done? && env.On(StageWrite(true)).Done?
  }

  /** The phases from which a recovery may be driven. */
  predicate MayRecover(p: Phase) {
    PastMigration(p) && !PastPublication(p) && !Terminal(p)
  }

  /** The phases an update goes through on its way to commit. */
  predicate Forward(p: Phase) {
    !Terminal(p) && !Recovering(p)
  }

  /** The previous installation can be recovered in this mode: the compatible mode keeps the schema, the restore
      mode needs the restored one and the previous configuration. */
  predicate ModeFits(w: World, t: Transaction, mode: RecoveryMode, installed: Image) {
    || (mode.Compatible? && (installed == t.request.sourceImage || installed == t.request.targetImage))
    || (mode.Restore? && w.data.schema == t.request.sourceSchema && installed == t.request.sourceImage)
  }

  /** One undisturbed recovery pass succeeds. */
  predicate Passes(w: World, t: Transaction, mode: RecoveryMode, installed: Image) {
    t.phase.RecoveryConfig? || (ModeFits(w, t, mode, installed) && (t.phase.RecoveryReady? ==> SchemaFits(w, t, mode)))
  }

  predicate SchemaFits(w: World, t: Transaction, mode: RecoveryMode) {
    mode.Compatible? ==> w.data.schema == t.request.targetSchema
  }

  /** An undisturbed recovery gets to its end: its doctor, unless passed already, must find the mode's schema. */
  predicate Recovers(w: World, t: Transaction, mode: RecoveryMode, installed: Image) {
    t.phase.RecoveryConfig? || (ModeFits(w, t, mode, installed) && (t.phase.RecoveryDoctor? || SchemaFits(w, t, mode)))
  }

  /** Every migration step from `schema` up to `target` is made. */
  predicate Steps(env: Environment, schema: int, target: int)
    decreases target - schema
  {
    schema < target ==>
      env.On(StepStage(target)).Done? && env.On(StepApply(target)).Done? && Steps(env, schema, target - 1)
  }

  lemma {:induction false} EveryStep(env: Environment, schema: int, v: int, target: int)
    requires Steps(env, schema, target) && schema < v <= target
    ensures env.On(StepStage(v)).Done? && env.On(StepApply(v)).Done?
    decreases target - v
  {
    if v < target { EveryStep(env, schema, v, target - 1); }
  }

  predicate ReachesMigration(p: Phase) {
    p.Fenced? || p.WritersStopped? || p.BackupVerified? || p.MigrationStarted?
  }

  /** A run from phase `from` to its commit made every durable step on its way. The bridge makes its own first step. */
  ghost predicate Through(env: Environment, t: Transaction, from: Phase, schema: int) {
    && (forall q | (Forward(q) || q.Committed?) && Rank(q) < Rank(from) && !q.WritersStopped? ::
          env.On(Advancing(q)).Done?)
    && (ReachesMigration(from) ==> Steps(env, schema, t.request.targetSchema))
  }

  predicate Recorded(w: World, t: Transaction) {
    t.request.updateId in w.transactions && w.transactions[t.request.updateId] == t
  }

  /** Where the death of an orderly run leaves the update: before the durable step at which it died. A migration step
      that was recorded but not applied leaves the schema dirty. */
  ghost predicate CutOff(w: World, t: Transaction, env: Environment) {
    && Recorded(w, t) && Forward(t.phase) && Resumable(w, KeyOf(t.request))
    && (if w.data.dirty then t.phase.MigrationStarted? && env.On(StepApply(w.data.schema + 1)).Died?
        else
          || env.On(Advancing(Next(t.phase))).Died?
          || (&& t.phase.MigrationStarted? && w.data.schema < t.request.targetSchema
              && env.On(StepStage(w.data.schema + 1)).Died?))
  }

  /** The backup is taken on the way from this phase. */
  predicate BeforeBackup(p: Phase) {
    p.Fenced? || p.WritersStopped?
  }

  /** How an orderly run from phase `from` ends: it commits, or it is cut off, and then holds the receipt of the backup
      it took. */
  ghost predicate Commits(w: World, t: Transaction, from: Phase, schema: int, env: Environment, r: Result) {
    && !r.Failure?
    && (r.Success? ==> t.phase.Committed? && Through(env, t, from, schema))
    && (r.Death? ==> CutOff(w, t, env) && (BeforeBackup(from) && !t.phase.Fenced? ==> HasReceipt(w)))
  }

  /** How an orderly recovery ends: it recovers only if its mode can, and fails only if not. */
  ghost predicate EndsRecovery(w: World, t: Transaction, can: bool, env: Environment, r: Result) {
    && (r.Failure? ==> !can)
    && (r.Success? ==> can && t.phase.Recovered? && env.On(Advancing(Recovered)).Done?)
    && (r.Death? ==> Recorded(w, t) && !Terminal(t.phase)
                     && (env.On(Advancing(Next(t.phase))).Died? || env.On(Advancing(RecoveryRequired)).Died?))
  }

  /** An abort whose process died before the database heard of it: previous writer up, stage and receipt gone. */
  predicate HalfAborted(before: World, after: World) {
    after == before.(stage := None, writer := Running(before.image))
  }

  /** The durable state of an installation. */
  type Base = w: World | WellFormed(w)
    ghost witness World(map[], None, Image(1, 1), Running(Image(1, 1)), Database(1, false, ServerState(1, 1, 0)))

  /** An installation to which updates may be applied: only finished transactions, nothing staged. */
  type Installation = w: Base | Fresh(w)
    ghost witness World(map[], None, Image(1, 1), Running(Image(1, 1)), Database(1, false, ServerState(1, 1, 0)))

  class CommandUpdateExecutor {
    ghost const start: Base
    ghost var history: seq<Event>
    var world: World

    var installed: Image
    var bridge: Option<Transaction>
    var orphanedWriters: bool
    var recovery: bool
    var recoverySchema: int
    var guardHeld: bool
    ghost var rollbacks: nat // how often the open bridge was told to roll back

    ghost predicate Valid()
      reads this
    {
      Legal(start, history) && world == Replay(start, history)
    }

    lemma Reached()
      requires Valid()
      ensures WellFormed(world)
    {
      ReachableIsWellFormed(start, history);
    }

    /** An installation as it is found. */
    constructor (w: Base)
      ensures Valid() && world == w && history == [] && start == w
    {
      start, world, history, rollbacks := w, w, [], 0;
      installed, bridge, orphanedWriters, recovery, recoverySchema, guardHeld := w.image, None, false, false, 0, false;
    }

    method Emit(e: Event)
      requires Valid() && !Silent(e) && Permits(world, Last(history), e)
      modifies `world, `history
      ensures Valid() && world == Apply(old(world), e) && history == old(history) + [e]
    {
      LegalAppend(start, history, e);
      world := Apply(world, e);
      history := history + [e];
    }

    /** Records a proof, which changes nothing. */
    method Record(e: Event)
      requires Valid() && Silent(e) && Proves(world, Last(history), e)
      modifies `history
      ensures Valid() && history == old(history) + [e]
    {
      LegalAppend(start, history, e);
      history := history + [e];
    }

    /** An external action whose effect is `e`. */
    method Attempt(site: Site, e: Event, env: Environment) returns (r: Result)
      requires Valid() && !Silent(e) && Permits(world, Last(history), e)
      modifies `world, `history
      ensures Valid() && r == Report(env.On(site))
      ensures Applied(env.On(site)) ==> world == Apply(old(world), e) && history == old(history) + [e]
      ensures !Applied(env.On(site)) ==> world == old(world) && history == old(history)
    {
      if Applied(env.On(site)) { Emit(e); }
      return Report(env.On(site));
    }

    /** Starts a writer, for a reason that allows it. */
    method StartWriter(image: Image, cause: Cause, site: Site, env: Environment) returns (r: Result)
      requires Valid() && MayStart(world, image, cause)
      modifies `world, `history
      ensures Valid() && old(history) <= history && r == Report(env.On(site))
      ensures world == if Applied(env.On(site)) then old(world).(writer := Running(image)) else old(world)
      ensures r.Success? ==> Last(history) == Some(WriterStarted(image, cause))
    {
      r := Attempt(site, WriterStarted(image, cause), env);
    }

    /** Removes the host stage, for a reason that allows it. */
    method RemoveStage(why: Removal, site: Site, env: Environment) returns (r: Result)
      requires Valid() && world.stage.Some? && Removable(world, Last(history), why, world.stage.value)
      modifies `world, `history
      ensures Valid() && old(history) <= history && r == Report(env.On(site))
      ensures world == if Applied(env.On(site)) then old(world).(stage := None) else old(world)
      ensures r.Success? ==> Last(history) == Some(StageRemoved(why))
    {
      r := Attempt(site, StageRemoved(why), env);
    }

    method Update(id: Name, site: Site, env: Environment) returns (l: Lookup)
      ensures l.Found? ==> id in world.transactions && l.transaction == world.transactions[id]
      ensures l.Missing? ==> id !in world.transactions
      ensures l.Found? || l.Missing? <==> env.On(site).Done? && !world.data.dirty
      ensures l.Lost? <==> env.On(site).Died?
    {
      match env.On(site)
      case Done =>
        if world.data.dirty { return Unavailable; }
        return if id in world.transactions then Found(world.transactions[id]) else Missing;
      case Died(_) => return Lost;
      case _ => return Unavailable;
    }

    method ActiveUpdate(site: Site, env: Environment) returns (l: Lookup)
      ensures l.Found? ==> exists id :: Active(world, id) && world.transactions[id] == l.transaction
      ensures l.Missing? ==> Idle(world)
      ensures l.Found? || l.Missing? <==> env.On(site).Done? && !world.data.dirty
      ensures l.Lost? <==> env.On(site).Died?
    {
      match env.On(site)
      case Done =>
        if world.data.dirty { return Unavailable; }
        if id :| id in world.transactions && Active(world, id) {
          return Found(world.transactions[id]);
        }
        return Missing;
      case Died(_) => return Lost;
      case _ => return Unavailable;
    }

    method ActiveFor(r: Request, retry: bool, env: Environment) returns (l: Lookup)
      requires Valid()
      ensures l.Found? ==> l.transaction.request.updateId in world.transactions
                           && world.transactions[l.transaction.request.updateId] == l.transaction
      ensures l.Found? || l.Missing? ==> !world.data.dirty
      ensures l.Missing? ==> r.updateId !in world.transactions && Idle(world)
      ensures env.On(ActiveById(retry)).Done? && r.updateId in world.transactions && !world.data.dirty ==>
                l == Lookup.Found(world.transactions[r.updateId])
      ensures env.On(ActiveById(retry)).Done? && env.On(ActiveAny(retry)).Done? && r.updateId !in world.transactions
              && Idle(world) ==>
                l.Missing?
    {
      Reached();
      l := Update(r.updateId, ActiveById(retry), env);
      if l.Missing? {
        l := ActiveUpdate(ActiveAny(retry), env);
      }
    }

    method StageUpdate(key: StageKey, site: Site, env: Environment) returns (r: Result)
      requires Valid()
      requires forall id | Active(world, id) ::
                 key == KeyOf(world.transactions[id].request) && !Recovering(world.transactions[id].phase)
      modifies `world, `history
      ensures Valid() && old(history) <= history
      ensures world == old(world) || world == Apply(old(world), StageReady(key))
      ensures r.Success? ==> Resumable(world, key) && world == Apply(old(world), StageReady(key))
      ensures key.sourceImage != key.targetImage && Resumable(old(world), key) ==> r == Report(env.On(site))
      ensures key.sourceImage != key.targetImage && old(world).stage.None? && old(world).image == key.sourceImage ==>
                r == Report(env.On(site))
    {
      if key.sourceImage == key.targetImage { return Failure; }
      if world.stage.None? {
        if world.image != key.sourceImage { return Failure; }
      } else if !Resumable(world, key) {
        return Failure;
      }
      r := Attempt(site, StageReady(key), env);
    }

    method ResumeUpdateStage(key: StageKey, site: Site, env: Environment) returns (r: Result)
      requires Valid()
      requires forall id | Active(world, id) ::
                 key == KeyOf(world.transactions[id].request) && !Recovering(world.transactions[id].phase)
      modifies `world, `history
      ensures Valid() && old(history) <= history
      ensures world == old(world) || world == Apply(old(world), StageReady(key))
      ensures r.Success? ==> Resumable(world, key)
      ensures key.sourceImage != key.targetImage && Resumable(old(world), key) ==> r == Report(env.On(site))
    {
      if world.stage.None? { return Failure; }
      r := StageUpdate(key, site, env);
    }

    /** `docker compose ps`: Some(true) when no configured writer runs. */
    method ConfiguredWritersStopped(site: Site, env: Environment) returns (r: Result, stopped: bool)
      ensures r == Report(env.On(site))
      ensures r.Success? ==> stopped == world.writer.Stopped?
    {
      return Report(env.On(site)), world.writer.Stopped?;
    }

    method AbortStage(key: StageKey, why: Removal, site: Site, env: Environment) returns (r: Result)
      requires Valid()
      requires Abortable(world, key) ==> Removable(world, Last(history), why, world.stage.value)
      modifies `world, `history
      ensures Valid() && old(history) <= history
      ensures world == if Abortable(old(world), key) && Applied(env.On(site)) then old(world).(stage := None)
                       else old(world)
      ensures Abortable(old(world), key) ==> r == Report(env.On(site))
      ensures old(world).stage.None? && old(world).image == key.sourceImage ==> r == Report(env.On(site))
      ensures r.Success? ==> world.stage.None? && world.image == key.sourceImage
      ensures r.Success? ==>
                Last(history) == if Abortable(old(world), key) then Some(StageRemoved(why)) else old(Last(history))
    {
      if world.stage.None? {
        if world.image != key.sourceImage { return Failure; }
        return Report(env.On(site));
      }
      if !Abortable(world, key) { return Failure; }
      r := RemoveStage(why, site, env);
    }

    method RestorePreviousWriterAndAbortStage(key: StageKey, why: Removal, env: Environment) returns (r: Result)
      requires Valid() && installed == world.image && Idle(world) && key.updateId !in world.transactions
      requires why == Pending || why == Unpublished(Restored)
      modifies `world, `history, `orphanedWriters
      ensures Valid() && old(history) <= history
      ensures world == old(world).(stage := world.stage, writer := world.writer)
      ensures world.stage != old(world).stage ==> world.stage.None? && world.writer == Running(world.image)
      ensures world.stage != old(world).stage ==> env.On(RestoreStart).Done? && env.On(RestoreProbe).Done?
      ensures r.Success? ==> world.stage.None? && world.writer == Running(world.image) && !orphanedWriters
    {
      assert MayStart(world, installed, ForCleanup);
      r := StartWriter(installed, ForCleanup, RestoreStart, env);
      if !r.Success? { return; }
      if !env.On(RestoreProbe).Done? { return Report(env.On(RestoreProbe)); }
      Record(PreviousReady(installed));
      r := AbortStage(key, why, CleanupRemove, env);
      if r.Success? { orphanedWriters := false; }
    }

    /** Clean-up when no transaction became durable. The last clause is exact: the stage disappears under a
        stopped writer precisely when the resume check failed, because the writer is then never inspected. */
    method AbortUnpublishedStart(key: StageKey, env: Environment) returns (r: Result)
      requires Valid() && installed == world.image && Idle(world) && key.updateId !in world.transactions
      modifies `world, `history, `orphanedWriters
      ensures Valid() && old(history) <= history
      ensures world == old(world).(stage := world.stage, writer := world.writer)
      ensures Loses(old(world), world, key, old(orphanedWriters), env)
    {
      var inspected := false;
      if !orphanedWriters {
        var resumed := ResumeUpdateStage(key, CleanupResume, env);
        if resumed.Death? { return Death; }
        if resumed.Success? {
          var answer, stopped := ConfiguredWritersStopped(CleanupInspect, env);
          if !answer.Success? { return answer; }
          orphanedWriters, inspected := stopped, true;
        }
      }
      if orphanedWriters {
        r := RestorePreviousWriterAndAbortStage(key, Unpublished(Restored), env);
        return;
      }
      r := AbortStage(key, Unpublished(if inspected then SeenRunning else Unseen), CleanupRemove, env);
    }

    method PrepareTarget(request: Request, resume: bool, env: Environment) returns (r: Result)
      requires Valid()
      requires forall id | Active(world, id) ::
                 KeyOf(request) == KeyOf(world.transactions[id].request) && !Recovering(world.transactions[id].phase)
      modifies `world, `history
      ensures Valid() && old(history) <= history
      ensures world == old(world) || world == Apply(old(world), StageReady(KeyOf(request)))
      ensures r.Success? ==> Resumable(world, KeyOf(request))
      ensures r.Success? ==> world == Apply(old(world), StageReady(KeyOf(request)))
      ensures (var key := KeyOf(request);
               && key.sourceImage != key.targetImage && old(world).stage.None? && old(world).image == key.sourceImage
               && env.On(TargetImage(resume)).Done? && env.On(StageWrite(resume)).Done?) ==> r.Success?
      ensures (var key := KeyOf(request);
               && key.sourceImage != key.targetImage && Resumable(old(world), key)
               && env.On(TargetImage(resume)).Done? && env.On(StageWrite(resume)).Done?) ==> r.Success?
    {
      if !env.On(TargetImage(resume)).Done? { return Report(env.On(TargetImage(resume))); }
      r := StageUpdate(KeyOf(request), StageWrite(resume), env);
    }

    method PreflightAndPull(request: Request, env: Environment) returns (r: Result)
      requires Valid() && Idle(world)
      modifies `world, `history, `orphanedWriters
      ensures Valid() && old(history) <= history
      ensures world == old(world).(stage := world.stage)
      ensures r.Success? ==> Resumable(world, KeyOf(request))
      ensures r.Success? && world.writer.Stopped? ==> orphanedWriters
      ensures StartsUndisturbed(env) && ValidRequest(request) && StartsCleanly(old(world), request) ==> r.Success?
      ensures Report(env.On(PathCheck)).Failure? ==>
                r.Failure? && world == old(world) && orphanedWriters == old(orphanedWriters)
    {
      if !env.On(PathCheck).Done? { return Report(env.On(PathCheck)); }
      if env.On(HealthProbe).Died? { return Death; }
      if !env.On(HealthProbe).Done? || world.writer.Stopped? {
        var resumed := ResumeUpdateStage(KeyOf(request), OrphanResume, env);
        if resumed.Death? { return Death; }
        var answer, stopped := ConfiguredWritersStopped(OrphanInspect, env);
        if answer.Death? { return Death; }
        if !resumed.Success? || !answer.Success? || !stopped { return Failure; }
        orphanedWriters := true;
      }
      if !env.On(IdentityCheck).Done? { return Report(env.On(IdentityCheck)); }
      r := PrepareTarget(request, false, env);
    }

    /** Publishes the fence: either one durable row, or a bridge transaction that stays open. */
    method Fence(request: Request, env: Environment) returns (r: Result, t: Transaction)
      requires Valid() && ValidRequest(request) && guardHeld && bridge.None?
      requires world.stage.Some? && world.stage.value.key == KeyOf(request)
      modifies `world, `history, `bridge
      ensures Valid() && old(history) <= history
      ensures world == old(world) || world == Apply(old(world), Began(request))
      ensures r.Success? ==>
                t == Transaction(request, Fenced, None) && request.updateId !in old(world).transactions
                && Idle(old(world)) && old(world).data.schema == request.sourceSchema
      ensures NeedsBridge(request) ==> world == old(world)
      ensures r.Success? && NeedsBridge(request) ==> bridge == Some(t)
      ensures !(r.Success? && NeedsBridge(request)) ==> bridge.None?
      ensures r.Success? && !NeedsBridge(request) ==> world == Apply(old(world), Began(request))
      ensures env.On(FenceWrite).Done? && request.updateId !in old(world).transactions && Idle(old(world))
              && old(world).data.schema == request.sourceSchema ==>
                r.Success?
    {
      t := Transaction(request, Fenced, None);
      Reached();
      if request.updateId in world.transactions || world.data.schema != request.sourceSchema
         || exists id :: id in world.transactions && Active(world, id) {
        return Failure, t;
      }
      if NeedsBridge(request) {
        if env.On(FenceWrite).Done? { bridge := Some(t); }
        return Report(env.On(FenceWrite)), t;
      }
      r := Attempt(FenceWrite, Began(request), env);
    }

    method StopWriters(env: Environment) returns (r: Result)
      requires Valid()
      requires forall id | Active(world, id) :: world.transactions[id].phase.Fenced?
      modifies `world, `history
      ensures Valid() && old(history) <= history
      ensures world == old(world) || world == old(world).(writer := Stopped)
      ensures r.Success? ==> world.writer.Stopped? && Last(history) == Some(StopProved)
      ensures env.On(Stop).Done? && env.On(StopInspect).Done? ==> r.Success?
    {
      r := Attempt(Stop, WriterStopped, env);
      if !r.Success? { return; }
      var answer, stopped := ConfiguredWritersStopped(StopInspect, env);
      if !answer.Success? { return answer; }
      if !stopped { return Failure; }
      Record(StopProved);
      return Success;
    }

    /** The open bridge, as every later step finds it: nothing durable yet, the stage reserved. */
    ghost predicate BridgeOpen(t: Transaction)
      reads this
    {
      && ValidRequest(t.request) && NeedsBridge(t.request) && t == Transaction(t.request, Fenced, None)
      && bridge == Some(t) && guardHeld
      && t.request.updateId !in world.transactions && Idle(world) && installed == world.image
      && world.data.schema == t.request.sourceSchema && !world.data.dirty
      && world.stage.Some? && world.stage.value.key == KeyOf(t.request)
    }

    /** Rolls the open bridge back. A rollback that reports an error is settled by looking the update up. */
    method AbortPendingStart(t: Transaction, env: Environment) returns (r: Result)
      requires Valid() && (bridge.Some? ==> BridgeOpen(t))
      modifies `world, `history, `orphanedWriters, `bridge, `rollbacks
      ensures Valid() && old(history) <= history && bridge.None?
      ensures rollbacks == old(rollbacks) + (if old(bridge).Some? then 1 else 0)
      ensures world.stage != old(world).stage ==>
                world.stage.None? && t.request.updateId !in world.transactions && world.writer == Running(world.image)
      ensures world.stage != old(world).stage ==> env.On(RestoreStart).Done? && env.On(RestoreProbe).Done?
    {
      if bridge.None? { return Failure; }
      bridge, rollbacks := None, rollbacks + 1;
      var rollback := env.On(BridgeRollback);
      if rollback.Died? { return Death; }
      if !rollback.Done? {
        if Applied(rollback) { Emit(Began(t.request)); }
        var durable := Update(t.request.updateId, BridgeLookup, env);
        if durable.Lost? { return Death; }
        if !durable.Missing? { return Failure; }
      }
      r := RestorePreviousWriterAndAbortStage(KeyOf(t.request), Pending, env);
      if rollback.Uncertain? || rollback.Refused? {
        r := if r.Death? then Death else Failure;
      }
    }

    /** Commits the open bridge at WritersStopped. The commit counts exactly when it was confirmed, or when it
        was lost in transit but the exact transaction is found durable afterwards. Only a certain failure is
        rolled back. */
    method CommitBridge(t: Transaction, env: Environment) returns (r: Result, advanced: Transaction)
      requires Valid() && BridgeOpen(t) && world.writer.Stopped? && Last(history) == Some(StopProved)
      modifies `world, `history, `orphanedWriters, `bridge, `rollbacks
      ensures Valid() && old(history) <= history
      ensures (!r.Death? ==> bridge.None?) && advanced.request == t.request
      ensures r.Success?
              <==> env.On(BridgeCommit).Done? || (env.On(BridgeCommit) == Uncertain(true) && env.On(BridgeLookup).Done?)
      ensures r.Success? ==> advanced == Transaction(t.request, WritersStopped, None)
                             && world == Apply(old(world), BridgeCommitted(t.request))
      ensures rollbacks == old(rollbacks) + (if env.On(BridgeCommit).Refused? then 1 else 0)
      ensures world.stage != old(world).stage ==>
                world.stage.None? && t.request.updateId !in world.transactions && world.writer == Running(world.image)
      ensures world.stage != old(world).stage ==> env.On(RestoreStart).Done? && env.On(RestoreProbe).Done?
    {
      advanced := t;
      var commit := env.On(BridgeCommit);
      if commit.Refused? {
        r := AbortPendingStart(t, env);
        r := if r.Death? then Death else Failure;
        return;
      }
      if Applied(commit) { Emit(BridgeCommitted(t.request)); }
      if commit.Died? { return Death, t; }
      bridge := None;
      if commit.Done? { return Success, world.transactions[t.request.updateId]; }
      var durable := Update(t.request.updateId, BridgeLookup, env);
      match durable
      case Lost => return Death, t;
      case Unavailable => return Failure, t;
      case Missing =>
        r := RestorePreviousWriterAndAbortStage(KeyOf(t.request), Pending, env);
        r := if r.Death? then Death else Failure;
      case Found(found) =>
        if found.request == t.request && found.phase.WritersStopped? {
          return Success, found;
        }
        return Failure, t;
    }

    method CompleteStage(key: StageKey, env: Environment) returns (r: Result)
      requires Valid() && key.updateId in world.transactions && Terminal(world.transactions[key.updateId].phase)
      modifies `world, `history
      ensures Valid() && old(history) <= history
      ensures world == old(world) || world == old(world).(stage := None)
      ensures r.Success? ==> world.stage.None? && world.image == key.targetImage
      ensures r.Death? ==> env.On(FinishStage).Died?
      ensures (&& env.On(FinishStage).Done? && Resumable(old(world), key) && old(world).stage.value.published
               && old(world).image == key.targetImage) ==> r.Success?
    {
      if world.stage.None? {
        if world.image != key.targetImage { return Failure; }
        return Report(env.On(FinishStage));
      }
      if world.stage.value.key != key || !world.stage.value.published
         || world.image != key.targetImage { return Failure; }
      r := RemoveStage(Finished, FinishStage, env);
    }

    /** One compare-and-swap of the phase in the database. */
    method SwapPhase(t: Transaction, to: Phase, marker: Option<Marker>, env: Environment)
      returns (r: Result, advanced: Transaction)
      requires Valid() && t.request.updateId in world.transactions && world.transactions[t.request.updateId] == t
      requires !world.data.dirty && Allowed(t.phase, to) && (marker.Some? <==> to.BackupVerified?)
      requires Evidence(world, Last(history), t.request.updateId, to, marker)
      modifies `world, `history
      ensures Valid() && old(history) <= history && r == Report(env.On(Advancing(to)))
      ensures world == old(world).(transactions := world.transactions)
      ensures !Applied(env.On(Advancing(to))) ==> world == old(world)
      ensures Applied(env.On(Advancing(to))) ==>
                && advanced.request == t.request && advanced.phase == to
                && t.request.updateId in world.transactions && world.transactions[t.request.updateId] == advanced
    {
      advanced := t;
      r := Attempt(Advancing(to), Advanced(t.request.updateId, t.phase, to, marker), env);
      if Applied(env.On(Advancing(to))) { advanced := world.transactions[t.request.updateId]; }
    }

    /** The host clean-up a terminal phase asks for. */
    method CleanUp(t: Transaction, to: Phase, env: Environment) returns (r: Result)
      requires Valid() && At(world, t.request.updateId, to)
      modifies `world, `history
      ensures Valid() && old(history) <= history && world == old(world).(stage := world.stage)
      ensures !Terminal(to) ==> r.Success? && world == old(world)
      ensures old(world).stage.None? ==> world == old(world)
      ensures (&& env.On(FinishStage).Done? && to.Committed? && Resumable(old(world), KeyOf(t.request))
               && old(world).stage.value.published && old(world).image == t.request.targetImage) ==> r.Success?
      ensures env.On(FinishStage).Done? && (to.Recovered? || to.Aborted?) && old(world).stage.None?
              && old(world).image == t.request.sourceImage ==>
                r.Success?
    {
      r := Success;
      if to.Committed? {
        r := CompleteStage(KeyOf(t.request), env);
      } else if to.Recovered? || to.Aborted? {
        r := AbortStage(KeyOf(t.request), Finished, FinishStage, env);
      }
    }

    /** One compare-and-swap of the phase, then the host clean-up a terminal phase asks for. */
    method Advance(t: Transaction, to: Phase, marker: Option<Marker>, env: Environment)
      returns (r: Result, advanced: Transaction)
      requires Valid()
      requires bridge.Some? ==>
                 BridgeOpen(t) && to.WritersStopped? && marker.None? && world.writer.Stopped?
                 && Last(history) == Some(StopProved)
      requires bridge.None? ==> Advancable(t, to, marker)
      modifies `world, `history, `orphanedWriters, `bridge, `rollbacks
      ensures Valid() && old(history) <= history
      ensures (!r.Death? ==> bridge.None?) && advanced.request == t.request
      ensures r.Success? ==> advanced.phase == to && Recorded(world, advanced)
      ensures old(bridge).None? ==> bridge.None? && Advances(old(world), world, t, advanced, to, env, r)
      ensures old(bridge).Some? && env.On(BridgeCommit).Done? ==>
                r.Success? && world == old(world).(transactions := world.transactions)
    {
      if bridge.Some? {
        r, advanced := CommitBridge(t, env);
      } else {
        r, advanced := AdvanceDurably(t, to, marker, env);
      }
    }

    ghost predicate Advancable(t: Transaction, to: Phase, marker: Option<Marker>)
      reads this
    {
      && !world.data.dirty && Recorded(world, t) && Allowed(t.phase, to)
      && (marker.Some? <==> to.BackupVerified?) && Evidence(world, Last(history), t.request.updateId, to, marker)
    }

    /** What an advance of a durable transaction leaves; orderly, it succeeds unless the process dies first. */
    static ghost predicate Advances(w: World, after: World, t: Transaction, advanced: Transaction, to: Phase,
        env: Environment, r: Result)
    {
      && after == w.(transactions := after.transactions, stage := after.stage)
      && (env.On(Advancing(to)) == Died(false) ==> r.Death? && advanced == t && after == w)
      && (env.On(Advancing(to)).Done? && !Terminal(to) ==> r.Success? && after.stage == w.stage)
      && (r.Success? && Terminal(to) ==> OutcomeHolds(after, t.request, to))
      && ((env.On(FinishStage).Done? && env.On(Advancing(to)).Done? && Finishable(w, t, to)) ==> r.Success?)
    }

    static predicate Finishable(w: World, t: Transaction, to: Phase) {
      to.Committed? ==> Resumable(w, KeyOf(t.request))
    }

    method AdvanceDurably(t: Transaction, to: Phase, marker: Option<Marker>, env: Environment)
      returns (r: Result, advanced: Transaction)
      requires Valid() && Advancable(t, to, marker)
      modifies `world, `history
      ensures Valid() && old(history) <= history && advanced.request == t.request
      ensures r.Success? ==> advanced.phase == to && Recorded(world, advanced)
      ensures Advances(old(world), world, t, advanced, to, env, r)
    {
      if Terminal(to) { ActsAlone(t); }
      r, advanced := SwapPhase(t, to, marker, env);
      if !r.Success? { return r, t; }
      r := CleanUp(t, to, env);
    }

    /** The one active transaction fits the host around it. */
    lemma ActsAlone(t: Transaction)
      requires Valid() && Recorded(world, t) && !Terminal(t.phase)
      ensures ValidRequest(t.request) && Consistent(world, t) && Levelled(world, t)
      ensures Active(world, t.request.updateId) && forall id | Active(world, id) :: id == t.request.updateId
    {
      Reached();
      assert Active(world, t.request.updateId);
    }

    /** The bridge is settled and the loop's copy of the transaction is the durable one. */
    ghost predicate Holds(t: Transaction)
      reads this
    {
      bridge.None? && Recorded(world, t)
    }

    /** What a backup step proves: the marker fits the update, the database still is what was saved, and the receipt
        is bound. */
    ghost predicate BackupProved(t: Transaction, marker: Marker)
      reads this
    {
      && marker.updateId == t.request.updateId && MarkerMatches(marker, t) && AtBoundary(marker, world.data.state)
      && HasReceipt(world) && ReceiptMarker(world.stage.value.receipt.value) == marker
    }

    /** A bound receipt decides the marker: every retry returns the one it holds, and nothing changes. What was
        bound was taken from the database as it still is, so the marker always fits the update. */
    method Backup(t: Transaction, taken: Taken, directory: Name, env: Environment)
      returns (r: Result, marker: Marker)
      requires Valid() && Holds(t) && t.phase.WritersStopped?
      modifies `world, `history
      ensures Valid() && old(history) <= history && Holds(t) && world == old(world).(stage := world.stage)
      ensures r.Success? ==>
                Last(history) == Some(BackedUp(t.request.updateId, marker)) && BackupProved(t, marker)
      ensures HasReceipt(old(world)) ==>
                && world == old(world)
                && (r.Success? ==> marker == ReceiptMarker(old(world).stage.value.receipt.value))
      ensures BackupSteady(env) && Resumable(old(world), KeyOf(t.request)) ==>
                r.Success? && Resumable(world, KeyOf(t.request))
    {
      if world.stage.Some? && world.stage.value.receipt.Some? {
        r, marker := ReuseReceipt(t, env);
      } else {
        r, marker := BindNewBackup(t, taken, directory, env);
      }
      if r.Success? { Record(BackedUp(t.request.updateId, marker)); }
    }

    method ReuseReceipt(t: Transaction, env: Environment) returns (r: Result, marker: Marker)
      requires Valid() && Holds(t) && t.phase.WritersStopped? && HasReceipt(world)
      ensures marker == ReceiptMarker(world.stage.value.receipt.value)
      ensures r.Success? ==> BackupProved(t, marker)
      ensures BackupSteady(env) ==> r.Success?
    {
      marker := ReceiptMarker(world.stage.value.receipt.value);
      if !env.On(ReceiptRead).Done? { return Report(env.On(ReceiptRead)), marker; }
      if !env.On(BackupVerify).Done? { return Report(env.On(BackupVerify)), marker; }
      ActsAlone(t);
      Reached();
      assert !Idle(world);
      r := if MarkerMatches(marker, t) then Success else Failure;
    }

    method BindNewBackup(t: Transaction, taken: Taken, directory: Name, env: Environment)
      returns (r: Result, marker: Marker)
      requires Valid() && Holds(t) && t.phase.WritersStopped? && !HasReceipt(world)
      modifies `world, `history
      ensures Valid() && old(history) <= history && Holds(t) && world == old(world).(stage := world.stage)
      ensures r.Success? ==> BackupProved(t, marker)
      ensures BackupSteady(env) && Resumable(old(world), KeyOf(t.request)) ==>
                r.Success? && Resumable(world, KeyOf(t.request))
    {
      ActsAlone(t);
      Reached();
      marker := TakenMarker(world.data.state, world.data.schema, t, taken);
      if !env.On(BackupCreate).Done? { return Report(env.On(BackupCreate)), marker; }
      if world.stage.None? || world.stage.value.published { return Failure, marker; }
      r := Attempt(ReceiptWrite, ReceiptBound(BindMarker(marker, directory)), env);
    }

    /** The migrator applies the versions up to the target one by one, each recorded as pending before it is applied. */
    method Migrate(t: Transaction, env: Environment) returns (r: Result)
      requires Valid() && Holds(t) && t.phase.MigrationStarted? && !world.data.dirty
      modifies `world, `history
      ensures Valid() && Holds(t) && old(history) + [MigrateCalled(t.request.updateId)] <= history
      ensures world == old(world).(data := world.data)
      ensures r.Success? ==>
                && world.data.schema == t.request.targetSchema && !world.data.dirty
                && Last(history) == Some(MigrateReturned(t.request.updateId))
      ensures StepsEnd(old(world).data, world.data, t.request.targetSchema, env, r)
    {
      ActsAlone(t);
      Record(MigrateCalled(t.request.updateId));
      r := RunMigrator(t, env);
    }

    /** How a migration ends: all steps made, unless its report was lost, or stopped before or between the halves of
        the first step that was disturbed. */
    static predicate StepsEnd(before: Database, after: Database, target: int, env: Environment, r: Result) {
      && (r.Success? ==> Steps(env, before.schema, target))
      && (!r.Success? ==>
            (after.schema == target && !after.dirty && r == Report(env.On(Migrator))) || StopsAt(after, target, env, r))
    }

    static predicate StopsAt(after: Database, target: int, env: Environment, r: Result) {
      StopsIn(after.schema + 1, after, target, env, r) || StopsIn(after.schema, after, target, env, r)
    }

    /** The step to version `v` was disturbed, and took the effect its halves had. */
    static predicate StopsIn(v: int, after: Database, target: int, env: Environment, r: Result) {
      var stage, apply := env.On(StepStage(v)), env.On(StepApply(v));
      && v <= target && after.schema == (if stage.Done? && Applied(apply) then v else v - 1)
      && (if stage.Done? then !apply.Done? && r == Report(apply) && after.dirty == !Applied(apply)
          else r == Report(stage) && after.dirty == Applied(stage))
    }

    /** In an orderly run that means: dead before the step, or between its halves. */
    static lemma OrderlyStop(before: Database, after: Database, target: int, env: Environment, r: Result)
      requires Orderly(env) && StepsEnd(before, after, target, env, r)
      ensures !r.Failure?
      ensures r.Death? ==>
                && after.schema < target
                && if after.dirty then env.On(StepApply(after.schema + 1)).Died?
                   else env.On(StepStage(after.schema + 1)).Died?
    {
    }

    method RunMigrator(t: Transaction, env: Environment) returns (r: Result)
      requires Valid() && Holds(t) && t.phase.MigrationStarted? && !world.data.dirty
      requires BetweenSteps(Last(history), t.request.updateId) && world.data.schema <= t.request.targetSchema
      modifies `world, `history
      ensures Valid() && Holds(t) && old(history) <= history && world == old(world).(data := world.data)
      ensures r.Success? ==>
                && world.data.schema == t.request.targetSchema && !world.data.dirty
                && Last(history) == Some(MigrateReturned(t.request.updateId))
      ensures StepsEnd(old(world).data, world.data, t.request.targetSchema, env, r)
    {
      r := ApplySteps(t, env);
      if !r.Success? { return; }
      r := Report(env.On(Migrator));
      if r.Success? { Record(MigrateReturned(t.request.updateId)); }
    }

    method ApplySteps(t: Transaction, env: Environment) returns (r: Result)
      requires Valid() && Holds(t) && t.phase.MigrationStarted? && !world.data.dirty
      requires BetweenSteps(Last(history), t.request.updateId) && world.data.schema <= t.request.targetSchema
      modifies `world, `history
      ensures Valid() && Holds(t) && old(history) <= history && world == old(world).(data := world.data)
      ensures r.Success? ==>
                && world.data.schema == t.request.targetSchema && !world.data.dirty
                && BetweenSteps(Last(history), t.request.updateId)
                && Steps(env, old(world).data.schema, t.request.targetSchema)
      ensures !r.Success? ==> StopsAt(world.data, t.request.targetSchema, env, r)
    {
      r := Success;
      while world.data.schema < t.request.targetSchema
        invariant Valid() && Holds(t) && old(history) <= history && !world.data.dirty && r.Success?
        invariant world == old(world).(data := world.data) && world.data.schema <= t.request.targetSchema
        invariant BetweenSteps(Last(history), t.request.updateId)
        invariant Steps(env, old(world).data.schema, world.data.schema)
        decreases t.request.targetSchema - world.data.schema
      {
        r := ApplyStep(t, env);
        if !r.Success? { return; }
      }
    }

    /** One version: recorded as pending, then applied. */
    method ApplyStep(t: Transaction, env: Environment) returns (r: Result)
      requires Valid() && Holds(t) && t.phase.MigrationStarted? && !world.data.dirty
      requires BetweenSteps(Last(history), t.request.updateId) && world.data.schema < t.request.targetSchema
      modifies `world, `history
      ensures Valid() && Holds(t) && old(history) <= history && world == old(world).(data := world.data)
      ensures r.Success? ==>
                && world.data.schema == old(world).data.schema + 1 && !world.data.dirty
                && BetweenSteps(Last(history), t.request.updateId)
      ensures r.Success? ==>
                var v := old(world).data.schema + 1; env.On(StepStage(v)).Done? && env.On(StepApply(v)).Done?
      ensures !r.Success? ==> StopsAt(world.data, t.request.targetSchema, env, r)
    {
      var id, next := t.request.updateId, world.data.schema + 1;
      assert At(world, id, MigrationStarted);
      r := Attempt(StepStage(next), StepStaged(id, next), env);
      if r.Success? { r := Attempt(StepApply(next), StepApplied(id, next), env); }
    }

    method StartCandidate(t: Transaction, env: Environment) returns (r: Result)
      requires Valid() && Holds(t) && t.phase.Migrated?
      modifies `world, `history
      ensures Valid() && old(history) <= history && Holds(t)
      ensures world == old(world) || world == old(world).(writer := Running(t.request.targetImage))
      ensures env.On(CandidateStart).Done? && env.On(CandidateProbe).Done? ==> r.Success?
      ensures r.Success? ==>
                world.writer == Running(t.request.targetImage) && Last(history) == Some(CandidateUp(t.request.updateId))
    {
      assert At(world, t.request.updateId, Migrated);
      r := StartWriter(t.request.targetImage, ForCandidate(t.request.updateId), CandidateStart, env);
      if !r.Success? { return; }
      if !env.On(CandidateProbe).Done? { return Report(env.On(CandidateProbe)); }
      Record(CandidateUp(t.request.updateId));
      return Success;
    }

    /** Which doctor runs is decided by whether this process has recovered the previous installation. */
    method Doctor(t: Transaction, env: Environment) returns (r: Result)
      requires Valid() && Holds(t)
      requires if recovery then t.phase.RecoveryReady? && Last(history) == Some(RecoverOk(t.request.updateId))
               else t.phase.CandidateReady?
      modifies `world, `history
      ensures Valid() && old(history) <= history && Holds(t) && world == old(world)
      ensures r.Success? ==> Last(history) == Some(DoctorOk(t.request.updateId, recovery))
      ensures r.Success? && recovery ==> world.data.schema == recoverySchema
      ensures (if recovery then env.On(RecoveryDoctorRun).Done? else env.On(DoctorRun).Done?) ==>
                !r.Death? && (r.Success? <==> (recovery ==> world.data.schema == recoverySchema))
    {
      if recovery {
        if !env.On(RecoveryDoctorRun).Done? { return Report(env.On(RecoveryDoctorRun)); }
        if world.data.schema != recoverySchema { return Failure; }
      } else {
        if !env.On(DoctorRun).Done? { return Report(env.On(DoctorRun)); }
      }
      Record(DoctorOk(t.request.updateId, recovery));
      return Success;
    }

    method ReplaceMarker(t: Transaction, image: Image, site: Site, env: Environment) returns (r: Result)
      requires Valid() && Holds(t) && !Terminal(t.phase) && world.stage.Some? && MayPublish(t, image)
      modifies `world, `history
      ensures Valid() && old(history) <= history && Holds(t) && r == Report(env.On(site))
      ensures world == if Applied(env.On(site)) then old(world).(image := image) else old(world)
    {
      assert Active(world, t.request.updateId) && MayPublish(world.transactions[t.request.updateId], image);
      r := Attempt(site, MarkerReplaced(image), env);
    }

    method PublishTarget(t: Transaction, env: Environment) returns (r: Result)
      requires Valid() && Holds(t) && t.phase.DoctorPassed?
      modifies `world, `history
      ensures Valid() && old(history) <= history && Holds(t)
      ensures r.Success? ==>
                && Last(history) == Some(PublishOk(t.request.updateId, false))
                && world.image == t.request.targetImage && world.stage.Some? && world.stage.value.published
      ensures HasReceipt(old(world)) ==> HasReceipt(world)
      ensures PublishSteady(env) && Resumable(old(world), KeyOf(t.request)) ==>
                r.Success? && Resumable(world, KeyOf(t.request))
      ensures world == old(world).(stage := world.stage, image := world.image)
    {
      ActsAlone(t);
      r := StageUpdate(KeyOf(t.request), PublishStage, env);
      if !r.Success? { return; }
      if !world.stage.value.published { r := ReplaceMarkerAndJournal(t, env); }
      if r.Success? { Record(PublishOk(t.request.updateId, false)); }
    }

    method ReplaceMarkerAndJournal(t: Transaction, env: Environment) returns (r: Result)
      requires Valid() && Holds(t) && t.phase.DoctorPassed? && world.stage.Some?
      requires world.stage.value.key == KeyOf(t.request)
      modifies `world, `history
      ensures Valid() && old(history) <= history && Holds(t)
      ensures r.Success? ==> world.image == t.request.targetImage && world.stage.Some? && world.stage.value.published
      ensures world.stage.Some? && world.stage.value.key == old(world).stage.value.key
      ensures HasReceipt(old(world)) ==> HasReceipt(world)
      ensures env.On(PublishMarker).Done? && env.On(PublishJournal).Done? ==> r.Success?
      ensures world == old(world).(stage := world.stage, image := world.image)
    {
      r := ReplaceMarker(t, t.request.targetImage, PublishMarker, env);
      if r.Success? { r := Attempt(PublishJournal, JournalPublished, env); }
    }

    method PublishPrevious(t: Transaction, env: Environment) returns (r: Result)
      requires Valid() && Holds(t) && t.phase.RecoveryDoctor?
      modifies `world, `history
      ensures Valid() && old(history) <= history && Holds(t)
      ensures r.Success? ==> Last(history) == Some(PublishOk(t.request.updateId, true)) && world.stage.None?
      ensures world == old(world).(stage := world.stage, image := world.image)
      ensures ReturnSteady(env) && old(world).image == t.request.sourceImage ==>
                r.Success? && world.image == t.request.sourceImage
    {
      if world.stage.Some? {
        r := ReturnStage(t, env);
      } else {
        r := if world.image == t.request.sourceImage then Report(env.On(RecoveryRemove)) else Failure;
      }
      if r.Success? { Record(PublishOk(t.request.updateId, true)); }
    }

    /** The previous configuration is published once more, and then the stage goes. */
    method ReturnStage(t: Transaction, env: Environment) returns (r: Result)
      requires Valid() && Holds(t) && t.phase.RecoveryDoctor? && world.stage.Some?
      modifies `world, `history
      ensures Valid() && old(history) <= history && Holds(t)
      ensures world == old(world).(stage := world.stage, image := world.image)
      ensures r.Success? ==> world.stage.None?
      ensures ReturnSteady(env) ==> r.Success? && world.image == t.request.sourceImage
    {
      ActsAlone(t);
      r := ReplaceMarker(t, t.request.sourceImage, RecoveryPublish, env);
      if r.Success? { r := RemoveStage(RecoveryDone, RecoveryRemove, env); }
    }

    method Publish(t: Transaction, previous: bool, env: Environment) returns (r: Result)
      requires Valid() && Holds(t) && (if previous then t.phase.RecoveryDoctor? else t.phase.DoctorPassed?)
      modifies `world, `history
      ensures Valid() && old(history) <= history && Holds(t)
      ensures r.Success? ==> Last(history) == Some(PublishOk(t.request.updateId, previous))
      ensures r.Success? && previous ==> recovery && world.stage.None?
      ensures world == old(world).(stage := world.stage, image := world.image)
      ensures r.Success? && !previous ==>
                world.image == t.request.targetImage && world.stage.Some? && world.stage.value.published
      ensures !previous && HasReceipt(old(world)) ==> HasReceipt(world)
      ensures PublishSteady(env) && !previous && Resumable(old(world), KeyOf(t.request)) ==>
                r.Success? && Resumable(world, KeyOf(t.request))
      ensures ReturnSteady(env) && previous && recovery && old(world).image == t.request.sourceImage ==>
                r.Success? && world.image == t.request.sourceImage
    {
      if previous {
        if !recovery { return Failure; }
        r := PublishPrevious(t, env);
      } else {
        r := PublishTarget(t, env);
      }
    }

    method AbortToPrevious(t: Transaction, env: Environment) returns (r: Result)
      requires Valid() && Holds(t) && BeforeMigration(t.phase) && installed == world.image
      modifies `world, `history
      ensures Valid() && old(history) <= history && Holds(t) && world.data == old(world).data
      ensures r.Success? ==>
                Last(history) == Some(PreviousRestored(t.request.updateId)) && HalfAborted(old(world), world)
      ensures AbortSteady(env) ==> r.Success?
    {
      ActsAlone(t);
      r := RestartPrevious(t, env);
      if !r.Success? { return; }
      r := AbortStage(KeyOf(t.request), Abandoned, AbortRemove, env);
      if r.Success? { Record(PreviousRestored(t.request.updateId)); }
    }

    /** The previous image is started, answers its probes and passes its doctor. */
    method RestartPrevious(t: Transaction, env: Environment) returns (r: Result)
      requires Valid() && Holds(t) && installed == world.image == t.request.sourceImage && BeforeMigration(t.phase)
      modifies `world, `history
      ensures Valid() && old(history) <= history && Holds(t)
      ensures world == old(world) || world == old(world).(writer := Running(installed))
      ensures r.Success? ==> Ready(world, Last(history)) && world == old(world).(writer := Running(installed))
      ensures env.On(AbortStart).Done? && env.On(AbortProbe).Done? && env.On(AbortDoctor).Done? ==> r.Success?
    {
      assert MayStart(world, installed, ForAbort(t.request.updateId));
      r := StartWriter(installed, ForAbort(t.request.updateId), AbortStart, env);
      if !r.Success? { return; }
      if !env.On(AbortProbe).Done? { return Report(env.On(AbortProbe)); }
      if !env.On(AbortDoctor).Done? { return Report(env.On(AbortDoctor)); }
      Record(PreviousReady(installed));
      return Success;
    }

    method Recover(t: Transaction, mode: RecoveryMode, env: Environment) returns (r: Result)
      requires Valid() && Holds(t)
      requires t.phase.RecoveryRequired? || t.phase.RecoveryReady? || t.phase.RecoveryDoctor?
      modifies `world, `history, `installed, `recovery, `recoverySchema
      ensures Valid() && old(history) <= history && Holds(t)
      ensures r.Success? ==>
                && recovery && Last(history) == Some(RecoverOk(t.request.updateId))
                && world.image == installed == t.request.sourceImage && world.writer == Running(installed)
      ensures world == old(world).(image := world.image, writer := world.writer)
      ensures r.Success? ==>
                recoverySchema == if mode.Restore? then t.request.sourceSchema else t.request.targetSchema
      ensures RecoverSteady(env, t.phase) ==>
                !r.Death? && (r.Success? <==> ModeFits(old(world), t, mode, old(installed)))
    {
      ActsAlone(t);
      r := SelectMode(t, mode, env);
      if r.Success? { r := PutBack(t, env); }
      if r.Success? {
        installed := world.image;
        r := StartRecovered(t, env);
        recovery := recovery || r.Success?;
      }
    }

    /** Publishes the previous configuration again; without a stage it must still be there. */
    method PutBack(t: Transaction, env: Environment) returns (r: Result)
      requires Valid() && Holds(t)
      requires t.phase.RecoveryRequired? || t.phase.RecoveryReady? || t.phase.RecoveryDoctor?
      requires ValidRequest(t.request)
      modifies `world, `history
      ensures Valid() && old(history) <= history && Holds(t) && world == old(world).(image := world.image)
      ensures r.Success? ==> world.image == t.request.sourceImage
      ensures RecoverSteady(env, t.phase) && (old(world).stage.None? ==> old(world).image == t.request.sourceImage) ==>
                r.Success?
    {
      if world.stage.Some? {
        r := ReplaceMarker(t, t.request.sourceImage, RecoverMarker(t.phase), env);
      } else {
        r := if world.image == t.request.sourceImage then Success else Failure;
      }
    }

    /** Whether the mode fits what is installed, and the schema its doctor will ask for. */
    method SelectMode(t: Transaction, mode: RecoveryMode, env: Environment) returns (r: Result)
      requires t.marker.Some?
      modifies `recoverySchema
      ensures r.Success? ==>
                recoverySchema == if mode.Restore? then t.request.sourceSchema else t.request.targetSchema
      ensures RecoverSteady(env, t.phase) ==> !r.Death? && (r.Success? <==> ModeFits(world, t, mode, installed))
    {
      if mode.Compatible? {
        if installed != t.request.sourceImage && installed != t.request.targetImage { return Failure; }
        recoverySchema := t.request.targetSchema;
      } else if mode.Restore? {
        if !env.On(RecoverInspect(t.phase)).Done? { return Report(env.On(RecoverInspect(t.phase))); }
        if world.data.schema != t.request.sourceSchema || installed != t.request.sourceImage
           || t.marker.None? { return Failure; }
        recoverySchema := t.request.sourceSchema;
      } else {
        return Failure;
      }
      return Success;
    }

    method StartRecovered(t: Transaction, env: Environment) returns (r: Result)
      requires Valid() && Holds(t) && installed == world.image == t.request.sourceImage
      requires t.phase.RecoveryRequired? || t.phase.RecoveryReady? || t.phase.RecoveryDoctor?
      modifies `world, `history
      ensures Valid() && old(history) <= history && Holds(t) && world.image == old(world).image
      ensures world == old(world).(writer := world.writer)
      ensures env.On(RecoverStart(t.phase)).Done? && env.On(RecoverProbe(t.phase)).Done? ==> r.Success?
      ensures r.Success? ==> Last(history) == Some(RecoverOk(t.request.updateId)) && world.writer == Running(installed)
    {
      assert MayStart(world, installed, ForRecovery(t.request.updateId));
      r := StartWriter(installed, ForRecovery(t.request.updateId), RecoverStart(t.phase), env);
      if !r.Success? { return; }
      if !env.On(RecoverProbe(t.phase)).Done? { return Report(env.On(RecoverProbe(t.phase))); }
      Record(RecoverOk(t.request.updateId));
      return Success;
    }

    /** A new process: only the world and its history survive the previous one. */
    method Launch()
      requires Valid()
      modifies `installed, `bridge, `orphanedWriters, `recovery, `recoverySchema, `guardHeld
      ensures installed == world.image && bridge.None? && !orphanedWriters && !recovery && guardHeld
    {
      installed, bridge, guardHeld := world.image, None, true;
      orphanedWriters, recovery, recoverySchema := false, false, 0;
    }

    method ReleaseStartGuard()
      modifies `guardHeld
      ensures !guardHeld
    {
      guardHeld := false;
    }

    /** What one pass of the phase loop finds: a durable transaction, or a bridge that is still open. */
    ghost predicate InLoop(t: Transaction)
      reads this
    {
      && ValidRequest(t.request) && !world.data.dirty
      && (if bridge.Some? then BridgeOpen(t) else Holds(t))
    }

    /** Starts a new update: stages, fences, and settles an ambiguous fence by looking it up. */
    method Begin(request: Request, env: Environment) returns (r: Result, t: Transaction)
      requires Valid() && ValidRequest(request) && guardHeld && bridge.None? && installed == world.image && !recovery
      requires request.updateId !in world.transactions && Idle(world)
      modifies `world, `history, `orphanedWriters, `bridge, `guardHeld
      ensures Valid() && old(history) <= history
      ensures r.Success? ==> InLoop(t) && t == Transaction(request, Fenced, None) && installed == world.image
      ensures !r.Success? ==> bridge.None?
      ensures r.Success? ==> guardHeld == bridge.Some?
      ensures r.Success? && NeedsBridge(request) && env.On(FenceWrite).Done? ==>
                bridge.Some? && world.transactions == old(world).transactions
      ensures StartsUndisturbed(env) && StartsCleanly(old(world), request) ==>
                r.Success? && world.image == old(world).image && world.data == old(world).data
      ensures Report(env.On(PathCheck)).Failure? ==>
                !r.Success? && Loses(old(world), world, KeyOf(request), old(orphanedWriters), env)
    {
      t := Transaction(request, Fenced, None);
      r := StageStart(request, env);
      if r.Success? { r, t := FenceStart(request, env); }
      if r.Success? && bridge.None? { ReleaseStartGuard(); }
    }

    /** Checks, stages and re-validates a new update, and takes the stage away again if that fails. */
    method StageStart(request: Request, env: Environment) returns (r: Result)
      requires Valid() && ValidRequest(request) && installed == world.image
      requires request.updateId !in world.transactions && Idle(world)
      modifies `world, `history, `orphanedWriters
      ensures Valid() && old(history) <= history
      ensures r.Success? ==> Resumable(world, KeyOf(request)) && world == old(world).(stage := world.stage)
      ensures StartsUndisturbed(env) && StartsCleanly(old(world), request) ==> r.Success?
      ensures Report(env.On(PathCheck)).Failure? ==>
                !r.Success? && Loses(old(world), world, KeyOf(request), old(orphanedWriters), env)
    {
      r := PreflightAndPull(request, env);
      if r.Success? { r := Report(env.On(Revalidate(false))); }
      if r.Failure? {
        r := AbortUnpublishedStart(KeyOf(request), env);
        r := if r.Death? then Death else Failure;
      }
    }

    method FenceStart(request: Request, env: Environment) returns (r: Result, t: Transaction)
      requires Valid() && ValidRequest(request) && guardHeld && bridge.None? && installed == world.image
      requires request.updateId !in world.transactions && Idle(world)
      requires world.stage.Some? && world.stage.value.key == KeyOf(request)
      modifies `world, `history, `orphanedWriters, `bridge
      ensures Valid() && old(history) <= history
      ensures r.Success? ==>
                && InLoop(t) && t == Transaction(request, Fenced, None)
                && world == old(world).(transactions := world.transactions)
      ensures !r.Success? ==> bridge.None?
      ensures r.Success? && NeedsBridge(request) && env.On(FenceWrite).Done? ==>
                bridge.Some? && world.transactions == old(world).transactions
      ensures env.On(FenceWrite).Done? && old(world).data.schema == request.sourceSchema ==> r.Success?
    {
      Reached();
      r, t := Fence(request, env);
      if r.Failure? { r, t := ReconcileFence(request, env); }
    }

    method ReconcileFence(request: Request, env: Environment) returns (r: Result, t: Transaction)
      requires Valid() && ValidRequest(request) && bridge.None? && installed == world.image
      requires request.updateId in world.transactions ==>
                world.transactions[request.updateId] == Transaction(request, Fenced, None)
      requires request.updateId !in world.transactions ==> Idle(world)
      modifies `world, `history, `orphanedWriters
      ensures Valid() && old(history) <= history
      ensures r.Success? ==>
                !world.data.dirty && Holds(t) && t == Transaction(request, Fenced, None) && world == old(world)
    {
      t := Transaction(request, Fenced, None);
      var found := ActiveFor(request, true, env);
      match found
      case Lost => return Death, t;
      case Unavailable => return Failure, t;
      case Missing =>
        r := AbortUnpublishedStart(KeyOf(request), env);
        r := if r.Death? then Death else Failure;
      case Found(transaction) =>
        if transaction.request != request { return Failure, transaction; }
        return Success, transaction;
    }

    /** How the orderly work of one phase ends. */
    static ghost predicate Works(before: World, after: World, t: Transaction, env: Environment, r: Result) {
      && !r.Failure? && Resumable(after, KeyOf(t.request))
      && (r.Success? && t.phase.MigrationStarted? ==> Steps(env, before.data.schema, t.request.targetSchema))
      && (HasReceipt(before) || (r.Success? && t.phase.WritersStopped?) ==> HasReceipt(after))
      && (r.Death? ==> t.phase.MigrationStarted? && CutOff(after, t, env))
    }

    /** The external work of one phase, which yields the proof its transition needs. */
    method ForwardProof(t: Transaction, taken: Taken, directory: Name, env: Environment)
      returns (r: Result, marker: Option<Marker>)
      requires Valid() && Holds(t) && !recovery && !Terminal(t.phase) && !Recovering(t.phase) && !t.phase.Fenced?
      requires !world.data.dirty
      modifies `world, `history
      ensures Valid() && old(history) <= history && Holds(t)
      ensures r.Success? ==>
                && !world.data.dirty && (marker.Some? <==> t.phase.WritersStopped?)
                && Evidence(world, Last(history), t.request.updateId, Next(t.phase), marker)
      ensures !t.phase.MigrationStarted? ==> world.data == old(world).data
      ensures Orderly(env) && Resumable(old(world), KeyOf(t.request)) ==> Works(old(world), world, t, env, r)
    {
      marker := None;
      if t.phase.WritersStopped? {
        if Orderly(env) { OrderlyGoesForward(env); }
        var m;
        r, m := Backup(t, taken, directory, env);
        marker := Some(m);
      } else if t.phase.MigrationStarted? {
        r := MigrationProof(t, env);
      } else {
        r := CandidateProof(t, env);
      }
    }

    method MigrationProof(t: Transaction, env: Environment) returns (r: Result)
      requires Valid() && Holds(t) && t.phase.MigrationStarted? && !world.data.dirty
      modifies `world, `history
      ensures Valid() && old(history) <= history && Holds(t)
      ensures r.Success? ==>
                !world.data.dirty && Evidence(world, Last(history), t.request.updateId, Migrated, None)
      ensures Orderly(env) && Resumable(old(world), KeyOf(t.request)) ==> Works(old(world), world, t, env, r)
    {
      r := Migrate(t, env);
      if Orderly(env) { OrderlyStop(old(world).data, world.data, t.request.targetSchema, env, r); }
    }

    /** The work on the candidate: started, examined, published. */
    method CandidateProof(t: Transaction, env: Environment) returns (r: Result)
      requires Valid() && Holds(t) && !recovery
      requires t.phase.BackupVerified? || t.phase.ConfigPublished?
               || t.phase.Migrated? || t.phase.CandidateReady? || t.phase.DoctorPassed?
      modifies `world, `history
      ensures Valid() && old(history) <= history && Holds(t) && world.data == old(world).data
      ensures r.Success? ==> Evidence(world, Last(history), t.request.updateId, Next(t.phase), None)
      ensures HasReceipt(old(world)) ==> HasReceipt(world)
      ensures Orderly(env) && Resumable(old(world), KeyOf(t.request)) ==>
                r.Success? && Resumable(world, KeyOf(t.request))
    {
      if Orderly(env) { OrderlyGoesForward(env); }
      r := Success;
      if t.phase.Migrated? {
        r := StartCandidate(t, env);
      } else if t.phase.CandidateReady? {
        r := Doctor(t, env);
      } else if t.phase.DoctorPassed? {
        r := Publish(t, false, env);
      }
    }

    /** One pass of the phase loop over the pre-recovery phases. */
    method ForwardStep(t: Transaction, taken: Taken, directory: Name, env: Environment)
      returns (r: Result, next: Transaction)
      requires Valid() && InLoop(t) && !recovery && !Terminal(t.phase) && !Recovering(t.phase)
      modifies `world, `history, `orphanedWriters, `bridge, `rollbacks, `guardHeld
      ensures Valid() && old(history) <= history
      ensures (!r.Death? ==> bridge.None?) && next.request == t.request
      ensures r.Success? ==> InLoop(next) && next.phase == Next(t.phase)
      ensures r.Success? && Terminal(next.phase) ==> OutcomeHolds(world, t.request, next.phase)
      ensures Orderly(env) && Resumable(old(world), KeyOf(t.request)) ==> Passing(old(world), world, t, next, env, r)
      ensures old(bridge).Some? && StopsThenDies(env) ==> r.Death? && world == old(world).(writer := Stopped)
    {
      next := t;
      if Orderly(env) { OrderlyGoesForward(env); }
      if t.phase.Fenced? {
        r, next := FencedStep(t, env);
        return;
      }
      var marker;
      r, marker := ForwardProof(t, taken, directory, env);
      if r.Success? { r, next := Advance(t, Next(t.phase), marker, env); }
    }

    /** How one orderly pass ends. */
    static ghost predicate Passing(before: World, after: World, t: Transaction, next: Transaction, env: Environment,
        r: Result)
    {
      && !r.Failure?
      && (r.Success? ==>
            && (t.phase.Fenced? || env.On(Advancing(Next(t.phase))).Done?)
            && (if t.phase.MigrationStarted? then Steps(env, before.data.schema, t.request.targetSchema)
                else after.data.schema == before.data.schema)
            && (Forward(next.phase) ==>
                  && Resumable(after, KeyOf(t.request))
                  && (HasReceipt(before) || t.phase.WritersStopped? ==> HasReceipt(after))))
      && (r.Death? ==>
            && next == t && CutOff(after, t, env)
            && (HasReceipt(before) || t.phase.WritersStopped? ==> HasReceipt(after)))
    }

    /** The Fenced step. Whatever happens, an open bridge does not survive it in a living process. */
    method FencedStep(t: Transaction, env: Environment) returns (r: Result, next: Transaction)
      requires Valid() && InLoop(t) && t.phase.Fenced?
      modifies `world, `history, `orphanedWriters, `bridge, `rollbacks, `guardHeld
      ensures Valid() && old(history) <= history
      ensures (!r.Death? ==> bridge.None?) && next.request == t.request
      ensures r.Success? ==> InLoop(next) && next.phase.WritersStopped?
      ensures old(bridge).Some? && r.Success? ==> !guardHeld
      ensures FenceSteady(env) && old(bridge).None? && env.On(Advancing(WritersStopped)) == Died(false) ==>
                r.Death? && next == t && bridge.None? && world == old(world).(writer := Stopped)
      ensures FenceSteady(env) && (old(bridge).Some? || env.On(Advancing(WritersStopped)).Done?) ==>
                r.Success? && world == old(world).(writer := Stopped, transactions := world.transactions)
      ensures old(bridge).Some? && StopsThenDies(env) ==> r.Death? && world == old(world).(writer := Stopped)
    {
      next := t;
      var startCommitPending := bridge.Some?;
      r := StopForFence(t, env);
      if !r.Success? { return; }
      r, next := Advance(t, WritersStopped, None, env);
      if startCommitPending { ReleaseStartGuard(); }
      if r.Success? { ActsAlone(next); }
    }

    /** Stops the writer; an open bridge is then checked once more, and rolled back if anything fails. */
    method StopForFence(t: Transaction, env: Environment) returns (r: Result)
      requires Valid() && InLoop(t) && t.phase.Fenced?
      modifies `world, `history, `orphanedWriters, `bridge, `rollbacks
      ensures Valid() && old(history) <= history
      ensures r.Failure? ==> bridge.None?
      ensures r.Success? ==> bridge == old(bridge) && world == old(world).(writer := Stopped)
                             && InLoop(t) && Last(history) == Some(StopProved)
      ensures env.On(Stop).Done? && env.On(StopInspect).Done? && env.On(Revalidate(true)).Done? ==> r.Success?
      ensures old(bridge).Some? && StopsThenDies(env) ==> r.Death? && world == old(world).(writer := Stopped)
    {
      if bridge.None? { ActsAlone(t); }
      r := StopWriters(env);
      if r.Success? && bridge.Some? { r := Report(env.On(Revalidate(true))); }
      if r.Failure? && bridge.Some? {
        r := AbortPendingStart(t, env);
        r := if r.Death? then Death else Failure;
      }
    }

    /** The external work of one recovery phase. Doctor and publication always follow a recovery by the
        same process, so the recovered installation is always at hand. */
    method RecoveryProof(t: Transaction, mode: RecoveryMode, env: Environment) returns (r: Result)
      requires Valid() && Holds(t) && Recovering(t.phase)
      modifies `world, `history, `installed, `recovery, `recoverySchema
      ensures Valid() && old(history) <= history && Holds(t)
      ensures r.Success? ==> Evidence(world, Last(history), t.request.updateId, Next(t.phase), None)
      ensures r.Success? && !t.phase.RecoveryConfig? ==> recovery && installed == t.request.sourceImage
      ensures world == old(world).(stage := world.stage, image := world.image, writer := world.writer)
      ensures RecoverSteady(env, t.phase) && ReturnSteady(env) ==>
                !r.Death? && (r.Success? <==> Passes(old(world), t, mode, old(installed)))
    {
      if t.phase.RecoveryConfig? { return Success; }
      if mode.Unchosen? && t.phase.RecoveryRequired? { return Failure; }
      r := Recover(t, mode, env);
      if r.Success? && !t.phase.RecoveryRequired? { r := ExamineOrPublish(t, env); }
    }

    /** What a recovered installation still owes its phase: the doctor, then the publication. */
    method ExamineOrPublish(t: Transaction, env: Environment) returns (r: Result)
      requires Valid() && Holds(t) && (t.phase.RecoveryReady? || t.phase.RecoveryDoctor?)
      requires recovery && Last(history) == Some(RecoverOk(t.request.updateId)) && world.image == t.request.sourceImage
      modifies `world, `history
      ensures Valid() && old(history) <= history && Holds(t)
      ensures r.Success? ==> Evidence(world, Last(history), t.request.updateId, Next(t.phase), None)
      ensures world == old(world).(stage := world.stage, image := world.image)
      ensures ReturnSteady(env) ==>
                !r.Death? && (r.Success? <==> (t.phase.RecoveryReady? ==> old(world).data.schema == recoverySchema))
    {
      if t.phase.RecoveryReady? {
        r := Doctor(t, env);
      } else {
        r := Publish(t, true, env);
      }
    }

    /** One pass of the phase loop over the recovery phases: each one recovers again before it goes on. */
    method RecoveryStep(t: Transaction, mode: RecoveryMode, env: Environment) returns (r: Result, next: Transaction)
      requires Valid() && Holds(t) && Recovering(t.phase)
      modifies `world, `history, `installed, `recovery, `recoverySchema, `orphanedWriters, `bridge, `rollbacks
      ensures Valid() && old(history) <= history
      ensures (!r.Death? ==> bridge.None?) && next.request == t.request
      ensures r.Success? ==> InLoop(next) && next.phase == Next(t.phase)
      ensures r.Success? && Terminal(next.phase) ==> OutcomeHolds(world, t.request, next.phase)
      ensures world.data == old(world).data
      ensures Orderly(env) ==>
                && (r.Failure? <==> !Passes(old(world), t, mode, old(installed)))
                && (r.Success? ==> env.On(Advancing(Next(t.phase))).Done?)
                && (r.Death? ==> next == t && Recorded(world, t) && env.On(Advancing(Next(t.phase))).Died?)
      ensures r.Success? && !t.phase.RecoveryConfig? ==> installed == t.request.sourceImage
    {
      next := t;
      if Orderly(env) { OrderlyGoesBack(env, t.phase); }
      ActsAlone(t);
      r := RecoveryProof(t, mode, env);
      if r.Success? { r, next := Advance(t, Next(t.phase), None, env); }
    }

    /** How one orderly recovery pass ends: it keeps the condition under which the recovery gets to its end. */
    static ghost predicate PassingRecovery(before: World, after: World, t: Transaction, next: Transaction,
        mode: RecoveryMode, was: Image, now: Image, env: Environment, r: Result)
    {
      && (r.Failure? ==> !Recovers(before, t, mode, was))
      && (r.Success? && Recovering(next.phase) ==>
            (Recovers(after, next, mode, now) <==> Recovers(before, t, mode, was)))
      && (r.Success? && next.phase.Recovered? ==> Recovers(before, t, mode, was) && env.On(Advancing(Recovered)).Done?)
      && (r.Death? ==> next == t && Recorded(after, t) && env.On(Advancing(Next(t.phase))).Died?)
    }

    /** One pass of the loop. */
    method RunPhase(t: Transaction, mode: RecoveryMode, taken: Taken, directory: Name, env: Environment)
      returns (r: Result, next: Transaction)
      requires Valid() && InLoop(t) && !Terminal(t.phase) && (recovery ==> Recovering(t.phase))
      modifies `world, `history, `installed, `recovery
      modifies `recoverySchema, `orphanedWriters, `bridge, `rollbacks, `guardHeld
      ensures Valid() && old(history) <= history
      ensures (!r.Death? ==> bridge.None?) && next.request == t.request
      ensures r.Success? ==> InLoop(next) && next.phase == Next(t.phase)
      ensures r.Success? && Terminal(next.phase) ==> OutcomeHolds(world, t.request, next.phase)
      ensures Recovering(t.phase) ==> world.data == old(world).data
      ensures recovery ==> old(recovery) || Recovering(t.phase)
      ensures old(bridge).Some? && StopsThenDies(env) ==> r.Death? && world == old(world).(writer := Stopped)
      ensures Orderly(env) && Forward(t.phase) && Resumable(old(world), KeyOf(t.request)) ==>
                Passing(old(world), world, t, next, env, r)
      ensures Orderly(env) && Recovering(t.phase) ==>
                PassingRecovery(old(world), world, t, next, mode, old(installed), installed, env, r)
    {
      if Recovering(t.phase) {
        r, next := RecoveryStep(t, mode, env);
      } else {
        r, next := ForwardStep(t, taken, directory, env);
      }
    }

    /** The phase loop. It ends because every pass lowers the rank of the phase. */
    method RunPhases(t0: Transaction, mode: RecoveryMode, taken: Taken, directory: Name, env: Environment)
      returns (r: Result, t: Transaction, passes: nat)
      requires Valid() && InLoop(t0) && !recovery
      modifies `world, `history, `installed, `recovery
      modifies `recoverySchema, `orphanedWriters, `bridge, `rollbacks, `guardHeld
      ensures Valid() && old(history) <= history
      ensures passes <= Rank(t0.phase)
      ensures r.Success? ==> Holds(t) && Terminal(t.phase)
      ensures r.Success? && !Terminal(t0.phase) ==> OutcomeHolds(world, t.request, t.phase)
      ensures Recovering(t0.phase) ==> world.data == old(world).data
      ensures (!r.Death? ==> bridge.None?) && t.request == t0.request
      ensures Orderly(env) && Forward(t0.phase) && Resumable(old(world), KeyOf(t0.request)) ==>
                Commits(world, t, t0.phase, old(world).data.schema, env, r)
      ensures Orderly(env) && Recovering(t0.phase) ==>
                EndsRecovery(world, t, Recovers(old(world), t0, mode, old(installed)), env, r)
      ensures old(bridge).Some? && StopsThenDies(env) ==> r.Death? && world == old(world).(writer := Stopped)
    {
      t, r, passes := t0, Success, 0;
      while !Terminal(t.phase)
        invariant Valid() && old(history) <= history && InLoop(t) && t.request == t0.request
        invariant recovery ==> Recovering(t.phase) || Terminal(t.phase)
        invariant r.Success?
        invariant Terminal(t.phase) && !Terminal(t0.phase) ==> OutcomeHolds(world, t.request, t.phase)
        invariant Recovering(t0.phase) ==> world.data == old(world).data
        invariant old(bridge).Some? && StopsThenDies(env) ==> bridge == old(bridge) && t == t0 && world == old(world)
        invariant Forward(t0.phase) ==> Forward(t.phase) || t.phase.Committed?
        invariant Recovering(t0.phase) ==> Recovering(t.phase) || t.phase.Recovered?
        invariant Orderly(env) && Forward(t0.phase) && Resumable(old(world), KeyOf(t0.request)) ==>
            && (Forward(t.phase) ==> Resumable(world, KeyOf(t0.request)))
            && (Forward(t.phase) && BeforeBackup(t0.phase) && !BeforeBackup(t.phase) ==> HasReceipt(world))
            && SoFar(env, t0, t.phase, old(world).data.schema, world.data.schema)
        invariant Orderly(env) && Recovering(t0.phase) && Recovering(t.phase) ==>
            (Recovers(world, t, mode, installed) <==> Recovers(old(world), t0, mode, old(installed)))
        invariant Orderly(env) && Recovering(t0.phase) && t.phase.Recovered? ==>
                  Recovers(old(world), t0, mode, old(installed)) && env.On(Advancing(Recovered)).Done?
        invariant passes + Rank(t.phase) <= Rank(t0.phase)
        decreases Rank(t.phase)
      {
        passes := passes + 1;
        ghost var before, was := t, world;
        r, t := RunPhase(t, mode, taken, directory, env);
        if !r.Success? { return; }
        if Orderly(env) && Forward(t0.phase) && Resumable(old(world), KeyOf(t0.request)) {
          OneFurther(env, t0, before, t, old(world).data.schema, was, world);
        }
      }
    }

    /** The durable steps of a run that has come from `t0` to phase `now`. */
    static ghost predicate SoFar(env: Environment, t0: Transaction, now: Phase, from: int, schema: int) {
      && (forall q | (Forward(q) || q.Committed?) && Rank(now) <= Rank(q) < Rank(t0.phase) && !q.WritersStopped? ::
            env.On(Advancing(q)).Done?)
      && (if ReachesMigration(now) then schema == from
          else ReachesMigration(t0.phase) ==> Steps(env, from, t0.request.targetSchema))
    }

    static lemma OneFurther(env: Environment, t0: Transaction, t: Transaction, next: Transaction, from: int,
        before: World, after: World)
      requires SoFar(env, t0, t.phase, from, before.data.schema) && t.request == t0.request && Forward(t.phase)
      requires Passing(before, after, t, next, env, Success) && next.phase == Next(t.phase)
      ensures SoFar(env, t0, next.phase, from, after.data.schema)
    {
    }

    /** `--abort`: allowed only before the migration boundary. */
    method AbortUpdate(t: Transaction, env: Environment) returns (r: Result, next: Transaction)
      requires Valid() && Holds(t) && installed == world.image
      modifies `world, `history, `orphanedWriters, `bridge, `rollbacks
      ensures Valid() && old(history) <= history
      ensures (!r.Death? ==> bridge.None?) && next.request == t.request
      ensures r.Success? ==> Holds(next) && next.phase.Aborted? && OutcomeHolds(world, t.request, Aborted)
      ensures PastMigration(t.phase) ==> r.Failure? && world == old(world) && history == old(history)
      ensures Orderly(env) && BeforeMigration(t.phase) ==>
                if env.On(Advancing(Aborted)).Done? then r.Success? else r.Death? && HalfAborted(old(world), world)
    {
      next := t;
      if !t.phase.Fenced? && !t.phase.WritersStopped? && !t.phase.BackupVerified? { return Failure, t; }
      if Orderly(env) { OrderlyGoesBack(env, t.phase); }
      ActsAlone(t);
      r := AbortToPrevious(t, env);
      if r.Success? { r, next := Advance(t, Aborted, None, env); }
    }

    /** `--recover`: enters recovery from a migrated phase, or resumes it; refused everywhere else. */
    method EnterRecovery(t: Transaction, env: Environment) returns (r: Result, next: Transaction)
      requires Valid() && Holds(t) && !world.data.dirty
      modifies `world, `history, `orphanedWriters, `bridge, `rollbacks
      ensures Valid() && old(history) <= history
      ensures (!r.Death? ==> bridge.None?) && next.request == t.request
      ensures r.Success? ==> Holds(next) && Recovering(next.phase) && !world.data.dirty
      ensures world.data == old(world).data
      ensures PastPublication(t.phase) || !PastMigration(t.phase) ==> r.Failure? && world == old(world)
      ensures Orderly(env) && MayRecover(t.phase) ==>
                && !r.Failure? && world == old(world).(transactions := world.transactions)
                && (r.Success? ==> next.phase == t.phase || (next.phase.RecoveryRequired? && Forward(t.phase)))
                && (r.Death? ==> next == t && Recorded(world, t) && env.On(Advancing(RecoveryRequired)).Died?)
    {
      next := t;
      if Recovering(t.phase) { return Success, t; }
      if !t.phase.MigrationStarted? && !t.phase.Migrated? && !t.phase.CandidateReady? && !t.phase.DoctorPassed? {
        return Failure, t;
      }
      r, next := Advance(t, RecoveryRequired, None, env);
    }

    method PrepareResume(t: Transaction, env: Environment) returns (r: Result)
      requires Valid() && InLoop(t) && !Recovering(t.phase) && installed == world.image
      requires Terminal(t.phase) ==> Idle(world)
      modifies `world, `history
      ensures Valid() && old(history) <= history && InLoop(t) && installed == world.image
      ensures world == old(world).(stage := world.stage) && (Terminal(t.phase) ==> Idle(world))
      ensures env.On(TargetImage(true)).Done? && env.On(StageWrite(true)).Done? && Forward(t.phase) ==>
                r.Success? && Resumable(world, KeyOf(t.request))
    {
      if bridge.None? && !Terminal(t.phase) { ActsAlone(t); }
      Reached();
      r := PrepareTarget(t.request, true, env);
      if r.Success? && (t.phase.Committed? || t.phase.Recovered?) {
        var completed := CompleteStage(KeyOf(t.request), env);
        if completed.Death? { return Death; }
      }
    }

    /** The database knows exactly this request. */
    static predicate OnRecord(w: World, r: Request) {
      r.updateId in w.transactions && w.transactions[r.updateId].request == r
    }

    /** The update had come to its end before. */
    static predicate Ended(w: World, r: Request) {
      r.updateId in w.transactions && Terminal(w.transactions[r.updateId].phase)
    }

    /** A plain command for an update the database does not know, while nothing is active. */
    static ghost predicate Startable(w: World, x: Execution) {
      && !x.abort && x.recoveryMode.Unchosen?
      && ValidRequest(x.request) && x.request.updateId !in w.transactions && Idle(w)
    }

    /** The command never names a finished update while another one is active: it takes the active request. */
    predicate Askable(r: Request)
      reads this
    {
      r.updateId in world.transactions && Terminal(world.transactions[r.updateId].phase) ==>
        forall id | id in world.transactions :: Terminal(world.transactions[id].phase)
    }

    /**
     One invocation of the update command, from a fresh process to a result or its death. Orderly, it ends as
     its phase and mode say (`Undisturbed`); a new update that starts cleanly commits. If nothing disturbs it, a
     resume commits whatever the receipt (`Finishes`). Over a dirty schema nothing is ever done: the
     database refuses to be opened. A refused start of a new update loses a stopped writer's stage only in the
     one case, and a first command cut short after the stop leaves the writer down and its stage behind.
     */
    method ExecuteUpdate(x: Execution, taken: Taken, directory: Name, env: Environment)
      returns (r: Result, t: Transaction, passes: nat)
      requires Valid() && Askable(x.request)
      modifies this
      ensures Valid() && old(history) <= history
      ensures !r.Death? ==> !guardHeld
      ensures passes <= if x.recoveryMode.Unchosen? then 8 else 4
      ensures r.Success? ==> t.request == x.request && Holds(t) && Terminal(t.phase)
      ensures r.Success? && !Ended(old(world), x.request) ==> OutcomeHolds(world, t.request, t.phase)
      ensures r.Success? && x.abort ==> t.phase.Aborted?
      ensures !x.abort && !x.recoveryMode.Unchosen? ==> world.data == old(world).data
      ensures old(world).data.dirty ==> !r.Success? && world == old(world) && history == old(history)
      ensures Orderly(env) && OnRecord(old(world), x.request) && !old(world).data.dirty ==>
                Undisturbed(old(world), world, x, env, r, t)
      ensures Calm(env) && OnRecord(old(world), x.request) && !old(world).data.dirty ==> Finishes(old(world), x, r, t)
      ensures Startable(old(world), x) && env.On(ActiveById(false)).Done? && env.On(ActiveAny(false)).Done? ==>
                StartEnds(old(world), world, x.request, env, r, t)
    {
      Launch();
      t, passes := Transaction(x.request, Fenced, None), 0;
      if ValidRequest(x.request) {
        r, t, passes := FindAndDrive(x, taken, directory, env);
      } else {
        r := Failure;
        if OnRecord(world, x.request) { Reached(); }
      }
      if Calm(env) && OnRecord(old(world), x.request) && !old(world).data.dirty {
        NothingDies(old(world), world, x, env, r, t);
      }
      if !r.Death? { ReleaseStartGuard(); }
    }

    /** The writer is down, its stage is there to restart it from, and nothing became durable. */
    static predicate LeftStopped(before: World, after: World, r: Request) {
      && after.writer.Stopped? && Resumable(after, KeyOf(r))
      && after.transactions == before.transactions && after.image == before.image
    }

    /** Finds the update, or starts it: neither an abort nor a recovery ever starts one. */
    method FindAndDrive(x: Execution, taken: Taken, directory: Name, env: Environment)
      returns (r: Result, t: Transaction, passes: nat)
      requires Valid() && ValidRequest(x.request) && guardHeld && bridge.None? && installed == world.image && !recovery
      requires Askable(x.request) && !orphanedWriters
      modifies this
      ensures Valid() && old(history) <= history
      ensures passes <= if x.recoveryMode.Unchosen? then 8 else 4
      ensures r.Success? ==> t.request == x.request && Holds(t) && Terminal(t.phase)
      ensures r.Success? && !Ended(old(world), x.request) ==> OutcomeHolds(world, t.request, t.phase)
      ensures r.Success? && x.abort ==> t.phase.Aborted?
      ensures !x.abort && !x.recoveryMode.Unchosen? ==> world.data == old(world).data
      ensures old(world).data.dirty
              || (&& (x.abort || !x.recoveryMode.Unchosen?)
                  && x.request.updateId !in old(world).transactions && Idle(old(world))) ==>
                !r.Success? && world == old(world) && history == old(history)
      ensures Orderly(env) && OnRecord(old(world), x.request) && !old(world).data.dirty ==>
                Undisturbed(old(world), world, x, env, r, t)
      ensures Startable(old(world), x) && env.On(ActiveById(false)).Done? && env.On(ActiveAny(false)).Done? ==>
                StartEnds(old(world), world, x.request, env, r, t)
    {
      t, passes := Transaction(x.request, Fenced, None), 0;
      var found := ActiveFor(x.request, false, env);
      match found
      case Lost => r := Death;
      case Unavailable => r := Failure;
      case Missing =>
        if x.abort || !x.recoveryMode.Unchosen? { return Failure, t, 0; }
        Reached();
        r, t, passes := StartUpdate(x.request, taken, directory, env);
      case Found(transaction) =>
        if transaction.request != x.request { return Failure, transaction, 0; }
        Reached();
        r, t, passes := Drive(transaction, x, taken, directory, env);
    }

    /** How the start of a new update ends: one that starts cleanly commits or is cut off; a refused one loses
        a stopped writer's stage only in the one case; one cut short after the stop leaves the writer down. */
    static ghost predicate StartEnds(w: World, after: World, request: Request, env: Environment, r: Result,
        t: Transaction)
    {
      && (Orderly(env) && StartsCleanly(w, request) ==>
            t.request == request && Commits(after, t, Fenced, w.data.schema, env, r))
      && (Report(env.On(PathCheck)).Failure? ==> Loses(w, after, KeyOf(request), false, env))
      && (CutShort(env) && StartsCleanly(w, request) && NeedsBridge(request) ==>
            r.Death? && LeftStopped(w, after, request))
    }

    method StartUpdate(request: Request, taken: Taken, directory: Name, env: Environment)
      returns (r: Result, t: Transaction, passes: nat)
      requires Valid() && ValidRequest(request) && guardHeld && bridge.None? && installed == world.image && !recovery
      requires request.updateId !in world.transactions && Idle(world) && !orphanedWriters
      modifies this
      ensures Valid() && old(history) <= history && passes <= 8
      ensures r.Success? ==> t.request == request && Holds(t) && Terminal(t.phase)
      ensures r.Success? ==> OutcomeHolds(world, t.request, t.phase)
      ensures StartEnds(old(world), world, request, env, r, t)
    {
      passes := 0;
      if Orderly(env) { OrderlyStarts(env); }
      r, t := Begin(request, env);
      if r.Success? { r, t, passes := Resume(t, taken, directory, env); }
    }

    /** How an orderly command ends for a request the database knows. */
    static ghost predicate Undisturbed(w: World, after: World, x: Execution, env: Environment, r: Result,
        t: Transaction)
      requires OnRecord(w, x.request)
    {
      t.request == x.request && Driven(w, after, w.transactions[x.request.updateId], x, env, r, t)
    }

    /** How a command that nothing disturbs must end. */
    static predicate Finishes(w: World, x: Execution, r: Result, t: Transaction)
      requires OnRecord(w, x.request)
    {
      var found := w.transactions[x.request.updateId];
      && (x.abort && BeforeMigration(found.phase) ==> r.Success?)
      && (!x.abort && x.recoveryMode.Unchosen? && Forward(found.phase) ==> r.Success? && t.phase.Committed?)
      && (!x.abort && !x.recoveryMode.Unchosen? && MayRecover(found.phase) ==>
            (r.Success? <==> Recovers(w, found, x.recoveryMode, w.image)) && (r.Success? ==> t.phase.Recovered?))
    }

    static lemma NothingDies(w: World, after: World, x: Execution, env: Environment, r: Result, t: Transaction)
      requires Calm(env) && OnRecord(w, x.request) && Undisturbed(w, after, x, env, r, t)
      ensures Finishes(w, x, r, t)
    {
    }

    /** How an orderly command ends that found `t0`: an abort before the migration aborts or dies halfway; a plain
        resume commits or is cut off; a recovery ends as its mode allows. */
    static ghost predicate Driven(w: World, after: World, t0: Transaction, x: Execution, env: Environment, r: Result,
        t: Transaction)
    {
      && (x.abort && BeforeMigration(t0.phase) ==>
            if env.On(Advancing(Aborted)).Done? then r.Success? else r.Death? && HalfAborted(w, after))
      && (!x.abort && x.recoveryMode.Unchosen? && Forward(t0.phase) ==>
            Commits(after, t, t0.phase, w.data.schema, env, r))
      && (!x.abort && !x.recoveryMode.Unchosen? && MayRecover(t0.phase) ==>
            EndsRecovery(after, t, Recovers(w, t0, x.recoveryMode, w.image), env, r))
    }

    method Drive(t0: Transaction, x: Execution, taken: Taken, directory: Name, env: Environment)
      returns (r: Result, t: Transaction, passes: nat)
      requires Valid() && InLoop(t0) && t0.request == x.request && installed == world.image && !recovery
      requires bridge.Some? ==> !x.abort && x.recoveryMode.Unchosen?
      requires Terminal(t0.phase) ==> Idle(world)
      modifies `world, `history, `installed, `recovery
      modifies `recoverySchema, `orphanedWriters, `bridge, `rollbacks, `guardHeld
      ensures Valid() && old(history) <= history
      ensures passes <= if x.recoveryMode.Unchosen? then 8 else 4
      ensures t.request == x.request
      ensures r.Success? ==> Holds(t) && Terminal(t.phase)
      ensures r.Success? && !Terminal(t0.phase) ==> OutcomeHolds(world, t.request, t.phase)
      ensures r.Success? && x.abort ==> t.phase.Aborted?
      ensures !x.abort && !x.recoveryMode.Unchosen? ==> world.data == old(world).data
      ensures Orderly(env) ==> Driven(old(world), world, t0, x, env, r, t)
      ensures (&& old(bridge).Some? && StopsThenDies(env)
               && env.On(TargetImage(true)).Done? && env.On(StageWrite(true)).Done?) ==>
                r.Death? && LeftStopped(old(world), world, x.request)
    {
      if x.abort {
        passes := 0;
        r, t := AbortUpdate(t0, env);
      } else if !x.recoveryMode.Unchosen? {
        r, t, passes := DriveRecovery(t0, x.recoveryMode, taken, directory, env);
      } else {
        r, t, passes := Resume(t0, taken, directory, env);
      }
    }

    /** `--recover`: enters or resumes the recovery and drives it. */
    method DriveRecovery(t0: Transaction, mode: RecoveryMode, taken: Taken, directory: Name, env: Environment)
      returns (r: Result, t: Transaction, passes: nat)
      requires Valid() && bridge.None? && InLoop(t0) && installed == world.image && !recovery && !mode.Unchosen?
      modifies `world, `history, `installed, `recovery
      modifies `recoverySchema, `orphanedWriters, `bridge, `rollbacks, `guardHeld
      ensures Valid() && old(history) <= history && passes <= 4
      ensures t.request == t0.request && (r.Success? ==> Holds(t) && Terminal(t.phase))
      ensures world.data == old(world).data && (r.Success? ==> OutcomeHolds(world, t.request, t.phase))
      ensures Orderly(env) && MayRecover(t0.phase) ==>
                EndsRecovery(world, t, Recovers(old(world), t0, mode, old(world).image), env, r)
    {
      passes := 0;
      r, t := EnterRecovery(t0, env);
      if r.Success? { r, t, passes := RunPhases(t, mode, taken, directory, env); }
    }

    /** The command without a choice: resumes a forward phase, or the last step of a recovery. */
    method Resume(t0: Transaction, taken: Taken, directory: Name, env: Environment)
      returns (r: Result, t: Transaction, passes: nat)
      requires Valid() && InLoop(t0) && installed == world.image && !recovery
      requires Terminal(t0.phase) ==> Idle(world)
      modifies `world, `history, `installed, `recovery
      modifies `recoverySchema, `orphanedWriters, `bridge, `rollbacks, `guardHeld
      ensures Valid() && old(history) <= history && passes <= 8
      ensures t.request == t0.request && (r.Success? ==> Holds(t) && Terminal(t.phase))
      ensures r.Success? && !Terminal(t0.phase) ==> OutcomeHolds(world, t.request, t.phase)
      ensures Orderly(env) && Forward(t0.phase) ==> Commits(world, t, t0.phase, old(world).data.schema, env, r)
      ensures (&& old(bridge).Some? && StopsThenDies(env)
               && env.On(TargetImage(true)).Done? && env.On(StageWrite(true)).Done?) ==>
                r.Death? && LeftStopped(old(world), world, t0.request)
    {
      t, passes := t0, 0;
      if Orderly(env) { OrderlyGoesForward(env); }
      if !Recovering(t0.phase) {
        r := PrepareResume(t0, env);
        if !r.Success? { return; }
      } else if !t0.phase.RecoveryConfig? {
        return Failure, t0, 0;
      }
      r, t, passes := RunPhases(t0, Unchosen, taken, directory, env);
    }

    /** `--abort` without any release input: removes a stage whose update never became durable. */
    method CleanupUnpublishedUpdate(env: Environment) returns (r: Result)
      requires Valid()
      modifies this
      ensures Valid() && old(history) <= history
      ensures world.transactions == old(world).transactions
      ensures world.stage != old(world).stage && old(world).stage.Some? && world.stage.None? ==>
                old(world).stage.value.key.updateId !in world.transactions && Idle(world)
      ensures old(world).data.dirty ==> world == old(world) && history == old(history)
    {
      Launch();
      Reached();
      if world.stage.None? { return Failure; }
      var key := world.stage.value.key;
      if world.stage.value.published || world.image != key.sourceImage || !env.On(OrphanResume).Done? {
        return if env.On(OrphanResume).Died? then Death else Failure;
      }
      var exact := Update(key.updateId, ActiveById(false), env);
      if !exact.Missing? { return if exact.Lost? then Death else Failure; }
      var active := ActiveUpdate(ActiveAny(false), env);
      if !active.Missing? { return if active.Lost? then Death else Failure; }
      r := AbortUnpublishedStart(key, env);
    }

    /** The application writes, which only an installation without an active update lets it do. */
    method Serve(sequence: int) returns (accepted: bool)
      requires Valid()
      modifies `world, `history
      ensures Valid() && old(history) <= history
      ensures accepted ==> Idle(world) && world == old(world).(data := world.data)
      ensures !accepted ==> world == old(world) && history == old(history)
      ensures old(world).data.dirty ==> !accepted
    {
      Reached();
      accepted := world.writer.Running? && world.data.state.changeSequence < sequence
                  && forall id | id in world.transactions :: Terminal(world.transactions[id].phase);
      if accepted { Emit(ApplicationWrote(sequence)); }
    }

    /** Any number of invocations, each with its own request, choices and environment, and of application writes
        between them, keep the history legal. Over a dirty schema none of them ever does anything. */
    method RunInvocations(commands: seq<Command>)
      requires Valid()
      modifies this
      ensures Valid() && old(history) <= history
      ensures old(world).data.dirty ==> world == old(world) && history == old(history)
    {
      for i := 0 to |commands|
        invariant Valid() && old(history) <= history
        invariant old(world).data.dirty ==> world == old(world) && history == old(history)
      {
        match commands[i]
        case Cleanup(env) =>
          var r := CleanupUnpublishedUpdate(env);
        case Write(sequence) =>
          var accepted := Serve(sequence);
        case Update(x, taken, directory, env) =>
          if Askable(x.request) {
            var r, t, passes := ExecuteUpdate(x, taken, directory, env);
          }
      }
    }
  }

  datatype Command =
    | Update(execution: Execution, taken: Taken, directory: Name, env: Environment)
    | Cleanup(env: Environment)
    | Write(sequence: int)
}
