/**
 The fleet-configuration cycle of an adapter: fetch the desired release, publish a matching archive,
 record what was applied and report it. Every durable effect may be the last one the process makes.
 */
module FleetCycle {
  import opened FleetLedger
  import opened FleetPlan
  import opened FleetTrailers
  import opened Options

  datatype Report = Report(generation: Int64, desired: Int64, appliedDigest: string, state: string,
      trailerState: string)
  datatype Publication = Publication(digest: string, tree: Tree, commit: Commit)
  datatype Result = Dead | Refused | Pending | Finished(state: string, ok: bool)

  /** How far a new release got: its failures name the digest and trailer state to report. */
  datatype Installation = Died | NotInstalled(digest: string, trailerState: string) | Installed

  function Release(c: Cycle, d: Desired): Publication
    requires c.archive.Some?
  {
    Publication(d.digest, c.archive.value, d.commit)
  }

  function Generations(reports: seq<Report>): seq<Int64> {
    if reports == [] then []
    else Generations(reports[..|reports| - 1]) + [reports[|reports| - 1].generation]
  }

  /** What a report says of the desired release; only a failure may leave the applied digest open. */
  predicate Tells(r: Report, d: Desired, g: Int64) {
    && r.generation == g && r.desired == d.generation
    && (r.appliedDigest == d.digest || (r.appliedDigest == "" && r.state == "failed"))
  }

  /** What is said of files in this state. */
  function Verdict(trailers: Trailers, unsupported: bool): string {
    if AnyTrouble(trailers) then "drifted" else if unsupported then "unsupported" else "current"
  }

  /** One more report, about `d` and of generation `g`, that says what is returned. */
  predicate Added(before: seq<Report>, after: seq<Report>, d: Desired, g: Int64, result: Result) {
    && |after| == |before| + 1 && after[..|before|] == before
    && Tells(after[|before|], d, g)
    && (result.Finished? ==> result.state == after[|before|].state)
  }

  lemma AddedGeneration(before: seq<Report>, after: seq<Report>, d: Desired, g: Int64, result: Result)
    requires Added(before, after, d, g, result)
    ensures Generations(after) == Generations(before) + [g]
  {
  }

  class FleetAgent {
    const materialize: Materialize
    var applied: Option<ApplyState>
    var steps: nat
    /** Every report sent, every tree that became the live tree, and every release that left nothing to publish. */
    var reports: seq<Report>
    var published: seq<Publication>
    var skipped: seq<Publication>

    ghost function Book(): Ledger reads this {
      Ledger(applied, Generations(reports))
    }

    ghost predicate Matches(p: Publication) reads this {
      materialize(p.tree, p.commit) == Some(p.digest)
    }

    /** What is recorded was verified against its digest, and published unless there was nothing to publish. */
    ghost predicate Valid() reads this {
      && (forall p | p in published + skipped :: Matches(p))
      && (Loaded(applied).digest != "" ==> exists p :: p in published + skipped && p.digest == Loaded(applied).digest)
    }

    constructor (materialize: Materialize)
      ensures Valid() && applied.None? && reports == [] && published == [] && skipped == []
      ensures this.materialize == materialize
    {
      this.materialize := materialize;
      applied, steps, reports, published, skipped := None, 0, [], [], [];
    }

    method Save(state: ApplyState, write: Write) returns (alive: bool, ok: bool)
      modifies `applied, `steps
      ensures alive <==> old(steps) > 0
      ensures steps == if alive then old(steps) - 1 else 0
      ensures ok <==> alive && write.Saved?
      ensures applied == if alive then Written(old(applied), state, write) else old(applied)
    {
      if steps == 0 { return false, false; }
      steps := steps - 1;
      if write.Saved? || write.effect.Replaced? {
        applied := Some(state);
      } else if write.effect.Garbled? {
        applied := None;
      }
      return true, write.Saved?;
    }

    /**
     One report, and the generation it used written back over whatever the file says by now. A process that
     dies in between leaves the file as it was.
     */
    method PutFleetStatus(report: Report, write: Write) returns (alive: bool)
      modifies `applied, `steps, `reports
      ensures reports == if old(steps) > 0 then old(reports) + [report] else old(reports)
      ensures alive <==> old(steps) > 1
      ensures alive ==> applied == Written(old(applied), Loaded(old(applied)).(generation := report.generation), write)
      ensures !alive ==> applied == old(applied)
    {
      if steps == 0 { return false; }
      steps := steps - 1;
      reports := reports + [report];
      var state := Loaded(applied);
      var saved;
      alive, saved := Save(state.(generation := report.generation), write);
    }

    /** The end of every cycle: at most one report, told as returned, and the moves that go with it. */
    ghost predicate Ended(c: Cycle, d: Desired, g: Int64, steps: nat, file: Option<ApplyState>, before: seq<Report>,
        result: Result)
      reads this
    {
      && applied == After(file, First(Finish(c), steps), d.digest, g)
      && (steps == 0 ==> reports == before)
      && (steps > 0 ==> Added(before, reports, d, g, result))
      && (result.Dead? <==> steps <= 1) && (result.Dead? || result.Finished?)
    }

    method Tell(c: Cycle, d: Desired, report: Report) returns (alive: bool)
      requires Tells(report, d, report.generation)
      modifies `applied, `steps, `reports
      ensures alive <==> old(steps) > 1
      ensures applied == After(old(applied), First(Finish(c), old(steps)), d.digest, report.generation)
      ensures reports == if old(steps) > 0 then old(reports) + [report] else old(reports)
    {
      ghost var g, first := report.generation, First(Finish(c), steps);
      AfterOne(applied, Send, d.digest, g);
      AfterAppend(applied, [Send], [Confirm(c.statusWrite)], d.digest, g);
      AfterOne(applied, Confirm(c.statusWrite), d.digest, g);
      assert steps == 0 ==> first == [];
      assert steps == 1 ==> first == [Send];
      assert steps > 1 ==> first == [Send] + [Confirm(c.statusWrite)];
      alive := PutFleetStatus(report, c.statusWrite);
    }

    /** A failure is reported and returned. */
    method Fail(c: Cycle, d: Desired, g: Int64, appliedDigest: string, trailerState: string) returns (result: Result)
      requires appliedDigest == "" || appliedDigest == d.digest
      modifies `applied, `steps, `reports
      ensures Ended(c, d, g, old(steps), old(applied), old(reports), result)
      ensures result.Finished? ==> result == Finished("failed", false)
      ensures old(steps) > 0 ==> reports[|reports| - 1].state == "failed"
    {
      var report := Report(g, d.generation, appliedDigest, "failed", trailerState);
      var alive := Tell(c, d, report);
      return if alive then Finished("failed", false) else Dead;
    }

    /** The state is folded from the trailers and reported. */
    method Conclude(c: Cycle, d: Desired, g: Int64, trailers: Trailers) returns (result: Result)
      modifies `applied, `steps, `reports
      ensures Ended(c, d, g, old(steps), old(applied), old(reports), result)
      ensures result.Finished? && result.state == "current" ==> !AnyTrouble(trailers)
      ensures old(steps) > 0 ==> reports[|reports| - 1].state == Verdict(trailers, c.unsupported)
    {
      var state := ReconcileState(trailers);
      var trailerState := TrailerState(trailers);
      if state == "current" && c.unsupported { state := "unsupported"; }
      var report := Report(g, d.generation, d.digest, state, trailerState);
      var alive := Tell(c, d, report);
      return if alive then Finished(state, c.delivered) else Dead;
    }

    /** The tree becomes live before its digest is recorded, and the record forgets the generation. */
    method PublishTree(c: Cycle, p: Publication) returns (alive: bool, ok: bool)
      modifies `applied, `steps, `published
      ensures published == if c.swapped && old(steps) > 0 then old(published) + [p] else old(published)
      ensures c.swapped && old(steps) > 1 ==> applied == Written(old(applied), ApplyState(p.digest, 0), c.publishWrite)
      ensures !(c.swapped && old(steps) > 1) ==> applied == old(applied)
      ensures alive <==> old(steps) > (if c.swapped then 1 else 0)
      ensures ok <==> alive && c.swapped && c.publishWrite.Saved?
      ensures alive ==> steps == old(steps) - if c.swapped then 2 else 0
    {
      if steps == 0 { return false, false; }
      if !c.swapped { return true, false; }
      steps := steps - 1;
      published := published + [p];
      alive, ok := Save(ApplyState(p.digest, 0), c.publishWrite);
    }

    /** The release is the newest tree published, or the newest with nothing to publish, or was not reached. */
    ghost predicate Logged(c: Cycle, d: Desired, steps: nat, publishedBefore: seq<Publication>,
        skippedBefore: seq<Publication>)
      reads this
    {
      var verified := Verified(materialize, c, d);
      && published == publishedBefore + (if verified && Publishing(c) && steps > 0 then [Release(c, d)] else [])
      && skipped == skippedBefore + (if verified && c.prepared.NoFiles? then [Release(c, d)] else [])
    }

    /**
     The desired digest is on file only if it was before, or if this cycle verified the archive against it
     and then published the tree, or found that there was nothing to publish.
     */
    ghost predicate Recorded(c: Cycle, d: Desired, steps: nat, file: Option<ApplyState>) reads this {
      && Loaded(applied).digest in {Loaded(file).digest, d.digest, ""}
      && (Loaded(applied).digest == d.digest && Loaded(file).digest != d.digest ==>
            Verified(materialize, c, d) && ((Publishing(c) && steps > 1) || c.prepared.NoFiles?))
    }

    lemma LoggedIsValid(c: Cycle, d: Desired, steps: nat, file: Option<ApplyState>,
        publishedBefore: seq<Publication>, skippedBefore: seq<Publication>)
      requires Logged(c, d, steps, publishedBefore, skippedBefore) && Recorded(c, d, steps, file) && d.digest != ""
      requires forall p | p in publishedBefore + skippedBefore :: Matches(p)
      requires Loaded(file).digest != "" ==>
                exists p :: p in publishedBefore + skippedBefore && p.digest == Loaded(file).digest
      ensures Valid()
    {
      if Verified(materialize, c, d) {
        var release := Release(c, d);
        assert Matches(release);
        assert forall p | p in published + skipped :: p in publishedBefore + skippedBefore || p == release;
        assert (Publishing(c) && steps > 0) || c.prepared.NoFiles? ==> release in published + skipped;
      }
    }

    /** A verified release is published unless every file of it is held back. */
    method ReconcileFleet(c: Cycle, d: Desired, ghost g: Int64) returns (alive: bool, ok: bool)
      requires Verified(materialize, c, d)
      modifies `applied, `steps, `published, `skipped
      ensures applied == After(old(applied), First(Publish(c), old(steps)), d.digest, g)
      ensures Logged(c, d, old(steps), old(published), old(skipped))
      ensures alive ==> old(steps) >= |Publish(c)| && steps == old(steps) - |Publish(c)|
      ensures !alive ==> old(steps) <= |Publish(c)|
      ensures ok <==> alive && Settles(c)
    {
      ghost var record := Record(c.publishWrite);
      AfterOne(applied, Swap, d.digest, g);
      AfterAppend(applied, [Swap], [record], d.digest, g);
      AfterOne(applied, record, d.digest, g);
      assert Publishing(c) && steps == 1 ==> First(Publish(c), steps) == [Swap];
      assert Publishing(c) && steps > 1 ==> First(Publish(c), steps) == [Swap] + [record];
      if c.prepared.PrepareFailed? { return true, false; }
      var release := Release(c, d);
      if c.prepared.NoFiles? {
        skipped := skipped + [release];
        return true, true;
      }
      alive, ok := PublishTree(c, release);
    }

    /** From the archive to the recorded digest. */
    method Install(c: Cycle, d: Desired, g: Int64) returns (r: Installation)
      modifies `applied, `steps, `published, `skipped
      ensures Logged(c, d, old(steps), old(published), old(skipped))
      ensures var moves := Installing(materialize, c, d);
              && applied == After(old(applied), First(moves, old(steps)), d.digest, g)
              && (r.Died? ==> old(steps) <= |moves|)
              && (!r.Died? ==> old(steps) >= |moves| && steps == old(steps) - |moves|)
      ensures r.Installed? <==> !r.Died? && Verified(materialize, c, d) && Settles(c) && c.stateWrite.Saved?
      ensures r.Installed? ==> applied == Some(ApplyState(d.digest, g))
      ensures r.NotInstalled? ==> r.digest == "" || r.digest == d.digest
    {
      if c.archive.None? { return NotInstalled("", ""); }
      var digest := materialize(c.archive.value, d.commit);
      if digest != Some(d.digest) { return NotInstalled("", ""); }
      var trailerState := TrailerState(TrailersOf(c.prepared));
      ghost var file, before, note := applied, steps, Note(c.stateWrite);
      var alive, ok := ReconcileFleet(c, d, g);
      PublishComesFirst(materialize, c, d, before);
      if !alive { return Died; }
      if !ok { return NotInstalled("", trailerState); }
      AfterAppend(file, Publish(c), [note], d.digest, g);
      AfterOne(applied, note, d.digest, g);
      alive, ok := Save(ApplyState(d.digest, g), c.stateWrite);
      if !alive { return Died; }
      if !ok { return NotInstalled(d.digest, trailerState); }
      return Installed;
    }

    /** The whole cycle, by its moves: what is on file, and at most one report, told as returned. */
    ghost predicate Cycled(c: Cycle, d: Desired, g: Int64, moves: seq<Move>, file: Option<ApplyState>,
        before: seq<Report>, result: Result)
      reads this
    {
      && applied == After(file, moves, d.digest, g)
      && (Send !in moves ==> reports == before)
      && (Send in moves ==> Added(before, reports, d, g, result))
      && (result.Finished? ==> Send in moves)
    }

    /** Joining the front moves of a release that lived through them with the end of the cycle. */
    lemma EndedIsCycled(c: Cycle, d: Desired, g: Int64, install: seq<Move>, steps: nat, file: Option<ApplyState>,
        middle: Option<ApplyState>, before: seq<Report>, result: Result)
      requires steps >= |install| && Send !in install && middle == After(file, install, d.digest, g)
      requires Ended(c, d, g, steps - |install|, middle, before, result)
      ensures Cycled(c, d, g, First(install + Finish(c), steps), file, before, result)
    {
      var rest := First(Finish(c), steps - |install|);
      AfterAppend(file, install, rest, d.digest, g);
      assert First(install + Finish(c), steps) == install + rest;
      if steps > |install| { assert rest[0] == Send; }
    }

    /** A release that is not on file yet. */
    method ApplyRelease(c: Cycle, d: Desired, g: Int64) returns (result: Result)
      modifies this
      ensures Logged(c, d, old(steps), old(published), old(skipped))
      ensures var moves := First(Installing(materialize, c, d) + Finish(c), old(steps));
              Cycled(c, d, g, moves, old(applied), old(reports), result)
      ensures result.Finished? && result.state == "current" ==> Untroubled(c, true)
      ensures Verified(materialize, c, d) && c.prepared.NoFiles? && reports != old(reports) ==>
                reports[|reports| - 1].state == if c.stateWrite.Saved? && c.live.Some? then "drifted" else "failed"
    {
      ghost var install, before := Installing(materialize, c, d), steps;
      InstallingIsSilent(materialize, c, d);
      var installed := Install(c, d, g);
      if installed.Died? {
        DiedIsCycled(c, d, g, install, before, old(applied));
        return Dead;
      }
      ghost var middle := applied;
      result := ReportInstallation(c, d, g, installed);
      EndedIsCycled(c, d, g, install, before, old(applied), middle, old(reports), result);
    }

    lemma DiedIsCycled(c: Cycle, d: Desired, g: Int64, install: seq<Move>, steps: nat, file: Option<ApplyState>)
      requires steps <= |install| && Send !in install && applied == After(file, First(install, steps), d.digest, g)
      ensures Cycled(c, d, g, First(install + Finish(c), steps), file, reports, Dead)
    {
      assert First(install + Finish(c), steps) == First(install, steps);
    }

    /** What is reported of a release, by how far it got. */
    method ReportInstallation(c: Cycle, d: Desired, g: Int64, installed: Installation) returns (result: Result)
      requires !installed.Died? && (installed.Installed? ==> !c.prepared.PrepareFailed?)
      requires installed.NotInstalled? ==> installed.digest == "" || installed.digest == d.digest
      modifies `applied, `steps, `reports
      ensures Ended(c, d, g, old(steps), old(applied), old(reports), result)
      ensures result.Finished? && result.state == "current" ==> Untroubled(c, true)
      ensures c.prepared.NoFiles? && old(steps) > 0 ==>
                reports[|reports| - 1].state == if installed.Installed? && c.live.Some? then "drifted" else "failed"
    {
      if installed.NotInstalled? {
        result := Fail(c, d, g, installed.digest, installed.trailerState);
      } else if c.live.None? {
        var trailerState := TrailerState(TrailersOf(c.prepared));
        result := Fail(c, d, g, d.digest, trailerState);
      } else {
        result := Summarize(c, d, g);
      }
    }

    /** The trailers of the release and of the live files, folded and reported. */
    method Summarize(c: Cycle, d: Desired, g: Int64) returns (result: Result)
      requires !c.prepared.PrepareFailed? && c.live.Some?
      modifies `applied, `steps, `reports
      ensures Ended(c, d, g, old(steps), old(applied), old(reports), result)
      ensures result.Finished? && result.state == "current" ==> Untroubled(c, true)
      ensures c.prepared.NoFiles? && old(steps) > 0 ==> reports[|reports| - 1].state == "drifted"
    {
      var parts := [TrailersOf(c.prepared), c.live.value];
      var trailers := MergeTrailerResults(parts);
      MergeKeepsTrouble(trailers, parts);
      assert parts[0] == TrailersOf(c.prepared) && parts[1] == c.live.value;
      if c.prepared.NoFiles? { CollidingIsTrouble(c.prepared.collisions); }
      result := Conclude(c, d, g, trailers);
    }

    static lemma CollidingIsTrouble(t: Colliding)
      ensures AnyTrouble(t)
    {
      var path :| path in t;
    }

    /** No file of the release and no live file collides or drifts. */
    static ghost predicate Untroubled(c: Cycle, installed: bool) {
      && (installed ==> !c.prepared.PrepareFailed? && !AnyTrouble(TrailersOf(c.prepared)))
      && c.live.Some? && !AnyTrouble(c.live.value)
    }

    /** The release on file already: the live files are written again from the managed tree. */
    method Reproject(c: Cycle, d: Desired, g: Int64) returns (result: Result)
      modifies `applied, `steps, `reports
      ensures Cycled(c, d, g, First([] + Finish(c), old(steps)), old(applied), old(reports), result)
      ensures Loaded(applied).digest in {Loaded(old(applied)).digest, ""}
      ensures result.Finished? && result.state == "current" ==> Untroubled(c, false)
      ensures reports != old(reports) ==>
                reports[|reports| - 1].state == if c.live.None? then "failed" else Verdict(c.live.value, c.unsupported)
    {
      if c.live.None? {
        result := Fail(c, d, g, d.digest, "missing");
      } else {
        result := Conclude(c, d, g, c.live.value);
      }
      assert [] + Finish(c) == Finish(c);
      DigestAfter(old(applied), First(Finish(c), old(steps)), d.digest, g);
      EndedIsCycled(c, d, g, [], old(steps), old(applied), old(applied), old(reports), result);
    }

    /** A digest newly on file belongs to a verified release that was published, or had nothing to publish. */
    lemma MovesRecord(c: Cycle, d: Desired, g: Int64, file: Option<ApplyState>)
      requires d.digest != ""
      requires applied == After(file, First(Installing(materialize, c, d) + Finish(c), c.steps), d.digest, g)
      ensures Recorded(c, d, c.steps, file)
    {
      var all := Installing(materialize, c, d) + Finish(c);
      var moves := First(all, c.steps);
      DigestAfter(file, moves, d.digest, g);
      if m :| m in moves && (m.Record? || m.Note?) {
        var i :| 0 <= i < |moves| && moves[i] == m;
        assert all[i] == m && i < c.steps;
      }
    }

    /**
     One cycle makes exactly the moves its fields and the digest on file call for. It keeps the book
     accordingly, tells what it returns, and never says "current" of troubled files. A release recorded
     without being published is reported as drifted or failed.
     */
    method ReconcileFleetOnce(c: Cycle) returns (result: Result)
      requires Valid()
      modifies this
      ensures Valid()
      ensures Wanted(c) ==>
                var d, file := c.desired.value, Loaded(old(applied));
                var g, moves := NextGeneration(file.generation), Moves(materialize, c, file.digest);
                && Cycled(c, d, g, moves, old(applied), old(reports), result)
                && Recorded(c, d, c.steps, old(applied))
                && (if file.digest == d.digest then published == old(published) && skipped == old(skipped)
                    else Logged(c, d, c.steps, old(published), old(skipped)))
      ensures !Wanted(c) ==> unchanged(`applied, `reports, `published, `skipped) && !result.Finished?
      ensures result.Finished? && result.state == "current" ==>
                Wanted(c) && Untroubled(c, Loaded(old(applied)).digest != c.desired.value.digest)
      ensures Wanted(c) && Loaded(old(applied)).digest == c.desired.value.digest && reports != old(reports) ==>
                reports[|reports| - 1].state == if c.live.None? then "failed" else Verdict(c.live.value, c.unsupported)
      ensures Wanted(c) && |skipped| > |old(skipped)| && reports != old(reports) ==>
                reports[|reports| - 1].state == if c.stateWrite.Saved? && c.live.Some? then "drifted" else "failed"
    {
      if c.desired.None? { return Refused; }
      var d := c.desired.value;
      if d.digest == "" || d.generation < 1 { return Pending; }
      steps := c.steps;
      var state := Loaded(applied);
      var g := NextGeneration(state.generation);
      if state.digest == d.digest {
        result := Reproject(c, d, g);
      } else {
        result := ApplyRelease(c, d, g);
        MovesRecord(c, d, g, old(applied));
        LoggedIsValid(c, d, c.steps, old(applied), old(published), old(skipped));
      }
    }

    /** The book of the object is the book of its moves. */
    method KeepBook(c: Cycle) returns (result: Result)
      requires Valid()
      modifies this
      ensures Valid() && Book() == Next(materialize, old(Book()), c)
      ensures old(reports) <= reports
      ensures c.archive.None? ==> published == old(published)
    {
      result := ReconcileFleetOnce(c);
      if Wanted(c) && reports != old(reports) {
        ghost var g := NextGeneration(Loaded(old(applied)).generation);
        AddedGeneration(old(reports), reports, c.desired.value, g, result);
      }
    }

    /**
     Any number of cycles. The book is that of the run, so the report generations strictly rise, and would
     go on rising from every point, exactly when no cycle spoils them.
     */
    method RunCycles(cycles: seq<Cycle>)
      requires Valid()
      modifies this
      ensures Valid() && old(reports) <= reports
      ensures Book() == Run(materialize, old(Book()), cycles)
      ensures old(Rises(Book()) && Positive(Book()) && Increasing(Book().sent)) ==>
                && (AlwaysRises(materialize, old(Book()), cycles) <==> NeverSpoiled(materialize, old(Book()), cycles))
                && (NeverSpoiled(materialize, old(Book()), cycles) ==> Increasing(Generations(reports)))
    {
      for k := 0 to |cycles|
        invariant Valid() && old(reports) <= reports
        invariant Book() == Run(materialize, old(Book()), cycles[..k])
      {
        var result := KeepBook(cycles[k]);
        RunStep(materialize, old(Book()), cycles, k);
      }
      assert cycles[..|cycles|] == cycles;
      if old(Rises(Book()) && Positive(Book()) && Increasing(Book().sent)) {
        RisesIffNeverSpoiled(materialize, old(Book()), cycles);
      }
    }
  }

  /** What the projection reports of live files that are as they should be. */
  const IN_ORDER := map["AGENTS.md" := Trailer("present", false, false)]

  /** A cycle that wants `digest` and in which nothing fails before the process dies at `steps`. */
  function Smooth(digest: string, tree: Option<Tree>, prepared: Prepared, steps: nat): Cycle {
    Cycle(Some(Desired(digest, 1, "c")), tree, prepared, true, Saved, Saved, Saved, Some(IN_ORDER), false, true, steps)
  }

  /** Where two moves lead. */
  lemma AfterTwo(file: Option<ApplyState>, a: Move, b: Move, digest: string, g: Int64)
    ensures After(file, [a, b], digest, g) == Moved(Moved(file, a, digest, g), b, digest, g)
  {
    assert [a] + [b] == [a, b];
    AfterAppend(file, [a], [b], digest, g);
    AfterOne(file, a, digest, g);
    AfterOne(Moved(file, a, digest, g), b, digest, g);
  }

  /**
   Successful writes alone do not keep the generations rising: a process that dies between publishing a
   release and noting its generation makes the next report use generation one again.
   */
  method ForgetGeneration(materialize: Materialize) returns (agent: FleetAgent)
    requires materialize(0, "c") == Some("b")
    ensures Generations(agent.reports) == [1, 1]
  {
    agent := new FleetAgent(materialize);
    TwoMoves(agent, Smooth("a", None, Files(map[]), 5), Send, Confirm(Saved));
    TwoMoves(agent, Smooth("b", Some(0), Files(map[]), 2), Swap, Record(Saved));
    TwoMoves(agent, Smooth("b", Some(0), Files(map[]), 5), Send, Confirm(Saved));
  }

  /** A cycle cut off after its report. */
  method OnlySend(agent: FleetAgent, c: Cycle)
    requires agent.Valid() && Wanted(c) && Moves(agent.materialize, c, Loaded(agent.applied).digest) == [Send]
    modifies agent
    ensures agent.Valid() && agent.applied == old(agent.applied)
    ensures Generations(agent.reports) == Generations(old(agent.reports))
            + [NextGeneration(Loaded(old(agent.applied)).generation)]
    ensures c.archive.None? ==> agent.published == old(agent.published)
  {
    AfterOne(agent.applied, Send, c.desired.value.digest, NextGeneration(Loaded(agent.applied).generation));
    var r := agent.KeepBook(c);
  }

  /** A cycle of two moves. */
  method TwoMoves(agent: FleetAgent, c: Cycle, a: Move, b: Move)
    requires agent.Valid() && Wanted(c) && Moves(agent.materialize, c, Loaded(agent.applied).digest) == [a, b]
    modifies agent
    ensures agent.Valid()
    ensures var d, g := c.desired.value.digest, NextGeneration(Loaded(old(agent.applied)).generation);
            var sent := if a == Send || b == Send then [g] else [];
            && agent.applied == Moved(Moved(old(agent.applied), a, d, g), b, d, g)
            && Generations(agent.reports) == Generations(old(agent.reports)) + sent
    ensures c.archive.None? ==> agent.published == old(agent.published)
  {
    ghost var d, g := c.desired.value.digest, NextGeneration(Loaded(agent.applied).generation);
    AfterTwo(agent.applied, a, b, d, g);
    var r := agent.KeepBook(c);
  }

  /** So does a process that dies between its report and the write that would keep its generation. */
  method RepeatGeneration(materialize: Materialize) returns (agent: FleetAgent)
    ensures Generations(agent.reports) == [1, 1] && agent.published == []
  {
    agent := new FleetAgent(materialize);
    OnlySend(agent, Smooth("a", None, Files(map[]), 1));
    TwoMoves(agent, Smooth("a", None, Files(map[]), 5), Send, Confirm(Saved));
  }

  /** An undisturbed cycle that installs a new release leaves its digest and generation on file. */
  lemma SmoothInstalls(materialize: Materialize, c: Cycle, file: Option<ApplyState>, g: Int64)
    requires Wanted(c) && c.steps >= 5 && Verified(materialize, c, c.desired.value) && Settles(c)
    requires c.stateWrite.Saved? && c.statusWrite.Saved? && Loaded(file).digest != c.desired.value.digest
    ensures var moves := Moves(materialize, c, Loaded(file).digest);
            var digest := c.desired.value.digest;
            Send in moves && After(file, moves, digest, g) == Some(ApplyState(digest, g))
  {
    var d := c.desired.value.digest;
    var install, moves := Installing(materialize, c, c.desired.value), Moves(materialize, c, Loaded(file).digest);
    assert moves == install + [Send, Confirm(Saved)] && moves[|install|] == Send;
    AfterAppend(file, install, [Send, Confirm(Saved)], d, g);
    AfterAppend(file, Publish(c), [Note(Saved)], d, g);
    AfterOne(After(file, Publish(c), d, g), Note(Saved), d, g);
    AfterTwo(After(file, install, d, g), Send, Confirm(Saved), d, g);
  }

  /**
   A release of which every file collides with what an earlier one published is recorded without being
   published. The cycle that records it says so; the next one calls it current.
   */
  method RecordWithoutPublishing(materialize: Materialize, collisions: Colliding) returns (agent: FleetAgent)
    requires materialize(0, "c") == Some("a") && materialize(1, "c") == Some("b")
    ensures |agent.reports| == 3 && agent.published == [Publication("a", 0, "c")]
    ensures agent.reports[1].appliedDigest == "b" && agent.reports[1].state == "drifted"
    ensures agent.reports[2].appliedDigest == "b" && agent.reports[2].state == "current"
  {
    agent := new FleetAgent(materialize);
    Deliver(agent, Smooth("a", Some(0), Files(map[]), 5));
    Deliver(agent, Smooth("b", Some(1), NoFiles(collisions), 5));
    Repeat(agent, Smooth("b", Some(1), NoFiles(collisions), 5));
  }

  /** A cycle for the release on file that lives to send its report. */
  method Repeat(agent: FleetAgent, c: Cycle)
    requires agent.Valid() && Wanted(c) && c.steps > 0 && c.live.Some?
    requires Loaded(agent.applied).digest == c.desired.value.digest
    modifies agent
    ensures agent.published == old(agent.published)
    ensures |agent.reports| == |old(agent.reports)| + 1 && old(agent.reports) <= agent.reports
    ensures var r := agent.reports[|old(agent.reports)|];
            && r.state == Verdict(c.live.value, c.unsupported)
            && (r.state != "failed" ==> r.appliedDigest == c.desired.value.digest)
  {
    assert Moves(agent.materialize, c, c.desired.value.digest)[0] == Send;
    var r := agent.ReconcileFleetOnce(c);
  }

  /** An undisturbed cycle for a release that is not on file yet. */
  method Deliver(agent: FleetAgent, c: Cycle)
    requires agent.Valid() && Wanted(c) && c.steps >= 5 && Verified(agent.materialize, c, c.desired.value) && Settles(c)
    requires c.stateWrite.Saved? && c.statusWrite.Saved? && Loaded(agent.applied).digest != c.desired.value.digest
    requires c.live.Some?
    modifies agent
    ensures agent.Valid() && Loaded(agent.applied).digest == c.desired.value.digest
    ensures agent.published == old(agent.published) + if c.prepared.Files? then [Release(c, c.desired.value)] else []
    ensures |agent.reports| == |old(agent.reports)| + 1 && old(agent.reports) <= agent.reports
    ensures c.prepared.NoFiles? ==>
              var r := agent.reports[|old(agent.reports)|];
              r.state == "drifted" && r.appliedDigest == c.desired.value.digest
  {
    SmoothInstalls(agent.materialize, c, agent.applied, NextGeneration(Loaded(agent.applied).generation));
    var r := agent.ReconcileFleetOnce(c);
  }
}
