/**
 What one fleet cycle meets and the durable moves that follow from it, and when the generations of the
 reports rise over any number of cycles.
 */
module FleetPlan {
  import opened FleetLedger
  import opened FleetTrailers
  import opened Options

  type Tree = int
  type Commit = string
  type Materialize = (Tree, Commit) -> Option<string>

  /** A release leaves no file to publish only if it has files and every one of them collides. */
  type Colliding = t: Trailers | |t| > 0 && forall path | path in t :: t[path].collision
    witness map["AGENTS.md" := Trailer("collision", false, true)]

  datatype Prepared = PrepareFailed | NoFiles(collisions: Colliding) | Files(trailers: Trailers)
  datatype Desired = Desired(digest: string, generation: Int64, commit: Commit)

  function TrailersOf(p: Prepared): Trailers {
    match p
    case PrepareFailed => map[]
    case NoFiles(collisions) => collisions
    case Files(trailers) => trailers
  }

  /** Everything one cycle meets. The process dies before its durable effect number `steps`. */
  datatype Cycle = Cycle(
    desired: Option<Desired>, archive: Option<Tree>, prepared: Prepared, swapped: bool,
    publishWrite: Write, stateWrite: Write, statusWrite: Write,
    live: Option<Trailers>, unsupported: bool, delivered: bool, steps: nat)

  predicate Wanted(c: Cycle) {
    c.desired.Some? && c.desired.value.digest != "" && c.desired.value.generation >= 1
  }

  /** The archive came and materialises to the digest that was asked for. */
  predicate Verified(materialize: Materialize, c: Cycle, d: Desired) {
    c.archive.Some? && materialize(c.archive.value, d.commit) == Some(d.digest)
  }

  predicate Publishing(c: Cycle) {
    c.prepared.Files? && c.swapped
  }

  /** The durable moves of installing a verified release. */
  function Publish(c: Cycle): seq<Move> {
    if Publishing(c) then [Swap, Record(c.publishWrite)] else []
  }

  /** The release is settled: published and recorded, or with nothing to publish. */
  predicate Settles(c: Cycle) {
    c.prepared.NoFiles? || (Publishing(c) && c.publishWrite.Saved?)
  }

  function Installing(materialize: Materialize, c: Cycle, d: Desired): seq<Move> {
    if !Verified(materialize, c, d) then []
    else Publish(c) + if Settles(c) then [Note(c.stateWrite)] else []
  }

  function Finish(c: Cycle): seq<Move> {
    [Send, Confirm(c.statusWrite)]
  }

  function First(moves: seq<Move>, steps: nat): (front: seq<Move>)
    ensures front <= moves
  {
    if steps < |moves| then moves[..steps] else moves
  }

  /** The moves a cycle makes, by the fields of the cycle and the digest on file. */
  function Moves(materialize: Materialize, c: Cycle, digest: string): seq<Move> {
    if !Wanted(c) then []
    else
      var d := c.desired.value;
      First((if digest == d.digest then [] else Installing(materialize, c, d)) + Finish(c), c.steps)
  }

  function Next(materialize: Materialize, l: Ledger, c: Cycle): Ledger {
    if !Wanted(c) then l else Turned(l, Moves(materialize, c, Loaded(l.file).digest), c.desired.value.digest)
  }

  function Run(materialize: Materialize, l: Ledger, cycles: seq<Cycle>): Ledger {
    if cycles == [] then l
    else Next(materialize, Run(materialize, l, cycles[..|cycles| - 1]), cycles[|cycles| - 1])
  }

  /** The next report falls back after this cycle; a condition on the cycle and what is on file before it. */
  ghost predicate Spoils(materialize: Materialize, l: Ledger, c: Cycle) {
    Lags(l, Moves(materialize, c, Loaded(l.file).digest))
  }

  ghost predicate Positive(l: Ledger) {
    forall s | s in l.sent :: s >= 1
  }

  /** One cycle keeps the reports rising exactly when it does not spoil them. */
  lemma CycleRises(materialize: Materialize, l: Ledger, c: Cycle)
    requires Rises(l) && Positive(l)
    ensures Rises(Next(materialize, l, c)) <==> !Spoils(materialize, l, c)
    ensures Positive(Next(materialize, l, c))
    ensures Increasing(l.sent) ==> Increasing(Next(materialize, l, c).sent)
  {
    var moves := Moves(materialize, c, Loaded(l.file).digest);
    if Wanted(c) {
      RisesIffNoLag(l, moves, c.desired.value.digest);
    } else {
      assert !LastWord([], Stamps, Wipes) && !LastWord([], Wipes, Stamps);
    }
  }

  ghost predicate RisesAt(materialize: Materialize, l: Ledger, cycles: seq<Cycle>, k: nat)
    requires k <= |cycles|
  {
    Rises(Run(materialize, l, cycles[..k]))
  }

  ghost predicate SpoiledAt(materialize: Materialize, l: Ledger, cycles: seq<Cycle>, k: nat)
    requires k < |cycles|
  {
    Spoils(materialize, Run(materialize, l, cycles[..k]), cycles[k])
  }

  /** At every point of the run the next report would outrank all reports before it. */
  ghost predicate AlwaysRises(materialize: Materialize, l: Ledger, cycles: seq<Cycle>) {
    forall k: nat | k <= |cycles| :: RisesAt(materialize, l, cycles, k)
  }

  ghost predicate NeverSpoiled(materialize: Materialize, l: Ledger, cycles: seq<Cycle>) {
    forall k: nat | k < |cycles| :: !SpoiledAt(materialize, l, cycles, k)
  }

  lemma RunStep(materialize: Materialize, l: Ledger, cycles: seq<Cycle>, k: nat)
    requires k < |cycles|
    ensures Run(materialize, l, cycles[..k + 1]) == Next(materialize, Run(materialize, l, cycles[..k]), cycles[k])
  {
    assert cycles[..k + 1][..k] == cycles[..k];
  }

  /** Up to the first cycle that spoils it, a run rises. */
  lemma {:induction false} RisesUpTo(materialize: Materialize, l: Ledger, cycles: seq<Cycle>, k: nat)
    requires Rises(l) && Positive(l) && Increasing(l.sent) && k <= |cycles|
    requires forall j: nat | j < k :: !SpoiledAt(materialize, l, cycles, j)
    ensures Rises(Run(materialize, l, cycles[..k])) && Positive(Run(materialize, l, cycles[..k]))
    ensures Increasing(Run(materialize, l, cycles[..k]).sent)
  {
    if k > 0 {
      RisesUpTo(materialize, l, cycles, k - 1);
      RunStep(materialize, l, cycles, k - 1);
      assert !SpoiledAt(materialize, l, cycles, k - 1);
      CycleRises(materialize, Run(materialize, l, cycles[..k - 1]), cycles[k - 1]);
    }
  }

  /**
   Over any number of cycles the report generations strictly rise, and would go on rising from every
   point, if and only if no cycle spoils them.
   */
  lemma RisesIffNeverSpoiled(materialize: Materialize, l: Ledger, cycles: seq<Cycle>)
    requires Rises(l) && Positive(l) && Increasing(l.sent)
    ensures AlwaysRises(materialize, l, cycles) <==> NeverSpoiled(materialize, l, cycles)
    ensures AlwaysRises(materialize, l, cycles) ==> Increasing(Run(materialize, l, cycles).sent)
  {
    assert cycles[..|cycles|] == cycles;
    if NeverSpoiled(materialize, l, cycles) {
      forall k: nat | k <= |cycles| ensures RisesAt(materialize, l, cycles, k) {
        RisesUpTo(materialize, l, cycles, k);
      }
      RisesUpTo(materialize, l, cycles, |cycles|);
    }
    if AlwaysRises(materialize, l, cycles) {
      forall k: nat | k < |cycles| ensures !SpoiledAt(materialize, l, cycles, k) {
        assert RisesAt(materialize, l, cycles, k) && RisesAt(materialize, l, cycles, k + 1);
        PositiveRun(materialize, l, cycles, k);
        RunStep(materialize, l, cycles, k);
        CycleRises(materialize, Run(materialize, l, cycles[..k]), cycles[k]);
      }
    }
  }

  lemma {:induction false} PositiveRun(materialize: Materialize, l: Ledger, cycles: seq<Cycle>, k: nat)
    requires Positive(l) && k <= |cycles|
    ensures Positive(Run(materialize, l, cycles[..k]))
  {
    if k > 0 {
      PositiveRun(materialize, l, cycles, k - 1);
      RunStep(materialize, l, cycles, k - 1);
    }
  }

  lemma LastWordOf2(moves: seq<Move>, a: Move, b: Move, p: Move -> bool, q: Move -> bool)
    ensures LastWord(moves + [a, b], p, q) <==> p(b) || (!q(b) && (p(a) || (!q(a) && LastWord(moves, p, q))))
  {
    LastWordStep(moves, a, p, q);
    LastWordStep(moves + [a], b, p, q);
    assert moves + [a, b] == moves + [a] + [b];
  }

  lemma PublishComesFirst(materialize: Materialize, c: Cycle, d: Desired, steps: nat)
    requires Verified(materialize, c, d)
    ensures steps <= |Publish(c)| ==> First(Installing(materialize, c, d), steps) == First(Publish(c), steps)
    ensures Settles(c) && steps > |Publish(c)| ==>
              First(Installing(materialize, c, d), steps) == Publish(c) + [Note(c.stateWrite)]
    ensures !Settles(c) ==> Installing(materialize, c, d) == Publish(c)
  {
  }

  lemma InstallingIsSilent(materialize: Materialize, c: Cycle, d: Desired)
    ensures Send !in Installing(materialize, c, d)
  {
  }

  /** Only the note at its end can stamp the file while a release is installed, and a wiped file shows in the last
      two moves. */
  lemma InstallDecides(materialize: Materialize, c: Cycle, d: Desired, moves: seq<Move>)
    requires moves <= Installing(materialize, c, d)
    ensures Send !in moves
    ensures Stamped(moves) <==> moves != [] && Stamps(moves[|moves| - 1])
    ensures Wiped(moves) <==>
            && moves != []
            && (Wipes(moves[|moves| - 1])
                || (|moves| > 1 && Wipes(moves[|moves| - 2]) && !Stamps(moves[|moves| - 1])))
  {
    if |moves| == 1 {
      Decides1(moves[0], Stamps, Wipes);
      Decides1(moves[0], Wipes, Stamps);
    } else if |moves| == 2 {
      Decides2(moves[0], moves[1], Stamps, Wipes);
      Decides2(moves[0], moves[1], Wipes, Stamps);
      assert moves == [moves[0], moves[1]];
    } else if |moves| == 3 {
      Decides3(moves[0], moves[1], moves[2], Stamps, Wipes);
      Decides3(moves[0], moves[1], moves[2], Wipes, Stamps);
      assert moves == [moves[0], moves[1], moves[2]];
    }
  }

  lemma Decides1(a: Move, p: Move -> bool, q: Move -> bool)
    ensures LastWord([a], p, q) <==> p(a)
  {
    assert [] + [a] == [a];
    LastWordStep([], a, p, q);
  }

  lemma Decides2(a: Move, b: Move, p: Move -> bool, q: Move -> bool)
    ensures LastWord([a, b], p, q) <==> p(b) || (!q(b) && p(a))
  {
    Decides1(a, p, q);
    LastWordStep([a], b, p, q);
    assert [a] + [b] == [a, b];
  }

  lemma Decides3(a: Move, b: Move, c: Move, p: Move -> bool, q: Move -> bool)
    ensures LastWord([a, b, c], p, q) <==> p(c) || (!q(c) && (p(b) || (!q(b) && p(a))))
  {
    Decides2(a, b, p, q);
    LastWordStep([a, b], c, p, q);
    assert [a, b] + [c] == [a, b, c];
  }

  /**
   The same condition by the fields of the cycle, while generations last. With `n` moves before the report: a
   cycle that sends its report spoils the next one unless the status write lands, or the release was noted
   and the status write leaves the file alone. One that dies before its report spoils it only if its last
   moves leave a file without a generation and some report was sent before.
   */
  lemma SpoilsByFields(materialize: Materialize, l: Ledger, c: Cycle)
    requires Wanted(c) && NextGeneration(Generation(l)) < MAX_INT64
    ensures var d := c.desired.value;
            var install := if Loaded(l.file).digest == d.digest then [] else Installing(materialize, c, d);
            var n := |install|;
            Spoils(materialize, l, c) <==>
            if c.steps > n then
              && !(c.steps > n + 1 && Lands(c.statusWrite))
              && !(n > 0 && Stamps(install[n - 1]) && (c.steps == n + 1 || !Garbles(c.statusWrite)))
            else
              && l.sent != [] && c.steps > 0
              && (Wipes(install[c.steps - 1])
                  || (c.steps > 1 && Wipes(install[c.steps - 2]) && !Stamps(install[c.steps - 1])))
  {
    var d := c.desired.value;
    var install := if Loaded(l.file).digest == d.digest then [] else Installing(materialize, c, d);
    var n, moves := |install|, Moves(materialize, c, Loaded(l.file).digest);
    assert install <= Installing(materialize, c, d);
    if c.steps > n + 1 {
      assert moves == install + [Send, Confirm(c.statusWrite)];
      assert moves[n] == Send;
      LastWordOf2(install, Send, Confirm(c.statusWrite), Stamps, Wipes);
      InstallDecides(materialize, c, d, install);
    } else if c.steps > n {
      assert moves == install + [Send];
      assert moves[n] == Send;
      LastWordStep(install, Send, Stamps, Wipes);
      InstallDecides(materialize, c, d, install);
    } else {
      assert moves == install[..c.steps];
      InstallDecides(materialize, c, d, moves);
    }
  }

  /** A cycle in which the process lives on and its status write succeeds. */
  predicate Healthy(c: Cycle) {
    c.statusWrite.Saved? && c.steps >= 5
  }

  /** While there are generations left, healthy cycles never spoil the reports, however many of them there are. */
  lemma {:induction false} HealthyNeverSpoils(materialize: Materialize, l: Ledger, cycles: seq<Cycle>, k: nat)
    requires (forall c | c in cycles :: Healthy(c)) && 0 <= Generation(l) && Generation(l) + |cycles| < MAX_INT64
    requires k <= |cycles|
    ensures 0 <= Generation(Run(materialize, l, cycles[..k])) <= Generation(l) + k
    ensures k < |cycles| ==> !SpoiledAt(materialize, l, cycles, k)
  {
    if k > 0 {
      HealthyNeverSpoils(materialize, l, cycles, k - 1);
      RunStep(materialize, l, cycles, k - 1);
      HealthyStamps(materialize, Run(materialize, l, cycles[..k - 1]), cycles[k - 1]);
    }
    if k < |cycles| {
      assert cycles[k] in cycles;
      HealthyStamps(materialize, Run(materialize, l, cycles[..k]), cycles[k]);
    }
  }

  lemma HealthyStamps(materialize: Materialize, l: Ledger, c: Cycle)
    requires Healthy(c) && NextGeneration(Generation(l)) < MAX_INT64
    ensures !Spoils(materialize, l, c)
    ensures Generation(Next(materialize, l, c)) in {Generation(l), NextGeneration(Generation(l))}
  {
    var moves := Moves(materialize, c, Loaded(l.file).digest);
    if Wanted(c) {
      SpoilsByFields(materialize, l, c);
      GenerationAfter(l.file, moves, c.desired.value.digest, NextGeneration(Generation(l)));
      var d := c.desired.value;
      var install := if Loaded(l.file).digest == d.digest then [] else Installing(materialize, c, d);
      assert moves == install + [Send, Confirm(c.statusWrite)];
      LastWordOf2(install, Send, Confirm(c.statusWrite), Stamps, Wipes);
    } else {
      assert !LastWord([], Stamps, Wipes) && !LastWord([], Wipes, Stamps);
    }
  }
}
