/**
 The generation an adapter's reports carry, as a ledger: what the applied-state file says and which
 generations were sent. A cycle is a list of durable moves of which the process may make any prefix.
 */
module FleetLedger {
  import opened Options

  const MAX_INT64 := 0x7fff_ffff_ffff_ffff
  const MIN_INT64 := -0x8000_0000_0000_0000

  type Int64 = x: int | MIN_INT64 <= x <= MAX_INT64

  /** The applied-state file; nothing is read from an absent or garbled one. */
  datatype ApplyState = ApplyState(digest: string, generation: Int64)

  function Loaded(file: Option<ApplyState>): ApplyState {
    if file.None? then ApplyState("", 0) else file.value
  }

  /** The generation of the next report: 64-bit addition wraps, and what is not positive becomes one. */
  function NextGeneration(g: Int64): (n: Int64)
    ensures n >= 1
  {
    var n := if g == MAX_INT64 then MIN_INT64 else g + 1;
    if n < 1 then 1 else n
  }

  /** Overwriting the file in place: a failure may leave it as it was, replaced, or garbled. */
  datatype Effect = Untouched | Replaced | Garbled
  datatype Write = Saved | Failed(effect: Effect)

  predicate Lands(w: Write) {
    w.Saved? || w.effect.Replaced?
  }

  predicate Garbles(w: Write) {
    w.Failed? && w.effect.Garbled?
  }

  function Written(file: Option<ApplyState>, state: ApplyState, w: Write): Option<ApplyState> {
    if Lands(w) then Some(state) else if Garbles(w) then None else file
  }

  /** The tree goes live; its publication is recorded; the release and its generation are noted; the report
      is sent; its generation is written back. */
  datatype Move = Swap | Record(write: Write) | Note(write: Write) | Send | Confirm(write: Write)

  function Moved(file: Option<ApplyState>, m: Move, digest: string, g: Int64): Option<ApplyState> {
    match m
    case Swap => file
    case Record(w) => Written(file, ApplyState(digest, 0), w)
    case Note(w) => Written(file, ApplyState(digest, g), w)
    case Send => file
    case Confirm(w) => Written(file, Loaded(file).(generation := g), w)
  }

  function After(file: Option<ApplyState>, moves: seq<Move>, digest: string, g: Int64): Option<ApplyState> {
    if moves == [] then file
    else Moved(After(file, moves[..|moves| - 1], digest, g), moves[|moves| - 1], digest, g)
  }

  lemma {:induction false} AfterAppend(file: Option<ApplyState>, a: seq<Move>, b: seq<Move>, digest: string, g: Int64)
    ensures After(file, a + b, digest, g) == After(After(file, a, digest, g), b, digest, g)
  {
    if b == [] {
      assert a + b == a;
    } else {
      var n := |b| - 1;
      assert (a + b)[..|a + b| - 1] == a + b[..n];
      AfterAppend(file, a, b[..n], digest, g);
    }
  }

  lemma AfterOne(file: Option<ApplyState>, m: Move, digest: string, g: Int64)
    ensures After(file, [m], digest, g) == Moved(file, m, digest, g)
  {
    assert [m][..0] == [];
  }

  /** The digest on file is the old one, the new one or none, and the new one only after a record or a note. */
  lemma {:induction false} DigestAfter(file: Option<ApplyState>, moves: seq<Move>, digest: string, g: Int64)
    ensures Loaded(After(file, moves, digest, g)).digest in {Loaded(file).digest, digest, ""}
    ensures (forall m | m in moves :: !m.Record? && !m.Note?) ==>
              Loaded(After(file, moves, digest, g)).digest in {Loaded(file).digest, ""}
  {
    if moves != [] {
      DigestAfter(file, moves[..|moves| - 1], digest, g);
    }
  }

  /** The move puts the new generation on file. */
  predicate Stamps(m: Move) {
    (m.Note? || m.Confirm?) && Lands(m.write)
  }

  /** The move leaves a file without a generation. */
  predicate Wipes(m: Move) {
    || (m.Record? && (Lands(m.write) || Garbles(m.write)))
    || ((m.Note? || m.Confirm?) && Garbles(m.write))
  }

  /** Some move is a `p` and no move after it is a `q`. */
  ghost predicate LastWord(moves: seq<Move>, p: Move -> bool, q: Move -> bool) {
    exists i :: 0 <= i < |moves| && p(moves[i]) && forall j | i < j < |moves| :: !q(moves[j])
  }

  lemma LastWordStep(moves: seq<Move>, m: Move, p: Move -> bool, q: Move -> bool)
    ensures LastWord(moves + [m], p, q) <==> p(m) || (!q(m) && LastWord(moves, p, q))
  {
    var n, all := |moves|, moves + [m];
    assert all[n] == m;
    if LastWord(moves, p, q) && !q(m) {
      var i :| 0 <= i < n && p(moves[i]) && forall j | i < j < n :: !q(moves[j]);
      assert p(all[i]) && forall j | i < j < |all| :: !q(all[j]);
    }
    if LastWord(all, p, q) && !p(m) {
      var i :| 0 <= i < |all| && p(all[i]) && forall j | i < j < |all| :: !q(all[j]);
      assert i < n && p(moves[i]);
      forall j | i < j < n ensures !q(moves[j]) { assert all[j] == moves[j]; }
    }
  }

  /** Some move stamped the file and none after it wiped it. */
  ghost predicate Stamped(moves: seq<Move>) {
    LastWord(moves, Stamps, Wipes)
  }

  /** Some move wiped the file and none after it stamped it. */
  ghost predicate Wiped(moves: seq<Move>) {
    LastWord(moves, Wipes, Stamps)
  }

  /** The generation a list of moves leaves on file, whatever the list. */
  lemma {:induction false} GenerationAfter(file: Option<ApplyState>, moves: seq<Move>, digest: string, g: Int64)
    ensures !(Stamped(moves) && Wiped(moves))
    ensures Loaded(After(file, moves, digest, g)).generation ==
            if Stamped(moves) then g else if Wiped(moves) then 0 else Loaded(file).generation
  {
    if moves != [] {
      var n := |moves| - 1;
      GenerationAfter(file, moves[..n], digest, g);
      LastWordStep(moves[..n], moves[n], Stamps, Wipes);
      LastWordStep(moves[..n], moves[n], Wipes, Stamps);
      assert moves == moves[..n] + [moves[n]];
    }
  }

  /** What is on file, and the generations of all reports sent so far. */
  datatype Ledger = Ledger(file: Option<ApplyState>, sent: seq<Int64>)

  function Generation(l: Ledger): Int64 {
    Loaded(l.file).generation
  }

  function Turned(l: Ledger, moves: seq<Move>, digest: string): Ledger {
    var g := NextGeneration(Generation(l));
    Ledger(After(l.file, moves, digest, g), l.sent + if Send in moves then [g] else [])
  }

  ghost predicate Increasing(sent: seq<Int64>) {
    forall i, j | 0 <= i < j < |sent| :: sent[i] < sent[j]
  }

  /** The next report would outrank every report sent. */
  ghost predicate Rises(l: Ledger) {
    forall s | s in l.sent :: s < NextGeneration(Generation(l))
  }

  /**
   The moves that spoil the next report. A report spoils it unless its generation is on file at the end
   and is not the last one there is. Without a report, an earlier one is outranked no longer if the file
   was wiped, or if the last generation there is was stamped.
   */
  ghost predicate Lags(l: Ledger, moves: seq<Move>) {
    var last := NextGeneration(Generation(l)) == MAX_INT64;
    if Send in moves then !Stamped(moves) || last
    else l.sent != [] && (Wiped(moves) || (Stamped(moves) && last))
  }

  /** Exactly the lagging moves make the next report fall back. */
  lemma RisesIffNoLag(l: Ledger, moves: seq<Move>, digest: string)
    requires Rises(l) && forall s | s in l.sent :: s >= 1
    ensures Rises(Turned(l, moves, digest)) <==> !Lags(l, moves)
    ensures Increasing(l.sent) ==> Increasing(Turned(l, moves, digest).sent)
  {
    var g, next := NextGeneration(Generation(l)), Turned(l, moves, digest);
    GenerationAfter(l.file, moves, digest, g);
    if Send in moves {
      assert next.sent == l.sent + [g] && g in next.sent;
      forall i | 0 <= i < |l.sent| ensures l.sent[i] < g { assert l.sent[i] in l.sent; }
    } else {
      assert next.sent == l.sent;
      if l.sent != [] { assert l.sent[0] in l.sent; }
    }
  }
}
