/**
 The startup reconciliation of trusted attachments: three bounded paging loops that go back to the
 beginning whenever a page changed something.
 */
module Reconciliation {
  const BATCH := 100
  const MAX_PAGES := 1000

  datatype Cursor = Start | After(key: int)
  datatype Phase = Database | GarbageCollection | Orphans
  datatype Reply = Failed | Page(scanned: nat, changed: nat, next: Cursor)
  datatype Call = Call(phase: Phase, cursor: Cursor, reply: Reply)
  datatype Outcome = Complete | Error | Exceeded

  /** A page that changed nothing and is not full: nothing lies beyond it. */
  predicate Ends(reply: Reply) {
    reply.Page? && reply.changed == 0 && reply.scanned < BATCH
  }

  function Following(reply: Reply): Cursor
    requires reply.Page?
  {
    if reply.changed != 0 then Start else reply.next
  }

  /** Call `i` goes on from where the page before it sends the loop. */
  ghost predicate GoesOn(run: seq<Call>, i: int)
    requires 0 < i < |run|
  {
    var before := run[i - 1].reply;
    before.Page? && !Ends(before) && run[i].cursor == Following(before)
  }

  /** Call `i` is chained to the full page before it. */
  ghost predicate Chained(run: seq<Call>, i: int)
    requires 0 < i < |run|
  {
    var before := run[i - 1].reply;
    before.Page? && before.scanned >= BATCH && run[i].cursor == before.next
  }

  /** The calls one loop makes: from the start, and after each page from where that page sends it. */
  ghost predicate Driven(run: seq<Call>, phase: Phase) {
    && (forall i | 0 <= i < |run| :: run[i].phase == phase)
    && (run != [] ==> run[0].cursor == Start)
    && (forall i | 0 < i < |run| :: GoesOn(run, i))
  }

  ghost predicate Finished(run: seq<Call>, phase: Phase) {
    Driven(run, phase) && 0 < |run| <= MAX_PAGES && Ends(run[|run| - 1].reply)
  }

  /** An unbroken pass: from the start, every page unchanged and chained to the next, only the last one short. */
  ghost predicate UnbrokenPass(pass: seq<Call>) {
    && pass != []
    && pass[0].cursor == Start
    && (forall i | 0 <= i < |pass| :: pass[i].reply.Page? && pass[i].reply.changed == 0)
    && (forall i | 0 < i < |pass| :: Chained(pass, i))
    && pass[|pass| - 1].reply.scanned < BATCH
  }

  class Reconciler {
    /** What the service answers to its n-th call; the answers may depend on anything that happened before. */
    const answer: (nat, Phase, Cursor) -> Reply
    var calls: seq<Call>

    constructor (answer: (nat, Phase, Cursor) -> Reply)
      ensures calls == [] && this.answer == answer
    {
      this.answer, calls := answer, [];
    }

    method Batch(phase: Phase, cursor: Cursor) returns (reply: Reply)
      modifies this
      ensures calls == old(calls) + [Call(phase, cursor, reply)]
    {
      reply := answer(|calls|, phase, cursor);
      calls := calls + [Call(phase, cursor, reply)];
    }

    /** One of the three loops. */
    method RunPhase(phase: Phase) returns (outcome: Outcome, ghost run: seq<Call>)
      modifies this
      ensures calls == old(calls) + run
      ensures Driven(run, phase) && 0 < |run| <= MAX_PAGES
      ensures outcome.Complete? <==> Finished(run, phase)
      ensures outcome.Error? <==> run[|run| - 1].reply.Failed?
      ensures outcome.Exceeded? ==> |run| == MAX_PAGES
      ensures forall w :: SettledRun(run, w) ==> (outcome.Complete? <==> |w.items| < MAX_PAGES * BATCH)
    {
      var cursor := Start;
      run := [];
      for page := 0 to MAX_PAGES
        invariant calls == old(calls) + run && |run| == page
        invariant Driven(run, phase)
        invariant page > 0 ==>
                  run[page - 1].reply.Page? && !Ends(run[page - 1].reply) && cursor == Following(run[page - 1].reply)
        invariant page == 0 ==> cursor == Start
      {
        var reply := Batch(phase, cursor);
        assert page > 0 ==> GoesOn(run + [Call(phase, cursor, reply)], page);
        assert forall i | 0 < i < page :: GoesOn(run, i) ==> GoesOn(run + [Call(phase, cursor, reply)], i);
        run := run + [Call(phase, cursor, reply)];
        if reply.Failed? {
          SettledOutcome(run, phase);
          return Error, run;
        }
        if reply.changed != 0 { cursor := Start; continue; }
        if reply.scanned < BATCH {
          SettledOutcome(run, phase);
          return Complete, run;
        }
        cursor := reply.next;
      }
      SettledOutcome(run, phase);
      return Exceeded, run;
    }

    /**
     The whole reconciliation. Success means three finished loops, in this order and with no other call;
     a failure means the loops before it finished and none after it began.
     */
    method ReconcileTrustedAttachments() returns (outcome: Outcome, ghost runs: seq<seq<Call>>)
      modifies this
      ensures 1 <= |runs| <= 3
      ensures calls == old(calls) + Joined(runs)
      ensures Driven(runs[0], Database) && 0 < |runs[0]| <= MAX_PAGES
      ensures |runs| > 1 ==>
                Finished(runs[0], Database) && Driven(runs[1], GarbageCollection) && 0 < |runs[1]| <= MAX_PAGES
      ensures |runs| > 2 ==>
                Finished(runs[1], GarbageCollection) && Driven(runs[2], Orphans) && 0 < |runs[2]| <= MAX_PAGES
      ensures outcome.Complete? <==> |runs| == 3 && Finished(runs[2], Orphans)
    {
      ghost var run;
      outcome, run := RunPhase(Database);
      JoinedOneMore(old(calls), [], run);
      runs := [] + [run];
      if !outcome.Complete? { return; }
      outcome, run := RunPhase(GarbageCollection);
      JoinedOneMore(old(calls), runs, run);
      runs := runs + [run];
      if !outcome.Complete? { return; }
      outcome, run := RunPhase(Orphans);
      JoinedOneMore(old(calls), runs, run);
      runs := runs + [run];
    }
  }

  function Joined(runs: seq<seq<Call>>): seq<Call> {
    if runs == [] then [] else Joined(runs[..|runs| - 1]) + runs[|runs| - 1]
  }

  lemma JoinedOneMore(before: seq<Call>, runs: seq<seq<Call>>, run: seq<Call>)
    ensures before + Joined(runs) + run == before + Joined(runs + [run])
  {
    assert (runs + [run])[..|runs|] == runs;
    assert before + Joined(runs) + run == before + (Joined(runs) + run);
  }

  /** A finished loop ends with an unbroken pass, preceded only by a page that changed something. */
  lemma {:induction false} EndsWithUnbrokenPass(run: seq<Call>, phase: Phase) returns (k: nat)
    requires Finished(run, phase)
    ensures k < |run| && UnbrokenPass(run[k..])
    ensures k > 0 ==> run[k - 1].reply.Page? && run[k - 1].reply.changed != 0
  {
    forall i | 0 <= i < |run| ensures run[i].reply.Page? {
      assert i + 1 < |run| ==> GoesOn(run, i + 1);
    }
    k := |run| - 1;
    while k > 0 && run[k - 1].reply.changed == 0
      invariant k < |run|
      invariant forall i | 0 <= i < |run| :: run[i].reply.Page?
      invariant forall i | k <= i < |run| :: run[i].reply.changed == 0
      decreases k
    {
      k := k - 1;
    }
    var pass := run[k..];
    assert k > 0 ==> GoesOn(run, k);
    forall i | 0 < i < |pass| ensures Chained(pass, i) {
      assert GoesOn(run, k + i);
    }
  }

  // An honest service: it pages through its items in key order and looks at each of them.

  predicate Sorted(items: seq<int>) {
    forall i, j | 0 <= i < j < |items| :: items[i] < items[j]
  }

  /** The items and which of them still need something done. */
  datatype World = World(items: seq<int>, unsettled: set<int>)

  /** The items beyond a cursor. */
  function Beyond(items: seq<int>, cursor: Cursor): seq<int> {
    if items == [] || cursor.Start? || items[0] > cursor.key then items else Beyond(items[1..], cursor)
  }

  function Front(items: seq<int>): (front: seq<int>)
    ensures |front| <= BATCH && front <= items
  {
    if |items| <= BATCH then items else items[..BATCH]
  }

  /** The items one call looks at. */
  function Visited(w: World, cursor: Cursor): seq<int> {
    Front(Beyond(w.items, cursor))
  }

  /** The page reports what was looked at, and is unchanged only if all of it was settled. */
  ghost predicate Honest(before: World, call: Call, after: World) {
    && Sorted(before.items)
    && call.reply.Page?
    && var visited := Visited(before, call.cursor);
       && call.reply.scanned == |visited|
       && (visited != [] && call.reply.changed == 0 ==> call.reply.next == After(visited[|visited| - 1]))
       && (call.reply.changed == 0 ==> after == before && forall x | x in visited :: x !in before.unsettled)
  }

  /** The worlds before, between and after the calls of a run. */
  ghost predicate HonestRun(run: seq<Call>, worlds: seq<World>) {
    |worlds| == |run| + 1 && forall i | 0 <= i < |run| :: Honest(worlds[i], run[i], worlds[i + 1])
  }

  lemma {:induction false} BeyondKey(items: seq<int>, i: nat)
    requires Sorted(items) && i < |items|
    ensures Beyond(items, After(items[i])) == items[i + 1..]
  {
    if i > 0 {
      BeyondKey(items[1..], i - 1);
      assert items[1..][i - 1] == items[i] && items[1..][i..] == items[i + 1..];
    } else if |items| > 1 {
      assert items[1..][0] > items[0];
    }
  }

  /** What lies beyond a cursor is a suffix of the items. */
  lemma {:induction false} BeyondIsSuffix(items: seq<int>, cursor: Cursor) returns (n: nat)
    ensures n <= |items| && Beyond(items, cursor) == items[n..]
  {
    if items == [] || cursor.Start? || items[0] > cursor.key {
      n := 0;
    } else {
      var m := BeyondIsSuffix(items[1..], cursor);
      n := m + 1;
      assert items[1..][m..] == items[n..];
    }
  }

  /** Going on from the last key of a page leaves exactly what the page did not show. */
  lemma NextPage(items: seq<int>, cursor: Cursor)
    requires Sorted(items)
    ensures var beyond := Beyond(items, cursor);
            Front(beyond) != [] ==>
            Beyond(items, After(Front(beyond)[|Front(beyond)| - 1])) == beyond[|Front(beyond)|..]
  {
    var n := BeyondIsSuffix(items, cursor);
    var front := Front(items[n..]);
    if front != [] {
      var last := n + |front| - 1;
      assert front[|front| - 1] == items[last];
      BeyondKey(items, last);
      assert items[n..][|front|..] == items[last + 1..];
    }
  }

  /** Behind a full page that starts at position `k` comes position `k + BATCH`. */
  lemma OnePageOn(items: seq<int>, cursor: Cursor, k: nat)
    requires Sorted(items) && k <= |items| && Beyond(items, cursor) == items[k..] && |Front(items[k..])| >= BATCH
    ensures k + BATCH <= |items|
    ensures Beyond(items, After(Front(items[k..])[|Front(items[k..])| - 1])) == items[k + BATCH..]
  {
    NextPage(items, cursor);
    assert items[k..][BATCH..] == items[k + BATCH..];
  }

  /** In an unbroken pass over a fixed world, page `i` starts just behind the first `i` full pages. */
  lemma {:induction false} PageStart(pass: seq<Call>, w: World, i: nat)
    requires i < |pass| && pass[0].cursor == Start
    requires forall j | 0 <= j <= i :: Honest(w, pass[j], w) && pass[j].reply.changed == 0
    requires forall j | 0 < j <= i :: Chained(pass, j)
    ensures BATCH * i <= |w.items| && Beyond(w.items, pass[i].cursor) == w.items[BATCH * i..]
  {
    if i > 0 {
      PageStart(pass, w, i - 1);
      var call, k := pass[i - 1], BATCH * (i - 1);
      assert Honest(w, call, w) && Chained(pass, i);
      OnePageOn(w.items, call.cursor, k);
    }
  }

  /** The world does not move during an unbroken pass. */
  lemma {:induction false} WorldStands(pass: seq<Call>, worlds: seq<World>, i: nat)
    requires HonestRun(pass, worlds) && i <= |pass|
    requires forall j | 0 <= j < |pass| :: pass[j].reply.Page? && pass[j].reply.changed == 0
    ensures worlds[i] == worlds[0]
  {
    if i > 0 {
      WorldStands(pass, worlds, i - 1);
      assert Honest(worlds[i - 1], pass[i - 1], worlds[i]);
    }
  }

  /** An unbroken pass over an honest service looks at every item, and finds every one of them settled. */
  lemma PassVisitsEverything(pass: seq<Call>, worlds: seq<World>, x: int)
    requires HonestRun(pass, worlds) && UnbrokenPass(pass)
    requires x in worlds[|pass|].items
    ensures worlds[0] == worlds[|pass|]
    ensures x !in worlds[|pass|].unsettled
    ensures exists i :: 0 <= i < |pass| && x in Visited(worlds[|pass|], pass[i].cursor)
  {
    forall i | 0 <= i <= |pass| ensures worlds[i] == worlds[0] {
      WorldStands(pass, worlds, i);
    }
    var w := worlds[0];
    forall j | 0 <= j < |pass| ensures Honest(w, pass[j], w) {
      assert Honest(worlds[j], pass[j], worlds[j + 1]);
    }
    var p :| 0 <= p < |w.items| && w.items[p] == x;
    var last := |pass| - 1;
    PageStart(pass, w, last);
    var i := p / BATCH;
    assert i <= last;
    PageStart(pass, w, i);
    var beyond := w.items[BATCH * i..];
    assert x == beyond[p - BATCH * i] == Front(beyond)[p - BATCH * i];
    assert x in Visited(w, pass[i].cursor);
  }

  /**
   After a finished loop over an honest service every item there is has been looked at since the last
   change, and none of them is unsettled.
   */
  lemma FinishedMeansSettled(run: seq<Call>, phase: Phase, worlds: seq<World>)
    requires HonestRun(run, worlds) && Finished(run, phase)
    ensures forall x | x in worlds[|run|].items :: x !in worlds[|run|].unsettled
    ensures exists k :: 0 <= k < |run| && worlds[k] == worlds[|run|] && UnbrokenPass(run[k..])
                        && forall x | x in worlds[|run|].items ::
                             exists i :: k <= i < |run| && x in Visited(worlds[|run|], run[i].cursor)
  {
    var k := EndsWithUnbrokenPass(run, phase);
    var pass, tail := run[k..], worlds[k..];
    var w := worlds[|run|];
    assert tail[|pass|] == w && tail[0] == worlds[k];
    forall i | 0 <= i < |pass| ensures Honest(tail[i], pass[i], tail[i + 1]) {
      assert Honest(worlds[k + i], run[k + i], worlds[k + i + 1]);
    }
    WorldStands(pass, tail, |pass|);
    forall x | x in w.items
      ensures x !in w.unsettled
      ensures exists i :: k <= i < |run| && x in Visited(w, run[i].cursor)
    {
      PassVisitsEverything(pass, tail, x);
      var i :| 0 <= i < |pass| && x in Visited(w, pass[i].cursor);
      assert run[k + i] == pass[i];
    }
  }

  /** Nothing needs doing while the loop runs. */
  ghost predicate SettledRun(run: seq<Call>, w: World) {
    forall i | 0 <= i < |run| :: Honest(w, run[i], w) && run[i].reply.changed == 0
  }

  /** Over a settled world a loop needs one call per full page and one more. */
  lemma SettledWorldCalls(run: seq<Call>, phase: Phase, w: World)
    requires Driven(run, phase) && run != [] && SettledRun(run, w)
    ensures Ends(run[|run| - 1].reply) <==> |run| == |w.items| / BATCH + 1
    ensures !Ends(run[|run| - 1].reply) <==> BATCH * |run| <= |w.items|
  {
    var last := |run| - 1;
    forall i | 0 < i < |run| ensures Chained(run, i) {
      assert GoesOn(run, i) && Honest(w, run[i - 1], w);
    }
    PageStart(run, w, last);
    assert Honest(w, run[last], w);
    assert run[last].reply.scanned == |Front(w.items[BATCH * last..])|;
  }

  /**
   How many items a startup can take: over a settled world a loop that ends at its last page, at a failure
   or at the page bound finishes if and only if there are fewer than a hundred thousand.
   */
  lemma SettledOutcome(run: seq<Call>, phase: Phase)
    requires Driven(run, phase) && 0 < |run| <= MAX_PAGES
    requires Ends(run[|run| - 1].reply) || run[|run| - 1].reply.Failed? || |run| == MAX_PAGES
    ensures forall w :: SettledRun(run, w) ==> (Finished(run, phase) <==> |w.items| < MAX_PAGES * BATCH)
  {
    forall w | SettledRun(run, w) ensures Finished(run, phase) <==> |w.items| < MAX_PAGES * BATCH {
      assert Honest(w, run[|run| - 1], w);
      SettledWorldCalls(run, phase, w);
    }
  }
}
