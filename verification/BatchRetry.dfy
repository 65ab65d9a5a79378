/**
 The simulator's batch retry loop: events the collector did not confirm are sent again, and the next
 batch waits until every event of the last one is confirmed.
 */
module BatchRetry {
  import opened Options

  type Event = int

  /** What came back: no usable answer, or an HTTP status with the per-event statuses of a 207 body, if readable. */
  datatype Response = NoResponse | Http(status: int, results: Option<seq<int>>)

  const MULTI_STATUS := 207

  predicate Ok(status: int) {
    200 <= status < 300
  }

  /** The answer settles the batch: it confirms all of it, or says of each event whether it is confirmed. */
  predicate Settles(r: Response, events: seq<Event>) {
    && r.Http?
    && Ok(r.status)
    && (r.status == MULTI_STATUS ==>
          && r.results.Some? && |r.results.value| == |events|
          && forall i | 0 <= i < |events| :: 100 <= r.results.value[i] <= 599)
  }

  function Select(events: seq<Event>, statuses: seq<int>, confirmed: bool): seq<Event>
    requires |events| == |statuses|
  {
    if events == [] then []
    else
      var n := |events| - 1;
      Select(events[..n], statuses[..n], confirmed) + if Ok(statuses[n]) == confirmed then [events[n]] else []
  }

  function Confirmed(r: Response, events: seq<Event>): seq<Event> {
    if !Settles(r, events) then []
    else if r.status == MULTI_STATUS then Select(events, r.results.value, true)
    else events
  }

  /** How often an event occurs. */
  function Count(events: seq<Event>, e: Event): nat {
    if events == [] then 0
    else
      var n := |events| - 1;
      Count(events[..n], e) + if events[n] == e then 1 else 0
  }

  lemma CountOneMore(events: seq<Event>, more: Event, e: Event)
    ensures Count(events + [more], e) == Count(events, e) + if more == e then 1 else 0
  {
    assert (events + [more])[..|events|] == events;
  }

  /** No event is lost and none is counted twice. */
  lemma {:induction false} SelectConserves(events: seq<Event>, statuses: seq<int>, e: Event)
    requires |events| == |statuses|
    ensures Count(Select(events, statuses, true), e) + Count(Select(events, statuses, false), e) == Count(events, e)
  {
    if events != [] {
      var n := |events| - 1;
      SelectConserves(events[..n], statuses[..n], e);
      var yes, no := Select(events[..n], statuses[..n], true), Select(events[..n], statuses[..n], false);
      CountOneMore(yes, events[n], e);
      CountOneMore(no, events[n], e);
      assert yes + [] == yes && no + [] == no;
    }
  }

  lemma {:induction false} AllConfirmed(events: seq<Event>, statuses: seq<int>)
    requires |events| == |statuses| && Select(events, statuses, false) == []
    ensures Select(events, statuses, true) == events
  {
    if events != [] {
      var n := |events| - 1;
      AllConfirmed(events[..n], statuses[..n]);
      assert events == events[..n] + [events[n]];
    }
  }

  /** The pass over the statuses of a 207 answer. */
  method Unconfirmed(events: seq<Event>, statuses: seq<int>) returns (kept: Option<seq<Event>>)
    requires |events| == |statuses|
    ensures kept.Some? <==> forall i | 0 <= i < |events| :: 100 <= statuses[i] <= 599
    ensures kept.Some? ==> kept.value == Select(events, statuses, false)
  {
    var remaining := [];
    for index := 0 to |statuses|
      invariant forall i | 0 <= i < index :: 100 <= statuses[i] <= 599
      invariant remaining == Select(events[..index], statuses[..index], false)
    {
      var status := statuses[index];
      if status < 100 || status > 599 { return None; }
      assert events[..index + 1][..index] == events[..index] && statuses[..index + 1][..index] == statuses[..index];
      if status < 200 || status >= 300 {
        remaining := remaining + [events[index]];
      }
    }
    assert events[..|events|] == events && statuses[..|events|] == statuses;
    return Some(remaining);
  }

  /** The events still to be sent: all of them after an answer that settles nothing. */
  method PostBatch(events: seq<Event>, r: Response) returns (remaining: Option<seq<Event>>)
    ensures remaining.Some? <==> Settles(r, events)
    ensures remaining.Some? ==>
              forall e :: Count(Confirmed(r, events), e) + Count(remaining.value, e) == Count(events, e)
    ensures remaining == Some([]) ==> Confirmed(r, events) == events
    ensures remaining.Some? && r.status == MULTI_STATUS ==> remaining.value == Select(events, r.results.value, false)
  {
    if r.NoResponse? { return None; }
    if r.status < 200 || r.status >= 300 { return None; }
    if r.status != MULTI_STATUS { return Some([]); }
    if r.results.None? || |r.results.value| != |events| { return None; }
    var statuses := r.results.value;
    remaining := Unconfirmed(events, statuses);
    if remaining.None? { return; }
    assert Confirmed(r, events) == Select(events, statuses, true);
    forall e ensures Count(Confirmed(r, events), e) + Count(remaining.value, e) == Count(events, e) {
      SelectConserves(events, statuses, e);
    }
    if |remaining.value| == 0 { AllConfirmed(events, statuses); }
  }

  class Simulation {
    /** The events of a tick; they carry the time at which the batch is made. */
    const generate: (nat, int) -> seq<Event>
    var tick: nat
    var pending: Option<seq<Event>>
    /** Every event made so far, and every event confirmed so far. */
    ghost var made: seq<Event>
    ghost var confirmed: seq<Event>

    ghost function Waiting(): seq<Event> reads this {
      if pending.Some? then pending.value else []
    }

    /** Conservation: what was made is what was confirmed and what is still to be sent. */
    ghost predicate Valid() reads this {
      forall e :: Count(made, e) == Count(confirmed, e) + Count(Waiting(), e)
    }

    constructor (generate: (nat, int) -> seq<Event>, now: int)
      ensures Valid() && pending == Some(generate(0, now)) && tick == 0 && confirmed == []
      ensures made == generate(0, now) && this.generate == generate
    {
      this.generate := generate;
      tick, pending, confirmed := 0, Some(generate(0, now)), [];
      made := generate(0, now);
    }

    /** One turn: the tick moves on only once everything made is confirmed. */
    method Turn(r: Response) returns (done: bool)
      requires Valid() && pending.Some?
      modifies `tick, `pending, `confirmed
      ensures Valid()
      ensures confirmed == old(confirmed) + Confirmed(r, old(pending).value)
      ensures done <==> Settles(r, old(pending).value) && Confirmed(r, old(pending).value) == old(pending).value
      ensures done ==> tick == old(tick) + 1 && pending.None?
      ensures !done ==> tick == old(tick) && pending.Some?
      ensures !Settles(r, old(pending).value) ==> pending == old(pending)
    {
      ghost var now, was := Confirmed(r, pending.value), confirmed;
      var remaining := PostBatch(pending.value, r);
      confirmed := confirmed + now;
      forall e ensures Count(confirmed, e) == Count(was, e) + Count(now, e) { CountAppend(was, now, e); }
      if remaining.None? {
        assert now == [];
        return false;
      }
      if |remaining.value| != 0 {
        NotAllConfirmed(now, remaining.value, pending.value);
        pending := remaining;
        return false;
      }
      tick, pending := tick + 1, None;
      return true;
    }

    /** The next batch is made when everything made before it is confirmed. */
    method Replenish(now: int)
      requires Valid() && pending.None?
      modifies `pending, `made
      ensures Valid() && forall e :: Count(old(made), e) == Count(confirmed, e)
      ensures pending == Some(generate(tick, now)) && made == old(made) + generate(tick, now)
    {
      var batch := generate(tick, now);
      forall e ensures Count(made + batch, e) == Count(made, e) + Count(batch, e) { CountAppend(made, batch, e); }
      pending := Some(batch);
      made := made + batch;
    }

    /**
     The loop over any run of answers and times: nothing made is ever lost or counted twice. With `once`
     it ends after one turn, without an error exactly when nothing is left to send.
     */
    method RunSimulation(turns: seq<(Response, int)>, once: bool) returns (ok: bool)
      requires Valid() && pending.Some?
      modifies this
      ensures Valid() && tick <= old(tick) + |turns|
      ensures once && turns != [] ==> (ok <==> pending.None?)
    {
      ok := true;
      for k := 0 to |turns|
        invariant Valid() && pending.Some? && tick <= old(tick) + k
        invariant once ==> k == 0
      {
        var done := Turn(turns[k].0);
        if once { return done; }
        if pending.None? { Replenish(turns[k].1); }
      }
    }
  }

  lemma {:induction false} CountAppend(a: seq<Event>, b: seq<Event>, e: Event)
    ensures Count(a + b, e) == Count(a, e) + Count(b, e)
  {
    if b == [] {
      assert a + b == a;
    } else {
      var n := |b| - 1;
      assert (a + b)[..|a + b| - 1] == a + b[..n];
      CountAppend(a, b[..n], e);
    }
  }

  /** While something remains, not everything is confirmed. */
  lemma NotAllConfirmed(confirmed: seq<Event>, remaining: seq<Event>, events: seq<Event>)
    requires forall e :: Count(confirmed, e) + Count(remaining, e) == Count(events, e)
    requires remaining != []
    ensures confirmed != events
  {
    var e := remaining[|remaining| - 1];
    assert Count(remaining, e) > 0;
  }
}
