/** Replays a recorded stream in its persisted order under a clock that never goes back. */
module Replay {
  import opened Prelude
  import opened EventLog

  class ReplayClock {
    var instant: Instant

    constructor (start: Instant)
      ensures instant == start
    {
      instant := start;
    }

    /** Refuses to move backwards; a refusal leaves the clock where it was. */
    method AdvanceTo(target: Instant) returns (moved: bool)
      modifies this
      ensures moved <==> old(instant) <= target
      ensures instant == if moved then target else old(instant)
    {
      if target < instant {
        return false;
      }
      instant := target;
      return true;
    }
  }

  predicate Occurs(events: seq<Event>, id: Id) {
    exists i :: 0 <= i < |events| && events[i].eventId == id
  }

  /** The stream without the deliveries whose id came before. */
  function FirstDeliveries(events: seq<Event>): (r: seq<Event>) {
    if events == [] then []
    else
      var before, last := events[..|events| - 1], events[|events| - 1];
      if Occurs(before, last.eventId) then FirstDeliveries(before) else FirstDeliveries(before) + [last]
  }

  /** Repeated ids carry the same content. */
  ghost predicate Coherent(h: Hashing, events: seq<Event>) {
    forall i, j :: 0 <= i < j < |events| && events[i].eventId == events[j].eventId ==>
      h.event(events[i]) == h.event(events[j])
  }

  function LastReceipt(events: seq<Event>, start: Instant): Instant {
    if events == [] then start else events[|events| - 1].receivedAt
  }

  /** The condition under which a replay from `start` runs to the end. */
  ghost predicate Replayable(h: Hashing, events: seq<Event>, start: Instant) {
    && Coherent(h, events)
    && ReceiptOrdered(FirstDeliveries(events))
    && (FirstDeliveries(events) != [] ==> start <= FirstDeliveries(events)[0].receivedAt)
  }

  lemma DeliveryStep(before: seq<Event>, event: Event)
    ensures FirstDeliveries(before + [event]) ==
            if Occurs(before, event.eventId) then FirstDeliveries(before) else FirstDeliveries(before) + [event]
  {
    assert (before + [event])[..|before|] == before;
  }

  lemma OccursStep(events: seq<Event>, last: Event, id: Id)
    ensures Occurs(events + [last], id) <==> Occurs(events, id) || last.eventId == id
  {
    var all := events + [last];
    assert all[|events|] == last;
    assert forall i :: 0 <= i < |events| ==> all[i] == events[i];
  }

  /** Each id of the stream is delivered, and only once. */
  lemma {:induction false} EachIdDeliveredOnce(events: seq<Event>)
    ensures forall id :: Occurs(FirstDeliveries(events), id) <==> Occurs(events, id)
    ensures UniqueIds(FirstDeliveries(events))
  {
    if events != [] {
      var n := |events| - 1;
      var before, last := events[..n], events[n];
      assert events == before + [last];
      EachIdDeliveredOnce(before);
      var d := FirstDeliveries(before);
      forall id
        ensures Occurs(FirstDeliveries(events), id) <==> Occurs(events, id)
      {
        OccursStep(before, last, id);
        OccursStep(d, last, id);
      }
      assert !Occurs(before, last.eventId) ==> !Occurs(d, last.eventId);
    }
  }

  /** Distinct ids: nothing is dropped. */
  lemma {:induction false} NothingDropped(events: seq<Event>)
    requires UniqueIds(events)
    ensures FirstDeliveries(events) == events
  {
    if events != [] {
      NothingDropped(events[..|events| - 1]);
    }
  }

  /** What the engine checks on one delivery, given the stream before it. */
  ghost predicate Deliverable(h: Hashing, before: seq<Event>, event: Event, start: Instant) {
    if Occurs(before, event.eventId) then
      forall i :: 0 <= i < |before| && before[i].eventId == event.eventId ==> h.event(before[i]) == h.event(event)
    else
      LastReceipt(FirstDeliveries(before), start) <= event.receivedAt
  }

  lemma CoherentStep(h: Hashing, before: seq<Event>, event: Event)
    ensures Coherent(h, before + [event]) <==>
            && Coherent(h, before)
            && forall i :: 0 <= i < |before| && before[i].eventId == event.eventId ==> h.event(before[i]) == h.event(event)
  {
    var all := before + [event];
    assert all[|before|] == event;
    assert forall i :: 0 <= i < |before| ==> all[i] == before[i];
    if Coherent(h, before + [event]) {
      forall i, j | 0 <= i < j < |before| && before[i].eventId == before[j].eventId
        ensures h.event(before[i]) == h.event(before[j])
      {
        assert all[i].eventId == all[j].eventId;
      }
      forall i | 0 <= i < |before| && before[i].eventId == event.eventId
        ensures h.event(before[i]) == h.event(event)
      {
        assert all[i].eventId == all[|before|].eventId;
      }
    }
  }

  /** The order condition, one delivery at a time. */
  ghost predicate InOrderFrom(d: seq<Event>, start: Instant) {
    ReceiptOrdered(d) && (d != [] ==> start <= d[0].receivedAt)
  }

  lemma InOrderStep(d: seq<Event>, event: Event, start: Instant)
    ensures InOrderFrom(d + [event], start) <==> InOrderFrom(d, start) && LastReceipt(d, start) <= event.receivedAt
  {
    var all := d + [event];
    assert all[|d|] == event;
    assert forall i :: 0 <= i < |d| ==> all[i] == d[i];
    if InOrderFrom(all, start) {
      forall i, j | 0 <= i < j < |d|
        ensures d[i].receivedAt <= d[j].receivedAt
      {
        assert all[i].receivedAt <= all[j].receivedAt;
      }
    }
  }

  lemma ReplayableStep(h: Hashing, before: seq<Event>, event: Event, start: Instant)
    ensures Replayable(h, before + [event], start) <==>
            Replayable(h, before, start) && Deliverable(h, before, event, start)
  {
    DeliveryStep(before, event);
    CoherentStep(h, before, event);
    if !Occurs(before, event.eventId) {
      InOrderStep(FirstDeliveries(before), event, start);
      assert forall i :: 0 <= i < |before| ==> before[i].eventId != event.eventId;
    }
  }

  lemma {:induction false} PrefixReplayable(h: Hashing, events: seq<Event>, start: Instant, n: nat)
    requires Replayable(h, events, start) && n <= |events|
    ensures Replayable(h, events[..n], start)
    decreases |events| - n
  {
    if n == |events| {
      assert events[..n] == events;
    } else {
      PrefixReplayable(h, events, start, n + 1);
      assert events[..n + 1] == events[..n] + [events[n]];
      ReplayableStep(h, events[..n], events[n], start);
    }
  }

  datatype ReplayError = ConflictingDuplicate | ClockRegression | ConsumerRaised

  /** Whether the consumer raises on an event, given how many it was handed before. */
  type Consumer = (nat, Event) -> bool

  ghost predicate AllAccepted(raises: Consumer, out: seq<Event>) {
    forall k :: 0 <= k < |out| ==> !raises(k, out[k])
  }

  /** The last event handed over was the first to raise. */
  ghost predicate LastRaised(raises: Consumer, out: seq<Event>) {
    out != [] && AllAccepted(raises, out[..|out| - 1]) && raises(|out| - 1, out[|out| - 1])
  }

  /**
   The engine. It runs to the end exactly on replayable streams that the consumer accepts, and then it has
   handed over the first delivery of every id, once, in order. Any other run was handed over up to where it
   stopped: a refused event was not handed over, one that raised was, and the clock stands at the last one.
   */
  method RunReplay(
      h: Hashing, events: seq<Event>, clock: ReplayClock,
      raises: Consumer) returns (r: Result<nat, ReplayError>, out: seq<Event>)
    modifies clock
    ensures r.Ok? <==> Replayable(h, events, old(clock.instant)) && AllAccepted(raises, FirstDeliveries(events))
    ensures r.Ok? ==> out == FirstDeliveries(events) && r.value == |out|
    ensures exists n: nat :: n <= |events| && out == FirstDeliveries(events[..n])
    ensures clock.instant == LastReceipt(out, old(clock.instant))
    ensures if r == Err(ConsumerRaised) then LastRaised(raises, out) else AllAccepted(raises, out)
    ensures r.Err? && !r.error.ConsumerRaised? ==> !Replayable(h, events, old(clock.instant))
  {
    var start := clock.instant;
    var seen: map<Id, Digest> := map[];
    out := [];
    for n := 0 to |events|
      invariant Reached(h, events[..n], start, seen, out, raises)
      invariant clock.instant == LastReceipt(out, start)
    {
      assert events[..n + 1] == events[..n] + [events[n]];
      var stopped: Option<ReplayError>;
      stopped, seen, out := Deliver(h, events[..n], events[n], start, seen, out, clock, raises);
      if stopped.Some? {
        if stopped.value.ConsumerRaised? {
          RaisedAt(events, n, raises, out);
        } else {
          RefusedAt(h, events, start, n);
          assert out == FirstDeliveries(events[..n]);
        }
        return Err(stopped.value), out;
      }
    }
    assert events[..|events|] == events;
    return Ok(|out|), out;
  }

  /** Where the engine is after the deliveries `before`. */
  ghost predicate Reached(
      h: Hashing, before: seq<Event>, start: Instant, seen: map<Id, Digest>, out: seq<Event>, raises: Consumer) {
    && out == FirstDeliveries(before)
    && Replayable(h, before, start)
    && AllAccepted(raises, out)
    && Remembers(h, before, seen)
  }

  /** One delivery: skipped, refused, or handed over to a consumer that may raise. */
  method Deliver(
      h: Hashing, ghost before: seq<Event>, event: Event, ghost start: Instant, seen: map<Id, Digest>, out: seq<Event>,
      clock: ReplayClock, raises: Consumer)
      returns (stopped: Option<ReplayError>, seen': map<Id, Digest>, out': seq<Event>)
    requires Reached(h, before, start, seen, out, raises) && clock.instant == LastReceipt(out, start)
    modifies clock
    ensures clock.instant == LastReceipt(out', start)
    ensures stopped.None? ==> Reached(h, before + [event], start, seen', out', raises)
    ensures stopped == Some(ConsumerRaised) ==> out' == FirstDeliveries(before + [event]) && LastRaised(raises, out')
    ensures stopped.Some? && !stopped.value.ConsumerRaised? ==> out' == out && !Replayable(h, before + [event], start)
  {
    if event.eventId in seen {
      RepeatStep(h, before, event, start, seen, out, raises);
      return if seen[event.eventId] != h.event(event) then Some(ConflictingDuplicate) else None, seen, out;
    }
    HandOverStep(h, before, event, start, seen, out, raises);
    var moved := clock.AdvanceTo(event.receivedAt);
    if !moved {
      return Some(ClockRegression), seen, out;
    }
    out' := out + [event];
    if raises(|out|, event) {
      return Some(ConsumerRaised), seen, out';
    }
    return None, seen[event.eventId := h.event(event)], out';
  }

  lemma RepeatStep(
      h: Hashing, before: seq<Event>, event: Event, start: Instant, seen: map<Id, Digest>, out: seq<Event>,
      raises: Consumer)
    requires Reached(h, before, start, seen, out, raises) && event.eventId in seen
    ensures if seen[event.eventId] == h.event(event) then Reached(h, before + [event], start, seen, out, raises)
            else !Replayable(h, before + [event], start)
  {
    DeliveryStep(before, event);
    ReplayableStep(h, before, event, start);
    SeenMeansOccurs(h, before, event, seen, start);
    if seen[event.eventId] == h.event(event) {
      RemembersStep(h, before, event, seen);
    }
  }

  lemma HandOverStep(
      h: Hashing, before: seq<Event>, event: Event, start: Instant, seen: map<Id, Digest>, out: seq<Event>,
      raises: Consumer)
    requires Reached(h, before, start, seen, out, raises) && event.eventId !in seen
    ensures FirstDeliveries(before + [event]) == out + [event]
    ensures Replayable(h, before + [event], start) <==> LastReceipt(out, start) <= event.receivedAt
    ensures Remembers(h, before + [event], seen[event.eventId := h.event(event)])
    ensures if raises(|out|, event) then LastRaised(raises, out + [event]) else AllAccepted(raises, out + [event])
  {
    DeliveryStep(before, event);
    ReplayableStep(h, before, event, start);
    SeenMeansOccurs(h, before, event, seen, start);
    RemembersStep(h, before, event, seen);
    assert (out + [event])[..|out|] == out;
  }

  /** A consumer that raises on an early delivery does not accept the whole stream. */
  lemma RaisedAt(events: seq<Event>, n: nat, raises: Consumer, out: seq<Event>)
    requires n < |events| && out == FirstDeliveries(events[..n + 1]) && LastRaised(raises, out)
    ensures !AllAccepted(raises, FirstDeliveries(events))
  {
    DeliveriesExtend(events, n + 1);
    assert FirstDeliveries(events)[|out| - 1] == out[|out| - 1];
  }

  lemma {:induction false} DeliveriesExtend(events: seq<Event>, n: nat)
    requires n <= |events|
    ensures FirstDeliveries(events[..n]) <= FirstDeliveries(events)
  {
    if n == |events| {
      assert events[..n] == events;
    } else {
      var before := events[..|events| - 1];
      DeliveriesExtend(before, n);
      assert before[..n] == events[..n];
    }
  }

  /** `seen` holds the digest of every id delivered so far. */
  ghost predicate Remembers(h: Hashing, events: seq<Event>, seen: map<Id, Digest>) {
    && (forall id :: id in seen ==> Occurs(events, id))
    && (forall i :: 0 <= i < |events| ==> events[i].eventId in seen && seen[events[i].eventId] == h.event(events[i]))
  }

  /** The memory decides what the engine has to decide. */
  lemma SeenMeansOccurs(h: Hashing, events: seq<Event>, event: Event, seen: map<Id, Digest>, start: Instant)
    requires Remembers(h, events, seen)
    ensures event.eventId in seen <==> Occurs(events, event.eventId)
    ensures event.eventId in seen ==>
              (Deliverable(h, events, event, start) <==> seen[event.eventId] == h.event(event))
  {
    if Occurs(events, event.eventId) {
      var i :| 0 <= i < |events| && events[i].eventId == event.eventId;
      assert seen[event.eventId] == h.event(events[i]);
    }
  }

  lemma RemembersStep(h: Hashing, events: seq<Event>, event: Event, seen: map<Id, Digest>)
    requires Remembers(h, events, seen)
    requires event.eventId in seen ==> seen[event.eventId] == h.event(event)
    ensures Remembers(h, events + [event], seen[event.eventId := h.event(event)])
    ensures event.eventId in seen ==> seen[event.eventId := h.event(event)] == seen
  {
    forall id | id in seen || id == event.eventId
      ensures Occurs(events + [event], id)
    {
      OccursStep(events, event, id);
    }
  }

  lemma RefusedAt(h: Hashing, events: seq<Event>, start: Instant, n: nat)
    requires n < |events|
    requires !Replayable(h, events[..n + 1], start)
    ensures !Replayable(h, events, start)
  {
    if Replayable(h, events, start) {
      PrefixReplayable(h, events, start, n + 1);
    }
  }

  /**
   Replaying what the log returns, from the first receipt, never fails and hands over every
   committed event exactly once in commit order, whatever appends built the log.
   */
  lemma ReplayReproducesLog(h: Hashing, deliveries: seq<Delivery>, start: Instant)
    requires Committed(deliveries) != [] ==> start <= Committed(deliveries)[0].event.receivedAt
    ensures var events := EventsAfter(RunAppends(h, deliveries).rows, 0);
            && Replayable(h, events, start)
            && FirstDeliveries(events) == events == EventsOf(Committed(deliveries))
  {
    LogIsExactlyTheCommittedEvents(h, deliveries);
    NothingDropped(EventsAfter(RunAppends(h, deliveries).rows, 0));
  }
}
