/**
 The publication boundary: an event is committed before it is dispatched, and the first failure of
 a write or of a dispatch latches the journal shut.
 */
module Journal {
  import opened Prelude
  import opened EventLog

  /** The downstream consumer passed to one publish call. */
  datatype Consumer = Absent | Delivers | Throws

  datatype Master = Master(snapshotId: Id, content: string)

  datatype Call =
    | Publish(req: Request, fault: Fault, consumer: Consumer)
    | SaveInstruments(master: Master, masterFault: Fault)
    | Restart

  datatype Reply = Answer(accepted: bool) | Failure

  /** The stores, the latches of the current journal object, and every event handed to a consumer. */
  datatype World = World(
    db: Database,
    masters: map<Id, string>,
    blocked: bool,
    validated: bool,
    dispatched: seq<Event>)

  const INITIAL := World(EMPTY_DATABASE, map[], false, false, [])

  datatype Status = Healthy | Unknown | Unhealthy

  function Health(w: World): Status {
    if w.blocked then Unhealthy else if w.validated then Healthy else Unknown
  }

  function StoreMaster(masters: map<Id, string>, m: Master, fault: Fault): (map<Id, string>, bool) {
    if m.snapshotId in masters then
      (masters, masters[m.snapshotId] == m.content && fault.NoFault?)
    else if fault.Aborted? then (masters, false)
    else (masters[m.snapshotId := m.content], fault.NoFault?)
  }

  /** One call on the journal as a transition. `Restart` puts a fresh journal over the same stores. */
  function Step(h: Hashing, w: World, call: Call): (World, Reply) {
    match call
    case Restart => (w.(blocked := false, validated := false), Answer(false))
    case Publish(req, fault, consumer) =>
      if w.blocked then (w, Failure)
      else
        var (db, outcome) := Append(h, w.db, req, fault);
        if outcome.Raises() then (w.(db := db, blocked := true), Failure)
        else if outcome.Accepted? && !consumer.Absent? then
          (w.(db := db, validated := true, dispatched := w.dispatched + [req.event], blocked := consumer.Throws?),
           if consumer.Throws? then Failure else Answer(true))
        else (w.(db := db, validated := true), Answer(outcome.Accepted?))
    case SaveInstruments(m, fault) =>
      if w.blocked then (w, Failure)
      else
        var (masters, stored) := StoreMaster(w.masters, m, fault);
        if stored then (w.(masters := masters, validated := true), Answer(true))
        else (w.(masters := masters, blocked := true), Failure)
  }

  function Run(h: Hashing, calls: seq<Call>): World {
    if calls == [] then INITIAL
    else Step(h, Run(h, calls[..|calls| - 1]), calls[|calls| - 1]).0
  }

  function ReplyTo(h: Hashing, calls: seq<Call>, k: nat): Reply
    requires k < |calls|
  {
    Step(h, Run(h, calls[..k]), calls[k]).1
  }

  /** `f` shows `a` as a selection of `b` that keeps its order. */
  ghost predicate Picks(a: seq<Event>, b: seq<Event>, f: seq<nat>) {
    && |f| == |a|
    && (forall i :: 0 <= i < |f| ==> f[i] < |b| && a[i] == b[f[i]])
    && (forall i, j :: 0 <= i < j < |f| ==> f[i] < f[j])
  }

  lemma StepKeepsConsistent(h: Hashing, w: World, call: Call)
    requires Consistent(h, w.db)
    ensures Consistent(h, Step(h, w, call).0.db)
  {
    if call.Publish? {
      AppendKeepsConsistent(h, w.db, call.req, call.fault);
    }
  }

  /** What a step does to the log: nothing, or one new row for the published event; dispatch implies a new row. */
  lemma StepGrowsLog(h: Hashing, w: World, call: Call)
    ensures var w' := Step(h, w, call).0;
            var log, log' := LoggedEvents(w.db.rows), LoggedEvents(w'.db.rows);
            && (log' == log || (call.Publish? && log' == log + [call.req.event]))
            && (w'.dispatched == w.dispatched ||
                (call.Publish? && log' == log + [call.req.event] && w'.dispatched == w.dispatched + [call.req.event]))
            && (call.Publish? && !call.consumer.Absent? && !w'.blocked && log' != log ==>
                w'.dispatched == w.dispatched + [call.req.event])
            && (w.blocked && !call.Restart? ==> w' == w)
            && (w'.blocked || call.Restart? || !w.blocked)
  {
    if call.Publish? {
      AppendGrowsLog(h, w.db, call.req, call.fault);
    }
  }

  /**
   Over every sequence of calls, faults and restarts: what consumers were handed is a selection of
   the committed events, in commit order, and no event was handed over twice.
   */
  lemma {:induction false} DispatchFollowsCommit(h: Hashing, calls: seq<Call>)
    ensures var w := Run(h, calls);
            && Consistent(h, w.db)
            && (exists f: seq<nat> :: Picks(w.dispatched, LoggedEvents(w.db.rows), f))
            && UniqueIds(w.dispatched)
  {
    if calls == [] {
      assert Picks(Run(h, calls).dispatched, LoggedEvents(Run(h, calls).db.rows), []);
    } else {
      var before, call := calls[..|calls| - 1], calls[|calls| - 1];
      DispatchFollowsCommit(h, before);
      var w := Run(h, before);
      var w' := Step(h, w, call).0;
      StepKeepsConsistent(h, w, call);
      StepGrowsLog(h, w, call);
      var f: seq<nat> :| Picks(w.dispatched, LoggedEvents(w.db.rows), f);
      ConsistentEvents(h, w'.db);
      DispatchGrows(w.dispatched, LoggedEvents(w.db.rows), w'.dispatched, LoggedEvents(w'.db.rows), call, f);
    }
  }

  lemma DispatchGrows(sent: seq<Event>, log: seq<Event>, sent': seq<Event>, log': seq<Event>, call: Call, f: seq<nat>)
    requires Picks(sent, log, f) && UniqueIds(log')
    requires log' == log || (call.Publish? && log' == log + [call.req.event])
    requires sent' == sent || (call.Publish? && log' == log + [call.req.event] && sent' == sent + [call.req.event])
    ensures (exists f': seq<nat> :: Picks(sent', log', f')) && UniqueIds(sent')
  {
    var f' := if sent' == sent then f else f + [|log|];
    assert Picks(sent', log', f');
    PicksUnique(sent', log', f');
  }

  lemma PicksUnique(a: seq<Event>, b: seq<Event>, f: seq<nat>)
    requires Picks(a, b, f) && UniqueIds(b)
    ensures UniqueIds(a)
  {
    forall i, j | 0 <= i < j < |a|
      ensures a[i].eventId != a[j].eventId
    {
      assert f[i] < f[j];
    }
  }

  /**
   After a call that fails (an append, a dispatch or an instrument save) nothing is ever written or
   dispatched again by that journal, and every later call on it fails too.
   */
  lemma {:induction false} FailureIsFinal(h: Hashing, calls: seq<Call>, k: nat, j: nat)
    requires k < j <= |calls|
    requires ReplyTo(h, calls, k).Failure?
    requires forall i :: k < i < j ==> !calls[i].Restart?
    ensures Run(h, calls[..j]) == Run(h, calls[..k + 1])
    ensures Run(h, calls[..j]).blocked
    ensures forall i :: k < i < j ==> ReplyTo(h, calls, i).Failure?
    decreases j
  {
    assert calls[..j][..j - 1] == calls[..j - 1];
    assert calls[..k + 1][..k] == calls[..k];
    if j > k + 1 {
      FailureIsFinal(h, calls, k, j - 1);
    }
  }

  ghost predicate AlwaysConsumed(calls: seq<Call>) {
    forall i :: 0 <= i < |calls| ==> !calls[i].Restart? && (calls[i].Publish? ==> !calls[i].consumer.Absent?)
  }

  /**
   With a consumer on every publish and no restart, an open journal has dispatched its whole log; a
   latched one is behind by at most the very last committed event.
   */
  lemma {:induction false} AtMostLastEventUndispatched(h: Hashing, calls: seq<Call>)
    requires AlwaysConsumed(calls)
    ensures var w := Run(h, calls);
            var log := LoggedEvents(w.db.rows);
            && (!w.blocked ==> w.dispatched == log)
            && (w.dispatched == log || (w.blocked && log != [] && w.dispatched == log[..|log| - 1]))
  {
    if calls != [] {
      var before, call := calls[..|calls| - 1], calls[|calls| - 1];
      assert AlwaysConsumed(before) by {
        forall i | 0 <= i < |before|
          ensures !before[i].Restart? && (before[i].Publish? ==> !before[i].consumer.Absent?)
        {
          assert before[i] == calls[i];
        }
      }
      AtMostLastEventUndispatched(h, before);
      StepGrowsLog(h, Run(h, before), call);
    }
  }

  ghost predicate EveryPublishConsumed(calls: seq<Call>) {
    forall i :: 0 <= i < |calls| && calls[i].Publish? ==> !calls[i].consumer.Absent?
  }

  /** The event was published by a call that failed. */
  ghost predicate PublishFailed(h: Hashing, calls: seq<Call>, e: Event) {
    exists k :: 0 <= k < |calls| && calls[k].Publish? && calls[k].req.event == e && ReplyTo(h, calls, k).Failure?
  }

  lemma PublishFailedEarlier(h: Hashing, before: seq<Call>, call: Call, e: Event)
    requires PublishFailed(h, before, e)
    ensures PublishFailed(h, before + [call], e)
  {
    var calls := before + [call];
    var k :| 0 <= k < |before| && before[k].Publish? && before[k].req.event == e && ReplyTo(h, before, k).Failure?;
    assert calls[..k] == before[..k] && calls[k] == before[k];
    assert ReplyTo(h, calls, k).Failure?;
  }

  /** A call that logs an event without handing it over has failed. */
  lemma UndispatchedFails(h: Hashing, w: World, call: Call)
    requires call.Publish? && !call.consumer.Absent?
    requires var w' := Step(h, w, call).0;
             LoggedEvents(w'.db.rows) != LoggedEvents(w.db.rows) && w'.dispatched == w.dispatched
    ensures Step(h, w, call).1.Failure?
  {
    AppendGrowsLog(h, w.db, call.req, call.fault);
  }

  /**
   Over any number of journal lives, with a consumer on every publish: each committed event was handed
   over or belongs to a publish call that failed, so its caller knows that recovery is needed.
   */
  lemma {:induction false} UndispatchedBelongToFailures(h: Hashing, calls: seq<Call>, e: Event)
    requires EveryPublishConsumed(calls) && e in LoggedEvents(Run(h, calls).db.rows)
    ensures e in Run(h, calls).dispatched || PublishFailed(h, calls, e)
  {
    if calls != [] {
      var before, call := calls[..|calls| - 1], calls[|calls| - 1];
      assert calls == before + [call];
      assert forall i :: 0 <= i < |before| ==> before[i] == calls[i];
      var w := Run(h, before);
      StepGrowsLog(h, w, call);
      if e in LoggedEvents(w.db.rows) {
        UndispatchedBelongToFailures(h, before, e);
        if e !in w.dispatched {
          PublishFailedEarlier(h, before, call, e);
        }
      } else if e !in Step(h, w, call).0.dispatched {
        UndispatchedFails(h, w, call);
        assert ReplyTo(h, calls, |before|).Failure?;
      }
    }
  }

  /** Health over one journal's life: unhealthy exactly when some call failed, unknown before the first success. */
  lemma {:induction false} HealthTellsFailures(h: Hashing, calls: seq<Call>)
    requires forall i :: 0 <= i < |calls| ==> !calls[i].Restart?
    ensures var status := Health(Run(h, calls));
            && (status.Unhealthy? <==> exists k :: 0 <= k < |calls| && ReplyTo(h, calls, k).Failure?)
            && (status.Unknown? <==> calls == [])
  {
    if calls != [] {
      var n := |calls| - 1;
      var before := calls[..n];
      HealthTellsFailures(h, before);
      forall k | 0 <= k < n
        ensures ReplyTo(h, before, k) == ReplyTo(h, calls, k)
      {
        assert before[..k] == calls[..k];
      }
      if Run(h, before).blocked {
        var k :| 0 <= k < |before| && ReplyTo(h, before, k).Failure?;
        assert ReplyTo(h, calls, k).Failure?;
      }
      assert Run(h, calls).blocked <==> Run(h, before).blocked || ReplyTo(h, calls, n).Failure?;
    }
  }

  /** The journal object over a repository, an instrument store and a record of dispatches. */
  class EventJournal {
    const repository: Repository
    var masters: map<Id, string>
    var blocked: bool
    var validated: bool
    var dispatched: seq<Event>

    ghost function State(): World
      reads this, repository
    {
      World(repository.Contents(), masters, blocked, validated, dispatched)
    }

    ghost predicate Valid()
      reads this, repository
    {
      repository.Valid() && EventHashInjective(repository.hashing)
    }

    constructor (r: Repository)
      requires r.Valid() && EventHashInjective(r.hashing)
      ensures repository == r && Valid()
      ensures State() == INITIAL.(db := r.Contents())
    {
      repository := r;
      masters, blocked, validated, dispatched := map[], false, false, [];
    }

    method Publish(req: Request, fault: Fault, consumer: Consumer) returns (reply: Reply)
      requires Valid()
      modifies this, repository
      ensures Valid()
      ensures (State(), reply) == Step(repository.hashing, old(State()), Call.Publish(req, fault, consumer))
    {
      if blocked {
        return Failure;
      }
      var outcome := repository.AppendEvent(req, fault);
      if outcome.Raises() {
        blocked := true;
        return Failure;
      }
      validated := true;
      if outcome.Accepted? && !consumer.Absent? {
        dispatched := dispatched + [req.event];
        if consumer.Throws? {
          blocked := true;
          return Failure;
        }
      }
      return Answer(outcome.Accepted?);
    }

    method SaveInstruments(m: Master, fault: Fault) returns (reply: Reply)
      requires Valid()
      modifies this
      ensures Valid()
      ensures (State(), reply) == Step(repository.hashing, old(State()), Call.SaveInstruments(m, fault))
    {
      if blocked {
        return Failure;
      }
      var (stored, acknowledged) := StoreMaster(masters, m, fault);
      masters := stored;
      if !acknowledged {
        blocked := true;
        return Failure;
      }
      validated := true;
      return Answer(true);
    }
  }
}
