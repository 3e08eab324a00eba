/** What the log and the journal answer, told in the requests committed before. */
module Answers {
  import opened Prelude
  import opened EventLog
  import opened Journal

  /** Sixty-four lower-case hexadecimal digits. */
  ghost predicate IsDigest(key: string) {
    |key| == 64 && forall i :: 0 <= i < |key| ==> key[i] in {'0', '1', '2', '3', '4', '5', '6', '7', '8', '9', 'a', 'b', 'c', 'd', 'e', 'f'}
  }

  ghost predicate IsOwnState(req: Request) {
    match req.state
    case None => true
    case Some(s) => s.lastEventId == req.event.eventId && s.updatedAt == req.event.receivedAt
  }

  /** A request committed before has the event id or the key. */
  ghost predicate IdentityUsed(past: seq<Request>, req: Request) {
    exists i :: 0 <= i < |past| && (past[i].event.eventId == req.event.eventId || past[i].key == req.key)
  }

  /** Event and key were committed before, with another state. */
  ghost predicate StateDiffers(past: seq<Request>, req: Request) {
    exists i :: 0 <= i < |past| && past[i].event == req.event && past[i].key == req.key && past[i].state != req.state
  }

  /** The answer to a request after those in `past` were committed. */
  ghost function AnswerTo(past: seq<Request>, req: Request, fault: Fault): Outcome {
    if !IsDigest(req.key) then InvalidKey
    else if !IsOwnState(req) then InvalidState
    else if req in past then (if fault == NoFault then Duplicate else StorageFailure)
    else if StateDiffers(past, req) then StateConflict
    else if IdentityUsed(past, req) then IdentityConflict
    else if past != [] && req.event.receivedAt < past[|past| - 1].event.receivedAt then ReceiptRegression
    else if fault == NoFault then Accepted
    else StorageFailure
  }

  /** The rows hold the requests. */
  ghost predicate Holds(rows: seq<Row>, past: seq<Request>) {
    |rows| == |past| && forall i :: 0 <= i < |rows| ==>
      rows[i].key == past[i].key && rows[i].envelope == Envelope(past[i].event, past[i].state)
  }

  lemma DigestMeaning(key: string)
    ensures ValidKey(key) <==> IsDigest(key)
  {
  }

  /** What the row found for a request says of the requests committed. */
  lemma FoundMeaning(h: Hashing, db: Database, past: seq<Request>, req: Request, k: nat)
    requires Consistent(h, db) && EventHashInjective(h) && Holds(db.rows, past) && k < |past| && Matches(db.rows[k], req)
    ensures Redelivery(h, db.rows[k], req) ==
            if req in past then Duplicate else if StateDiffers(past, req) then StateConflict else IdentityConflict
  {
    assert RowVerifies(h, db.rows, k);
    forall i | 0 <= i < |past| && past[i].event.eventId == req.event.eventId && past[i].key == req.key
      ensures i == k
    {
      assert db.rows[i].eventId == req.event.eventId && db.rows[i].key == req.key;
    }
  }

  lemma MatchMeaning(h: Hashing, db: Database, past: seq<Request>, req: Request)
    requires Consistent(h, db) && Holds(db.rows, past)
    ensures (exists i | 0 <= i < |db.rows| :: Matches(db.rows[i], req)) <==> IdentityUsed(past, req)
    ensures db.rows != [] ==> db.rows[|db.rows| - 1].receivedAt == past[|past| - 1].event.receivedAt
    ensures req in past || StateDiffers(past, req) ==> IdentityUsed(past, req)
  {
    forall i | 0 <= i < |past|
      ensures Matches(db.rows[i], req) <==> past[i].event.eventId == req.event.eventId || past[i].key == req.key
    {
    }
  }

  lemma LookupMeaning(h: Hashing, db: Database, past: seq<Request>, req: Request)
    requires Consistent(h, db) && EventHashInjective(h) && Holds(db.rows, past) && IdentityUsed(past, req)
    ensures exists i | 0 <= i < |db.rows| :: Matches(db.rows[i], req)
    ensures Redelivery(h, FirstMatch(db.rows, req), req) ==
            if req in past then Duplicate else if StateDiffers(past, req) then StateConflict else IdentityConflict
  {
    MatchMeaning(h, db, past, req);
    var row := FirstMatch(db.rows, req);
    var k :| 0 <= k < |db.rows| && db.rows[k] == row;
    FoundMeaning(h, db, past, req, k);
  }

  lemma AppendMeaning(h: Hashing, db: Database, past: seq<Request>, req: Request, fault: Fault)
    requires Consistent(h, db) && EventHashInjective(h) && Holds(db.rows, past)
    ensures Append(h, db, req, fault).1 == AnswerTo(past, req, fault)
  {
    DigestMeaning(req.key);
    MatchMeaning(h, db, past, req);
    if IdentityUsed(past, req) {
      LookupMeaning(h, db, past, req);
    }
  }

  /** After any deliveries, a request is answered by what was committed, and by nothing else. */
  lemma AnswerMeaning(h: Hashing, deliveries: seq<Delivery>, req: Request, fault: Fault)
    requires EventHashInjective(h)
    ensures Append(h, RunAppends(h, deliveries), req, fault).1 == AnswerTo(Committed(deliveries), req, fault)
  {
    RunKeepsConsistent(h, deliveries);
    RunLogsCommitted(h, deliveries);
    AppendMeaning(h, RunAppends(h, deliveries), Committed(deliveries), req, fault);
  }

  /**
   A request commits exactly when it would be accepted by a connection that holds, and its transaction is not
   aborted.
   */
  lemma CommitMeaning(h: Hashing, deliveries: seq<Delivery>, req: Request, fault: Fault)
    ensures Committed(deliveries + [(req, fault)])
         == Committed(deliveries) + if AnswerTo(Committed(deliveries), req, NoFault) == Accepted && !fault.Aborted? then [req] else []
  {
    assert (deliveries + [(req, fault)])[..|deliveries|] == deliveries;
    var past := Committed(deliveries);
    DigestMeaning(req.key);
    if Admissible(past, req) {
      assert req !in past && !StateDiffers(past, req) && !IdentityUsed(past, req);
    }
  }

  /** Request `i` is the last with a state for the scope. */
  ghost predicate IsLastFor(past: seq<Request>, scope: string, i: int) {
    && 0 <= i < |past| && past[i].state.Some? && past[i].state.value.scope == scope
    && NoneAfter(past, scope, i)
  }

  ghost predicate NoneAfter(past: seq<Request>, scope: string, i: int) {
    forall j :: 0 <= j < |past| && i < j && past[j].state.Some? ==> past[j].state.value.scope != scope
  }

  /** The state of a scope is that of the last request committed that has one for it. */
  lemma {:induction false} StateMeaning(rows: seq<Row>, past: seq<Request>, scope: string) returns (i: int)
    requires Holds(rows, past)
    ensures if LastState(rows, scope).None? then NoneAfter(past, scope, -1)
            else IsLastFor(past, scope, i) && past[i].state == LastState(rows, scope)
  {
    i := -1;
    if rows != [] {
      var n := |rows| - 1;
      i := StateMeaning(rows[..n], past[..n], scope);
      var state := rows[n].envelope.state;
      if state.Some? && state.value.scope == scope {
        i := n;
      }
      assert forall j :: 0 <= j < n ==> past[..n][j] == past[j];
    }
  }

  /** The first `k` rows are those numbered up to `after`. */
  ghost predicate SplitsAt(rows: seq<Row>, after: nat, k: nat) {
    k <= |rows| && forall i :: 0 <= i < |rows| ==> (rows[i].sequence <= after <==> i < k)
  }

  lemma LoggedStep(rows: seq<Row>, row: Row)
    ensures LoggedEvents(rows + [row]) == LoggedEvents(rows) + [row.envelope.event]
    ensures forall after :: EventsAfter(rows + [row], after) == EventsAfter(rows, after) + if row.sequence > after then [row.envelope.event] else []
  {
    assert (rows + [row])[..|rows|] == rows;
  }

  ghost predicate Rising(rows: seq<Row>) {
    forall i, j :: 0 <= i < j < |rows| ==> rows[i].sequence < rows[j].sequence
  }

  /** Reading after a number gives the events from the first row numbered above it. */
  lemma {:induction false} ReadMeaning(rows: seq<Row>, after: nat) returns (k: nat)
    requires Rising(rows)
    ensures SplitsAt(rows, after, k) && EventsAfter(rows, after) == LoggedEvents(rows)[k..]
  {
    if rows == [] {
      k := 0;
    } else {
      var before, row := rows[..|rows| - 1], rows[|rows| - 1];
      assert rows == before + [row];
      k := ReadMeaning(before, after);
      k := ReadStep(before, row, after, k);
    }
  }

  lemma ReadStep(before: seq<Row>, row: Row, after: nat, k: nat) returns (k': nat)
    requires SplitsAt(before, after, k) && EventsAfter(before, after) == LoggedEvents(before)[k..]
    requires forall i :: 0 <= i < |before| ==> before[i].sequence < row.sequence
    ensures SplitsAt(before + [row], after, k')
    ensures EventsAfter(before + [row], after) == LoggedEvents(before + [row])[k'..]
  {
    k' := if row.sequence <= after then |before| + 1 else k;
    LoggedStep(before, row);
    if row.sequence <= after {
      assert forall i :: 0 <= i < |before| ==> before[i].sequence <= after;
    }
  }

  /** The deliveries that reached the log: publishes on a journal that was not blocked. */
  ghost function Served(h: Hashing, calls: seq<Call>): seq<Delivery> {
    if calls == [] then []
    else
      var before, call := calls[..|calls| - 1], calls[|calls| - 1];
      Served(h, before) + if call.Publish? && !Run(h, before).blocked then [(call.req, call.fault)] else []
  }

  lemma {:induction false} JournalServes(h: Hashing, calls: seq<Call>)
    ensures Run(h, calls).db == RunAppends(h, Served(h, calls))
  {
    if calls != [] {
      var before, call := calls[..|calls| - 1], calls[|calls| - 1];
      JournalServes(h, before);
      var served, w := Served(h, before), Run(h, before);
      StepServes(h, w, call);
      if call.Publish? && !w.blocked {
        assert Served(h, calls) == served + [(call.req, call.fault)];
        ServeNext(h, served, call.req, call.fault);
      } else {
        assert Served(h, calls) == served;
      }
    }
  }

  lemma StepServes(h: Hashing, w: World, call: Call)
    ensures Step(h, w, call).0.db == if call.Publish? && !w.blocked then Append(h, w.db, call.req, call.fault).0 else w.db
  {
  }

  lemma ServeNext(h: Hashing, served: seq<Delivery>, req: Request, fault: Fault)
    ensures RunAppends(h, served + [(req, fault)]) == Append(h, RunAppends(h, served), req, fault).0
  {
    assert (served + [(req, fault)])[..|served|] == served;
  }

  /**
   The reply to a publish after any calls: yes when the log accepts it and the consumer, if any, takes it; no when
   it was committed before; a failure otherwise.
   */
  lemma PublishMeaning(h: Hashing, calls: seq<Call>, req: Request, fault: Fault, consumer: Consumer)
    requires EventHashInjective(h)
    ensures var answer := AnswerTo(Committed(Served(h, calls)), req, fault);
            Step(h, Run(h, calls), Call.Publish(req, fault, consumer)).1 ==
            if Run(h, calls).blocked then Failure
            else if answer == Duplicate then Answer(false)
            else if answer == Accepted && consumer != Throws then Answer(true)
            else Failure
  {
    JournalServes(h, calls);
    AnswerMeaning(h, Served(h, calls), req, fault);
  }

  /**
   A restart opens the journal over everything stored: nothing is lost, nothing counts as seen, and publishing is
   served again.
   */
  lemma RestartMeaning(h: Hashing, calls: seq<Call>, req: Request, fault: Fault, consumer: Consumer)
    requires EventHashInjective(h)
    ensures var w, w', answer := Run(h, calls), Run(h, calls + [Restart]), AnswerTo(Committed(Served(h, calls)), req, fault);
            && w'.db == w.db && w'.masters == w.masters && w'.dispatched == w.dispatched && Health(w') == Unknown
            && Step(h, w', Call.Publish(req, fault, consumer)).1 ==
               if answer == Duplicate then Answer(false)
               else if answer == Accepted && consumer != Throws then Answer(true)
               else Failure
  {
    var after := calls + [Restart];
    assert after[..|calls|] == calls && after[|calls|] == Restart;
    assert Served(h, after) == Served(h, calls);
    PublishMeaning(h, after, req, fault, consumer);
  }

  /** Instruments are stored once; saving the same again is fine, anything else under that id fails. */
  lemma SaveMeaning(h: Hashing, w: World, m: Master, fault: Fault)
    ensures var (w', reply) := Step(h, w, Call.SaveInstruments(m, fault));
            && (reply == Answer(true) <==>
                  !w.blocked && fault == NoFault && (m.snapshotId in w.masters ==> w.masters[m.snapshotId] == m.content))
            && w'.masters == (if w.blocked || fault.Aborted? || m.snapshotId in w.masters then w.masters
                              else w.masters[m.snapshotId := m.content])
            && (w'.blocked <==> reply == Failure) && (reply == Failure || reply == Answer(true))
  {
  }
}
