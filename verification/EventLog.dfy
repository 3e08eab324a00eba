/**
 The durable audit log: an append-only table of hash-chained rows and the table of latest system
 states, changed together by one transaction per accepted event.

 Hashing is a parameter. Where a result needs collision resistance it says so.
 */
module EventLog {
  import opened Prelude

  type Digest = int

  /** The hash the first row links to. */
  const GENESIS: Digest := 0

  datatype Event = Event(eventId: Id, occurredAt: Instant, receivedAt: Instant, payload: string)

  datatype Snapshot = Snapshot(scope: string, lastEventId: Id, updatedAt: Instant, content: string)

  /** What a row stores: the event, with the state projection of its transaction if it had one. */
  datatype Envelope = Envelope(event: Event, state: Option<Snapshot>)

  datatype Row = Row(
    sequence: nat,
    eventId: Id,
    key: string,
    receivedAt: Instant,
    payloadHash: Digest,
    previousHash: Digest,
    chainHash: Digest,
    envelope: Envelope)

  datatype Hashing = Hashing(event: Event -> Digest, link: (Digest, string, Envelope) -> Digest)

  /** No two events share a digest. */
  ghost predicate EventHashInjective(h: Hashing) {
    forall a, b :: h.event(a) == h.event(b) ==> a == b
  }

  /** No two links share a digest, and none has the genesis value. */
  ghost predicate ChainHashInjective(h: Hashing) {
    && (forall p, k, e, p', k', e' ::
          h.link(p, k, e) == h.link(p', k', e') ==> p == p' && k == k' && e == e')
    && (forall p, k, e :: h.link(p, k, e) != GENESIS)
  }

  /** `nextSequence` is the row-number generator; an aborted insert may consume a number. */
  datatype Database = Database(rows: seq<Row>, states: map<string, Snapshot>, nextSequence: nat)

  const EMPTY_DATABASE := Database([], map[], 1)

  datatype Request = Request(event: Event, key: string, state: Option<Snapshot>)

  /** How the storage connection behaves during one call. */
  datatype Fault =
    | NoFault
    | Aborted(numberConsumed: bool)
    | CommitUnacknowledged

  datatype Outcome =
    | Accepted
    | Duplicate
    | InvalidKey
    | InvalidState
    | IdentityConflict
    | StateConflict
    | ReceiptRegression
    | StorageFailure
  {
    /** True when the caller sees an exception rather than an answer. */
    predicate Raises() {
      !Accepted? && !Duplicate?
    }
  }

  predicate ValidKey(key: string) {
    |key| == 64 && forall i :: 0 <= i < |key| ==> '0' <= key[i] <= '9' || 'a' <= key[i] <= 'f'
  }

  predicate StateRefersTo(state: Option<Snapshot>, event: Event) {
    state.Some? ==> state.value.lastEventId == event.eventId && state.value.updatedAt == event.receivedAt
  }

  predicate Matches(row: Row, req: Request) {
    row.eventId == req.event.eventId || row.key == req.key
  }

  /** The answer to a request when the identity lookup returned `row`. */
  function Redelivery(h: Hashing, row: Row, req: Request): Outcome {
    if row.payloadHash != h.event(req.event) || row.key != req.key then IdentityConflict
    else if row.envelope.state != req.state then StateConflict
    else Duplicate
  }

  function HeadHash(rows: seq<Row>): Digest {
    if rows == [] then GENESIS else rows[|rows| - 1].chainHash
  }

  function NewRow(h: Hashing, db: Database, req: Request): Row {
    var envelope := Envelope(req.event, req.state);
    var head := HeadHash(db.rows);
    Row(db.nextSequence, req.event.eventId, req.key, req.event.receivedAt, h.event(req.event), head,
        h.link(head, req.key, envelope), envelope)
  }

  function Commit(h: Hashing, db: Database, req: Request): Database {
    Database(
      db.rows + [NewRow(h, db, req)],
      if req.state.Some? then db.states[req.state.value.scope := req.state.value] else db.states,
      db.nextSequence + 1)
  }

  /** One append as a transition on values. The lookup takes the first matching row. */
  function Append(h: Hashing, db: Database, req: Request, fault: Fault): (Database, Outcome) {
    if !ValidKey(req.key) then (db, InvalidKey)
    else if !StateRefersTo(req.state, req.event) then (db, InvalidState)
    else if exists i | 0 <= i < |db.rows| :: Matches(db.rows[i], req) then
      var verdict := Redelivery(h, FirstMatch(db.rows, req), req);
      (db, if verdict.Duplicate? && !fault.NoFault? then StorageFailure else verdict)
    else if db.rows != [] && req.event.receivedAt < db.rows[|db.rows| - 1].receivedAt then
      (db, ReceiptRegression)
    else
      match fault
      case NoFault => (Commit(h, db, req), Accepted)
      case CommitUnacknowledged => (Commit(h, db, req), StorageFailure)
      case Aborted(consumed) =>
        (if consumed then db.(nextSequence := db.nextSequence + 1) else db, StorageFailure)
  }

  function FirstMatch(rows: seq<Row>, req: Request): (row: Row)
    requires exists i | 0 <= i < |rows| :: Matches(rows[i], req)
    ensures row in rows && Matches(row, req)
  {
    if Matches(rows[0], req) then rows[0] else FirstMatch(rows[1..], req)
  }

  /** The most recent state a row recorded for `scope`. */
  function LastState(rows: seq<Row>, scope: string): Option<Snapshot> {
    if rows == [] then None
    else
      var state := rows[|rows| - 1].envelope.state;
      if state.Some? && state.value.scope == scope then state
      else LastState(rows[..|rows| - 1], scope)
  }

  predicate RowVerifies(h: Hashing, rows: seq<Row>, i: nat)
    requires i < |rows|
  {
    && rows[i].previousHash == HeadHash(rows[..i])
    && rows[i].chainHash == h.link(rows[i].previousHash, rows[i].key, rows[i].envelope)
    && rows[i].payloadHash == h.event(rows[i].envelope.event)
  }

  ghost predicate ChainVerifies(h: Hashing, rows: seq<Row>) {
    forall i :: 0 <= i < |rows| ==> RowVerifies(h, rows, i)
  }

  /** What every sequence of appends keeps true of the two tables. */
  ghost predicate Consistent(h: Hashing, db: Database) {
    && ChainVerifies(h, db.rows)
    && RowsInOrder(db.rows, db.nextSequence)
    && StatesAreLast(db.rows, db.states)
  }

  /** Columns repeat their envelope, identities are unique, numbers rise and receipts never go back. */
  ghost predicate RowsInOrder(rows: seq<Row>, next: nat) {
    && (forall i :: 0 <= i < |rows| ==>
          && rows[i].eventId == rows[i].envelope.event.eventId
          && rows[i].receivedAt == rows[i].envelope.event.receivedAt
          && 1 <= rows[i].sequence < next)
    && (forall i, j :: 0 <= i < j < |rows| ==>
          && rows[i].sequence < rows[j].sequence
          && rows[i].receivedAt <= rows[j].receivedAt
          && rows[i].eventId != rows[j].eventId
          && rows[i].key != rows[j].key)
    && 1 <= next
  }

  /** The state table holds the last projection of each scope. */
  ghost predicate StatesAreLast(rows: seq<Row>, states: map<string, Snapshot>) {
    forall scope :: LastState(rows, scope) == if scope in states then Some(states[scope]) else None
  }

  /** The events of the rows numbered above `after`, in row order. */
  function EventsAfter(rows: seq<Row>, after: nat): seq<Event> {
    if rows == [] then []
    else
      var row := rows[|rows| - 1];
      EventsAfter(rows[..|rows| - 1], after) +
      (if row.sequence > after then [row.envelope.event] else [])
  }

  /** Everything the log holds. */
  function LoggedEvents(rows: seq<Row>): (events: seq<Event>)
    ensures |events| == |rows|
    ensures forall i :: 0 <= i < |rows| ==> events[i] == rows[i].envelope.event
  {
    seq(|rows|, i requires 0 <= i < |rows| => rows[i].envelope.event)
  }

  lemma CommitKeepsConsistent(h: Hashing, db: Database, req: Request)
    requires Consistent(h, db)
    requires forall i :: 0 <= i < |db.rows| ==> !Matches(db.rows[i], req)
    requires db.rows != [] ==> db.rows[|db.rows| - 1].receivedAt <= req.event.receivedAt
    ensures Consistent(h, Commit(h, db, req))
  {
    var db' := Commit(h, db, req);
    var row := db'.rows[|db.rows|];
    assert db'.rows == db.rows + [row];
    ChainGrows(h, db.rows, row);
    RowsGrow(db.rows, db.nextSequence, row);
    StatesGrow(db.rows, db.states, row, db'.states);
  }

  lemma ChainGrows(h: Hashing, rows: seq<Row>, row: Row)
    requires ChainVerifies(h, rows)
    requires row.previousHash == HeadHash(rows) && row.chainHash == h.link(row.previousHash, row.key, row.envelope)
    requires row.payloadHash == h.event(row.envelope.event)
    ensures ChainVerifies(h, rows + [row])
  {
    var rows' := rows + [row];
    forall i | 0 <= i < |rows'|
      ensures RowVerifies(h, rows', i)
    {
      if i < |rows| {
        assert RowVerifies(h, rows, i);
        assert rows'[..i] == rows[..i];
      } else {
        assert rows'[..i] == rows;
      }
    }
  }

  lemma RowsGrow(rows: seq<Row>, next: nat, row: Row)
    requires RowsInOrder(rows, next) && row.sequence == next
    requires row.eventId == row.envelope.event.eventId && row.receivedAt == row.envelope.event.receivedAt
    requires forall i :: 0 <= i < |rows| ==> rows[i].eventId != row.eventId && rows[i].key != row.key
    requires rows != [] ==> rows[|rows| - 1].receivedAt <= row.receivedAt
    ensures RowsInOrder(rows + [row], next + 1)
  {
  }

  lemma StatesGrow(rows: seq<Row>, states: map<string, Snapshot>, row: Row, states': map<string, Snapshot>)
    requires StatesAreLast(rows, states)
    requires states' == if row.envelope.state.Some? then states[row.envelope.state.value.scope := row.envelope.state.value] else states
    ensures StatesAreLast(rows + [row], states')
  {
    forall scope
      ensures LastState(rows + [row], scope) == if scope in states' then Some(states'[scope]) else None
    {
      assert (rows + [row])[..|rows|] == rows;
      assert LastState(rows, scope) == if scope in states then Some(states[scope]) else None;
    }
  }

  /** An append leaves the log alone or adds the event at its end; without a fault, exactly when it answers yes. */
  lemma AppendGrowsLog(h: Hashing, db: Database, req: Request, fault: Fault)
    ensures var (db', outcome) := Append(h, db, req, fault);
            && (LoggedEvents(db'.rows) == LoggedEvents(db.rows) ||
                (LoggedEvents(db'.rows) == LoggedEvents(db.rows) + [req.event] && !outcome.Duplicate?))
            && (outcome.Accepted? ==> LoggedEvents(db'.rows) == LoggedEvents(db.rows) + [req.event])
            && (outcome.Duplicate? ==> db' == db)
  {
  }

  /** Any request, under any fault, keeps both tables consistent. */
  lemma AppendKeepsConsistent(h: Hashing, db: Database, req: Request, fault: Fault)
    requires Consistent(h, db)
    ensures Consistent(h, Append(h, db, req, fault).0)
  {
    if Append(h, db, req, fault).0.rows != db.rows {
      CommitKeepsConsistent(h, db, req);
    }
  }

  /**
   The verdict on a redelivery does not depend on which matching row the database returns: the two
   rows that can match (one by event, one by key) both refute the request unless they are one row.
   */
  lemma VerdictIndependentOfRow(h: Hashing, db: Database, req: Request, a: Row, b: Row)
    requires Consistent(h, db) && EventHashInjective(h)
    requires a in db.rows && b in db.rows && Matches(a, req) && Matches(b, req)
    ensures Redelivery(h, a, req) == Redelivery(h, b, req)
  {
    if a != b {
      var i :| 0 <= i < |db.rows| && db.rows[i] == a;
      var j :| 0 <= j < |db.rows| && db.rows[j] == b;
      assert a.eventId != b.eventId && a.key != b.key;
      assert RowVerifies(h, db.rows, i) && RowVerifies(h, db.rows, j);
      assert Redelivery(h, a, req).IdentityConflict? && Redelivery(h, b, req).IdentityConflict?;
    }
  }

  /** Requests, each with the fault the connection suffers while serving it. */
  type Delivery = (Request, Fault)

  function RunAppends(h: Hashing, deliveries: seq<Delivery>): Database {
    if deliveries == [] then EMPTY_DATABASE
    else
      var last := deliveries[|deliveries| - 1];
      Append(h, RunAppends(h, deliveries[..|deliveries| - 1]), last.0, last.1).0
  }

  /** The requests a run commits, told without rows or hashes: well formed, new, and not received early. */
  function Committed(deliveries: seq<Delivery>): seq<Request> {
    if deliveries == [] then []
    else
      var earlier := Committed(deliveries[..|deliveries| - 1]);
      var last := deliveries[|deliveries| - 1];
      if Admissible(earlier, last.0) && !last.1.Aborted? then earlier + [last.0] else earlier
  }

  predicate Admissible(earlier: seq<Request>, req: Request) {
    && ValidKey(req.key)
    && StateRefersTo(req.state, req.event)
    && (forall i :: 0 <= i < |earlier| ==>
          earlier[i].event.eventId != req.event.eventId && earlier[i].key != req.key)
    && (earlier != [] ==> earlier[|earlier| - 1].event.receivedAt <= req.event.receivedAt)
  }

  function EventsOf(requests: seq<Request>): (events: seq<Event>)
    ensures |events| == |requests|
    ensures forall i :: 0 <= i < |requests| ==> events[i] == requests[i].event
  {
    seq(|requests|, i requires 0 <= i < |requests| => requests[i].event)
  }

  lemma {:induction false} EventsAfterZero(rows: seq<Row>)
    requires forall i :: 0 <= i < |rows| ==> rows[i].sequence >= 1
    ensures EventsAfter(rows, 0) == LoggedEvents(rows)
  {
    if rows != [] {
      EventsAfterZero(rows[..|rows| - 1]);
    }
  }

  ghost predicate UniqueIds(events: seq<Event>) {
    forall i, j :: 0 <= i < j < |events| ==> events[i].eventId != events[j].eventId
  }

  ghost predicate ReceiptOrdered(events: seq<Event>) {
    forall i, j :: 0 <= i < j < |events| ==> events[i].receivedAt <= events[j].receivedAt
  }

  lemma {:induction false} RunKeepsConsistent(h: Hashing, deliveries: seq<Delivery>)
    ensures Consistent(h, RunAppends(h, deliveries))
  {
    if deliveries != [] {
      var before := deliveries[..|deliveries| - 1];
      var last := deliveries[|deliveries| - 1];
      RunKeepsConsistent(h, before);
      AppendKeepsConsistent(h, RunAppends(h, before), last.0, last.1);
    }
  }

  lemma {:induction false} RunLogsCommitted(h: Hashing, deliveries: seq<Delivery>)
    ensures var rows := RunAppends(h, deliveries).rows;
            var requests := Committed(deliveries);
            && |rows| == |requests|
            && forall i :: 0 <= i < |rows| ==>
                 rows[i].key == requests[i].key && rows[i].envelope == Envelope(requests[i].event, requests[i].state)
  {
    if deliveries != [] {
      var before := deliveries[..|deliveries| - 1];
      RunLogsCommitted(h, before);
      RunKeepsConsistent(h, before);
      var db, earlier := RunAppends(h, before), Committed(before);
      var req := deliveries[|deliveries| - 1].0;
      SameIdentities(h, db, earlier, req);
    }
  }

  lemma SameIdentities(h: Hashing, db: Database, earlier: seq<Request>, req: Request)
    requires Consistent(h, db) && |db.rows| == |earlier|
    requires forall i :: 0 <= i < |earlier| ==>
               db.rows[i].key == earlier[i].key && db.rows[i].envelope == Envelope(earlier[i].event, earlier[i].state)
    ensures (forall i :: 0 <= i < |db.rows| ==> !Matches(db.rows[i], req)) <==>
            (forall i :: 0 <= i < |earlier| ==>
               earlier[i].event.eventId != req.event.eventId && earlier[i].key != req.key)
  {
  }

  /**
   After any sequence of accepted, duplicate, conflicting, rejected or failed appends the chain
   verifies, and reading the log gives back exactly the committed events, in commit order, with
   unique ids and receipts that never go back.
   */
  lemma LogIsExactlyTheCommittedEvents(h: Hashing, deliveries: seq<Delivery>)
    ensures var db := RunAppends(h, deliveries);
            var events := EventsOf(Committed(deliveries));
            && ChainVerifies(h, db.rows)
            && EventsAfter(db.rows, 0) == LoggedEvents(db.rows) == events
            && UniqueIds(events) && ReceiptOrdered(events)
  {
    var db := RunAppends(h, deliveries);
    RunKeepsConsistent(h, deliveries);
    RunLogsCommitted(h, deliveries);
    EventsAfterZero(db.rows);
    ConsistentEvents(h, db);
  }

  lemma ConsistentEvents(h: Hashing, db: Database)
    requires Consistent(h, db)
    ensures UniqueIds(LoggedEvents(db.rows)) && ReceiptOrdered(LoggedEvents(db.rows))
  {
  }

  /** What commits passed the checks on its key and its state. */
  lemma {:induction false} CommittedAreValid(deliveries: seq<Delivery>)
    ensures forall req :: req in Committed(deliveries) ==> ValidKey(req.key) && StateRefersTo(req.state, req.event)
  {
    if deliveries != [] {
      CommittedAreValid(deliveries[..|deliveries| - 1]);
    }
  }

  lemma {:induction false} OnlyMatchIsFirst(rows: seq<Row>, i: nat, req: Request)
    requires i < |rows| && Matches(rows[i], req)
    requires forall j :: 0 <= j < |rows| && j != i ==> !Matches(rows[j], req)
    ensures exists j | 0 <= j < |rows| :: Matches(rows[j], req)
    ensures FirstMatch(rows, req) == rows[i]
  {
    if i > 0 {
      assert rows[1..][i - 1] == rows[i];
      OnlyMatchIsFirst(rows[1..], i - 1, req);
    }
  }

  /** A consistent table answers the request behind one of its rows with that row. */
  lemma LoggedRequestFindsItsRow(h: Hashing, db: Database, i: nat, req: Request)
    requires Consistent(h, db) && i < |db.rows|
    requires db.rows[i].key == req.key && db.rows[i].envelope == Envelope(req.event, req.state)
    ensures exists j | 0 <= j < |db.rows| :: Matches(db.rows[j], req)
    ensures Redelivery(h, FirstMatch(db.rows, req), req).Duplicate?
  {
    assert RowVerifies(h, db.rows, i);
    OnlyMatchIsFirst(db.rows, i, req);
  }

  /**
   Whatever was committed, acknowledged or not, can be delivered again at any later time and under any
   fault: neither table changes, and once the connection holds the answer is that it is a duplicate.
   */
  lemma RedeliveryChangesNothing(h: Hashing, deliveries: seq<Delivery>, i: nat, fault: Fault)
    requires i < |Committed(deliveries)|
    ensures var db, req := RunAppends(h, deliveries), Committed(deliveries)[i];
            && Append(h, db, req, fault).0 == db
            && Append(h, db, req, fault).1 == if fault.NoFault? then Duplicate else StorageFailure
  {
    var db, req := RunAppends(h, deliveries), Committed(deliveries)[i];
    RunKeepsConsistent(h, deliveries);
    RunLogsCommitted(h, deliveries);
    CommittedAreValid(deliveries);
    LoggedRequestFindsItsRow(h, db, i, req);
  }

  /** The head hash pins the whole log: two chains that verify and end alike hold the same contents. */
  lemma {:induction false} HeadHashPinsContents(h: Hashing, a: seq<Row>, b: seq<Row>)
    requires ChainHashInjective(h)
    requires ChainVerifies(h, a) && ChainVerifies(h, b)
    requires HeadHash(a) == HeadHash(b)
    ensures |a| == |b|
    ensures forall i :: 0 <= i < |a| ==>
              && a[i].key == b[i].key
              && a[i].envelope == b[i].envelope
              && a[i].payloadHash == b[i].payloadHash
              && a[i].chainHash == b[i].chainHash
  {
    if a == [] || b == [] {
      assert a != [] ==> RowVerifies(h, a, |a| - 1);
      assert b != [] ==> RowVerifies(h, b, |b| - 1);
    } else {
      var m, n := |a| - 1, |b| - 1;
      assert RowVerifies(h, a, m) && RowVerifies(h, b, n);
      PrefixVerifies(h, a, m);
      PrefixVerifies(h, b, n);
      HeadHashPinsContents(h, a[..m], b[..n]);
    }
  }

  lemma PrefixVerifies(h: Hashing, rows: seq<Row>, n: nat)
    requires ChainVerifies(h, rows) && n <= |rows|
    ensures ChainVerifies(h, rows[..n])
  {
    forall i | 0 <= i < n
      ensures RowVerifies(h, rows[..n], i)
    {
      assert RowVerifies(h, rows, i);
      assert rows[..n][..i] == rows[..i];
    }
  }

  /** The repository object: the two tables behind an append lock. */
  class Repository {
    const hashing: Hashing
    var rows: seq<Row>
    var states: map<string, Snapshot>
    var nextSequence: nat

    ghost function Contents(): Database
      reads this
    {
      Database(rows, states, nextSequence)
    }

    ghost predicate Valid()
      reads this
    {
      Consistent(hashing, Contents())
    }

    /** Opens the tables as it finds them. */
    constructor (h: Hashing, stored: Database)
      ensures hashing == h && Contents() == stored
      ensures Valid() <==> Consistent(h, stored)
    {
      hashing := h;
      rows, states, nextSequence := stored.rows, stored.states, stored.nextSequence;
    }

    /** The identity lookup may return any matching row; the verdict is the same whichever it is. */
    method Lookup(req: Request) returns (verdict: Option<Outcome>)
      requires Valid() && EventHashInjective(hashing)
      ensures verdict.Some? <==> exists i | 0 <= i < |rows| :: Matches(rows[i], req)
      ensures verdict.Some? ==> verdict.value == Redelivery(hashing, FirstMatch(rows, req), req)
    {
      if exists i | 0 <= i < |rows| :: Matches(rows[i], req) {
        var i :| 0 <= i < |rows| && Matches(rows[i], req);
        var previous := rows[i];
        VerdictIndependentOfRow(hashing, Contents(), req, previous, FirstMatch(rows, req));
        if previous.payloadHash != hashing.event(req.event) || previous.key != req.key {
          return Some(IdentityConflict);
        }
        if req.state.Some? {
          if previous.envelope.state != req.state {
            return Some(StateConflict);
          }
        } else if previous.envelope.state.Some? {
          return Some(StateConflict);
        }
        return Some(Duplicate);
      }
      return None;
    }

    /** Inserts the row and merges the state projection: both happen, or neither when the transaction aborts. */
    method Insert(req: Request, fault: Fault) returns (acknowledged: bool)
      modifies this
      ensures acknowledged <==> fault.NoFault?
      ensures !fault.Aborted? ==> Contents() == Commit(hashing, old(Contents()), req)
      ensures fault.Aborted? ==> rows == old(rows) && states == old(states)
      ensures fault.Aborted? ==> nextSequence == old(nextSequence) + if fault.numberConsumed then 1 else 0
    {
      if fault.Aborted? {
        nextSequence := if fault.numberConsumed then nextSequence + 1 else nextSequence;
        return false;
      }
      var previousHash := if rows != [] then rows[|rows| - 1].chainHash else GENESIS;
      var envelope := Envelope(req.event, req.state);
      var row := Row(nextSequence, req.event.eventId, req.key, req.event.receivedAt, hashing.event(req.event),
                     previousHash, hashing.link(previousHash, req.key, envelope), envelope);
      nextSequence := nextSequence + 1;
      rows := rows + [row];
      if req.state.Some? {
        states := states[req.state.value.scope := req.state.value];
      }
      return fault.NoFault?;
    }

    /** One transaction: both tables change together or not at all. */
    method AppendEvent(req: Request, fault: Fault) returns (outcome: Outcome)
      requires Valid() && EventHashInjective(hashing)
      modifies this
      ensures Valid()
      ensures (Contents(), outcome) == Append(hashing, old(Contents()), req, fault)
    {
      AppendKeepsConsistent(hashing, Contents(), req, fault);
      if !ValidKey(req.key) {
        return InvalidKey;
      }
      if !StateRefersTo(req.state, req.event) {
        return InvalidState;
      }
      var previous := Lookup(req);
      if previous.Some? {
        return if previous.value.Duplicate? && !fault.NoFault? then StorageFailure else previous.value;
      }
      if rows != [] && req.event.receivedAt < rows[|rows| - 1].receivedAt {
        return ReceiptRegression;
      }
      var acknowledged := Insert(req, fault);
      return if acknowledged then Accepted else StorageFailure;
    }

    /** Walks the chain from the genesis hash; succeeds exactly on a chain that verifies. */
    method ReadEvents(afterSequence: nat) returns (r: Result<seq<Event>, string>)
      ensures r.Ok? <==> ChainVerifies(hashing, rows)
      ensures r.Ok? ==> r.value == EventsAfter(rows, afterSequence)
    {
      var previousHash := GENESIS;
      var events := [];
      for n := 0 to |rows|
        invariant previousHash == HeadHash(rows[..n])
        invariant forall i :: 0 <= i < n ==> RowVerifies(hashing, rows, i)
        invariant events == EventsAfter(rows[..n], afterSequence)
      {
        var row := rows[n];
        assert rows[..n + 1][..n] == rows[..n];
        if row.previousHash != previousHash || row.chainHash != hashing.link(previousHash, row.key, row.envelope) {
          assert !RowVerifies(hashing, rows, n);
          return Err("audit chain integrity failure");
        }
        if row.payloadHash != hashing.event(row.envelope.event) {
          assert !RowVerifies(hashing, rows, n);
          return Err("event digest mismatch");
        }
        previousHash := row.chainHash;
        if row.sequence > afterSequence {
          events := events + [row.envelope.event];
        }
      }
      assert rows[..|rows|] == rows;
      return Ok(events);
    }

    /** The state table is the index of the log: it answers with the scope's latest projection. */
    method GetState(scope: string) returns (r: Option<Snapshot>)
      requires Valid()
      ensures r == LastState(rows, scope)
    {
      assert LastState(rows, scope) == if scope in states then Some(states[scope]) else None;
      r := if scope in states then Some(states[scope]) else None;
    }
  }
}
