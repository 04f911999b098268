/**
  The agent's offline queue (agent/src/Agent.Service/SqliteEventQueue.cs) and the server's
  ingestion tables (backend/app/ingestion/service.py), with what one call does to each.
*/
module SyncModel {
  datatype EventType =
    | ApplicationActivity
    | WebsiteActivity
    | ActivityInterval
    | Idle
    | ScreenshotMeta
    | Unknown(name: string)

  datatype IngestEvent = IngestEvent(id: string, kind: EventType, payload: string)

  datatype Queued = Queued(sequence: nat, event: IngestEvent)

  /** rows in sequence order; last is the highest sequence ever given out. */
  datatype Queue = Queue(rows: seq<Queued>, last: nat)

  datatype Table = ApplicationEvents | WebsiteEvents | ActivityIntervals | Screenshots

  datatype Stored = Stored(table: Table, event: IngestEvent)

  datatype Counts = Counts(accepted: nat, duplicates: nat, rejected: nat)

  const BATCH_SIZE: nat := 200

  // ---------- queue ----------

  predicate Pending(q: Queue, id: string) {
    exists i :: 0 <= i < |q.rows| && q.rows[i].event.id == id
  }

  /** INSERT OR IGNORE: an id that is still pending is not queued twice. */
  function Enqueue(q: Queue, e: IngestEvent): Queue {
    if Pending(q, e.id) then q else Queue(q.rows + [Queued(q.last + 1, e)], q.last + 1)
  }

  function Peek(q: Queue, max: nat): seq<Queued> {
    if |q.rows| <= max then q.rows else q.rows[..max]
  }

  /** The rows a cumulative acknowledgement leaves: those after the sequence. */
  function After(rows: seq<Queued>, through: nat): seq<Queued> {
    if rows == [] then []
    else After(rows[..|rows| - 1], through) + (if rows[|rows| - 1].sequence <= through then [] else [rows[|rows| - 1]])
  }

  function Ack(q: Queue, through: nat): Queue {
    q.(rows := After(q.rows, through))
  }

  ghost predicate QueueOk(q: Queue) {
    (forall i, j :: 0 <= i < j < |q.rows| ==> q.rows[i].sequence < q.rows[j].sequence) &&
    (forall i :: 0 <= i < |q.rows| ==> q.rows[i].sequence <= q.last) &&
    (forall i, j :: 0 <= i < j < |q.rows| ==> q.rows[i].event.id != q.rows[j].event.id)
  }

  function Events(batch: seq<Queued>): (es: seq<IngestEvent>)
    ensures |es| == |batch| && forall i :: 0 <= i < |es| ==> es[i] == batch[i].event
  {
    seq(|batch|, i requires 0 <= i < |batch| => batch[i].event)
  }

  // ---------- server ----------

  predicate Acceptable(e: IngestEvent) {
    !e.kind.Unknown? && e.id != ""
  }

  function TableOf(kind: EventType): Table {
    match kind
    case ApplicationActivity => ApplicationEvents
    case WebsiteActivity => WebsiteEvents
    case ActivityInterval | Idle => ActivityIntervals
    case ScreenshotMeta | Unknown(_) => Screenshots
  }

  predicate Seen(rows: seq<Stored>, table: Table, id: string) {
    exists i :: 0 <= i < |rows| && rows[i].table == table && rows[i].event.id == id
  }

  /** ingest_batch: rejects, skips what its table has already seen, and stores the rest. */
  function Ingest(rows: seq<Stored>, events: seq<IngestEvent>): (seq<Stored>, Counts) {
    if events == [] then (rows, Counts(0, 0, 0))
    else
      var (before, c) := Ingest(rows, events[..|events| - 1]);
      var e := events[|events| - 1];
      if !Acceptable(e) then (before, c.(rejected := c.rejected + 1))
      else if Seen(before, TableOf(e.kind), e.id) then (before, c.(duplicates := c.duplicates + 1))
      else (before + [Stored(TableOf(e.kind), e)], c.(accepted := c.accepted + 1))
  }

  /** The server has a row for the event, in the event's table and under its id. */
  predicate Holds(rows: seq<Stored>, e: IngestEvent) {
    Seen(rows, TableOf(e.kind), e.id)
  }

  /** No table holds an event id twice. */
  ghost predicate Unique(rows: seq<Stored>) {
    forall i, j :: 0 <= i < j < |rows| ==> rows[i].table != rows[j].table || rows[i].event.id != rows[j].event.id
  }

  // ---------- laws of the queue ----------

  lemma EnqueueKeepsQueue(q: Queue, e: IngestEvent)
    requires QueueOk(q)
    ensures QueueOk(Enqueue(q, e)) && q.rows <= Enqueue(q, e).rows && Pending(Enqueue(q, e), e.id)
  {
    var q' := Enqueue(q, e);
    if !Pending(q, e.id) {
      assert q'.rows[|q.rows|].event.id == e.id;
      forall i, j | 0 <= i < j < |q'.rows|
        ensures q'.rows[i].sequence < q'.rows[j].sequence && q'.rows[i].event.id != q'.rows[j].event.id
      {
        if j == |q.rows| { assert q'.rows[i] == q.rows[i]; }
      }
    }
  }

  /** Peek returns the lowest sequences: nothing it leaves out comes before anything it returns. */
  lemma PeekIsLowest(q: Queue, max: nat, i: nat, j: nat)
    requires QueueOk(q) && i < |Peek(q, max)| && |Peek(q, max)| <= j < |q.rows|
    ensures Peek(q, max) <= q.rows && Peek(q, max)[i].sequence < q.rows[j].sequence
  {
  }

  lemma {:induction false} AfterPrefix(rows: seq<Queued>, k: nat, through: nat)
    requires k <= |rows|
    requires forall i :: 0 <= i < k ==> rows[i].sequence <= through
    requires forall i :: k <= i < |rows| ==> rows[i].sequence > through
    ensures After(rows, through) == rows[k..]
  {
    if rows != [] {
      hide After;
      var n := |rows| - 1;
      var rest, last := rows[..n], rows[n];
      assert rows == rest + [last];
      AfterMore(rest, last, through);
      if k <= n {
        AfterPrefix(rest, k, through);
        SliceMore(rest, k, last);
      } else {
        AfterPrefix(rest, n, through);
      }
    }
  }

  lemma AfterMore(rows: seq<Queued>, q: Queued, through: nat)
    ensures After(rows + [q], through) == After(rows, through) + (if q.sequence <= through then [] else [q])
  {
    assert (rows + [q])[..|rows|] == rows;
  }

  lemma SliceMore(rows: seq<Queued>, k: nat, q: Queued)
    requires k <= |rows|
    ensures (rows + [q])[k..] == rows[k..] + [q]
  {
  }

  /** Acknowledging through the last sequence of a sent prefix removes that prefix and nothing else. */
  lemma AckRemovesExactly(q: Queue, batch: seq<Queued>)
    requires QueueOk(q) && batch != [] && batch <= q.rows
    ensures Ack(q, batch[|batch| - 1].sequence).rows == q.rows[|batch|..]
    ensures QueueOk(Ack(q, batch[|batch| - 1].sequence))
  {
    var k := |batch|;
    assert batch[k - 1] == q.rows[k - 1];
    AfterPrefix(q.rows, k, batch[k - 1].sequence);
  }

  /** Any acknowledgement leaves a suffix of the queue, so a well-formed queue. */
  lemma AckKeepsQueue(q: Queue, through: nat)
    requires QueueOk(q)
    ensures QueueOk(Ack(q, through))
    ensures exists k :: 0 <= k <= |q.rows| && Ack(q, through).rows == q.rows[k..]
  {
    var k := 0;
    while k < |q.rows| && q.rows[k].sequence <= through
      invariant k <= |q.rows| && forall i :: 0 <= i < k ==> q.rows[i].sequence <= through
    {
      k := k + 1;
    }
    AfterPrefix(q.rows, k, through);
  }

  // ---------- laws of ingestion ----------

  lemma {:induction false} CountsAddUp(rows: seq<Stored>, events: seq<IngestEvent>)
    ensures var c := Ingest(rows, events).1; c.accepted + c.duplicates + c.rejected == |events|
    ensures |Ingest(rows, events).0| == |rows| + Ingest(rows, events).1.accepted
  {
    if events != [] { CountsAddUp(rows, events[..|events| - 1]); }
  }

  /** How many events the server refuses for what they are: those of unknown type or without an id. */
  function Refused(events: seq<IngestEvent>): nat {
    if events == [] then 0
    else (if events[0].kind.Unknown? || events[0].id == "" then 1 else 0) + Refused(events[1..])
  }

  lemma {:induction false} RefusedMore(events: seq<IngestEvent>, e: IngestEvent)
    ensures Refused(events + [e]) == Refused(events) + if e.kind.Unknown? || e.id == "" then 1 else 0
  {
    if events == [] {
      assert [e][1..] == [];
    } else {
      assert (events + [e])[1..] == events[1..] + [e];
      RefusedMore(events[1..], e);
    }
  }

  /** Those are counted as rejected, new rows as accepted, and the rest as duplicates. */
  lemma {:induction false} CountsAre(rows: seq<Stored>, events: seq<IngestEvent>)
    ensures var (rows', c) := Ingest(rows, events);
            c.rejected == Refused(events) && c.accepted == |rows'| - |rows| &&
            c.duplicates == |events| - c.accepted - c.rejected
  {
    CountsAddUp(rows, events);
    RejectedAre(rows, events);
  }

  lemma {:induction false} RejectedAre(rows: seq<Stored>, events: seq<IngestEvent>)
    ensures Ingest(rows, events).1.rejected == Refused(events)
  {
    if events != [] {
      var n := |events| - 1;
      RejectedAre(rows, events[..n]);
      RefusedMore(events[..n], events[n]);
      assert events == events[..n] + [events[n]];
    }
  }

  lemma {:induction false} IngestOnlyAdds(rows: seq<Stored>, events: seq<IngestEvent>)
    ensures rows <= Ingest(rows, events).0
  {
    if events != [] { IngestOnlyAdds(rows, events[..|events| - 1]); }
  }

  lemma SeenGrows(rows: seq<Stored>, more: seq<Stored>, table: Table, id: string)
    requires rows <= more && Seen(rows, table, id)
    ensures Seen(more, table, id)
  {
    var i :| 0 <= i < |rows| && rows[i].table == table && rows[i].event.id == id;
    assert more[i] == rows[i];
  }

  /** Every acceptable event of an ingested batch is on the server afterwards. */
  lemma {:induction false} IngestHoldsAll(rows: seq<Stored>, events: seq<IngestEvent>, e: IngestEvent)
    requires e in events && Acceptable(e)
    ensures Holds(Ingest(rows, events).0, e)
  {
    var n := |events| - 1;
    var before, after := Ingest(rows, events[..n]).0, Ingest(rows, events).0;
    assert events == events[..n] + [events[n]];
    if e == events[n] {
      if !Holds(before, e) { assert after[|before|] == Stored(TableOf(e.kind), e); }
    } else {
      IngestHoldsAll(rows, events[..n], e);
      SeenGrows(before, after, TableOf(e.kind), e.id);
    }
  }

  lemma {:induction false} IngestKeepsUnique(rows: seq<Stored>, events: seq<IngestEvent>)
    requires Unique(rows)
    ensures Unique(Ingest(rows, events).0)
  {
    if events != [] { IngestKeepsUnique(rows, events[..|events| - 1]); }
  }

  /** What a batch adds comes from the batch, is acceptable, and lies in its own table. */
  lemma {:induction false} IngestInventsNothing(rows: seq<Stored>, events: seq<IngestEvent>, r: Stored)
    requires r in Ingest(rows, events).0 && r !in rows
    ensures r.event in events && Acceptable(r.event) && r.table == TableOf(r.event.kind)
  {
    if events != [] {
      var n := |events| - 1;
      var before := Ingest(rows, events[..n]).0;
      assert events == events[..n] + [events[n]];
      if r in before { IngestInventsNothing(rows, events[..n], r); }
    }
  }

  /** Once every acceptable event is on the server, a batch accepts nothing and changes nothing. */
  lemma {:induction false} KnownBatchIsIgnored(rows: seq<Stored>, events: seq<IngestEvent>)
    requires forall e :: e in events && Acceptable(e) ==> Holds(rows, e)
    ensures Ingest(rows, events).0 == rows && Ingest(rows, events).1.accepted == 0
  {
    if events != [] {
      var n := |events| - 1;
      assert events == events[..n] + [events[n]];
      KnownBatchIsIgnored(rows, events[..n]);
    }
  }

  /** Re-sending a batch, or any part of it, after any further batches, accepts zero. */
  lemma ResendAcceptsZero(
    rows: seq<Stored>, batch: seq<IngestEvent>, between: seq<IngestEvent>, again: seq<IngestEvent>)
    requires forall e :: e in again ==> e in batch
    ensures var later := Ingest(Ingest(rows, batch).0, between).0;
            Ingest(later, again).0 == later && Ingest(later, again).1.accepted == 0
  {
    var once := Ingest(rows, batch).0;
    var later := Ingest(once, between).0;
    IngestOnlyAdds(once, between);
    forall e | e in again && Acceptable(e) ensures Holds(later, e) {
      IngestHoldsAll(rows, batch, e);
      SeenGrows(once, later, TableOf(e.kind), e.id);
    }
    KnownBatchIsIgnored(later, again);
  }

  /** One id under two types: activity and idle intervals share a table, all other types do not. */
  lemma SameIdTwoTypes(a: IngestEvent, b: IngestEvent)
    requires Acceptable(a) && Acceptable(b) && a.id == b.id
    ensures var share := a.kind == b.kind || (a.kind in {ActivityInterval, Idle} && b.kind in {ActivityInterval, Idle});
            Ingest([], [a, b]).1 == if share then Counts(1, 1, 0) else Counts(2, 0, 0)
  {
    assert [a, b][..1] == [a] && [a][..0] == [];
    assert Ingest([], [a]).0 == [Stored(TableOf(a.kind), a)];
    var rows := Ingest([], [a]).0;
    assert rows[0].event.id == b.id;
    assert Seen(rows, TableOf(b.kind), b.id) <==> TableOf(a.kind) == TableOf(b.kind);
  }
}
