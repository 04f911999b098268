/** The queue, the flush loop and the ingestion tables as objects that change in place. */
module SyncAgent {
  import opened SyncModel

  /** agent/src/Agent.Service/SqliteEventQueue.cs */
  class EventQueue {
    var rows: seq<Queued>
    var last: nat

    ghost function Contents(): Queue
      reads this
    {
      Queue(rows, last)
    }

    ghost predicate Valid()
      reads this
    {
      QueueOk(Contents())
    }

    constructor ()
      ensures Valid() && Contents() == Queue([], 0)
    {
      rows, last := [], 0;
    }

    method Enqueue(e: IngestEvent)
      requires Valid()
      modifies this
      ensures Valid() && Contents() == SyncModel.Enqueue(old(Contents()), e)
    {
      EnqueueKeepsQueue(Contents(), e);
      for i := 0 to |rows|
        invariant forall j :: 0 <= j < i ==> rows[j].event.id != e.id
      {
        if rows[i].event.id == e.id { return; }
      }
      last := last + 1;
      rows := rows + [Queued(last, e)];
    }

    /** Reads at most max rows from the front, in sequence order. */
    method PeekBatch(max: nat) returns (list: seq<Queued>)
      requires Valid()
      ensures list == Peek(Contents(), max)
      ensures forall i, j :: 0 <= i < |list| <= j < |rows| ==> list[i].sequence < rows[j].sequence
    {
      list := [];
      while |list| < max && |list| < |rows|
        invariant |list| <= |rows| && |list| <= max && list == rows[..|list|]
      {
        list := list + [rows[|list|]];
      }
    }

    /** Deletes every row through the sequence. */
    method AckThrough(through: nat)
      requires Valid()
      modifies this`rows
      ensures Valid() && Contents() == Ack(old(Contents()), through)
    {
      AckKeepsQueue(Contents(), through);
      var kept := [];
      for i := 0 to |rows|
        invariant kept == After(rows[..i], through)
      {
        assert rows[..i + 1][..i] == rows[..i];
        if rows[i].sequence > through {
          kept := kept + [rows[i]];
        }
      }
      assert rows[..|rows|] == rows;
      rows := kept;
    }
  }

  /** backend/app/ingestion/service.py */
  class IngestServer {
    var rows: seq<Stored>

    constructor ()
      ensures rows == []
    {
      rows := [];
    }

    method HasSeen(table: Table, id: string) returns (found: bool)
      ensures found <==> Seen(rows, table, id)
    {
      for i := 0 to |rows|
        invariant !Seen(rows[..i], table, id)
      {
        if rows[i].table == table && rows[i].event.id == id { return true; }
      }
      assert rows[..|rows|] == rows;
      return false;
    }

    method IngestBatch(events: seq<IngestEvent>) returns (accepted: nat, duplicates: nat, rejected: nat)
      modifies this
      ensures (rows, Counts(accepted, duplicates, rejected)) == Ingest(old(rows), events)
      ensures accepted + duplicates + rejected == |events|
      ensures Unique(old(rows)) ==> Unique(rows)
      ensures forall e :: e in events && Acceptable(e) ==> Holds(rows, e)
    {
      accepted, duplicates, rejected := 0, 0, 0;
      for i := 0 to |events|
        invariant (rows, Counts(accepted, duplicates, rejected)) == Ingest(old(rows), events[..i])
      {
        assert events[..i + 1][..i] == events[..i];
        var e := events[i];
        if e.kind.Unknown? || e.id == "" {
          rejected := rejected + 1;
          continue;
        }
        var seen := HasSeen(TableOf(e.kind), e.id);
        if seen {
          duplicates := duplicates + 1;
          continue;
        }
        rows := rows + [Stored(TableOf(e.kind), e)];
        accepted := accepted + 1;
      }
      assert events[..|events|] == events;
      CountsAddUp(old(rows), events);
      if Unique(old(rows)) { IngestKeepsUnique(old(rows), events); }
      forall e | e in events && Acceptable(e) ensures Holds(rows, e) {
        IngestHoldsAll(old(rows), events, e);
      }
    }
  }

  /** What the network does to one flush. */
  datatype Delivery = Unreachable | ResponseLost | Delivered

  const MAX_BACKOFF: nat := 120

  /** Seconds to back off after n failures in a row: 5, doubled each time, at most 120. */
  function Backoff(n: nat): nat {
    if n == 0 then 0
    else if n == 1 then 5
    else if Backoff(n - 1) * 2 < MAX_BACKOFF then Backoff(n - 1) * 2 else MAX_BACKOFF
  }

  function Pow2(n: nat): nat {
    if n == 0 then 1 else 2 * Pow2(n - 1)
  }

  /** The doubling has the closed form min(5 * 2^(n-1), 120), so a pause never exceeds two minutes. */
  lemma {:induction false} BackoffClosedForm(n: nat)
    requires n > 0
    ensures Backoff(n) == if 5 * Pow2(n - 1) < 120 then 5 * Pow2(n - 1) else 120
  {
    if n > 1 { BackoffClosedForm(n - 1); }
  }

  lemma {:induction false} BackoffPositive(n: nat)
    ensures Backoff(n) == 0 <==> n == 0
    ensures Backoff(n) <= MAX_BACKOFF
  {
    if n > 1 { BackoffPositive(n - 1); }
  }

  /** How many of the last flushes failed in a row. */
  function FailuresInARow(oks: seq<bool>): nat {
    if oks == [] || oks[|oks| - 1] then 0 else 1 + FailuresInARow(oks[..|oks| - 1])
  }

  const INTERVAL: nat := 15

  /** The pause after each flush: the normal interval, or the back-off of the failures so far. */
  function Pauses(oks: seq<bool>): seq<nat> {
    if oks == [] then []
    else Pauses(oks[..|oks| - 1]) + [if oks[|oks| - 1] then INTERVAL else Backoff(FailuresInARow(oks))]
  }

  /**
    The pauses one after the other, in seconds: 15 after a success, 5 after a first failure, and
    after a repeated one twice the pause before, up to 120.
  */
  lemma {:induction false} PauseAfterPause(oks: seq<bool>, i: nat)
    requires i < |oks|
    ensures |Pauses(oks)| == |oks|
    ensures oks[i] ==> Pauses(oks)[i] == 15
    ensures !oks[i] && (i == 0 || oks[i - 1]) ==> Pauses(oks)[i] == 5
    ensures !oks[i] && i > 0 && !oks[i - 1] ==>
              Pauses(oks)[i] == if Pauses(oks)[i - 1] * 2 < 120 then Pauses(oks)[i - 1] * 2 else 120
  {
    var n := |oks| - 1;
    PausesLength(oks);
    PausesLength(oks[..n]);
    if i < n {
      PauseAfterPause(oks[..n], i);
    } else if n > 0 {
      PauseAfterPause(oks[..n], n - 1);
      LastPause(oks[..n]);
    }
  }

  lemma {:induction false} PausesLength(oks: seq<bool>)
    ensures |Pauses(oks)| == |oks|
  {
    if oks != [] { PausesLength(oks[..|oks| - 1]); }
  }

  lemma LastPause(oks: seq<bool>)
    requires oks != []
    ensures |Pauses(oks)| == |oks|
    ensures !oks[|oks| - 1] ==> Pauses(oks)[|oks| - 1] == Backoff(FailuresInARow(oks)) && FailuresInARow(oks) > 0
  {
    PausesLength(oks[..|oks| - 1]);
  }

  function Successes(oks: seq<bool>): nat {
    if oks == [] then 0 else Successes(oks[..|oks| - 1]) + (if oks[|oks| - 1] then 1 else 0)
  }

  /** The rows left are the end of those before, and the server holds what it accepts of the others. */
  ghost predicate SentPrefix(before: seq<Queued>, after: seq<Queued>, stored: seq<Stored>) {
    |after| <= |before| && after == before[|before| - |after|..] &&
    forall i :: 0 <= i < |before| - |after| && Acceptable(before[i].event) ==> Holds(stored, before[i].event)
  }

  lemma SentPrefixGrows(
    before: seq<Queued>, mid: seq<Queued>, after: seq<Queued>, stored: seq<Stored>, later: seq<Stored>)
    requires SentPrefix(before, mid, stored) && SentPrefix(mid, after, later) && stored <= later
    ensures SentPrefix(before, after, later)
  {
    var k := |before| - |mid|;
    assert forall i :: k <= i < |before| ==> before[i] == mid[i - k];
    forall i | 0 <= i < |before| - |after| && Acceptable(before[i].event) ensures Holds(later, before[i].event) {
      if i < k {
        SeenGrows(stored, later, TableOf(before[i].event.kind), before[i].event.id);
      } else {
        assert mid[i - k] == before[i];
      }
    }
  }

  lemma QueueKeepsAll(rows: seq<Queued>, stored: seq<Stored>)
    ensures SentPrefix(rows, rows, stored)
  {
  }

  /** How many of n rows are left after k successful flushes. */
  function Left(n: nat, k: nat): nat {
    if n <= k * BATCH_SIZE then 0 else n - k * BATCH_SIZE
  }

  lemma NoFlushYet(n: nat)
    ensures forall oks: seq<bool> :: oks == [] ==>
              Backoff(FailuresInARow(oks)) == 0 && Pauses(oks) == [] && Left(n, Successes(oks)) == n
  {
  }

  /** What one more flush does to the failures in a row, the back-off, the pauses and the rows left of n. */
  lemma OneMoreFlush(n: nat, oks: seq<bool>, ok: bool)
    ensures var more := oks + [ok];
            var backoff, next := Backoff(FailuresInARow(oks)), Backoff(FailuresInARow(more));
            next == (if ok then 0 else if backoff == 0 then 5
                     else if backoff * 2 < MAX_BACKOFF then backoff * 2 else MAX_BACKOFF) &&
            (next == 0 <==> ok) &&
            Pauses(more) == Pauses(oks) + [if next == 0 then INTERVAL else next] &&
            Left(n, Successes(more)) == Left(Left(n, Successes(oks)), if ok then 1 else 0)
  {
    assert (oks + [ok])[..|oks|] == oks;
    BackoffPositive(FailuresInARow(oks));
    BackoffPositive(FailuresInARow(oks + [ok]));
  }

  /** agent/src/Agent.Service/SyncWorker.cs */
  class SyncWorker {
    const queue: EventQueue
    const server: IngestServer

    constructor (queue: EventQueue, server: IngestServer)
      ensures this.queue == queue && this.server == server
    {
      this.queue, this.server := queue, server;
    }

    /**
      Peek, send, acknowledge. Unless the response arrives the queue keeps every row; when it
      does, exactly the sent rows leave, and all of them that can be stored are on the server.
    */
    method FlushOnce(delivery: Delivery) returns (ok: bool)
      requires queue.Valid()
      modifies queue, server
      ensures queue.Valid() && (Unique(old(server.rows)) ==> Unique(server.rows))
      ensures old(server.rows) <= server.rows
      ensures ok <==> delivery.Delivered? || old(queue.rows) == []
      ensures !ok ==> queue.Contents() == old(queue.Contents())
      ensures SentPrefix(old(queue.rows), queue.rows, server.rows)
      ensures |queue.rows| == Left(|old(queue.rows)|, if ok then 1 else 0)
      ensures old(queue.rows) == [] || delivery.Unreachable? ==> server.rows == old(server.rows)
      ensures var batch := Peek(old(queue.Contents()), BATCH_SIZE);
              (ok ==> old(queue.rows) == batch + queue.rows) &&
              (batch != [] && !delivery.Unreachable? ==>
                 server.rows == Ingest(old(server.rows), Events(batch)).0 &&
                 forall q :: q in batch && Acceptable(q.event) ==> Holds(server.rows, q.event))
    {
      var batch := queue.PeekBatch(BATCH_SIZE);
      QueueKeepsAll(queue.rows, server.rows);
      if |batch| == 0 { return true; }
      QueueKeepsAll(queue.rows, Ingest(server.rows, Events(batch)).0);
      var events := Events(batch);
      IngestOnlyAdds(server.rows, events);
      if delivery.Unreachable? { return false; }
      var _, _, _ := server.IngestBatch(events);
      forall q | q in batch && Acceptable(q.event) ensures Holds(server.rows, q.event) {
        assert q.event in events by {
          var i :| 0 <= i < |batch| && batch[i] == q;
          assert events[i] == q.event;
        }
      }
      if delivery.ResponseLost? { return false; }
      AckRemovesExactly(queue.Contents(), batch);
      queue.AckThrough(batch[|batch| - 1].sequence);
      return true;
    }

    /**
      The loop of ExecuteAsync over any sequence of network outcomes: the pause after each flush, and
      what is left of the queue, every row that is gone being held by the server if it accepts it.
    */
    method Execute(deliveries: seq<Delivery>) returns (oks: seq<bool>, pauses: seq<nat>)
      requires queue.Valid()
      modifies queue, server
      ensures queue.Valid() && |oks| == |pauses| == |deliveries|
      ensures Unique(old(server.rows)) ==> Unique(server.rows)
      ensures pauses == Pauses(oks)
      ensures SentPrefix(old(queue.rows), queue.rows, server.rows)
      ensures |queue.rows| == Left(|old(queue.rows)|, Successes(oks))
      ensures forall i :: 0 <= i < |oks| ==>
                (oks[i] <==> deliveries[i].Delivered? || Left(|old(queue.rows)|, Successes(oks[..i])) == 0)
    {
      hide Unique, QueueOk, Ingest, Holds, Acceptable, Peek, SentPrefix;
      hide Backoff, FailuresInARow, Pauses, Left, Successes;
      QueueKeepsAll(queue.rows, server.rows);
      NoFlushYet(|queue.rows|);
      oks, pauses := [], [];
      var backoff: nat := 0;
      for i := 0 to |deliveries|
        invariant queue.Valid() && |oks| == |pauses| == i
        invariant Unique(old(server.rows)) ==> Unique(server.rows)
        invariant backoff == Backoff(FailuresInARow(oks))
        invariant pauses == Pauses(oks)
        invariant SentPrefix(old(queue.rows), queue.rows, server.rows)
        invariant |queue.rows| == Left(|old(queue.rows)|, Successes(oks))
        invariant forall j :: 0 <= j < i ==>
          (oks[j] <==> deliveries[j].Delivered? || Left(|old(queue.rows)|, Successes(oks[..j])) == 0)
      {
        ghost var rows, stored := queue.rows, server.rows;
        var ok := FlushOnce(deliveries[i]);
        SentPrefixGrows(old(queue.rows), rows, queue.rows, stored, server.rows);
        OneMoreFlush(|old(queue.rows)|, oks, ok);
        assert forall j :: 0 <= j <= i ==> (oks + [ok])[..j] == oks[..j];
        assert oks[..i] == oks;
        oks := oks + [ok];
        if ok {
          backoff := 0;
        } else if backoff == 0 {
          backoff := 5;
        } else {
          backoff := if backoff * 2 < MAX_BACKOFF then backoff * 2 else MAX_BACKOFF;
        }
        pauses := pauses + [if backoff == 0 then INTERVAL else backoff];
      }
    }
  }
}
