/**
  The agent and the server as one transition system. The agent enqueues at any time, sends the
  head of its queue, and deletes it only after a response; the network may lose, delay or repeat
  anything, requests and responses alike, and the agent may crash at any point.
*/
module SyncProtocol {
  import opened SyncModel

  /** What the flush loop of agent/src/Agent.Service/SyncWorker.cs is doing. */
  datatype Phase = Resting | Waiting(batch: seq<Queued>) | Answered(batch: seq<Queued>)

  /**
    wire: every batch ever sent, any of which may still reach the server; committed: those the
    server has stored at least once; history: every event the queue ever took in.
  */
  datatype System = System(
    queue: Queue,
    phase: Phase,
    wire: set<seq<Queued>>,
    committed: set<seq<Queued>>,
    server: seq<Stored>,
    history: seq<IngestEvent>)

  datatype Move =
    | Capture(event: IngestEvent)
    | Send
    | Commit(batch: seq<Queued>)
    | Respond
    | LoseResponse
    | Crash
    | Acknowledge

  const START := System(Queue([], 0), Resting, {}, {}, [], [])

  predicate Enabled(s: System, m: Move) {
    match m
    case Capture(_) => true
    case Send => s.phase.Resting? && s.queue.rows != []
    case Commit(batch) => batch in s.wire
    case Respond => s.phase.Waiting? && s.phase.batch in s.committed
    case LoseResponse => s.phase.Waiting?
    case Crash => true
    case Acknowledge => s.phase.Answered? && s.phase.batch != []
  }

  function Step(s: System, m: Move): System
    requires Enabled(s, m)
  {
    match m
    case Capture(e) =>
      s.(queue := Enqueue(s.queue, e), history := if Pending(s.queue, e.id) then s.history else s.history + [e])
    case Send =>
      var batch := Peek(s.queue, BATCH_SIZE);
      s.(phase := Waiting(batch), wire := s.wire + {batch})
    case Commit(batch) =>
      s.(server := Ingest(s.server, Events(batch)).0, committed := s.committed + {batch})
    case Respond => s.(phase := Answered(s.phase.batch))
    case LoseResponse => s.(phase := Resting)
    case Crash => s.(phase := Resting)
    case Acknowledge =>
      s.(queue := Ack(s.queue, s.phase.batch[|s.phase.batch| - 1].sequence), phase := Resting)
  }

  predicate InQueue(q: Queue, e: IngestEvent) {
    exists i :: 0 <= i < |q.rows| && q.rows[i].event == e
  }

  /** The batch in flight is still the head of the queue. */
  ghost predicate PhaseOk(s: System) {
    match s.phase
    case Resting => true
    case Waiting(batch) => batch != [] && batch <= s.queue.rows && batch in s.wire
    case Answered(batch) => batch != [] && batch <= s.queue.rows && batch in s.committed
  }

  ghost predicate WireOk(s: System) {
    s.committed <= s.wire &&
    (forall batch, q :: batch in s.wire && q in batch ==> q.event in s.history) &&
    (forall batch, q :: batch in s.committed && q in batch && Acceptable(q.event) ==> Holds(s.server, q.event))
  }

  ghost predicate ServerOk(s: System) {
    Unique(s.server) &&
    forall r :: r in s.server ==> r.event in s.history && Acceptable(r.event) && r.table == TableOf(r.event.kind)
  }

  /** Every event taken in is still queued or, if it can be stored at all, stored. */
  ghost predicate NothingLost(s: System) {
    forall e :: e in s.history ==> InQueue(s.queue, e) || !Acceptable(e) || Holds(s.server, e)
  }

  ghost predicate QueueKnown(s: System) {
    QueueOk(s.queue) && forall i :: 0 <= i < |s.queue.rows| ==> s.queue.rows[i].event in s.history
  }

  ghost predicate SysInv(s: System) {
    QueueKnown(s) && PhaseOk(s) && WireOk(s) && ServerOk(s) && NothingLost(s)
  }

  // ---------- each move keeps the invariant ----------

  lemma CaptureKeeps(s: System, e: IngestEvent)
    requires SysInv(s)
    ensures SysInv(Step(s, Capture(e)))
  {
    var s' := Step(s, Capture(e));
    EnqueueKeepsQueue(s.queue, e);
    assert s.queue.rows <= s'.queue.rows && s.history <= s'.history;
    forall x | x in s'.history ensures InQueue(s'.queue, x) || !Acceptable(x) || Holds(s'.server, x) {
      if x in s.history {
        if InQueue(s.queue, x) {
          var i :| 0 <= i < |s.queue.rows| && s.queue.rows[i].event == x;
          assert s'.queue.rows[i].event == x;
        }
      } else {
        assert s'.queue.rows[|s.queue.rows|].event == x;
      }
    }
    forall i | 0 <= i < |s'.queue.rows| ensures s'.queue.rows[i].event in s'.history {
      if i < |s.queue.rows| { assert s'.queue.rows[i] == s.queue.rows[i]; }
    }
  }

  lemma SendKeeps(s: System)
    requires SysInv(s) && Enabled(s, Send)
    ensures SysInv(Step(s, Send))
  {
    var batch := Peek(s.queue, BATCH_SIZE);
    forall q | q in batch ensures q.event in s.history {
      var i :| 0 <= i < |batch| && batch[i] == q;
      assert s.queue.rows[i] == q;
    }
    assert forall b, q :: b in s.wire && q in b ==> q.event in s.history;
  }

  lemma CommitKeeps(s: System, batch: seq<Queued>)
    requires SysInv(s) && Enabled(s, Commit(batch))
    ensures SysInv(Step(s, Commit(batch)))
  {
    var s' := Step(s, Commit(batch));
    var es := Events(batch);
    IngestKeepsUnique(s.server, es);
    IngestOnlyAdds(s.server, es);
    forall e | Holds(s.server, e) ensures Holds(s'.server, e) {
      SeenGrows(s.server, s'.server, TableOf(e.kind), e.id);
    }
    forall q | q in batch ensures q.event in es && q.event in s.history {
      var i :| 0 <= i < |batch| && batch[i] == q;
      assert es[i] == q.event;
    }
    forall q | q in batch && Acceptable(q.event) ensures Holds(s'.server, q.event) {
      IngestHoldsAll(s.server, es, q.event);
    }
    forall r | r in s'.server ensures r.event in s.history && Acceptable(r.event) && r.table == TableOf(r.event.kind) {
      if r !in s.server {
        IngestInventsNothing(s.server, es, r);
        var i :| 0 <= i < |es| && es[i] == r.event;
        assert batch[i] in batch;
      }
    }
    hide Ingest, Holds, Unique;
  }

  lemma BatchOrRest(q: Queue, batch: seq<Queued>, rest: Queue, e: IngestEvent)
    requires batch <= q.rows && rest.rows == q.rows[|batch|..] && InQueue(q, e)
    ensures InQueue(rest, e) || exists x :: x in batch && x.event == e
  {
    var i :| 0 <= i < |q.rows| && q.rows[i].event == e;
    if i < |batch| {
      assert batch[i] == q.rows[i] && batch[i] in batch;
    } else {
      assert rest.rows[i - |batch|].event == e;
    }
  }

  lemma AcknowledgeKeeps(s: System)
    requires SysInv(s) && Enabled(s, Acknowledge)
    ensures SysInv(Step(s, Acknowledge))
  {
    var batch, s' := s.phase.batch, Step(s, Acknowledge);
    AckRemovesExactly(s.queue, batch);
    hide Ack, After, Holds, Acceptable, InQueue, Unique, QueueOk;
    forall e | e in s.history ensures InQueue(s'.queue, e) || !Acceptable(e) || Holds(s'.server, e) {
      if InQueue(s.queue, e) { BatchOrRest(s.queue, batch, s'.queue, e); }
    }
  }

  lemma StepKeeps(s: System, m: Move)
    requires SysInv(s) && Enabled(s, m)
    ensures SysInv(Step(s, m))
  {
    match m
    case Capture(e) => CaptureKeeps(s, e);
    case Send => SendKeeps(s);
    case Commit(batch) => CommitKeeps(s, batch);
    case Acknowledge => AcknowledgeKeeps(s);
    case Respond | LoseResponse | Crash =>
  }

  // ---------- runs ----------

  /** The system after any sequence of moves; a move that is not enabled does nothing. */
  function Run(trace: seq<Move>): System {
    if trace == [] then START
    else
      var s, m := Run(trace[..|trace| - 1]), trace[|trace| - 1];
      if Enabled(s, m) then Step(s, m) else s
  }

  lemma {:induction false} RunKeeps(trace: seq<Move>)
    ensures SysInv(Run(trace))
  {
    if trace != [] {
      var s, m := Run(trace[..|trace| - 1]), trace[|trace| - 1];
      RunKeeps(trace[..|trace| - 1]);
      hide SysInv;
      if Enabled(s, m) { StepKeeps(s, m); }
    }
  }

  /**
    No loss: every event ever queued is in the queue, or the server has a row with its id in its
    table, or the server refuses it for what it is.
  */
  lemma NoEventIsLost(trace: seq<Move>, e: IngestEvent)
    requires e in Run(trace).history
    ensures InQueue(Run(trace).queue, e) || Holds(Run(trace).server, e) || e.kind.Unknown? || e.id == ""
  {
    RunKeeps(trace);
  }

  /** Acceptable events that the server cannot keep apart: it stores the first of them it sees. */
  predicate SameSlot(e: IngestEvent, f: IngestEvent) {
    Acceptable(f) && TableOf(f.kind) == TableOf(e.kind) && f.id == e.id
  }

  /**
    What the server has for an acceptable event that has left the queue is a captured event of the
    same table and id; so it is the event itself, payload and all, if no other one reuses its id.
  */
  lemma NoEventIsReplaced(trace: seq<Move>, e: IngestEvent)
    requires e in Run(trace).history && Acceptable(e)
    ensures var s := Run(trace);
            InQueue(s.queue, e) ||
            exists f :: f in s.history && SameSlot(e, f) && Stored(TableOf(e.kind), f) in s.server
    ensures var s := Run(trace);
            (forall f :: f in s.history && SameSlot(e, f) ==> f == e) ==>
              InQueue(s.queue, e) || Stored(TableOf(e.kind), e) in s.server
  {
    RunKeeps(trace);
    var s := Run(trace);
    if !InQueue(s.queue, e) {
      assert Holds(s.server, e);
      hide Run;
      var i :| 0 <= i < |s.server| && s.server[i].table == TableOf(e.kind) && s.server[i].event.id == e.id;
      assert s.server[i] in s.server;
      assert s.server[i] == Stored(TableOf(e.kind), s.server[i].event) && SameSlot(e, s.server[i].event);
    }
  }

  /** At most once and no invention: one row per table and id, each of an event that was queued. */
  lemma ServerStoresAtMostOnce(trace: seq<Move>)
    ensures Unique(Run(trace).server)
    ensures forall r :: r in Run(trace).server ==>
      r.event in Run(trace).history && Acceptable(r.event) && r.table == TableOf(r.event.kind)
  {
    RunKeeps(trace);
  }

  /** Whenever the queue is empty the server holds exactly the acceptable events, by table and id. */
  lemma EmptyQueueMeansDelivered(trace: seq<Move>, table: Table, id: string)
    requires Run(trace).queue.rows == []
    ensures Seen(Run(trace).server, table, id) <==>
            exists e :: e in Run(trace).history && Acceptable(e) && TableOf(e.kind) == table && e.id == id
  {
    RunKeeps(trace);
    var s := Run(trace);
    if Seen(s.server, table, id) {
      var i :| 0 <= i < |s.server| && s.server[i].table == table && s.server[i].event.id == id;
      assert s.server[i] in s.server;
    }
    if e :| e in s.history && Acceptable(e) && TableOf(e.kind) == table && e.id == id {
      assert !InQueue(s.queue, e);
    }
  }

  lemma AnsweredIsHead(s: System)
    requires SysInv(s) && s.phase.Answered?
    ensures Enabled(s, Acknowledge)
    ensures s.queue.rows == s.phase.batch + Step(s, Acknowledge).queue.rows
  {
    var batch := s.phase.batch;
    AckRemovesExactly(s.queue, batch);
    assert s.queue.rows == batch + s.queue.rows[|batch|..];
    hide Ack, After, WireOk, ServerOk, NothingLost, QueueOk;
  }

  /**
    An acknowledgement deletes precisely the batch that was sent, all of it already stored: rows
    captured after the batch was peeked, and rows beyond it, stay.
  */
  lemma AcknowledgeDropsOnlyTheBatch(trace: seq<Move>)
    requires Run(trace).phase.Answered?
    ensures var s := Run(trace);
            Enabled(s, Acknowledge) && s.queue.rows == s.phase.batch + Step(s, Acknowledge).queue.rows &&
            forall q :: q in s.phase.batch && Acceptable(q.event) ==> Holds(s.server, q.event)
  {
    RunKeeps(trace);
    AnsweredIsHead(Run(trace));
    hide Run, Step, Holds, ServerOk, NothingLost, QueueOk;
  }

  // ---------- draining ----------

  /** One flush that reaches the server and is answered; an empty queue sends nothing. */
  function Flush(s: System): System {
    if s.queue.rows == [] then s
    else
      var batch := Peek(s.queue, BATCH_SIZE);
      s.(queue := Ack(s.queue, batch[|batch| - 1].sequence),
         wire := s.wire + {batch},
         committed := s.committed + {batch},
         server := Ingest(s.server, Events(batch)).0)
  }

  function Flushes(s: System, k: nat): System {
    if k == 0 then s else Flush(Flushes(s, k - 1))
  }

  /** A successful flush is the four moves send, commit, respond, acknowledge. */
  lemma FlushIsFourMoves(s: System)
    requires s.phase.Resting? && s.queue.rows != []
    ensures Enabled(s, Send)
    ensures var sent := Step(s, Send);
            var batch := sent.phase.batch;
            Enabled(sent, Commit(batch)) &&
            Enabled(Step(sent, Commit(batch)), Respond) &&
            Enabled(Step(Step(sent, Commit(batch)), Respond), Acknowledge) &&
            Step(Step(Step(sent, Commit(batch)), Respond), Acknowledge) == Flush(s)
  {
  }

  lemma FlushKeeps(s: System)
    requires SysInv(s) && s.phase.Resting?
    ensures SysInv(Flush(s)) && Flush(s).phase.Resting? && Flush(s).history == s.history
    ensures Flush(s).queue.rows == if |s.queue.rows| <= BATCH_SIZE then [] else s.queue.rows[BATCH_SIZE..]
  {
    if s.queue.rows != [] {
      FlushIsFourMoves(s);
      SendKeeps(s);
      var sent := Step(s, Send);
      CommitKeeps(sent, sent.phase.batch);
      AcknowledgeKeeps(Step(Step(sent, Commit(sent.phase.batch)), Respond));
      AckRemovesExactly(s.queue, sent.phase.batch);
    }
  }

  lemma {:induction false} FlushesLeave(s: System, k: nat)
    requires SysInv(s) && s.phase.Resting?
    ensures var s' := Flushes(s, k);
            SysInv(s') && s'.phase.Resting? && s'.history == s.history &&
            |s'.queue.rows| == if |s.queue.rows| <= k * BATCH_SIZE then 0 else |s.queue.rows| - k * BATCH_SIZE
  {
    hide SysInv, Flush;
    if k > 0 {
      FlushesLeave(s, k - 1);
      FlushKeeps(Flushes(s, k - 1));
    }
  }

  /**
    With no new captures, n queued events drain in exactly n/200 successful flushes, rounded up:
    k of them empty the queue if and only if k is at least that many; and then every acceptable
    event ever queued is on the server.
  */
  lemma DrainsInExactly(trace: seq<Move>, k: nat)
    requires Run(trace).phase.Resting?
    ensures var s := Run(trace); Flushes(s, k).queue.rows == [] <==> k >= (|s.queue.rows| + 199) / 200
    ensures var s := Run(trace);
            Flushes(s, k).queue.rows == [] ==>
              forall e :: e in s.history && Acceptable(e) ==> Holds(Flushes(s, k).server, e)
  {
    RunKeeps(trace);
    FlushesLeave(Run(trace), k);
    hide Run, Flushes, Holds, Acceptable;
  }
}
