/** Conservation and order: every delivery is in exactly one place, gets at most one result
    message, and instructions start in the order they arrived. */
module Conservation {
  import opened Executor
  import opened Pipeline

  // ---------- the queue ----------

  /** Deliveries below this index are no longer with the reader. */
  function Handled(s: State): int {
    if s.reader == Idle then |s.arrivals| else |s.arrivals| - 1
  }

  ghost predicate InOrder(ts: seq<Ticket>, bound: int) {
    && (forall i, j :: 0 <= i < j < |ts| ==> ts[i].delivery < ts[j].delivery)
    && forall i :: 0 <= i < |ts| ==> ts[i].delivery < bound && |ts[i].steps| > 0
  }

  ghost predicate ReaderShape(s: State) {
    && |s.fates| == |s.arrivals| && (s.reader != Idle ==> s.arrivals != [])
    && (s.reader.AtPortfolio? || s.reader.AtQueue? ==>
          s.reader.ticket.delivery == |s.arrivals| - 1 && |s.reader.ticket.steps| > 0)
  }

  ghost predicate WorkerShape(s: State) {
    s.worker.Running? ==>
      s.started != [] && s.started[|s.started| - 1] == s.worker.ticket && s.worker.done < |s.worker.ticket.steps|
  }

  /** First in, first out: what was started, followed by the queue, is what was enqueued,
      and that is in order of arrival; the queue never exceeds its capacity. */
  ghost predicate Fifo(s: State) {
    && ReaderShape(s) && WorkerShape(s)
    && s.started + s.queue == s.enqueued && |s.stamps| == |s.started| == |s.transcripts| && |s.queue| <= QUEUE_CAPACITY
    && InOrder(s.enqueued, Handled(s))
  }

  lemma ReaderKeepsFifo(w: World, s: State, e: Event, s': State)
    requires Fifo(s) && ReaderStep(w, s, e, s')
    ensures Fifo(s')
  {
    ReaderStepKinds(w, s, e, s');
    if Advances(s, s') {
      AdvanceKeepsReaderShape(w, s, e, s');
    } else if s' == Drop(s) || s' == Reject(s) {
      LeaveKeepsFifo(s);
    } else {
      PutKeepsFifo(s);
    }
  }

  lemma PutKeepsFifo(s: State)
    requires Fifo(s) && s.reader.AtQueue? && |s.queue| < QUEUE_CAPACITY && |s.fates| > 0
    ensures Fifo(Put(s))
  {
    assert s.started + (s.queue + [s.reader.ticket]) == (s.started + s.queue) + [s.reader.ticket];
  }

  lemma LeaveKeepsFifo(s: State)
    requires Fifo(s) && s.reader != Idle && |s.fates| > 0
    ensures Fifo(Drop(s)) && Fifo(Reject(s))
  {}

  lemma AdvanceKeepsReaderShape(w: World, s: State, e: Event, s': State)
    requires ReaderShape(s) && ReaderStep(w, s, e, s') && Advances(s, s')
    ensures ReaderShape(s')
  {}

  lemma BeginKeepsFifo(s: State)
    requires Fifo(s) && s.queue != [] && s.queue[0].delivery < |s.fates|
    ensures Fifo(Begin(s))
  {
    assert s.enqueued[|s.started|] == s.queue[0];
    assert s.started + s.queue == (s.started + [s.queue[0]]) + s.queue[1..];
  }

  lemma ExecuteKeepsFifo(w: World, s: State, e: Event, s': State)
    requires Fifo(s) && e.Execute? && WorkerStep(w, s, e, s')
    ensures Fifo(s')
  {}

  lemma StepKeepsFifo(w: World, s: State, e: Event, s': State)
    requires Fifo(s) && Step(w, s, e, s')
    ensures Fifo(s')
  {
    match e
    case Take => BeginKeepsFifo(s);
    case Execute(_) => ExecuteKeepsFifo(w, s, e, s');
    case Tick(_) | Arrive(_) | TripCallback | ServerPause(_) | Stop =>
    case _ => ReaderKeepsFifo(w, s, e, s');
  }

  // ---------- where every delivery is ----------

  /** Where the k-th enqueued ticket is. */
  function Place(s: State, k: int): Fate {
    if k >= |s.started| then Queued
    else if k == |s.started| - 1 && s.worker.Running? then Executing
    else Completed
  }

  ghost predicate Placed(s: State) {
    forall k :: 0 <= k < |s.enqueued| ==>
      s.enqueued[k].delivery < |s.fates| && s.fates[s.enqueued[k].delivery] == Place(s, k)
  }

  ghost predicate Has(ts: seq<Ticket>, d: nat) {
    exists k :: 0 <= k < |ts| && ts[k].delivery == d
  }

  /** A delivery that was never enqueued is still with the reader, or was dropped or rejected. */
  ghost predicate NeverQueued(s: State) {
    forall d: nat :: d < |s.fates| && !Has(s.enqueued, d) ==>
      if d >= Handled(s) then s.fates[d] == InReader else s.fates[d] == Dropped || s.fates[d] == Rejected
  }

  function AnswersDue(fates: seq<Fate>, d: nat): nat {
    if d < |fates| && (fates[d] == Rejected || fates[d] == Completed) then 1 else 0
  }

  /** One result message for every rejected or completed delivery, none for any other. */
  ghost predicate Answered(s: State) {
    forall d: nat :: multiset(s.results)[d] == AnswersDue(s.fates, d)
  }

  ghost predicate Tracked(s: State) {
    Placed(s) && NeverQueued(s) && Answered(s)
  }

  lemma LeaveKeepsTracked(s: State, d: nat)
    requires Fifo(s) && Tracked(s) && s.reader != Idle && |s.fates| > 0 && d == |s.fates| - 1
    ensures Tracked(Drop(s)) && Tracked(Reject(s))
  {
    assert !Has(s.enqueued, d);
    assert s.fates[d] == InReader;
  }

  lemma PutKeepsTracked(s: State)
    requires Fifo(s) && Tracked(s) && s.reader.AtQueue? && |s.queue| < QUEUE_CAPACITY && |s.fates| > 0
    ensures Tracked(Put(s))
  {
    var s' := Put(s);
    assert s.fates[|s.fates| - 1] == InReader by { assert !Has(s.enqueued, |s.fates| - 1); }
    HasGrows(s.enqueued, s.reader.ticket);
  }

  lemma HasGrows(ts: seq<Ticket>, t: Ticket)
    ensures forall d: nat :: Has(ts + [t], d) <==> Has(ts, d) || d == t.delivery
  {
    forall d: nat ensures Has(ts + [t], d) <==> Has(ts, d) || d == t.delivery {
      if Has(ts, d) {
        var k :| 0 <= k < |ts| && ts[k].delivery == d;
        assert (ts + [t])[k].delivery == d;
      }
      assert (ts + [t])[|ts|] == t;
    }
  }

  /** The ticket of the running instruction, and that of the queue's head, by position. */
  lemma PositionsInQueue(s: State)
    requires Fifo(s)
    ensures s.worker.Running? ==> s.enqueued[|s.started| - 1] == s.worker.ticket
    ensures s.queue != [] ==> s.enqueued[|s.started|] == s.queue[0]
  {}

  lemma BeginKeepsTracked(s: State)
    requires Fifo(s) && Tracked(s) && s.worker == Resting && s.queue != [] && s.queue[0].delivery < |s.fates|
    ensures Tracked(Begin(s))
  {
    PositionsInQueue(s);
    assert Has(s.enqueued, s.queue[0].delivery);
  }

  lemma FinishKeepsTracked(s: State)
    requires Fifo(s) && Tracked(s) && s.worker.Running? && s.worker.ticket.delivery < |s.fates|
    ensures Tracked(Finish(s))
  {
    PositionsInQueue(s);
    assert Has(s.enqueued, s.worker.ticket.delivery);
  }

  lemma ArriveKeepsTracked(s: State, s': State)
    requires Fifo(s) && Tracked(s) && s.reader == Idle && s'.reader != Idle
    requires s' == s.(reader := s'.reader, arrivals := s'.arrivals, fates := s.fates + [InReader])
        && |s'.arrivals| == |s.arrivals| + 1
    ensures Tracked(s')
  {}

  /** Steps that touch neither the fates, the tickets nor the results. */
  ghost predicate SameTracks(s: State, s': State) {
    && s'.fates == s.fates && s'.enqueued == s.enqueued && s'.started == s.started && s'.results == s.results
    && s'.worker.Running? == s.worker.Running? && Handled(s') == Handled(s)
  }

  lemma SameTracksKeepTracked(s: State, s': State)
    requires Tracked(s) && SameTracks(s, s')
    ensures Tracked(s')
  {}

  lemma ReaderKeepsTracked(w: World, s: State, e: Event, s': State)
    requires Fifo(s) && Tracked(s) && ReaderStep(w, s, e, s')
    ensures Tracked(s')
  {
    ReaderStepKinds(w, s, e, s');
    if Advances(s, s') {
      SameTracksKeepTracked(s, s');
    } else if s' == Drop(s) || s' == Reject(s) {
      LeaveKeepsTracked(s, |s.fates| - 1);
    } else {
      PutKeepsTracked(s);
    }
  }

  lemma ExecuteKeepsTracked(w: World, s: State, reply: Reply, s': State)
    requires Fifo(s) && Tracked(s) && WorkerStep(w, s, Execute(reply), s')
    ensures Tracked(s')
  {
    if s'.worker == Resting {
      FinishKeepsTracked(s);
      SameTracksKeepTracked(Finish(s), s');
    } else {
      SameTracksKeepTracked(s, s');
    }
  }

  lemma StepKeepsTracked(w: World, s: State, e: Event, s': State)
    requires Fifo(s) && Tracked(s) && Step(w, s, e, s')
    ensures Tracked(s')
  {
    match e
    case Take => BeginKeepsTracked(s);
    case Execute(reply) => ExecuteKeepsTracked(w, s, reply, s');
    case Arrive(_) => ArriveKeepsTracked(s, s');
    case Tick(_) | TripCallback | ServerPause(_) | Stop => SameTracksKeepTracked(s, s');
    case _ => ReaderKeepsTracked(w, s, e, s');
  }

  // ---------- what the invariants mean ----------

  /** A delivery's fate says exactly where it is, and whether it was answered: deliveries
      that were rejected or completed have one result message, all others none. */
  lemma EachInOnePlace(s: State, d: nat)
    requires Fifo(s) && Tracked(s) && d < |s.arrivals|
    ensures s.fates[d] == InReader <==> s.reader != Idle && d == |s.arrivals| - 1
    ensures s.fates[d] == Queued <==> Has(s.queue, d)
    ensures s.fates[d] == Executing <==> s.worker.Running? && s.worker.ticket.delivery == d
    ensures s.fates[d] == Completed <==> Has(s.started, d) && !(s.worker.Running? && s.worker.ticket.delivery == d)
    ensures multiset(s.results)[d] == if s.fates[d] == Rejected || s.fates[d] == Completed then 1 else 0
  {
    PositionsInQueue(s);
    HasSplits(s.started, s.queue, d);
    if k :| 0 <= k < |s.enqueued| && s.enqueued[k].delivery == d {
      TicketPosition(s.started, s.queue, Handled(s), d, k);
    } else {
      assert !Has(s.enqueued, d);
    }
  }

  lemma HasSplits(a: seq<Ticket>, b: seq<Ticket>, d: nat)
    ensures Has(a + b, d) <==> Has(a, d) || Has(b, d)
  {
    if k :| 0 <= k < |a| && a[k].delivery == d { assert (a + b)[k].delivery == d; }
    if k :| 0 <= k < |b| && b[k].delivery == d { assert (a + b)[|a| + k].delivery == d; }
    if k :| 0 <= k < |a + b| && (a + b)[k].delivery == d { assert k < |a| ==> a[k].delivery == d; }
  }

  /** In a sequence in order of delivery, a delivery has one position only. */
  lemma TicketPosition(a: seq<Ticket>, b: seq<Ticket>, bound: int, d: nat, k: nat)
    requires InOrder(a + b, bound) && k < |a + b| && (a + b)[k].delivery == d
    ensures Has(a, d) <==> k < |a|
    ensures Has(b, d) <==> k >= |a|
    ensures forall j :: 0 <= j < |a + b| && (a + b)[j].delivery == d ==> j == k
  {
    var ab := a + b;
    forall j | 0 <= j < |ab| && ab[j].delivery == d ensures j == k {}
    if i :| 0 <= i < |a| && a[i].delivery == d { assert ab[i].delivery == d; }
    if i :| 0 <= i < |b| && b[i].delivery == d { assert ab[|a| + i].delivery == d; }
    if k < |a| { assert a[k].delivery == d; } else { assert b[k - |a|].delivery == d; }
  }
}
