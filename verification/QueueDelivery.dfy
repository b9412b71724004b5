/** What a reader of the notification backlog receives over whole runs. */
module QueueDelivery {
  import opened Bytes
  import opened NotificationQueue
  import opened Options

  datatype Op = Append(record: Record) | Take(after: nat) | Finish(err: Option<Error>) | Close

  /** One thing that happened to a record or a reader, in the order it happened. */
  datatype Event =
    | Accepted(record: Record)
    | Refused(record: Record, err: Error)
    | Returned(record: Record, after: nat)
    | Skipped(record: Record, after: nat)
    | Waited(after: nat)
    | Failed(after: nat, err: Error)

  function TakeEvents(q: Queue, after: nat): seq<Event>
    decreases |q.records|
  {
    if q.closed then [Failed(after, Closed)]
    else if q.records == [] then [if q.finished then Failed(after, EndError(q)) else Waited(after)]
    else if q.records[0].sequence > after then [Returned(q.records[0], after)]
    else [Skipped(q.records[0], after)] + TakeEvents(q.(records := q.records[1..]), after)
  }

  function Step(q: Queue, op: Op): (Queue, seq<Event>)
  {
    match op
    case Append(r) =>
      var (q', e) := AppendTo(q, r);
      (q', [if e.None? then Accepted(r) else Refused(r, e.value)])
    case Take(after) => (TakeFrom(q, after).0, TakeEvents(q, after))
    case Finish(err) => (FinishWith(q, err), [])
    case Close => (CloseOf(q), [])
  }

  function Run(limit: int, ops: seq<Op>): (Queue, seq<Event>)
  {
    if ops == [] then (Queue(limit, [], false, None, false), [])
    else
      var (q, log) := Run(limit, ops[..|ops| - 1]);
      var (q', events) := Step(q, ops[|ops| - 1]);
      (q', log + events)
  }

  /** The records accepted, in order. */
  function AcceptedIn(log: seq<Event>): seq<Record>
  {
    if log == [] then []
    else
      var e := log[|log| - 1];
      AcceptedIn(log[..|log| - 1]) + if e.Accepted? then [e.record] else []
  }

  /** The records that left the queue, returned or skipped, in order. */
  function ConsumedIn(log: seq<Event>): seq<Record>
  {
    if log == [] then []
    else
      var e := log[|log| - 1];
      ConsumedIn(log[..|log| - 1]) + if e.Returned? || e.Skipped? then [e.record] else []
  }

  /** A record is returned only to a reader whose position it is above, and skipped only
      when it is not. */
  predicate Sound(e: Event)
  {
    && (e.Returned? ==> e.record.sequence > e.after)
    && (e.Skipped? ==> e.record.sequence <= e.after)
  }

  /** Whether an event tells its caller that the stream has ended. */
  predicate Terminal(e: Event)
  {
    (e.Failed? && e.err != Closed) || e.Refused?
  }

  /** At a terminal event nothing more is ever accepted; and a reader is told of the end
      only after the whole accepted prefix has been returned to it or skipped. */
  ghost predicate EndsAt(log: seq<Event>, i: nat)
    requires i < |log|
  {
    && (Terminal(log[i]) ==> AcceptedIn(log[..i]) == AcceptedIn(log))
    && (log[i].Failed? && log[i].err != Closed ==> ConsumedIn(log[..i]) == AcceptedIn(log[..i]))
  }

  ghost predicate Faithful(q: Queue, log: seq<Event>)
  {
    && ConsumedIn(log) <= AcceptedIn(log)
    && (!q.closed ==> AcceptedIn(log) == ConsumedIn(log) + q.records)
    && (forall i :: 0 <= i < |log| ==> Sound(log[i]))
    && (forall i :: 0 <= i < |log| ==> EndsAt(log, i))
    && (!q.closed && !q.finished ==> forall i :: 0 <= i < |log| ==> !Terminal(log[i]))
  }

  /** What one take removes and answers: it passes over exactly the n records not above
      `after`, and stops at the first one that is. */
  lemma {:induction false} TakeIsExact(q: Queue, after: nat) returns (n: nat)
    requires !q.closed
    ensures n <= |q.records| && forall i :: 0 <= i < n ==> q.records[i].sequence <= after
    ensures n < |q.records| ==>
              && q.records[n].sequence > after
              && TakeFrom(q, after) == (q.(records := q.records[n + 1..]), Delivered(q.records[n].text))
    ensures n == |q.records| ==>
              TakeFrom(q, after) == (q.(records := []), if q.finished then Ended(EndError(q)) else Wait)
    decreases |q.records|
  {
    if q.records == [] || q.records[0].sequence > after {
      n := 0;
    } else {
      var rest := q.(records := q.records[1..]);
      n := TakeIsExact(rest, after);
      n := n + 1;
    }
  }

  /** What the reader is told by an event of its take. */
  function ToldBy(e: Event): Option<Taken>
  {
    match e
    case Returned(r, _) => Some(Delivered(r.text))
    case Waited(_) => Some(Wait)
    case Failed(_, err) => Some(Ended(err))
    case _ => None
  }

  /** The last event of a take is what its reader got, and those before it told nobody. */
  lemma {:induction false} LastEventIsTheAnswer(q: Queue, after: nat)
    ensures var events := TakeEvents(q, after);
      && events != [] && ToldBy(events[|events| - 1]) == Some(TakeFrom(q, after).1)
      && forall i :: 0 <= i < |events| - 1 ==> events[i].Skipped? && events[i].after == after
    decreases |q.records|
  {
    if !q.closed && q.records != [] && q.records[0].sequence <= after {
      LastEventIsTheAnswer(q.(records := q.records[1..]), after);
    }
  }

  lemma Extend(q: Queue, log: seq<Event>, q': Queue, e: Event)
    requires Faithful(q, log) && Sound(e)
    requires e.Accepted? ==> !q.closed && !q.finished && q'.records == q.records + [e.record]
    requires e.Returned? || e.Skipped? ==> !q.closed && q.records != [] && e.record == q.records[0] && q'.records == q.records[1..]
    requires !e.Accepted? && !e.Returned? && !e.Skipped? ==> q'.closed || q'.records == q.records
    requires q.closed ==> q'.closed
    requires Terminal(e) ==> q'.closed || q'.finished
    requires q.finished ==> q'.finished
    requires e.Failed? && e.err != Closed ==> !q.closed && q.records == []
    ensures Faithful(q', log + [e])
  {
    var log' := log + [e];
    assert log'[..|log|] == log;
    forall i | 0 <= i < |log'|
      ensures EndsAt(log', i) && Sound(log'[i])
    {
      assert log'[..i] == log[..i];
      if i < |log| {
        assert EndsAt(log, i) && log'[i] == log[i];
      }
    }
    assert forall i :: 0 <= i < |log| ==> log'[i] == log[i];
  }

  lemma {:induction false} TakeKeepsFaithful(q: Queue, log: seq<Event>, after: nat)
    requires Faithful(q, log)
    ensures Faithful(TakeFrom(q, after).0, log + TakeEvents(q, after))
    decreases |q.records|
  {
    if q.closed || q.records == [] {
      Extend(q, log, q, TakeEvents(q, after)[0]);
    } else {
      var q' := q.(records := q.records[1..]);
      if q.records[0].sequence > after {
        Extend(q, log, q', Returned(q.records[0], after));
      } else {
        var e := Skipped(q.records[0], after);
        Extend(q, log, q', e);
        TakeKeepsFaithful(q', log + [e], after);
        assert log + [e] + TakeEvents(q', after) == log + TakeEvents(q, after);
      }
    }
  }

  /** Delivery over every run of appends, takes, ends and closes: what left the queue is a
      prefix of what it accepted, and while it is open the rest is still queued; every
      record went to a reader below it or was skipped by one that was not; after the end,
      an overflow included, nothing more is accepted, and the readers get the whole queued
      prefix before the error. */
  lemma {:induction false} DeliveryIsFaithful(limit: int, ops: seq<Op>)
    ensures var (q, log) := Run(limit, ops); Faithful(q, log)
  {
    if ops != [] {
      var before := ops[..|ops| - 1];
      DeliveryIsFaithful(limit, before);
      var (q, log) := Run(limit, before);
      var (q', events) := Step(q, ops[|ops| - 1]);
      match ops[|ops| - 1]
      case Append(r) => Extend(q, log, q', events[0]);
      case Take(after) => TakeKeepsFaithful(q, log, after);
      case Finish(err) => assert log + events == log;
      case Close => assert log + events == log;
    }
  }

  /** Everyone is told of the one end there was: readers its error, or the end of the stream for a
      clean end, and appenders its error, or that the stream is closed. */
  predicate Told(q: Queue, e: Event)
  {
    && (e.Failed? && e.err != Closed ==>
          q.finished && if q.err.Some? then e.err == q.err.value else e.err == EndOfStream)
    && (e.Refused? && e.err != Closed ==>
          q.finished && if q.err.Some? then e.err == q.err.value else e.err == ClosedPipe)
    && ((e.Failed? || e.Refused?) && e.err == Closed ==> q.closed || (q.finished && q.err == Some(Closed)))
  }

  /** How an operation ends the queue: as it says, or by the overflow of the record refused. */
  predicate EndsBy(q: Queue, t: Queue, op: Op, events: seq<Event>)
  {
    && (q.finished ==> t.finished && t.err == q.err)
    && (t.closed <==> q.closed || op.Close?) && (t.closed && !q.closed ==> t.records == [])
    && (op.Finish? && !q.closed ==> t.finished)
    && (!q.finished && t.finished ==>
          match op
          case Finish(err) => t.err == err
          case Append(r) =>
            t.err == Some(Overflow(q.limit, |StoredAll(q.records)|, |r.text|)) && events == [Refused(r, t.err.value)]
          case _ => false)
  }

  lemma {:induction false} TakeEnds(q: Queue, after: nat)
    ensures var t := TakeFrom(q, after).0; t.finished == q.finished && t.err == q.err && t.closed == q.closed
    ensures forall e :: e in TakeEvents(q, after) ==> Told(q, e)
    decreases |q.records|
  {
    if !q.closed && q.records != [] && q.records[0].sequence <= after {
      TakeEnds(q.(records := q.records[1..]), after);
    }
  }

  lemma StepEnds(q: Queue, op: Op)
    ensures var (t, events) := Step(q, op);
      && EndsBy(q, t, op, events) && (q.closed ==> t.closed)
      && (forall e :: e in events ==> Told(t, e)) && forall e :: Told(q, e) ==> Told(t, e)
  {
    if op.Take? { TakeEnds(q, op.after); }
  }

  /** In every run the first end is the one that counts, and the one that all are told of. */
  lemma {:induction false} TheFirstEndIsTold(limit: int, ops: seq<Op>, op: Op)
    ensures var (q, log) := Run(limit, ops);
      && (forall e :: e in log ==> Told(q, e))
      && EndsBy(q, Step(q, op).0, op, Step(q, op).1)
  {
    hide Step, Told, EndsBy;
    if ops != [] {
      var before := ops[..|ops| - 1];
      TheFirstEndIsTold(limit, before, op);
      StepEnds(Run(limit, before).0, ops[|ops| - 1]);
    }
    StepEnds(Run(limit, ops).0, op);
  }

  // ---------------------------------------------------------------- wake-ups

  /** Readers that found nothing wait on one buffered signal. */
  datatype Waiting = Waiting(queue: Queue, ready: bool, parked: nat)

  datatype Turn = Produce(op: Op) | Read(after: nat) | Poll(after: nat) | Wake | Leave

  /** One atomic step; a step that is not enabled changes nothing. A woken reader may read again
      or return with its context's error; a parked one whose context ends leaves the signal. A
      poll reads without waiting, and without the token. */
  function Turned(s: Waiting, turn: Turn): Waiting
  {
    match turn
    case Produce(op) =>
      if op.Take? then s
      else
        var q' := Step(s.queue, op).0;
        s.(queue := q', ready := s.ready || q' != s.queue)
    case Read(after) =>
      var (q', taken) := TakeFrom(s.queue, after);
      s.(queue := q', parked := if taken.Wait? then s.parked + 1 else s.parked)
    case Poll(after) => s.(queue := TakeFrom(s.queue, after).0)
    case Leave => if s.parked > 0 then s.(parked := s.parked - 1) else s
    case Wake => if s.ready && s.parked > 0 then s.(ready := false, parked := s.parked - 1) else s
  }

  predicate NothingToRead(q: Queue) { q.records == [] && !q.finished && !q.closed }

  /** A parked reader that has something to read is about to be woken. */
  predicate Attended(s: Waiting) { s.parked > 0 ==> s.ready || NothingToRead(s.queue) }

  /** The reader token admits one reader, which starts a read only while it is not parked. */
  predicate OneReader(s: Waiting, turn: Turn) { turn.Read? ==> s.parked == 0 }

  function Turns(s: Waiting, turns: seq<Turn>): Waiting
  {
    if turns == [] then s else Turned(Turns(s, turns[..|turns| - 1]), turns[|turns| - 1])
  }

  lemma TurnKeepsAttended(s: Waiting, turn: Turn)
    requires Attended(s) && s.parked <= 1 && OneReader(s, turn)
    ensures Attended(Turned(s, turn)) && Turned(s, turn).parked <= 1
  {
    if turn.Read? && !s.queue.closed {
      var n := TakeIsExact(s.queue, turn.after);
    }
  }

  /** With one reader at a time, no interleaving leaves it parked over something to read. */
  lemma {:induction false} OneReaderIsNeverForgotten(s: Waiting, turns: seq<Turn>)
    requires s.parked == 0
    requires forall i :: 0 <= i < |turns| ==> OneReader(Turns(s, turns[..i]), turns[i])
    ensures Attended(Turns(s, turns)) && Turns(s, turns).parked <= 1
  {
    if turns != [] {
      var n := |turns| - 1;
      var before := turns[..n];
      forall i | 0 <= i < n
        ensures OneReader(Turns(s, before[..i]), before[i])
      {
        assert before[..i] == turns[..i];
        assert OneReader(Turns(s, turns[..i]), turns[i]);
      }
      OneReaderIsNeverForgotten(s, before);
      assert OneReader(Turns(s, turns[..n]), turns[n]);
      TurnKeepsAttended(Turns(s, before), turns[n]);
    }
  }

  /** Without the token, two parked readers can leave a queued record unread. */
  lemma TwoReadersForgetARecord(first: Record, second: Record)
    requires first.sequence > 0 && second.sequence > 0
    requires HEADER_SIZE * 2 + |first.text| + |second.text| <= 0x1_0000
    ensures var s := Waiting(Queue(0x1_0000, [], false, None, false), false, 0);
            !Attended(Turns(s, [Read(0), Read(0), Produce(Append(first)), Produce(Append(second)), Wake, Read(0)]))
  {
    var s := Waiting(Queue(0x1_0000, [], false, None, false), false, 0);
    var turns := [Read(0), Read(0), Produce(Append(first)), Produce(Append(second)), Wake, Read(0)];
    var q1 := s.queue.(records := [first]);
    var q2 := s.queue.(records := [first, second]);
    assert StoredAll([first]) == Stored(first) + StoredAll([]);
    assert Turns(s, turns[..0]) == s;
    assert turns[..1][..0] == turns[..0] && turns[..2][..1] == turns[..1] && turns[..3][..2] == turns[..2]
        && turns[..4][..3] == turns[..3] && turns[..5][..4] == turns[..4] && turns[..6] == turns;
    assert Turns(s, turns[..1]) == s.(parked := 1);
    assert Turns(s, turns[..2]) == s.(parked := 2);
    assert Turns(s, turns[..3]) == Waiting(q1, true, 2);
    assert Turns(s, turns[..4]) == Waiting(q2, true, 2);
    assert Turns(s, turns[..5]) == Waiting(q2, false, 1);
    assert TakeFrom(q2, 0).0.records == [second];
  }
}
