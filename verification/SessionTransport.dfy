/** The gate that orders the admission of a session's calls behind the settlement of the
    response being written, with the client, the reader and every writer interleaved.

    A mutex section is one step; a step whose guard does not hold leaves the state as it is. */
module SessionTransport {
  import opened Options
  import opened ResponseLedger

  // ---------------------------------------------------------------- the gate's fields

  /** The sections of Read, Write and deactivate over the connection's own fields. */
  class SessionReadyConnection {
    var active: bool
    var committing: bool
    const ledger: ResponseLedgerMap
    const scope: Scope
    const limits: Limits

    constructor (ledger: ResponseLedgerMap, scope: Scope, limits: Limits)
      ensures this.ledger == ledger && this.scope == scope && this.limits == limits && active && !committing
    {
      this.ledger, this.scope, this.limits := ledger, scope, limits;
      active, committing := true, false;
    }

    /** None while a write is being committed: the reader waits. */
    method AdmitRead(message: Message, closing: bool) returns (admitted: Option<bool>)
      modifies this, ledger
      ensures admitted.None? <==> old(active && committing)
      ensures committing == old(committing)
      ensures admitted.None? || !old(active) ==> active == old(active) && ledger.entries == old(ledger.entries)
      ensures !old(active) ==> admitted == Some(false)
      ensures old(active) && !old(committing) ==>
                var (l, admission) := Admit(old(ledger.entries), scope, message, limits);
                && admitted == Some(!closing && admission.Admitted?) && active == admitted.value
                && ledger.entries == if closing then old(ledger.entries) else l
    {
      if active && committing { return None; }
      if !active { return Some(false); }
      var ok := !closing;
      if ok {
        var admission := ledger.AdmitCall(scope, message, limits);
        ok := admission == Admitted;
      }
      if !ok { active := false; }
      return Some(ok);
    }

    method BeginCommit() returns (ok: bool)
      modifies this
      ensures ok == old(active) && active == old(active) && committing == (old(committing) || ok)
    {
      if !active { return false; }
      committing := true;
      return true;
    }

    /** The result tells whether this write ended the connection. */
    method SettleWrite(message: Message, fatal: bool) returns (ended: bool)
      modifies this, ledger
      ensures ended == (old(active) && fatal) && active == (old(active) && !fatal) && !committing
      ensures ledger.entries == if old(active) && !fatal then Settle(old(ledger.entries), scope, message)
                                else old(ledger.entries)
    {
      ended := active && fatal;
      if active && !fatal { ledger.SettleResponse(scope, message); }
      if fatal { active := false; }
      committing := false;
    }

    method Deactivate() returns (ended: bool)
      modifies this
      ensures ended == old(active) && !active && committing == old(committing)
    {
      ended := active;
      active := false;
    }
  }

  // ---------------------------------------------------------------- one connection

  datatype WriterPc = Waiting | Checking | Writing | Delivered(fatal: bool) | Ending | Releasing | Finished

  datatype Writer = Writer(message: Message, pc: WriterPc)

  datatype ReaderPc = Idle | Got(message: Message) | Refusing | Stopped

  /** outstanding is the client's view: the calls it has sent and seen no response to. serving
      are the admitted calls not yet handed to a writer, and answering those that were, with
      their writer. leaving counts ends of the connection still to be reported. */
  datatype Conn = Conn(
    active: bool,
    committing: bool,
    slot: Option<nat>,
    writers: seq<Writer>,
    inbox: seq<Message>,
    reader: ReaderPc,
    outstanding: set<Id>,
    serving: set<Id>,
    answering: map<Id, nat>,
    leaving: nat,
    ended: bool,
    duplicate: bool)

  const OPEN := Conn(true, false, None, [], [], Idle, {}, {}, map[], 0, false, false)

  datatype Move =
    | ClientCalls(id: Id)
    | ClientSends
    | ReaderTakes
    | ReaderAdmits(closing: bool)
    | ReaderEnds
    | ServerAnswers(id: Id)
    | ServerSends
    | TakeSlot(w: nat)
    | Abandon(w: nat)
    | Check(w: nat)
    | Deliver(w: nat, delivered: bool, fatal: bool)
    | Settles(w: nat)
    | WriterEnds(w: nat)
    | Release(w: nat)
    | Deactivates
    | Leaves

  /** What a step does to the ledger. */
  datatype Effect = Nothing | Reads(message: Message) | Settled(message: Message) | Ends

  function WriterAt(c: Conn, w: nat, pc: WriterPc): Conn
    requires w < |c.writers|
  {
    c.(writers := c.writers[w := c.writers[w].(pc := pc)])
  }

  /** A step of a writer. */
  function WriterMoves(c: Conn, w: nat, move: Move): (Conn, Effect)
    requires w < |c.writers|
  {
    var writer := c.writers[w];
    match move
    case TakeSlot(_) =>
      if writer.pc.Waiting? && c.slot.None? then (WriterAt(c, w, Checking).(slot := Some(w)), Nothing) else (c, Nothing)
    case Abandon(_) =>
      if writer.pc.Waiting? && !c.active then (WriterAt(c, w, Finished), Nothing) else (c, Nothing)
    case Check(_) =>
      if !writer.pc.Checking? then (c, Nothing)
      else if !c.active then (WriterAt(c, w, Releasing), Nothing)
      else (WriterAt(c, w, Writing).(committing := true), Nothing)
    case Deliver(_, delivered, fatal) =>
      if !writer.pc.Writing? then (c, Nothing)
      else
        (WriterAt(c, w, Delivered(fatal)).(outstanding :=
           if delivered && writer.message.Response? then c.outstanding - {writer.message.id} else c.outstanding), Nothing)
    case Settles(_) =>
      if !writer.pc.Delivered? then (c, Nothing)
      else
        var fatal := writer.pc.fatal;
        var settles := c.active && !fatal;
        (WriterAt(c, w, if c.active && fatal then Ending else Releasing)
           .(active := c.active && !fatal, committing := false,
             answering := if settles && writer.message.Response? then c.answering - {writer.message.id} else c.answering),
         if settles then Settled(writer.message) else Nothing)
    case WriterEnds(_) =>
      if writer.pc.Ending? then (WriterAt(c, w, Releasing).(ended := true), Ends) else (c, Nothing)
    case Release(_) =>
      if writer.pc.Releasing? then (WriterAt(c, w, Finished).(slot := None), Nothing) else (c, Nothing)
    case _ => (c, Nothing)
  }

  /** A step on the connection; admission is the ledger's answer to the message read. */
  function ConnMoves(c: Conn, move: Move, admission: Admission): (Conn, Effect)
  {
    match move
    case ClientCalls(id) =>
      // The client may use an id again once it has the response.
      if id in c.outstanding then (c, Nothing)
      else (c.(outstanding := c.outstanding + {id}, inbox := c.inbox + [Call(id)]), Nothing)
    case ClientSends => (c.(inbox := c.inbox + [Other]), Nothing)
    case ReaderTakes =>
      if c.reader.Idle? && c.inbox != [] then (c.(reader := Got(c.inbox[0]), inbox := c.inbox[1..]), Nothing)
      else (c, Nothing)
    case ReaderAdmits(closing) =>
      if !c.reader.Got? || (c.active && c.committing) then (c, Nothing)
      else if !c.active then (c.(reader := Stopped), Nothing)
      else if closing || !admission.Admitted? then
        (c.(active := false, reader := Refusing, duplicate := c.duplicate || (!closing && admission.Duplicate?)), Nothing)
      else
        var m := c.reader.message;
        (c.(reader := Idle, serving := if m.Call? then c.serving + {m.id} else c.serving), Reads(m))
    case ReaderEnds => if c.reader.Refusing? then (c.(reader := Stopped, ended := true), Ends) else (c, Nothing)
    case ServerAnswers(id) =>
      // The SDK forgets an id right before it writes the response.
      if id in c.serving then
        (c.(serving := c.serving - {id}, answering := c.answering[id := |c.writers|],
            writers := c.writers + [Writer(Response(id), Waiting)]), Nothing)
      else (c, Nothing)
    case ServerSends => (c.(writers := c.writers + [Writer(Other, Waiting)]), Nothing)
    case Deactivates => if c.active then (c.(active := false, leaving := c.leaving + 1), Nothing) else (c, Nothing)
    case Leaves => if c.leaving > 0 then (c.(leaving := c.leaving - 1, ended := true), Ends) else (c, Nothing)
    case _ => if move.w < |c.writers| then WriterMoves(c, move.w, move) else (c, Nothing)
  }

  // ---------------------------------------------------------------- all connections

  datatype System = System(conns: seq<Conn>, ledger: Ledger)

  datatype Step = Step(scope: Scope, move: Move)

  function Answer(s: System, scope: Scope, limits: Limits): Admission
    requires scope < |s.conns|
  {
    if s.conns[scope].reader.Got? then Admit(s.ledger, scope, s.conns[scope].reader.message, limits).1 else Admitted
  }

  function Applied(l: Ledger, scope: Scope, e: Effect, limits: Limits): Ledger
  {
    match e
    case Nothing => l
    case Reads(m) => Admit(l, scope, m, limits).0
    case Settled(m) => Settle(l, scope, m)
    case Ends => Terminate(l, scope)
  }

  function Moves(s: System, step: Step, limits: Limits): System
  {
    if step.scope >= |s.conns| then s
    else
      var (c, e) := ConnMoves(s.conns[step.scope], step.move, Answer(s, step.scope, limits));
      System(s.conns[step.scope := c], Applied(s.ledger, step.scope, e, limits))
  }

  function After(conns: nat, steps: seq<Step>, limits: Limits): System
  {
    if steps == [] then System(seq(conns, i => OPEN), map[])
    else Moves(After(conns, steps[..|steps| - 1], limits), steps[|steps| - 1], limits)
  }

  // ---------------------------------------------------------------- the invariant

  /** The messages read or on their way to the reader. */
  function Pending(c: Conn): seq<Message> { (if c.reader.Got? then [c.reader.message] else []) + c.inbox }

  predicate Undecided(pc: WriterPc) { pc.Waiting? || pc.Checking? || pc.Writing? || pc.Delivered? }

  predicate HasSlot(pc: WriterPc) { !pc.Waiting? && !pc.Finished? }

  ghost predicate SlotFits(c: Conn)
  {
    && (c.slot.Some? ==> c.slot.value < |c.writers| && HasSlot(c.writers[c.slot.value].pc))
    && (forall w :: 0 <= w < |c.writers| && HasSlot(c.writers[w].pc) ==> c.slot == Some(w))
    && (c.committing <==> c.slot.Some? && (c.writers[c.slot.value].pc.Writing? || c.writers[c.slot.value].pc.Delivered?))
  }

  /** Every call in the ledger is being served or answered, by one writer. */
  ghost predicate AnswersFit(c: Conn, ids: set<Id>)
  {
    && ids == c.serving + c.answering.Keys && c.serving !! c.answering.Keys
    && (forall id :: id in c.answering ==>
          c.answering[id] < |c.writers| && c.writers[c.answering[id]].message == Response(id)
          && Undecided(c.writers[c.answering[id]].pc))
    && (forall w :: 0 <= w < |c.writers| && Undecided(c.writers[w].pc) && c.writers[w].message.Response? ==>
          c.writers[w].message.id in c.answering && c.answering[c.writers[w].message.id] == w)
  }

  predicate WrittenOut(c: Conn, id: Id)
  {
    id in c.answering && c.answering[id] < |c.writers| && c.writers[c.answering[id]].pc.Delivered?
  }

  /** A call on its way to the reader is one the client waits for, and no other call with its id
      is unsettled, except one whose response is written and about to settle. */
  ghost predicate PendingFits(c: Conn, ids: set<Id>)
  {
    && (forall i :: 0 <= i < |Pending(c)| && Pending(c)[i].Call? ==>
          Pending(c)[i].id in c.outstanding && (Pending(c)[i].id in ids ==> WrittenOut(c, Pending(c)[i].id)))
    && (forall i, j :: 0 <= i < j < |Pending(c)| && Pending(c)[i].Call? ==> Pending(c)[i] != Pending(c)[j])
    && (forall id :: id in ids && id !in c.outstanding ==> WrittenOut(c, id))
  }

  function One(b: bool): nat { if b then 1 else 0 }

  predicate WriterEnding(c: Conn)
  {
    c.slot.Some? && c.slot.value < |c.writers| && c.writers[c.slot.value].pc.Ending?
  }

  /** A connection ends once: its end is reported, or about to be, by one party. */
  predicate EndsOnce(c: Conn)
  {
    c.leaving + One(c.reader.Refusing?) + One(WriterEnding(c)) + One(c.ended) == One(!c.active)
  }

  ghost predicate ConnFits(c: Conn, ids: set<Id>)
  {
    && SlotFits(c) && EndsOnce(c) && !c.duplicate
    && (c.active ==> AnswersFit(c, ids) && PendingFits(c, ids))
    && (c.ended ==> ids == {})
  }

  /** Only the end of a connection is reported. */
  lemma EndingIsInactive(c: Conn, w: nat)
    requires SlotFits(c) && EndsOnce(c) && w < |c.writers| && c.writers[w].pc.Ending?
    ensures !c.active
  {
  }

  /** What an effect makes of the connection's own calls. */
  function IdsAfter(ids: set<Id>, e: Effect): set<Id>
  {
    match e
    case Nothing => ids
    case Reads(m) => if m.Call? then ids + {m.id} else ids
    case Settled(m) => if m.Response? then ids - {m.id} else ids
    case Ends => {}
  }

  lemma WriterKeepsSlot(c: Conn, w: nat, move: Move)
    requires SlotFits(c) && w < |c.writers|
    ensures SlotFits(WriterMoves(c, w, move).0)
  {
  }

  lemma WriterKeepsEnds(c: Conn, w: nat, move: Move)
    requires SlotFits(c) && EndsOnce(c) && w < |c.writers|
    ensures EndsOnce(WriterMoves(c, w, move).0)
    ensures WriterMoves(c, w, move).0.duplicate == c.duplicate
    ensures var (t, e) := WriterMoves(c, w, move); t.ended <==> c.ended || e.Ends?
  {
  }

  /** A writer that moves on without settling keeps what it answers. */
  lemma MovingOnKeepsAnswers(c: Conn, w: nat, pc: WriterPc, t: Conn, ids: set<Id>)
    requires AnswersFit(c, ids) && w < |c.writers| && (Undecided(c.writers[w].pc) <==> Undecided(pc))
    requires t.writers == c.writers[w := c.writers[w].(pc := pc)]
    requires t.serving == c.serving && t.answering == c.answering
    ensures AnswersFit(t, ids)
  {
  }

  lemma SettlingKeepsAnswers(c: Conn, w: nat, ids: set<Id>)
    requires AnswersFit(c, ids) && w < |c.writers| && c.active && c.writers[w].pc == Delivered(false)
    ensures var (t, e) := WriterMoves(c, w, Settles(w)); AnswersFit(t, IdsAfter(ids, e))
  {
  }

  lemma WriterKeepsAnswers(c: Conn, w: nat, move: Move, ids: set<Id>)
    requires SlotFits(c) && EndsOnce(c) && w < |c.writers| && c.active && AnswersFit(c, ids)
    ensures var (t, e) := WriterMoves(c, w, move); t.active ==> AnswersFit(t, IdsAfter(ids, e))
  {
    hide AnswersFit, SlotFits;
    var t, pc := WriterMoves(c, w, move).0, c.writers[w].pc;
    match move
    case TakeSlot(_) => if pc.Waiting? && c.slot.None? { MovingOnKeepsAnswers(c, w, Checking, t, ids); }
    case Check(_) => if pc.Checking? { MovingOnKeepsAnswers(c, w, Writing, t, ids); }
    case Deliver(_, _, fatal) => if pc.Writing? { MovingOnKeepsAnswers(c, w, Delivered(fatal), t, ids); }
    case Settles(_) => if pc == Delivered(false) { SettlingKeepsAnswers(c, w, ids); }
    case WriterEnds(_) => if pc.Ending? { EndingIsInactive(c, w); }
    case Release(_) => if pc.Releasing? { MovingOnKeepsAnswers(c, w, Finished, t, ids); }
    case _ =>
  }

  lemma PendingStays(c: Conn, t: Conn, ids: set<Id>)
    requires PendingFits(c, ids) && t.inbox == c.inbox && t.reader == c.reader && c.outstanding <= t.outstanding
    requires forall id :: WrittenOut(c, id) ==> WrittenOut(t, id)
    ensures PendingFits(t, ids)
  {
    assert Pending(t) == Pending(c);
  }

  lemma DeliveryKeepsPending(c: Conn, w: nat, delivered: bool, fatal: bool, ids: set<Id>)
    requires w < |c.writers| && AnswersFit(c, ids) && PendingFits(c, ids) && c.writers[w].pc.Writing?
    ensures PendingFits(WriterMoves(c, w, Deliver(w, delivered, fatal)).0, ids)
  {
    var t := WriterMoves(c, w, Deliver(w, delivered, fatal)).0;
    assert Pending(t) == Pending(c);
    assert forall id :: WrittenOut(c, id) ==> WrittenOut(t, id);
    if c.writers[w].message.Response? { assert WrittenOut(t, c.writers[w].message.id); }
  }

  lemma SettlingKeepsPending(c: Conn, w: nat, ids: set<Id>)
    requires w < |c.writers| && AnswersFit(c, ids) && PendingFits(c, ids) && c.active
    requires c.writers[w].pc == Delivered(false)
    ensures var (t, e) := WriterMoves(c, w, Settles(w)); PendingFits(t, IdsAfter(ids, e))
  {
    var t := WriterMoves(c, w, Settles(w)).0;
    assert Pending(t) == Pending(c);
    forall id | WrittenOut(c, id) && c.writers[w].message != Response(id) ensures WrittenOut(t, id) {
      assert c.answering[id] != w;
    }
  }

  lemma WriterKeepsPending(c: Conn, w: nat, move: Move, ids: set<Id>)
    requires SlotFits(c) && EndsOnce(c) && w < |c.writers| && c.active && AnswersFit(c, ids) && PendingFits(c, ids)
    ensures var (t, e) := WriterMoves(c, w, move); t.active ==> PendingFits(t, IdsAfter(ids, e))
  {
    hide PendingFits, SlotFits, AnswersFit;
    var t, pc := WriterMoves(c, w, move).0, c.writers[w].pc;
    match move
    case Deliver(_, delivered, fatal) => if pc.Writing? { DeliveryKeepsPending(c, w, delivered, fatal, ids); }
    case Settles(_) => if pc == Delivered(false) { SettlingKeepsPending(c, w, ids); }
    case WriterEnds(_) => if pc.Ending? { EndingIsInactive(c, w); }
    case _ => PendingStays(c, t, ids);
  }

  /** The ledger's answer to the message the reader has. */
  predicate Answers(c: Conn, ids: set<Id>, admission: Admission)
  {
    c.reader.Got? ==>
      && (admission.Duplicate? <==> c.reader.message.Call? && c.reader.message.id in ids)
      && (!c.reader.message.Call? ==> admission.Admitted?)
  }

  lemma ClientKeepsPending(c: Conn, id: Id, ids: set<Id>)
    requires PendingFits(c, ids) && id !in c.outstanding
    ensures PendingFits(c.(outstanding := c.outstanding + {id}, inbox := c.inbox + [Call(id)]), ids)
  {
    var t := c.(outstanding := c.outstanding + {id}, inbox := c.inbox + [Call(id)]);
    assert Pending(t) == Pending(c) + [Call(id)];
    assert forall x :: WrittenOut(c, x) ==> WrittenOut(t, x);
    assert forall i :: 0 <= i < |Pending(c)| && Pending(c)[i].Call? ==> Pending(c)[i] != Call(id);
  }

  lemma OtherKeepsPending(c: Conn, ids: set<Id>)
    requires PendingFits(c, ids)
    ensures PendingFits(c.(inbox := c.inbox + [Other]), ids)
  {
    var t := c.(inbox := c.inbox + [Other]);
    assert Pending(t) == Pending(c) + [Other];
    assert forall x :: WrittenOut(c, x) ==> WrittenOut(t, x);
  }

  lemma TakingKeepsPending(c: Conn, ids: set<Id>)
    requires PendingFits(c, ids) && c.reader.Idle? && c.inbox != []
    ensures PendingFits(c.(reader := Got(c.inbox[0]), inbox := c.inbox[1..]), ids)
  {
    var t := c.(reader := Got(c.inbox[0]), inbox := c.inbox[1..]);
    assert Pending(t) == Pending(c);
    assert forall x :: WrittenOut(c, x) ==> WrittenOut(t, x);
  }

  /** While no write is being committed, no call on its way to the reader has the id of an
      unsettled one. */
  lemma AdmissionIsFresh(c: Conn, ids: set<Id>)
    requires SlotFits(c) && AnswersFit(c, ids) && PendingFits(c, ids) && !c.committing
    requires c.reader.Got? && c.reader.message.Call?
    ensures c.reader.message.id !in ids
  {
    assert Pending(c)[0] == c.reader.message;
  }

  function Admitting(c: Conn): Conn
    requires c.reader.Got?
  {
    c.(reader := Idle, serving := if c.reader.message.Call? then c.serving + {c.reader.message.id} else c.serving)
  }

  lemma AdmittingKeepsAnswers(c: Conn, ids: set<Id>)
    requires AnswersFit(c, ids) && c.reader.Got?
    requires c.reader.message.Call? ==> c.reader.message.id !in ids
    ensures AnswersFit(Admitting(c), IdsAfter(ids, Reads(c.reader.message)))
  {
  }

  lemma AdmittingKeepsPending(c: Conn, ids: set<Id>)
    requires PendingFits(c, ids) && c.reader.Got?
    ensures PendingFits(Admitting(c), IdsAfter(ids, Reads(c.reader.message)))
  {
    hide WrittenOut;
    var m, t := c.reader.message, Admitting(c);
    var all, rest := Pending(c), Pending(t);
    assert all == [m] + rest && all[0] == m;
    SameWrittenOut(c, t);
    forall i | 0 <= i < |rest| && rest[i].Call?
      ensures rest[i].id in t.outstanding
      ensures rest[i].id in IdsAfter(ids, Reads(m)) ==> WrittenOut(t, rest[i].id)
    {
      assert all[i + 1] == rest[i] && all[0] != all[i + 1];
    }
    forall i, j | 0 <= i < j < |rest| && rest[i].Call? ensures rest[i] != rest[j] {
      assert all[i + 1] == rest[i] && all[j + 1] == rest[j];
    }
  }

  lemma SameWrittenOut(c: Conn, t: Conn)
    requires t.writers == c.writers && t.answering == c.answering
    ensures forall id :: WrittenOut(t, id) <==> WrittenOut(c, id)
  {
  }

  lemma AnsweringKeepsAnswers(c: Conn, id: Id, ids: set<Id>)
    requires AnswersFit(c, ids) && PendingFits(c, ids) && id in c.serving
    ensures var t := c.(serving := c.serving - {id}, answering := c.answering[id := |c.writers|],
                        writers := c.writers + [Writer(Response(id), Waiting)]);
            AnswersFit(t, ids) && PendingFits(t, ids)
  {
    var t := c.(serving := c.serving - {id}, answering := c.answering[id := |c.writers|],
                writers := c.writers + [Writer(Response(id), Waiting)]);
    assert Pending(t) == Pending(c);
    assert forall x :: WrittenOut(c, x) ==> x != id && WrittenOut(t, x);
  }

  lemma SendingKeeps(c: Conn, ids: set<Id>)
    requires AnswersFit(c, ids) && PendingFits(c, ids)
    ensures var t := c.(writers := c.writers + [Writer(Other, Waiting)]); AnswersFit(t, ids) && PendingFits(t, ids)
  {
    var t := c.(writers := c.writers + [Writer(Other, Waiting)]);
    assert Pending(t) == Pending(c);
    assert forall x :: WrittenOut(c, x) ==> WrittenOut(t, x);
  }

  lemma NewWriterKeepsSlot(c: Conn, writer: Writer, t: Conn)
    requires SlotFits(c) && writer.pc.Waiting? && t.writers == c.writers + [writer]
    requires t.slot == c.slot && t.committing == c.committing
    ensures SlotFits(t) && WriterEnding(t) == WriterEnding(c)
  {
  }

  lemma WriterKeepsFit(c: Conn, w: nat, move: Move, ids: set<Id>)
    requires w < |c.writers| && ConnFits(c, ids)
    ensures var (t, e) := WriterMoves(c, w, move); ConnFits(t, IdsAfter(ids, e))
  {
    hide AnswersFit, PendingFits, SlotFits, EndsOnce;
    WriterKeepsSlot(c, w, move);
    WriterKeepsEnds(c, w, move);
    if c.active {
      WriterKeepsAnswers(c, w, move, ids);
      WriterKeepsPending(c, w, move, ids);
    }
  }

  lemma SameSlot(c: Conn, t: Conn)
    requires SlotFits(c) && t.writers == c.writers && t.slot == c.slot && t.committing == c.committing
    ensures SlotFits(t) && WriterEnding(t) == WriterEnding(c)
  {
  }

  lemma SameAnswers(c: Conn, t: Conn, ids: set<Id>)
    requires AnswersFit(c, ids) && t.writers == c.writers && t.serving == c.serving && t.answering == c.answering
    ensures AnswersFit(t, ids)
  {
  }

  lemma ConnKeepsFit(c: Conn, move: Move, admission: Admission, ids: set<Id>)
    requires ConnFits(c, ids) && Answers(c, ids, admission)
    ensures var (t, e) := ConnMoves(c, move, admission); ConnFits(t, IdsAfter(ids, e))
  {
    hide AnswersFit, PendingFits, SlotFits, WriterMoves, WriterEnding;
    var t := ConnMoves(c, move, admission).0;
    match move
    case ClientCalls(id) =>
      SameSlot(c, t);
      if c.active && id !in c.outstanding {
        ClientKeepsPending(c, id, ids);
        SameAnswers(c, t, ids);
      }
    case ClientSends =>
      SameSlot(c, t);
      if c.active {
        OtherKeepsPending(c, ids);
        SameAnswers(c, t, ids);
      }
    case ReaderTakes =>
      SameSlot(c, t);
      if c.active && c.reader.Idle? && c.inbox != [] {
        TakingKeepsPending(c, ids);
        SameAnswers(c, t, ids);
      }
    case ReaderAdmits(_) =>
      SameSlot(c, t);
      if c.reader.Got? && c.active && !c.committing {
        if c.reader.message.Call? { AdmissionIsFresh(c, ids); }
        if c.reader.message.Call? ==> c.reader.message.id !in ids { AdmittingKeepsAnswers(c, ids); }
        AdmittingKeepsPending(c, ids);
      }
    case ReaderEnds => SameSlot(c, t);
    case ServerAnswers(id) =>
      if id in c.serving {
        NewWriterKeepsSlot(c, Writer(Response(id), Waiting), t);
        if c.active { AnsweringKeepsAnswers(c, id, ids); }
      }
    case ServerSends =>
      NewWriterKeepsSlot(c, Writer(Other, Waiting), t);
      if c.active { SendingKeeps(c, ids); }
    case Deactivates => SameSlot(c, t);
    case Leaves => SameSlot(c, t);
    case _ => if move.w < |c.writers| { WriterKeepsFit(c, move.w, move, ids); }
  }

  ghost predicate Inv(s: System)
  {
    && (forall k :: 0 <= k < |s.conns| ==> ConnFits(s.conns[k], Of(s.ledger, k)))
    && forall k: nat :: k >= |s.conns| ==> Of(s.ledger, k) == {}
  }

  lemma AppliedToOne(l: Ledger, scope: Scope, c: Conn, e: Effect, limits: Limits)
    requires e.Reads? ==> Admit(l, scope, e.message, limits).1.Admitted?
    ensures Of(Applied(l, scope, e, limits), scope) == IdsAfter(Of(l, scope), e)
    ensures forall k: nat :: k != scope ==> Of(Applied(l, scope, e, limits), k) == Of(l, k)
  {
    hide ResponseLedger.Unsettled, With, Of;
    match e
    case Nothing =>
    case Reads(m) => if m.Call? { OfWith(l, scope, Of(l, scope) + {m.id}); }
    case Settled(m) => if m.Response? { OfWith(l, scope, Of(l, scope) - {m.id}); }
    case Ends =>
      EndingClears(l, scope);
      OfWith(l, scope, {});
  }

  lemma OnlyAdmittedAreRead(c: Conn, move: Move, admission: Admission)
    ensures var e := ConnMoves(c, move, admission).1;
            e.Reads? ==> c.reader.Got? && e.message == c.reader.message && admission.Admitted?
  {
  }

  lemma MovesKeepInv(s: System, step: Step, limits: Limits)
    requires Inv(s)
    ensures Inv(Moves(s, step, limits))
  {
    hide ConnMoves, ConnFits, Admit, Applied;
    if step.scope < |s.conns| {
      var c, admission := s.conns[step.scope], Answer(s, step.scope, limits);
      AnswersRight(s, step.scope, limits);
      ConnKeepsFit(c, step.move, admission, Of(s.ledger, step.scope));
      OnlyAdmittedAreRead(c, step.move, admission);
      AppliedToOne(s.ledger, step.scope, c, ConnMoves(c, step.move, admission).1, limits);
    }
  }

  lemma AnswersRight(s: System, scope: Scope, limits: Limits)
    requires scope < |s.conns|
    ensures Answers(s.conns[scope], Of(s.ledger, scope), Answer(s, scope, limits))
  {
  }

  lemma {:induction false} EveryRunKeepsInv(conns: nat, steps: seq<Step>, limits: Limits)
    ensures Inv(After(conns, steps, limits))
  {
    hide Moves, ConnFits;
    if steps == [] {
      OpenFits();
    } else {
      EveryRunKeepsInv(conns, steps[..|steps| - 1], limits);
      MovesKeepInv(After(conns, steps[..|steps| - 1], limits), steps[|steps| - 1], limits);
    }
  }

  lemma OpenFits()
    ensures ConnFits(OPEN, {})
  {
  }

  // ---------------------------------------------------------------- every run

  /** Admission waits for settlement: a client that uses an id again once its response was
      written is never refused as a duplicate, however reads, writes and ends interleave. */
  lemma ReusedIdsAreNeverRefused(conns: nat, steps: seq<Step>, limits: Limits, k: nat)
    requires k < |After(conns, steps, limits).conns|
    ensures var s := After(conns, steps, limits);
      && !s.conns[k].duplicate
      && (s.conns[k].active && !s.conns[k].committing ==> !Answer(s, k, limits).Duplicate?)
  {
    hide After, SlotFits, AnswersFit, PendingFits;
    EveryRunKeepsInv(conns, steps, limits);
    var s := After(conns, steps, limits);
    if s.conns[k].active && !s.conns[k].committing && s.conns[k].reader.Got? && s.conns[k].reader.message.Call? {
      AdmissionIsFresh(s.conns[k], Of(s.ledger, k));
    }
  }

  /** On a live connection the ledger is exactly the calls being served or answered, each once;
      a connection that has ended has none, and its end is reported once. */
  lemma LedgerIsTheCallsAtWork(conns: nat, steps: seq<Step>, limits: Limits, k: nat)
    requires k < |After(conns, steps, limits).conns|
    ensures var s := After(conns, steps, limits);
      var c := s.conns[k];
      && (c.active ==> Of(s.ledger, k) == c.serving + c.answering.Keys && c.serving !! c.answering.Keys)
      && (c.ended ==> Of(s.ledger, k) == {})
      && c.leaving + One(c.reader.Refusing?) + One(WriterEnding(c)) + One(c.ended) == One(!c.active)
  {
    hide After, SlotFits, PendingFits, WriterEnding;
    EveryRunKeepsInv(conns, steps, limits);
  }

  lemma AppliedKeepsLimits(l: Ledger, scope: Scope, e: Effect, limits: Limits)
    requires WithinLimits(l, limits)
    ensures WithinLimits(Applied(l, scope, e, limits), limits)
  {
    hide WithinLimits, Admit, Settle, Terminate;
    match e
    case Nothing =>
    case Reads(m) => ResponseLedger.MovesKeepLimits(l, Read(scope, m), limits);
    case Settled(m) => ResponseLedger.MovesKeepLimits(l, Event.Written(scope, m), limits);
    case Ends => ResponseLedger.MovesKeepLimits(l, Ended(scope), limits);
  }

  /** The limits per session and per instance hold throughout. */
  lemma {:induction false} LimitsHoldInEveryRun(conns: nat, steps: seq<Step>, limits: Limits)
    ensures WithinLimits(After(conns, steps, limits).ledger, limits)
  {
    hide ConnMoves, Applied;
    if steps != [] {
      var n := |steps| - 1;
      LimitsHoldInEveryRun(conns, steps[..n], limits);
      var s, step := After(conns, steps[..n], limits), steps[n];
      if step.scope < |s.conns| {
        AppliedKeepsLimits(s.ledger, step.scope,
          ConnMoves(s.conns[step.scope], step.move, Answer(s, step.scope, limits)).1, limits);
      }
    }
  }

  lemma OneStep(conns: nat, steps: seq<Step>, move: Move, limits: Limits, c: Conn, l: Ledger)
    requires After(conns, steps, limits) == System([c], l)
    ensures var (t, e) := ConnMoves(c, move, Answer(System([c], l), 0, limits));
            After(conns, steps + [Step(0, move)], limits) == System([t], Applied(l, 0, e, limits))
  {
    hide ConnMoves, Applied, Answer;
    assert (steps + [Step(0, move)])[..|steps|] == steps;
  }

  /** A served call whose response waits for the write slot. */
  lemma CallIsAnswered(limits: Limits, id: Id) returns (steps: seq<Step>)
    requires limits.session > 0 && limits.instance > 0
    ensures After(1, steps, limits)
         == System([OPEN.(outstanding := {id}, answering := map[id := 0], writers := [Writer(Response(id), Waiting)])],
                   map[0 := {id}])
  {
    hide After;
    steps := [];
    assert After(1, [], limits) == System([OPEN], map[]) by { NoSteps(limits); }
    OneStep(1, steps, ClientCalls(id), limits, OPEN, map[]);
    steps := steps + [Step(0, ClientCalls(id))];
    var c := OPEN.(outstanding := {id}, inbox := [Call(id)]);
    assert {} + {id} == {id} && [] + [Call(id)] == [Call(id)] && [Call(id)][1..] == [];
    OneStep(1, steps, ReaderTakes, limits, c, map[]);
    steps := steps + [Step(0, ReaderTakes)];
    c := OPEN.(outstanding := {id}, reader := Got(Call(id)));
    OneStep(1, steps, ReaderAdmits(false), limits, c, map[]);
    steps := steps + [Step(0, ReaderAdmits(false))];
    FirstAdmission(id, limits);
    assert {id} - {id} == {} && map[][id := 0] == map[id := 0];
    assert [] + [Writer(Response(id), Waiting)] == [Writer(Response(id), Waiting)];
    c := OPEN.(outstanding := {id}, serving := {id});
    OneStep(1, steps, ServerAnswers(id), limits, c, map[0 := {id}]);
    steps := steps + [Step(0, ServerAnswers(id))];
  }

  lemma NoSteps(limits: Limits)
    ensures After(1, [], limits) == System([OPEN], map[])
  {
  }

  lemma FirstAdmission(id: Id, limits: Limits)
    requires limits.session > 0 && limits.instance > 0
    ensures Admit(map[], 0, Call(id), limits) == (map[0 := {id}], Admitted)
  {
    assert ResponseLedger.Unsettled(map[]) == {};
  }

  /** Its response is written, and its writer has not settled it. */
  lemma ResponseIsWritten(limits: Limits, id: Id) returns (steps: seq<Step>)
    requires limits.session > 0 && limits.instance > 0
    ensures After(1, steps, limits)
         == System([OPEN.(committing := true, slot := Some(0), answering := map[id := 0],
                          writers := [Writer(Response(id), Delivered(false))])], map[0 := {id}])
  {
    hide After, Admit;
    steps := CallIsAnswered(limits, id);
    var l: Ledger := map[0 := {id}];
    var c := OPEN.(outstanding := {id}, answering := map[id := 0], writers := [Writer(Response(id), Waiting)]);
    OneWriter(c, 0, Checking);
    OneStep(1, steps, TakeSlot(0), limits, c, l);
    steps := steps + [Step(0, TakeSlot(0))];
    c := c.(writers := [Writer(Response(id), Checking)], slot := Some(0));
    OneWriter(c, 0, Writing);
    OneStep(1, steps, Check(0), limits, c, l);
    steps := steps + [Step(0, Check(0))];
    c := c.(writers := [Writer(Response(id), Writing)], committing := true);
    OneWriter(c, 0, Delivered(false));
    assert {id} - {id} == {};
    OneStep(1, steps, Deliver(0, true, false), limits, c, l);
    steps := steps + [Step(0, Deliver(0, true, false))];
  }

  lemma OneWriter(c: Conn, w: nat, pc: WriterPc)
    requires |c.writers| == 1 && w == 0
    ensures WriterAt(c, w, pc) == c.(writers := [c.writers[0].(pc := pc)])
  {
  }

  /** The gate is needed: once its response is physically written a client may use the id again
      while the ledger still holds it, and only the commit in progress keeps it from being
      refused. */
  lemma ReuseArrivesBeforeSettlement(limits: Limits, id: Id) returns (steps: seq<Step>)
    requires limits.session > 0 && limits.instance > 0
    ensures var s := After(1, steps, limits);
      && |s.conns| == 1 && s.conns[0].active && s.conns[0].committing && s.conns[0].reader == Got(Call(id))
      && Admit(s.ledger, 0, Call(id), limits).1.Duplicate?
  {
    hide After, Admit;
    steps := ResponseIsWritten(limits, id);
    var l: Ledger := map[0 := {id}];
    var c := OPEN.(committing := true, slot := Some(0), answering := map[id := 0],
                   writers := [Writer(Response(id), Delivered(false))]);
    assert {} + {id} == {id} && [] + [Call(id)] == [Call(id)] && [Call(id)][1..] == [];
    OneStep(1, steps, ClientCalls(id), limits, c, l);
    steps := steps + [Step(0, ClientCalls(id))];
    c := c.(outstanding := {id}, inbox := [Call(id)]);
    OneStep(1, steps, ReaderTakes, limits, c, l);
    steps := steps + [Step(0, ReaderTakes)];
    HeldIsDuplicate(id, limits);
  }

  lemma HeldIsDuplicate(id: Id, limits: Limits)
    ensures Admit(map[0 := {id}], 0, Call(id), limits).1.Duplicate?
  {
  }

  // ---------------------------------------------------------------- calls get through

  lemma Goes(conns: nat, steps: seq<Step>, k: nat, move: Move, limits: Limits) returns (more: seq<Step>)
    requires k < |After(conns, steps, limits).conns|
    ensures more == steps + [Step(k, move)]
    ensures var s, t := After(conns, steps, limits), After(conns, more, limits);
      var (c, e) := ConnMoves(s.conns[k], move, Answer(s, k, limits));
      t.conns == s.conns[k := c] && t.ledger == Applied(s.ledger, k, e, limits)
  {
    hide ConnMoves, Applied, Answer, After;
    more := steps + [Step(k, move)];
    AfterOne(conns, steps, Step(k, move), limits);
  }

  lemma AfterOne(conns: nat, steps: seq<Step>, step: Step, limits: Limits)
    ensures After(conns, steps + [step], limits) == Moves(After(conns, steps, limits), step, limits)
  {
    hide Moves;
    assert (steps + [step])[..|steps|] == steps;
  }

  /** The connection has nothing on its way and no write going on. */
  predicate Resting(c: Conn) { c.active && c.reader.Idle? && c.inbox == [] && c.slot.None? && !c.committing }

  /** A call sent over a resting connection is admitted. */
  lemma ACallIsAdmitted(conns: nat, steps: seq<Step>, k: nat, id: Id, limits: Limits) returns (more: seq<Step>)
    requires k < |After(conns, steps, limits).conns|
    requires var s := After(conns, steps, limits);
      && Resting(s.conns[k]) && id !in s.conns[k].outstanding
      && |Of(s.ledger, k)| < limits.session && |ResponseLedger.Unsettled(s.ledger)| < limits.instance
    ensures steps <= more
    ensures var s, t := After(conns, steps, limits), After(conns, more, limits);
      && |t.conns| == |s.conns| && t.conns == s.conns[k := t.conns[k]] && id !in Of(s.ledger, k)
      && t.conns[k] == s.conns[k].(outstanding := s.conns[k].outstanding + {id}, serving := s.conns[k].serving + {id})
      && t.ledger == With(s.ledger, k, Of(s.ledger, k) + {id})
  {
    hide After, SlotFits, AnswersFit, WrittenOut;
    EveryRunKeepsInv(conns, steps, limits);
    var c := After(conns, steps, limits).conns[k];
    assert ConnFits(c, Of(After(conns, steps, limits).ledger, k));
    NothingWrittenOut(c, id, Of(After(conns, steps, limits).ledger, k));
    more := Goes(conns, steps, k, ClientCalls(id), limits);
    assert [] + [Call(id)] == [Call(id)] && [Call(id)][1..] == [];
    more := Goes(conns, more, k, ReaderTakes, limits);
    more := Goes(conns, more, k, ReaderAdmits(false), limits);
  }

  lemma NothingWrittenOut(c: Conn, id: Id, ids: set<Id>)
    requires ConnFits(c, ids) && Resting(c) && id !in c.outstanding
    ensures id !in ids
  {
  }

  /** A call sent over a resting connection with room in the ledger is admitted, served, answered
      and settled, and the client hears of it: in every reachable state. */
  lemma ACallIsServed(conns: nat, steps: seq<Step>, k: nat, id: Id, limits: Limits) returns (more: seq<Step>)
    requires k < |After(conns, steps, limits).conns|
    requires var s := After(conns, steps, limits);
      && Resting(s.conns[k]) && id !in s.conns[k].outstanding
      && |Of(s.ledger, k)| < limits.session && |ResponseLedger.Unsettled(s.ledger)| < limits.instance
    ensures steps <= more
    ensures var s, t := After(conns, steps, limits), After(conns, more, limits);
      && k < |t.conns| && Resting(t.conns[k]) && t.conns[k].outstanding == s.conns[k].outstanding
      && Of(t.ledger, k) == Of(s.ledger, k)
  {
    hide After, With, Of, ResponseLedger.Unsettled;
    var s := After(conns, steps, limits);
    more := ACallIsAdmitted(conns, steps, k, id, limits);
    OfWith(s.ledger, k, Of(s.ledger, k) + {id});
    var w := |s.conns[k].writers|;
    more := Goes(conns, more, k, ServerAnswers(id), limits);
    assert After(conns, more, limits).conns[k].writers[w] == Writer(Response(id), Waiting);
    more := AWriterFinishes(conns, more, k, w, true, limits);
    assert s.conns[k].outstanding + {id} - {id} == s.conns[k].outstanding;
    assert Of(s.ledger, k) + {id} - {id} == Of(s.ledger, k);
  }

  /** A waiting writer that finds the slot free writes its message and settles it. */
  lemma AWriterFinishes(conns: nat, steps: seq<Step>, k: nat, w: nat, delivered: bool, limits: Limits)
      returns (more: seq<Step>)
    requires k < |After(conns, steps, limits).conns|
    requires var c := After(conns, steps, limits).conns[k];
      c.active && c.slot.None? && !c.committing && w < |c.writers| && c.writers[w].pc.Waiting?
    ensures steps <= more
    ensures var s, t := After(conns, steps, limits), After(conns, more, limits);
      var m := s.conns[k].writers[w].message;
      && |t.conns| == |s.conns| && t.conns[k].reader == s.conns[k].reader && t.conns[k].inbox == s.conns[k].inbox
      && t.conns[k].active && t.conns[k].slot.None? && !t.conns[k].committing
      && w < |t.conns[k].writers| && t.conns[k].writers[w] == Writer(m, Finished)
      && t.conns[k].outstanding == (if delivered && m.Response? then s.conns[k].outstanding - {m.id} else s.conns[k].outstanding)
      && Of(t.ledger, k) == (if m.Response? then Of(s.ledger, k) - {m.id} else Of(s.ledger, k))
  {
    hide After, With, Of;
    more := Goes(conns, steps, k, TakeSlot(w), limits);
    more := Goes(conns, more, k, Check(w), limits);
    assert After(conns, more, limits).conns[k].writers[w].pc.Writing?;
    more := Goes(conns, more, k, Deliver(w, delivered, false), limits);
    assert After(conns, more, limits).conns[k].writers[w].pc == Delivered(false);
    more := Goes(conns, more, k, Settles(w), limits);
    var s, m := After(conns, steps, limits), After(conns, steps, limits).conns[k].writers[w].message;
    if m.Response? { OfWith(s.ledger, k, Of(s.ledger, k) - {m.id}); }
    more := Goes(conns, more, k, Release(w), limits);
  }

  // ---------------------------------------------------------------- how connections end

  /** A writer leaves by its own steps, once the slot is its own or the connection is no longer
      live: at the latest with its write. */
  lemma EveryWriterLeaves(conns: nat, steps: seq<Step>, k: nat, w: nat, limits: Limits) returns (more: seq<Step>)
    requires k < |After(conns, steps, limits).conns|
    requires var c := After(conns, steps, limits).conns[k];
      w < |c.writers| && (c.slot == Some(w) || (c.writers[w].pc.Waiting? && !c.active))
    ensures steps <= more && |more| <= |steps| + 5
    ensures var c := After(conns, more, limits).conns;
      |c| == |After(conns, steps, limits).conns| && w < |c[k].writers| && c[k].writers[w].pc.Finished?
    ensures After(conns, steps, limits).conns[k].slot == Some(w) ==> After(conns, more, limits).conns[k].slot.None?
  {
    hide After, Applied;
    EveryRunKeepsSlots(conns, steps, k, limits);
    more := steps;
    if After(conns, more, limits).conns[k].writers[w].pc.Waiting? {
      more := Goes(conns, more, k, Abandon(w), limits);
    } else {
      if After(conns, more, limits).conns[k].writers[w].pc.Checking? { more := Goes(conns, more, k, Check(w), limits); }
      if After(conns, more, limits).conns[k].writers[w].pc.Writing? {
        more := Goes(conns, more, k, Deliver(w, true, false), limits);
      }
      more := ASettlingWriterLeaves(conns, more, k, w, limits);
    }
  }

  lemma ASettlingWriterLeaves(conns: nat, steps: seq<Step>, k: nat, w: nat, limits: Limits) returns (more: seq<Step>)
    requires k < |After(conns, steps, limits).conns| && w < |After(conns, steps, limits).conns[k].writers|
    requires var pc := After(conns, steps, limits).conns[k].writers[w].pc; pc.Delivered? || pc.Ending? || pc.Releasing?
    ensures steps <= more && |more| <= |steps| + 3
    ensures var c := After(conns, more, limits).conns;
      && |c| == |After(conns, steps, limits).conns| && w < |c[k].writers|
      && c[k].writers[w].pc.Finished? && c[k].slot.None?
  {
    hide After, Applied;
    more := steps;
    if After(conns, more, limits).conns[k].writers[w].pc.Delivered? { more := Goes(conns, more, k, Settles(w), limits); }
    if After(conns, more, limits).conns[k].writers[w].pc.Ending? { more := Goes(conns, more, k, WriterEnds(w), limits); }
    more := Goes(conns, more, k, Release(w), limits);
  }

  lemma EveryRunKeepsSlots(conns: nat, steps: seq<Step>, k: nat, limits: Limits)
    requires k < |After(conns, steps, limits).conns|
    ensures var c := After(conns, steps, limits).conns[k];
      c.slot.Some? ==> c.slot.value < |c.writers| && HasSlot(c.writers[c.slot.value].pc)
  {
    hide After, AnswersFit, PendingFits;
    EveryRunKeepsInv(conns, steps, limits);
  }

  /** A connection may be ended at any time, and one that is not live ends by one step of whoever
      ended it; the ledger then holds none of its calls. */
  lemma EveryConnectionEnds(conns: nat, steps: seq<Step>, k: nat, limits: Limits) returns (more: seq<Step>)
    requires k < |After(conns, steps, limits).conns|
    ensures steps <= more && |more| <= |steps| + 2
    ensures var t := After(conns, more, limits);
      |t.conns| == |After(conns, steps, limits).conns| && t.conns[k].ended && !t.conns[k].active && Of(t.ledger, k) == {}
  {
    hide After, Applied, SlotFits, AnswersFit, PendingFits, Of;
    more := steps;
    if After(conns, more, limits).conns[k].active { more := Goes(conns, more, k, Deactivates, limits); }
    EveryRunKeepsInv(conns, more, limits);
    var c := After(conns, more, limits).conns[k];
    if c.leaving > 0 { more := Goes(conns, more, k, Leaves, limits); }
    else if c.reader.Refusing? { more := Goes(conns, more, k, ReaderEnds, limits); }
    else if WriterEnding(c) { more := Goes(conns, more, k, WriterEnds(c.slot.value), limits); }
    EveryRunKeepsInv(conns, more, limits);
  }

  /** What a step may do to a session's calls: on a live connection it admits the call read, or
      settles the response that was written without breaking it; otherwise only the end of the
      connection touches them, and no step touches another session's. */
  lemma OnlyLiveConnectionsSettle(conns: nat, steps: seq<Step>, step: Step, limits: Limits, k: nat)
    requires k < |After(conns, steps, limits).conns|
    ensures var s, t := After(conns, steps, limits), After(conns, steps + [step], limits);
      && |t.conns| == |s.conns|
      && (Of(t.ledger, k) != Of(s.ledger, k) ==>
            && step.scope == k
            && (t.conns[k].ended
                || (s.conns[k].active && t.conns[k].active
                    && match step.move
                       case ReaderAdmits(_) =>
                         s.conns[k].reader.Got? && s.conns[k].reader.message.Call?
                         && Of(t.ledger, k) == Of(s.ledger, k) + {s.conns[k].reader.message.id}
                       case Settles(w) =>
                         w < |s.conns[k].writers| && s.conns[k].writers[w].pc == Delivered(false)
                         && s.conns[k].writers[w].message.Response?
                         && Of(t.ledger, k) == Of(s.ledger, k) - {s.conns[k].writers[w].message.id}
                       case _ => false)))
  {
    hide After, Admit, Of, With, Terminate, Settle, ResponseLedger.Unsettled;
    AfterOne(conns, steps, step, limits);
    var s := After(conns, steps, limits);
    if step.scope < |s.conns| {
      var c, admission := s.conns[step.scope], Answer(s, step.scope, limits);
      OnlyAdmittedAreRead(c, step.move, admission);
      AppliedToOne(s.ledger, step.scope, c, ConnMoves(c, step.move, admission).1, limits);
    }
  }

  lemma WriteBegins(c: Conn, move: Move, admission: Admission, w: nat)
    requires SlotFits(c) && w < |c.writers|
    ensures var t := ConnMoves(c, move, admission).0;
      && w < |t.writers|
      && (t.writers[w].pc.Writing? && !c.writers[w].pc.Writing? ==>
            c.active && c.slot == Some(w) && !c.committing && t.committing)
  {
    hide WriterMoves, SlotFits;
    match move
    case TakeSlot(v) => if v < |c.writers| { WriterBegins(c, v, move, w); }
    case Abandon(v) => if v < |c.writers| { WriterBegins(c, v, move, w); }
    case Check(v) => if v < |c.writers| { WriterBegins(c, v, move, w); }
    case Deliver(v, _, _) => if v < |c.writers| { WriterBegins(c, v, move, w); }
    case Settles(v) => if v < |c.writers| { WriterBegins(c, v, move, w); }
    case WriterEnds(v) => if v < |c.writers| { WriterBegins(c, v, move, w); }
    case Release(v) => if v < |c.writers| { WriterBegins(c, v, move, w); }
    case _ =>
  }

  lemma WriterBegins(c: Conn, v: nat, move: Move, w: nat)
    requires SlotFits(c) && v < |c.writers| && w < |c.writers|
    ensures var t := WriterMoves(c, v, move).0;
      && |t.writers| == |c.writers|
      && (t.writers[w].pc.Writing? && !c.writers[w].pc.Writing? ==>
            c.active && c.slot == Some(w) && !c.committing && t.committing)
  {
  }

  /** A write begins only on a live connection, by the writer that has the slot. */
  lemma WritesBeginOnLiveConnections(conns: nat, steps: seq<Step>, step: Step, limits: Limits, k: nat, w: nat)
    requires k < |After(conns, steps, limits).conns| && w < |After(conns, steps, limits).conns[k].writers|
    ensures var s, t := After(conns, steps, limits), After(conns, steps + [step], limits);
      && |t.conns| == |s.conns| && w < |t.conns[k].writers|
      && (t.conns[k].writers[w].pc.Writing? && !s.conns[k].writers[w].pc.Writing? ==>
            s.conns[k].active && s.conns[k].slot == Some(w) && !s.conns[k].committing && t.conns[k].committing)
  {
    hide After, Applied, AnswersFit, PendingFits, ConnMoves, SlotFits;
    AfterOne(conns, steps, step, limits);
    EveryRunKeepsInv(conns, steps, limits);
    var s := After(conns, steps, limits);
    if step.scope == k {
      assert ConnFits(s.conns[k], Of(s.ledger, k));
      WriteBegins(s.conns[k], step.move, Answer(s, k, limits), w);
    }
  }
}
