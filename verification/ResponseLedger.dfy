/** The calls of an MCP instance whose replies have not settled, by session. */
module ResponseLedger {

  type Scope = nat
  type Id = nat

  /** The JSON-RPC messages a session exchanges, as far as the ledger tells them apart. */
  datatype Message = Call(id: Id) | Response(id: Id) | Other

  /** The unsettled calls of each session; a session with none is absent. */
  type Ledger = m: map<Scope, set<Id>> | forall s :: s in m ==> m[s] != {} witness map[]

  datatype Admission = Admitted | Duplicate | SessionFull | InstanceFull

  datatype Limits = Limits(session: int, instance: int)

  function Of(l: Ledger, scope: Scope): set<Id> { if scope in l then l[scope] else {} }

  function With(l: Ledger, scope: Scope, ids: set<Id>): Ledger
  {
    if ids == {} then l - {scope} else l[scope := ids]
  }

  /** Every unsettled call with its session. */
  function Unsettled(l: Ledger): set<(Scope, Id)>
  {
    set s, id | s in l && id in l[s] :: (s, id)
  }

  function Admit(l: Ledger, scope: Scope, message: Message, limits: Limits): (Ledger, Admission)
  {
    if !message.Call? then (l, Admitted)
    else if message.id in Of(l, scope) then (l, Duplicate)
    else if |Of(l, scope)| >= limits.session then (l, SessionFull)
    else if |Unsettled(l)| >= limits.instance then (l, InstanceFull)
    else (With(l, scope, Of(l, scope) + {message.id}), Admitted)
  }

  function Settle(l: Ledger, scope: Scope, message: Message): Ledger
  {
    if message.Response? then With(l, scope, Of(l, scope) - {message.id}) else l
  }

  function Terminate(l: Ledger, scope: Scope): Ledger { l - {scope} }

  lemma OfWith(l: Ledger, scope: Scope, ids: set<Id>)
    ensures forall s :: Of(With(l, scope, ids), s) == if s == scope then ids else Of(l, s)
    ensures Unsettled(With(l, scope, ids)) == (set p | p in Unsettled(l) && p.0 != scope) + Pairs(scope, ids)
  {
    var t := With(l, scope, ids);
    var right := (set p | p in Unsettled(l) && p.0 != scope) + Pairs(scope, ids);
    forall p ensures p in Unsettled(t) <==> p in right {
      assert p in Unsettled(t) <==> p.0 in t && p.1 in t[p.0];
      assert p in Unsettled(l) <==> p.0 in l && p.1 in l[p.0];
    }
  }

  class ResponseLedgerMap {
    var entries: Ledger

    constructor ()
      ensures entries == map[]
    {
      entries := map[];
    }

    /** How many calls are unsettled in all sessions together. */
    method Count() returns (total: nat)
      ensures total == |Unsettled(entries)|
    {
      hide PairsIn, Unsettled;
      total := 0;
      var left := entries.Keys;
      AllPairs(entries);
      while left != {}
        invariant left <= entries.Keys
        invariant total + |PairsIn(entries, left)| == |Unsettled(entries)|
        decreases |left|
      {
        var scope :| scope in left;
        PairsSplit(entries, left, scope);
        total := total + |entries[scope]|;
        left := left - {scope};
      }
      NoPairs(entries);
    }

    method AdmitCall(scope: Scope, message: Message, limits: Limits) returns (admission: Admission)
      modifies this
      ensures (entries, admission) == Admit(old(entries), scope, message, limits)
    {
      if !message.Call? { return Admitted; }
      var requests := Of(entries, scope);
      if message.id in requests { return Duplicate; }
      if |requests| >= limits.session { return SessionFull; }
      var total := Count();
      if total >= limits.instance { return InstanceFull; }
      entries := entries[scope := requests + {message.id}];
      return Admitted;
    }

    method SettleResponse(scope: Scope, message: Message)
      modifies this
      ensures entries == Settle(old(entries), scope, message)
    {
      if !message.Response? { return; }
      var requests := Of(entries, scope) - {message.id};
      if |requests| == 0 {
        entries := entries - {scope};
      } else {
        entries := entries[scope := requests];
      }
    }

    method TerminateScope(scope: Scope)
      modifies this
      ensures entries == Terminate(old(entries), scope)
    {
      entries := entries - {scope};
    }
  }

  function PairsIn(l: Ledger, scopes: set<Scope>): set<(Scope, Id)>
  {
    set s, id | s in l && s in scopes && id in l[s] :: (s, id)
  }

  lemma AllPairs(l: Ledger)
    ensures PairsIn(l, l.Keys) == Unsettled(l)
  {
    assert forall p :: p in PairsIn(l, l.Keys) <==> p in Unsettled(l);
  }

  lemma NoPairs(l: Ledger)
    ensures PairsIn(l, {}) == {}
  {
  }

  lemma PairsSplit(l: Ledger, scopes: set<Scope>, scope: Scope)
    requires scope in scopes && scope in l
    ensures |PairsIn(l, scopes)| == |PairsIn(l, scopes - {scope})| + |l[scope]|
  {
    var rest, one := PairsIn(l, scopes - {scope}), Pairs(scope, l[scope]);
    assert PairsIn(l, scopes) == rest + one;
    assert rest !! one;
    PairsCount(scope, l[scope]);
  }

  function Pairs(scope: Scope, ids: set<Id>): set<(Scope, Id)> { set id | id in ids :: (scope, id) }

  lemma {:induction false} PairsCount(scope: Scope, ids: set<Id>)
    ensures |Pairs(scope, ids)| == |ids|
  {
    if ids == {} {
      assert Pairs(scope, ids) == {};
    } else {
      var one :| one in ids;
      var rest := ids - {one};
      PairsCount(scope, rest);
      assert Pairs(scope, ids) == Pairs(scope, rest) + {(scope, one)};
      assert (scope, one) !in Pairs(scope, rest);
    }
  }

  // ---------------------------------------------------------------- histories

  datatype Event = Read(scope: Scope, message: Message) | Written(scope: Scope, message: Message) | Ended(scope: Scope)

  function Moves(l: Ledger, e: Event, limits: Limits): Ledger
  {
    match e
    case Read(scope, message) => Admit(l, scope, message, limits).0
    case Written(scope, message) => Settle(l, scope, message)
    case Ended(scope) => Terminate(l, scope)
  }

  function After(events: seq<Event>, limits: Limits): Ledger
  {
    if events == [] then map[] else Moves(After(events[..|events| - 1], limits), events[|events| - 1], limits)
  }

  /** Event k admitted the call. */
  predicate AdmittedAt(events: seq<Event>, limits: Limits, k: nat, scope: Scope, id: Id)
  {
    && k < |events| && events[k] == Read(scope, Call(id))
    && Admit(After(events[..k], limits), scope, Call(id), limits).1.Admitted?
  }

  /** Event k settles the call or ends its session. */
  predicate EndsAt(events: seq<Event>, k: nat, scope: Scope, id: Id)
  {
    k < |events| && (events[k] == Written(scope, Response(id)) || events[k] == Ended(scope))
  }

  ghost predicate StillOpen(events: seq<Event>, limits: Limits, scope: Scope, id: Id)
  {
    exists k: nat :: AdmittedAt(events, limits, k, scope, id) && forall j :: k < j < |events| ==> !EndsAt(events, j, scope, id)
  }

  lemma MovesOne(l: Ledger, e: Event, limits: Limits, scope: Scope, id: Id)
    ensures id in Of(Moves(l, e, limits), scope)
       <==> || (e == Read(scope, Call(id)) && Admit(l, scope, Call(id), limits).1.Admitted?)
            || (id in Of(l, scope) && e != Written(scope, Response(id)) && e != Ended(scope))
  {
    match e
    case Read(s, message) =>
      if message.Call? { OfWith(l, s, Of(l, s) + {message.id}); }
    case Written(s, message) =>
      if message.Response? { OfWith(l, s, Of(l, s) - {message.id}); }
    case Ended(_) =>
  }

  /** The ledger is exactly the calls that were admitted and neither settled nor ended with
      their session since. */
  lemma {:induction false} LedgerIsTheOpenCalls(events: seq<Event>, limits: Limits, scope: Scope, id: Id)
    ensures id in Of(After(events, limits), scope) <==> StillOpen(events, limits, scope, id)
  {
    hide Moves, Admit, Of;
    if events == [] {
      assert Of(map[], scope) == {} by { NothingOpen(scope); }
    } else {
      var n := |events| - 1;
      var first := events[..n];
      LedgerIsTheOpenCalls(first, limits, scope, id);
      MovesOne(After(first, limits), events[n], limits, scope, id);
      if StillOpen(first, limits, scope, id) {
        var k: nat :| AdmittedAt(first, limits, k, scope, id) && forall j :: k < j < |first| ==> !EndsAt(first, j, scope, id);
        assert first[..k] == events[..k];
        assert AdmittedAt(events, limits, k, scope, id);
        assert forall j :: k < j < n ==> EndsAt(events, j, scope, id) == EndsAt(first, j, scope, id);
      }
      if AdmittedAt(events, limits, n, scope, id) { assert StillOpen(events, limits, scope, id); }
      if StillOpen(events, limits, scope, id) {
        var k: nat :| AdmittedAt(events, limits, k, scope, id) && forall j :: k < j < |events| ==> !EndsAt(events, j, scope, id);
        if k < n {
          assert first[..k] == events[..k];
          assert AdmittedAt(first, limits, k, scope, id);
          assert forall j :: k < j < n ==> EndsAt(events, j, scope, id) == EndsAt(first, j, scope, id);
          assert !EndsAt(events, n, scope, id);
        }
      }
    }
  }

  lemma NothingOpen(scope: Scope)
    ensures Of(map[], scope) == {}
  {
  }

  predicate WithinLimits(l: Ledger, limits: Limits)
  {
    && (forall s :: s in l ==> |l[s]| <= limits.session)
    && (l != map[] ==> |Unsettled(l)| <= limits.instance)
  }

  lemma FewerAreWithin(l: Ledger, scope: Scope, ids: set<Id>, limits: Limits)
    requires WithinLimits(l, limits) && ids <= Of(l, scope)
    ensures WithinLimits(With(l, scope, ids), limits)
  {
    var t := With(l, scope, ids);
    OfWith(l, scope, ids);
    Smaller(Unsettled(t), Unsettled(l));
    Smaller(ids, Of(l, scope));
  }

  lemma {:induction false} Smaller<T>(a: set<T>, b: set<T>)
    requires a <= b
    ensures |a| <= |b|
  {
    if a != {} {
      var x :| x in a;
      Smaller(a - {x}, b - {x});
    }
  }

  lemma OneMoreIsWithin(l: Ledger, scope: Scope, id: Id, limits: Limits)
    requires WithinLimits(l, limits) && id !in Of(l, scope)
    requires |Of(l, scope)| < limits.session && |Unsettled(l)| < limits.instance
    ensures WithinLimits(With(l, scope, Of(l, scope) + {id}), limits)
  {
    hide Unsettled;
    OneMorePair(l, scope, id);
  }

  lemma OneMorePair(l: Ledger, scope: Scope, id: Id)
    requires id !in Of(l, scope)
    ensures |Unsettled(With(l, scope, Of(l, scope) + {id}))| == |Unsettled(l)| + 1
  {
    hide Unsettled, With, Of;
    var t := With(l, scope, Of(l, scope) + {id});
    OfWith(l, scope, Of(l, scope) + {id});
    forall p ensures p in Unsettled(t) <==> p in Unsettled(l) + {(scope, id)} {
      InUnsettled(t, p);
      InUnsettled(l, p);
    }
    assert Unsettled(t) == Unsettled(l) + {(scope, id)};
    InUnsettled(l, (scope, id));
  }

  lemma InUnsettled(l: Ledger, p: (Scope, Id))
    ensures p in Unsettled(l) <==> p.1 in Of(l, p.0)
  {
  }

  lemma MovesKeepLimits(l: Ledger, e: Event, limits: Limits)
    requires WithinLimits(l, limits)
    ensures WithinLimits(Moves(l, e, limits), limits)
  {
    hide WithinLimits, With, Unsettled;
    match e
    case Read(scope, message) =>
      if Admit(l, scope, message, limits).1.Admitted? && message.Call? { OneMoreIsWithin(l, scope, message.id, limits); }
    case Written(scope, message) =>
      if message.Response? { FewerAreWithin(l, scope, Of(l, scope) - {message.id}, limits); }
    case Ended(scope) =>
      FewerAreWithin(l, scope, {}, limits);
      EndingClears(l, scope);
  }

  lemma EndingClears(l: Ledger, scope: Scope)
    ensures Terminate(l, scope) == With(l, scope, {})
  {
  }

  /** No session and no instance ever has more unsettled calls than its limit. */
  lemma {:induction false} LimitsAlwaysHold(events: seq<Event>, limits: Limits)
    ensures WithinLimits(After(events, limits), limits)
  {
    hide Moves;
    if events != [] {
      LimitsAlwaysHold(events[..|events| - 1], limits);
      MovesKeepLimits(After(events[..|events| - 1], limits), events[|events| - 1], limits);
    }
  }

  /** A call is refused exactly if its id is still open in its session, or its session or the whole
      instance has as many open calls as its limit; the first reason that holds is given. */
  lemma RefusedExactly(events: seq<Event>, limits: Limits, scope: Scope, id: Id, open: set<(Scope, Id)>)
    requires forall p :: p in open <==> StillOpen(events, limits, p.0, p.1)
    ensures var admission := Admit(After(events, limits), scope, Call(id), limits).1;
      var mine := set p | p in open && p.0 == scope;
      && (admission.Duplicate? <==> (scope, id) in open)
      && (admission.SessionFull? <==> (scope, id) !in open && |mine| >= limits.session)
      && (admission.InstanceFull? <==> (scope, id) !in open && |mine| < limits.session && |open| >= limits.instance)
      && (admission.Admitted? <==> (scope, id) !in open && |mine| < limits.session && |open| < limits.instance)
  {
    hide After, StillOpen;
    var l := After(events, limits);
    forall p ensures p in open <==> p in Unsettled(l) {
      LedgerIsTheOpenCalls(events, limits, p.0, p.1);
      assert p in Unsettled(l) <==> p.0 in l && p.1 in l[p.0];
    }
    var mine := set p | p in open && p.0 == scope;
    assert mine == Pairs(scope, Of(l, scope));
    PairsCount(scope, Of(l, scope));
    assert open == Unsettled(l);
  }
}
