/** Exclusive leases on panes: one input dispatch or run at a time on any overlapping panes. */
module PaneLeases {
  import opened Options
  import opened PaneIdentity

  datatype Kind = Input | Run

  datatype Reservation = Reservation(token: nat, kind: Kind)

  datatype Lease = Lease(identities: seq<Identity>, token: nat, kind: Kind)

  /** Why a lease was refused: malformed identities, or a pane taken by an active reservation
      or, for a run, by a detached run. */
  datatype Granted = Leased(lease: Lease) | Invalid | Busy(id: Identity, kind: Kind) | RunDetached(id: Identity)

  datatype Coordinator = Coordinator(next: nat, active: map<Identity, Reservation>, detached: map<Identity, nat>)

  predicate Acceptable(wanted: seq<Identity>, tool: string)
  {
    wanted != [] && tool != "" && AllValid(wanted) && NoneAdjacent(wanted)
  }

  /** Whether identity id stands in the way of a reservation. */
  predicate Blocks(c: Coordinator, id: Identity, kind: Kind)
  {
    id in c.active || (id in c.detached && kind.Run?)
  }

  function Refusal(c: Coordinator, id: Identity, kind: Kind): Granted
    requires Blocks(c, id, kind)
  {
    if id in c.active then Busy(id, c.active[id].kind) else RunDetached(id)
  }

  /** The first of the wanted identities that is in the way. */
  function FirstBlocked(c: Coordinator, wanted: seq<Identity>, kind: Kind): Option<Identity>
  {
    if wanted == [] then None
    else if Blocks(c, wanted[0], kind) then Some(wanted[0])
    else FirstBlocked(c, wanted[1..], kind)
  }

  function Reserve(active: map<Identity, Reservation>, wanted: seq<Identity>, r: Reservation): map<Identity, Reservation>
  {
    active + map id | id in wanted :: r
  }

  function Acquire(c: Coordinator, identities: seq<Identity>, kind: Kind, tool: string): (Coordinator, Granted)
  {
    var wanted := Sort(identities);
    if !Acceptable(wanted, tool) then (c, Invalid)
    else if FirstBlocked(c, wanted, kind).Some? then
      var id := FirstBlocked(c, wanted, kind).value;
      (c, if Blocks(c, id, kind) then Refusal(c, id, kind) else Invalid)
    else
      var token := c.next + 1;
      (Coordinator(token, Reserve(c.active, wanted, Reservation(token, kind)), c.detached),
       Leased(Lease(wanted, token, kind)))
  }

  predicate Holds(c: Coordinator, lease: Lease, id: Identity)
  {
    id in c.active && c.active[id] == Reservation(lease.token, lease.kind)
  }

  predicate Owns(c: Coordinator, lease: Lease, identities: seq<Identity>)
  {
    var wanted := Sort(identities);
    wanted == lease.identities && forall id :: id in wanted ==> Holds(c, lease, id)
  }

  /** What remains of the reservations when r's are dropped on these identities. */
  function Drop<R(==)>(held: map<Identity, R>, identities: seq<Identity>, r: R): map<Identity, R>
  {
    map id | id in held && !(id in identities && held[id] == r) :: held[id]
  }

  /** The detached runs once those that r still holds of these identities are added. */
  function Mark(detached: map<Identity, nat>, active: map<Identity, Reservation>, identities: seq<Identity>,
      r: Reservation): map<Identity, nat>
  {
    detached + map id | id in identities && id in active && active[id] == r :: r.token
  }

  function Release(c: Coordinator, lease: Lease): Coordinator
  {
    c.(active := Drop(c.active, lease.identities, Reservation(lease.token, lease.kind)),
       detached := Drop(c.detached, lease.identities, lease.token))
  }

  function Detach(c: Coordinator, lease: Lease): Coordinator
  {
    var r := Reservation(lease.token, lease.kind);
    c.(active := Drop(c.active, lease.identities, r), detached := Mark(c.detached, c.active, lease.identities, r))
  }

  lemma DropStep<R>(held: map<Identity, R>, identities: seq<Identity>, r: R, id: Identity)
    ensures var d := Drop(held, identities, r);
            Drop(held, identities + [id], r) == if id in d && d[id] == r then d - {id} else d
  {
  }

  lemma DropNone<R>(held: map<Identity, R>, r: R)
    ensures Drop(held, [], r) == held
  {
  }

  lemma MarkStep(detached: map<Identity, nat>, active: map<Identity, Reservation>, identities: seq<Identity>,
      r: Reservation, id: Identity)
    ensures var d, m := Drop(active, identities, r), Mark(detached, active, identities, r);
            Mark(detached, active, identities + [id], r) == if id in d && d[id] == r then m[id := r.token] else m
  {
    var d, m := Drop(active, identities, r), Mark(detached, active, identities, r);
    var added := map i | i in identities && i in active && active[i] == r :: r.token;
    var grown := map i | i in identities + [id] && i in active && active[i] == r :: r.token;
    if id in d && d[id] == r {
      assert grown == added[id := r.token];
    } else {
      assert grown == added;
    }
  }

  lemma MarkNone(detached: map<Identity, nat>, active: map<Identity, Reservation>, r: Reservation)
    ensures Mark(detached, active, [], r) == detached
  {
  }

  lemma Prefixes(s: seq<Identity>, i: nat)
    requires i < |s|
    ensures s[..i + 1] == s[..i] + [s[i]] && s[..|s|] == s && s[..0] == []
  {
  }

  class PaneInputCoordinator {
    var next: nat
    var active: map<Identity, Reservation>
    var detached: map<Identity, nat>

    ghost function State(): Coordinator
      reads this
    {
      Coordinator(next, active, detached)
    }

    constructor ()
      ensures State() == Coordinator(0, map[], map[])
    {
      next, active, detached := 0, map[], map[];
    }

    /** wanted is the sorted clone of what the caller asked for. */
    method AcquireSorted(wanted: seq<Identity>, kind: Kind, tool: string) returns (granted: Granted)
      modifies this
      ensures granted.Invalid? <==> !Acceptable(wanted, tool)
      ensures granted.Invalid? ==> State() == old(State())
      ensures Acceptable(wanted, tool) ==>
                var blocked := FirstBlocked(old(State()), wanted, kind);
                if blocked.Some? then
                  && State() == old(State()) && Blocks(State(), blocked.value, kind)
                  && granted == Refusal(State(), blocked.value, kind)
                else
                  && granted == Leased(Lease(wanted, old(next) + 1, kind))
                  && State() == Coordinator(old(next) + 1,
                       Reserve(old(active), wanted, Reservation(old(next) + 1, kind)), old(detached))
    {
      hide AllValid, NoneAdjacent, FirstBlocked, Reserve;
      if |wanted| == 0 || tool == "" { return Invalid; }
      var valid := CheckIdentities(wanted);
      if !valid { return Invalid; }
      var refusal := FindBlocked(wanted, kind);
      if refusal.Some? { return refusal.value; }
      next := next + 1;
      ReserveAll(wanted, Reservation(next, kind));
      return Leased(Lease(wanted, next, kind));
    }

    method FindBlocked(wanted: seq<Identity>, kind: Kind) returns (refusal: Option<Granted>)
      ensures var blocked := FirstBlocked(State(), wanted, kind);
        if blocked.Some? then
          Blocks(State(), blocked.value, kind) && refusal == Some(Refusal(State(), blocked.value, kind))
        else refusal == None
      ensures refusal.Some? ==> !refusal.value.Invalid?
    {
      assert wanted[0..] == wanted;
      for i := 0 to |wanted|
        invariant FirstBlocked(State(), wanted, kind) == FirstBlocked(State(), wanted[i..], kind)
      {
        if wanted[i] in active { return Some(Busy(wanted[i], active[wanted[i]].kind)); }
        if wanted[i] in detached && kind.Run? { return Some(RunDetached(wanted[i])); }
        assert wanted[i..][1..] == wanted[i + 1..];
      }
      return None;
    }

    method ReserveAll(wanted: seq<Identity>, r: Reservation)
      modifies this`active
      ensures active == Reserve(old(active), wanted, r)
    {
      for i := 0 to |wanted|
        invariant active == Reserve(old(active), wanted[..i], r)
      {
        active := active[wanted[i] := r];
        Prefixes(wanted, i);
      }
      assert wanted[..|wanted|] == wanted;
    }

    method OwnsSorted(lease: Lease, wanted: seq<Identity>) returns (owns: bool)
      ensures owns <==> wanted == lease.identities && forall id :: id in wanted ==> Holds(State(), lease, id)
    {
      if wanted != lease.identities { return false; }
      for i := 0 to |wanted|
        invariant forall k :: 0 <= k < i ==> Holds(State(), lease, wanted[k])
      {
        var id := wanted[i];
        if id !in active || active[id].token != lease.token || active[id].kind != lease.kind {
          assert id in wanted && !Holds(State(), lease, id);
          return false;
        }
      }
      return true;
    }

    method ReleaseLease(lease: Lease)
      modifies this
      ensures State() == Release(old(State()), lease)
    {
      hide Drop;
      ghost var r := Reservation(lease.token, lease.kind);
      DropNone(active, r);
      DropNone(detached, lease.token);
      for i := 0 to |lease.identities|
        invariant active == Drop(old(active), lease.identities[..i], r)
        invariant detached == Drop(old(detached), lease.identities[..i], lease.token)
        invariant next == old(next)
      {
        var id := lease.identities[i];
        Prefixes(lease.identities, i);
        DropStep(old(active), lease.identities[..i], r, id);
        DropStep(old(detached), lease.identities[..i], lease.token, id);
        if id in active && active[id].token == lease.token && active[id].kind == lease.kind {
          active := active - {id};
        }
        if id in detached && detached[id] == lease.token {
          detached := detached - {id};
        }
      }
      assert lease.identities[..|lease.identities|] == lease.identities;
    }

    method DetachLease(lease: Lease)
      modifies this
      ensures State() == Detach(old(State()), lease)
    {
      hide Drop, Mark;
      ghost var r := Reservation(lease.token, lease.kind);
      DropNone(active, r);
      MarkNone(detached, active, r);
      for i := 0 to |lease.identities|
        invariant active == Drop(old(active), lease.identities[..i], r)
        invariant detached == Mark(old(detached), old(active), lease.identities[..i], r)
        invariant next == old(next)
      {
        var id := lease.identities[i];
        Prefixes(lease.identities, i);
        DropStep(old(active), lease.identities[..i], r, id);
        MarkStep(old(detached), old(active), lease.identities[..i], r, id);
        if id in active && active[id].token == lease.token && active[id].kind == lease.kind {
          active := active - {id};
          detached := detached[id := lease.token];
        }
      }
      assert lease.identities[..|lease.identities|] == lease.identities;
    }
  }

  method CheckIdentities(wanted: seq<Identity>) returns (valid: bool)
    ensures valid <==> AllValid(wanted) && NoneAdjacent(wanted)
  {
    hide CanonicalPane;
    assert wanted[0..] == wanted;
    for i := 0 to |wanted|
      invariant forall k :: 0 <= k < i ==> ValidIdentity(wanted[k])
      invariant NoneAdjacent(wanted) <==> NoneAdjacent(wanted[if i == 0 then 0 else i - 1..])
    {
      var id := wanted[i];
      assert id in wanted;
      if i > 0 { assert wanted[i - 1..][1..] == wanted[i..] && wanted[i - 1..][1] == id; }
      if id.endpoint == 0 || id.serverPid == 0 || id.serverStart == 0 || !CanonicalPane(id.pane)
        || (i > 0 && id == wanted[i - 1]) {
        return false;
      }
    }
    return true;
  }

  // ---------------------------------------------------------------- histories

  datatype Status = Live | Detached | Released

  /** The coordinator, every lease it ever granted, and what became of each. */
  datatype History = History(c: Coordinator, leases: seq<Lease>, status: seq<Status>)

  const START := History(Coordinator(0, map[], map[]), [], [])

  /** A caller asks for a lease, gives one back, or, for a run, leaves it behind; giving back
      and leaving may come any number of times, also for leases already gone. */
  datatype Step =
    | Take(identities: seq<Identity>, kind: Kind, tool: string)
    | Give(k: nat)
    | Leave(k: nat)

  function Moves(h: History, step: Step): History
    requires |h.leases| == |h.status|
  {
    match step
    case Take(identities, kind, tool) =>
      var (c, granted) := Acquire(h.c, identities, kind, tool);
      if granted.Leased? then History(c, h.leases + [granted.lease], h.status + [Live]) else h.(c := c)
    case Give(k) =>
      if k >= |h.leases| then h else History(Release(h.c, h.leases[k]), h.leases, h.status[k := Released])
    case Leave(k) =>
      if k >= |h.leases| || h.leases[k].kind.Input? then h
      else History(Detach(h.c, h.leases[k]), h.leases, if h.status[k].Live? then h.status[k := Detached] else h.status)
  }

  function After(steps: seq<Step>): (h: History)
    ensures |h.leases| == |h.status|
  {
    if steps == [] then START else Moves(After(steps[..|steps| - 1]), steps[|steps| - 1])
  }

  /** Lease j is live on an identity exactly if the identity's reservation is j's, and detached
      on it exactly if the detached run is j's. */
  predicate Agrees(h: History, j: nat, id: Identity)
    requires j < |h.leases| == |h.status|
  {
    var on := id in h.leases[j].identities;
    && (on && h.status[j].Live? <==> id in h.c.active && h.c.active[id].token == j + 1)
    && (on && h.status[j].Live? ==> h.c.active[id].kind == h.leases[j].kind)
    && (on && h.status[j].Detached? <==> id in h.c.detached && h.c.detached[id] == j + 1)
  }

  /** Tokens name leases granted, and where a run is detached no other is active. */
  predicate Named(h: History, id: Identity)
  {
    && (id in h.c.active ==> 1 <= h.c.active[id].token <= |h.leases|)
    && (id in h.c.detached ==> 1 <= h.c.detached[id] <= |h.leases|)
    && (id in h.c.active && id in h.c.detached ==> h.c.active[id].kind.Input?)
  }

  ghost predicate WellGranted(h: History)
  {
    && |h.leases| == |h.status| == h.c.next
    && (forall j :: 0 <= j < |h.leases| ==> h.leases[j].token == j + 1 && h.leases[j].identities != [])
    && (forall j :: 0 <= j < |h.leases| && h.status[j].Detached? ==> h.leases[j].kind.Run?)
  }

  ghost predicate Inv(h: History)
  {
    && WellGranted(h)
    && (forall j: nat, id :: j < |h.leases| ==> Agrees(h, j, id))
    && (forall id :: Named(h, id))
  }

  lemma {:induction false} NoneBlocked(c: Coordinator, wanted: seq<Identity>, kind: Kind)
    ensures FirstBlocked(c, wanted, kind).None? <==> forall id :: id in wanted ==> !Blocks(c, id, kind)
    ensures var blocked := FirstBlocked(c, wanted, kind);
            blocked.Some? ==> blocked.value in wanted && Blocks(c, blocked.value, kind)
  {
    hide Blocks;
    if wanted != [] {
      NoneBlocked(c, wanted[1..], kind);
      assert wanted == [wanted[0]] + wanted[1..];
    }
  }

  function Grant(h: History, wanted: seq<Identity>, kind: Kind): History
  {
    var token := h.c.next + 1;
    History(Coordinator(token, Reserve(h.c.active, wanted, Reservation(token, kind)), h.c.detached),
            h.leases + [Lease(wanted, token, kind)], h.status + [Live])
  }

  lemma GrantAgrees(h: History, wanted: seq<Identity>, kind: Kind, j: nat, id: Identity)
    requires WellGranted(h) && Named(h, id) && (j < |h.leases| ==> Agrees(h, j, id)) && j <= |h.leases|
    requires id in wanted ==> !Blocks(h.c, id, kind)
    ensures Agrees(Grant(h, wanted, kind), j, id) && Named(Grant(h, wanted, kind), id)
  {
  }

  lemma GrantKeepsInv(h: History, wanted: seq<Identity>, kind: Kind)
    requires Inv(h) && wanted != [] && forall id :: id in wanted ==> !Blocks(h.c, id, kind)
    ensures Inv(Grant(h, wanted, kind))
  {
    hide Agrees, Named, Blocks, Reserve;
    var t := Grant(h, wanted, kind);
    forall j: nat, id | j < |t.leases| ensures Agrees(t, j, id) { GrantAgrees(h, wanted, kind, j, id); }
    forall id ensures Named(t, id) { GrantAgrees(h, wanted, kind, |h.leases|, id); }
  }

  lemma GiveAgrees(h: History, k: nat, j: nat, id: Identity)
    requires WellGranted(h) && Named(h, id) && k < |h.leases| && Agrees(h, k, id)
    requires j < |h.leases| && Agrees(h, j, id)
    ensures Agrees(Moves(h, Give(k)), j, id) && Named(Moves(h, Give(k)), id)
  {
  }

  lemma GiveKeepsInv(h: History, k: nat)
    requires Inv(h) && k < |h.leases|
    ensures Inv(Moves(h, Give(k)))
  {
    hide Agrees, Named, Release;
    var t := Moves(h, Give(k));
    forall j: nat, id | j < |t.leases| ensures Agrees(t, j, id) { GiveAgrees(h, k, j, id); }
    forall id ensures Named(t, id) { GiveAgrees(h, k, k, id); }
    assert t.c.next == h.c.next by { ReleaseKeepsNext(h.c, h.leases[k]); }
  }

  lemma ReleaseKeepsNext(c: Coordinator, lease: Lease)
    ensures Release(c, lease).next == c.next && Detach(c, lease).next == c.next
  {
  }

  lemma LeaveAgrees(h: History, k: nat, j: nat, id: Identity)
    requires WellGranted(h) && Named(h, id) && k < |h.leases| && h.leases[k].kind.Run? && Agrees(h, k, id)
    requires j < |h.leases| && Agrees(h, j, id)
    ensures Agrees(Moves(h, Leave(k)), j, id) && Named(Moves(h, Leave(k)), id)
  {
  }

  lemma LeaveKeepsInv(h: History, k: nat)
    requires Inv(h) && k < |h.leases| && h.leases[k].kind.Run?
    ensures Inv(Moves(h, Leave(k)))
  {
    hide Agrees, Named, Detach;
    var t := Moves(h, Leave(k));
    forall j: nat, id | j < |t.leases| ensures Agrees(t, j, id) { LeaveAgrees(h, k, j, id); }
    forall id ensures Named(t, id) { LeaveAgrees(h, k, k, id); }
    assert t.c.next == h.c.next by { ReleaseKeepsNext(h.c, h.leases[k]); }
  }

  lemma MovesKeepInv(h: History, step: Step)
    requires Inv(h)
    ensures Inv(Moves(h, step))
  {
    hide Agrees, Named, Blocks, Reserve, Acceptable, Sort, Release, Detach;
    match step
    case Take(identities, kind, tool) =>
      var wanted := Sort(identities);
      if Acceptable(wanted, tool) {
        NoneBlocked(h.c, wanted, kind);
        AcceptableAreSome(wanted, tool);
        if FirstBlocked(h.c, wanted, kind).None? { GrantKeepsInv(h, wanted, kind); }
      }
    case Give(k) => if k < |h.leases| { GiveKeepsInv(h, k); }
    case Leave(k) => if k < |h.leases| && h.leases[k].kind.Run? { LeaveKeepsInv(h, k); }
  }

  lemma AcceptableAreSome(wanted: seq<Identity>, tool: string)
    requires Acceptable(wanted, tool)
    ensures wanted != [] && tool != "" && AllValid(wanted) && NoneAdjacent(wanted)
  {
  }

  lemma {:induction false} EveryHistoryKeepsInv(steps: seq<Step>)
    ensures Inv(After(steps))
  {
    hide Moves, Inv;
    if steps == [] {
      StartInv();
    } else {
      EveryHistoryKeepsInv(steps[..|steps| - 1]);
      MovesKeepInv(After(steps[..|steps| - 1]), steps[|steps| - 1]);
    }
  }

  lemma StartInv()
    ensures Inv(START)
  {
  }

  // ---------------------------------------------------------------- every history

  predicate OnRun(h: History, k: nat, id: Identity)
    requires k < |h.leases| == |h.status|
  {
    id in h.leases[k].identities && h.leases[k].kind.Run? && !h.status[k].Released?
  }

  /** Two live leases never share an identity, and no identity has two runs, active or
      detached. */
  lemma LeasesAreExclusive(steps: seq<Step>, j: nat, k: nat, id: Identity)
    requires j < k < |After(steps).leases|
    ensures var h := After(steps);
      && !(h.status[j].Live? && h.status[k].Live? && id in h.leases[j].identities && id in h.leases[k].identities)
      && !(OnRun(h, j, id) && OnRun(h, k, id))
  {
    hide After;
    EveryHistoryKeepsInv(steps);
    assert Agrees(After(steps), j, id) && Agrees(After(steps), k, id) && Named(After(steps), id);
  }

  /** Whether a request for these identities would be granted, in terms of the leases. */
  ghost predicate Free(h: History, identities: seq<Identity>, kind: Kind, tool: string)
    requires |h.leases| == |h.status|
  {
    && identities != [] && tool != "" && AllValid(identities) && Distinct(identities)
    && forall id, k: nat :: id in identities && k < |h.leases| && id in h.leases[k].identities ==>
         !h.status[k].Live? && (kind.Run? ==> !h.status[k].Detached?)
  }

  lemma GrantedWhenFree(h: History, identities: seq<Identity>, kind: Kind, tool: string)
    requires Inv(h) && |h.leases| == |h.status|
    ensures var (c, granted) := Acquire(h.c, identities, kind, tool);
      && (granted.Leased? <==> Free(h, identities, kind, tool))
      && (granted.Leased? ==>
            && granted.lease.kind == kind && multiset(granted.lease.identities) == multiset(identities)
            && forall id :: id in identities ==> Holds(c, granted.lease, id))
      && (!granted.Leased? ==> c == h.c)
  {
    hide ValidIdentity;
    var wanted := Sort(identities);
    SortOrders(identities);
    NoneBlocked(h.c, wanted, kind);
    SameElements(wanted, identities);
    OrderedDuplicatesAreAdjacent(wanted);
    forall id | id in wanted
      ensures !Blocks(h.c, id, kind) <==>
                forall k: nat :: k < |h.leases| && id in h.leases[k].identities ==>
                  !h.status[k].Live? && (kind.Run? ==> !h.status[k].Detached?)
    {
      BlockedByALease(h, id, kind);
    }
  }

  /** A lease is granted exactly when its identities are well formed and asked for once, no live
      lease holds any of them, and, for a run, no detached run does; and then it has them all.
      A refusal changes nothing. */
  lemma GrantedExactlyWhenFree(steps: seq<Step>, identities: seq<Identity>, kind: Kind, tool: string)
    ensures var h := After(steps);
      var (c, granted) := Acquire(h.c, identities, kind, tool);
      && (granted.Leased? <==> Free(h, identities, kind, tool))
      && (granted.Leased? ==>
            && multiset(granted.lease.identities) == multiset(identities)
            && forall id :: id in identities ==> Holds(c, granted.lease, id))
      && (!granted.Leased? ==> c == h.c)
  {
    hide After, Inv, Acquire, Free;
    EveryHistoryKeepsInv(steps);
    GrantedWhenFree(After(steps), identities, kind, tool);
  }

  lemma SameElements(a: seq<Identity>, b: seq<Identity>)
    requires multiset(a) == multiset(b)
    ensures forall id :: id in a <==> id in b
    ensures |a| == |b| && (Distinct(a) <==> Distinct(b)) && (a == [] <==> b == [])
  {
    assert |multiset(a)| == |a| && |multiset(b)| == |b|;
    assert forall id :: id in a <==> id in multiset(a);
    assert forall id :: id in b <==> id in multiset(b);
    DistinctCounts(a);
    DistinctCounts(b);
  }

  lemma DistinctCounts(s: seq<Identity>)
    ensures Distinct(s) <==> forall id :: multiset(s)[id] <= 1
  {
    if Distinct(s) {
      forall id ensures multiset(s)[id] <= 1 { DistinctCountsOne(s, id); }
    }
    forall i, j | 0 <= i < j < |s| && s[i] == s[j] ensures multiset(s)[s[i]] > 1 { RepeatedCountsTwo(s, i, j); }
  }

  lemma {:induction false} DistinctCountsOne(s: seq<Identity>, id: Identity)
    requires Distinct(s)
    ensures multiset(s)[id] <= 1
  {
    if s != [] {
      var n := |s| - 1;
      assert s == s[..n] + [s[n]];
      DistinctCountsOne(s[..n], id);
      if id == s[n] { assert id !in s[..n]; }
    }
  }

  lemma RepeatedCountsTwo(s: seq<Identity>, i: nat, j: nat)
    requires i < j < |s| && s[i] == s[j]
    ensures multiset(s)[s[i]] > 1
  {
    var x, left, right := s[i], s[..j], s[j + 1..];
    assert s == left + [x] + right;
    assert left[i] == x;
    assert x in left;
  }

  lemma BlockedByALease(h: History, id: Identity, kind: Kind)
    requires Inv(h)
    ensures !Blocks(h.c, id, kind) <==>
              forall k: nat :: k < |h.leases| && id in h.leases[k].identities ==>
                !h.status[k].Live? && (kind.Run? ==> !h.status[k].Detached?)
  {
    hide WellGranted;
    assert |h.leases| == |h.status| by { SameCounts(h); }
    assert Named(h, id);
    if id in h.c.active {
      var k := h.c.active[id].token - 1;
      assert Agrees(h, k, id) && h.status[k].Live? && id in h.leases[k].identities;
    } else if Blocks(h.c, id, kind) {
      var k := h.c.detached[id] - 1;
      assert Agrees(h, k, id) && h.status[k].Detached? && id in h.leases[k].identities;
    } else {
      forall k: nat | k < |h.leases| && id in h.leases[k].identities
        ensures !h.status[k].Live? && (kind.Run? ==> !h.status[k].Detached?)
      {
        assert Agrees(h, k, id);
      }
    }
  }

  lemma SameCounts(h: History)
    requires WellGranted(h)
    ensures |h.leases| == |h.status|
  {
  }

  /** Giving back or leaving a lease that is gone changes nothing, and doing so to any lease
      touches only reservations of its own. */
  lemma StaleLeasesTouchNothing(steps: seq<Step>, k: nat)
    ensures var h := After(steps);
      k < |h.leases| ==>
        var lease := h.leases[k];
        && (h.status[k].Released? ==> Release(h.c, lease) == h.c && Detach(h.c, lease) == h.c)
        && (h.status[k].Detached? ==> Detach(h.c, lease) == h.c)
        && (forall id :: id in h.c.active && h.c.active[id].token != lease.token ==>
              id in Release(h.c, lease).active && Release(h.c, lease).active[id] == h.c.active[id]
              && id in Detach(h.c, lease).active && Detach(h.c, lease).active[id] == h.c.active[id])
        && (forall id :: id in h.c.detached && h.c.detached[id] != lease.token ==>
              id in Release(h.c, lease).detached && Release(h.c, lease).detached[id] == h.c.detached[id]
              && (lease.kind.Run? ==>
                    id in Detach(h.c, lease).detached && Detach(h.c, lease).detached[id] == h.c.detached[id]))
  {
    hide After;
    EveryHistoryKeepsInv(steps);
    var h := After(steps);
    if k < |h.leases| {
      forall id | id in h.leases[k].identities
        ensures Holds(h.c, h.leases[k], id) <==> h.status[k].Live?
        ensures id in h.c.detached && h.c.detached[id] == h.leases[k].token <==> h.status[k].Detached?
        ensures id in h.c.detached && h.leases[k].kind.Run? ==> !Holds(h.c, h.leases[k], id)
      {
        assert Agrees(h, k, id) && Named(h, id);
      }
      if !h.status[k].Live? { NothingHeld(h.c, h.leases[k]); }
    }
  }

  lemma NothingHeld(c: Coordinator, lease: Lease)
    requires forall id :: id in lease.identities ==> !Holds(c, lease, id)
    ensures Detach(c, lease) == c && Release(c, lease).active == c.active
    ensures (forall id :: id in lease.identities && id in c.detached ==> c.detached[id] != lease.token) ==>
              Release(c, lease) == c
  {
    assert Drop(c.active, lease.identities, Reservation(lease.token, lease.kind)) == c.active;
    assert Mark(c.detached, c.active, lease.identities, Reservation(lease.token, lease.kind)) == c.detached;
    if forall id :: id in lease.identities && id in c.detached ==> c.detached[id] != lease.token {
      assert Drop(c.detached, lease.identities, lease.token) == c.detached;
    }
  }

  /** owns answers yes exactly for a live lease asked about its own panes, in any order. */
  lemma OwnsExactlyItsOwn(steps: seq<Step>, k: nat, identities: seq<Identity>)
    ensures var h := After(steps);
      k < |h.leases| ==>
        (Owns(h.c, h.leases[k], identities)
         <==> h.status[k].Live? && multiset(identities) == multiset(h.leases[k].identities))
  {
    hide After, Sort, Ordered;
    EveryHistoryKeepsInv(steps);
    LeasesAreSorted(steps);
    var h := After(steps);
    SortOrders(identities);
    if k < |h.leases| {
      if multiset(identities) == multiset(h.leases[k].identities) {
        OrderedIsUnique(Sort(identities), h.leases[k].identities);
      }
      forall id | id in h.leases[k].identities
        ensures Holds(h.c, h.leases[k], id) <==> h.status[k].Live?
      {
        assert Agrees(h, k, id);
      }
      assert h.leases[k].identities[0] in h.leases[k].identities;
    }
  }

  lemma {:induction false} LeasesAreSorted(steps: seq<Step>)
    ensures forall k :: 0 <= k < |After(steps).leases| ==> Ordered(After(steps).leases[k].identities)
  {
    hide Ordered, Sort, Release, Detach, Acceptable, Reserve, FirstBlocked, Blocks;
    if steps != [] {
      var last := steps[|steps| - 1];
      LeasesAreSorted(steps[..|steps| - 1]);
      if last.Take? { SortOrders(last.identities); }
    }
  }

  // ---------------------------------------------------------------- why, and until when

  /** A live lease of this kind is on the identity. */
  ghost predicate LiveOn(h: History, id: Identity, kind: Kind)
    requires |h.leases| == |h.status|
  {
    exists k: nat :: k < |h.leases| && id in h.leases[k].identities && h.status[k].Live? && h.leases[k].kind == kind
  }

  /** A detached run is on the identity. */
  ghost predicate RunOn(h: History, id: Identity)
    requires |h.leases| == |h.status|
  {
    exists k: nat :: k < |h.leases| && id in h.leases[k].identities && h.status[k].Detached?
  }

  lemma FirstIsBlocked(c: Coordinator, wanted: seq<Identity>, kind: Kind)
    ensures FirstBlocked(c, wanted, kind).Some? ==>
              FirstBlocked(c, wanted, kind).value in wanted && Blocks(c, FirstBlocked(c, wanted, kind).value, kind)
  {
  }

  /** A refusal tells why: the request is malformed, or a pane asked for is under a live lease of
      the kind named, or under no live lease and a run asked for it while a detached run goes on. */
  lemma RefusalsTellWhy(steps: seq<Step>, identities: seq<Identity>, kind: Kind, tool: string)
    ensures var h := After(steps);
      match Acquire(h.c, identities, kind, tool).1
      case Leased(_) => true
      case Invalid => identities == [] || tool == "" || !AllValid(identities) || !Distinct(identities)
      case Busy(id, k) => id in identities && LiveOn(h, id, k)
      case RunDetached(id) => id in identities && kind.Run? && RunOn(h, id) && !LiveOn(h, id, Input) && !LiveOn(h, id, Run)
  {
    hide After, ValidIdentity, WellGranted;
    EveryHistoryKeepsInv(steps);
    var h, wanted := After(steps), Sort(identities);
    SortOrders(identities);
    SameElements(wanted, identities);
    OrderedDuplicatesAreAdjacent(wanted);
    FirstIsBlocked(h.c, wanted, kind);
    if Acceptable(wanted, tool) && FirstBlocked(h.c, wanted, kind).Some? {
      BlockerIsOn(h, FirstBlocked(h.c, wanted, kind).value, kind);
    }
  }

  lemma BlockerIsOn(h: History, id: Identity, kind: Kind)
    requires Inv(h) && |h.leases| == |h.status| && Blocks(h.c, id, kind)
    ensures id in h.c.active ==> LiveOn(h, id, h.c.active[id].kind)
    ensures id !in h.c.active ==> RunOn(h, id) && !LiveOn(h, id, Input) && !LiveOn(h, id, Run)
  {
    hide WellGranted;
    assert Named(h, id);
    if id in h.c.active {
      var k := h.c.active[id].token - 1;
      assert Agrees(h, k, id) && h.status[k].Live? && id in h.leases[k].identities;
    } else {
      var k := h.c.detached[id] - 1;
      assert Agrees(h, k, id) && h.status[k].Detached? && id in h.leases[k].identities;
      forall j: nat | j < |h.leases| && id in h.leases[j].identities ensures !h.status[j].Live? {
        assert Agrees(h, j, id);
      }
    }
  }

  /** A lease given back frees its panes at once, and a run left behind frees them for input, though
      not for another run. */
  lemma PanesAreFreedAgain(steps: seq<Step>, k: nat, tool: string)
    requires k < |After(steps).leases| && After(steps).status[k].Live? && tool != ""
    ensures var h := After(steps);
      var ids := h.leases[k].identities;
      && Free(Moves(h, Give(k)), ids, Input, tool)
      && (h.leases[k].kind.Run? ==>
            && Free(Moves(h, Give(k)), ids, Run, tool)
            && Free(Moves(h, Leave(k)), ids, Input, tool) && !Free(Moves(h, Leave(k)), ids, Run, tool))
  {
    hide After, Inv, Acquire, Release, Detach;
    EveryHistoryKeepsInv(steps);
    var h := After(steps);
    LeasesAreWellFormed(steps);
    forall id, j: nat | id in h.leases[k].identities && j < |h.leases| && j != k && id in h.leases[j].identities
      ensures !h.status[j].Live? && (h.leases[k].kind.Run? ==> !h.status[j].Detached?)
    {
      if j < k { LeasesAreExclusive(steps, j, k, id); } else { LeasesAreExclusive(steps, k, j, id); }
      OnlyRunsAreDetached(h, j);
    }
    assert h.leases[k].identities[0] in h.leases[k].identities;
  }

  predicate WellFormed(ids: seq<Identity>) { ids != [] && AllValid(ids) && Distinct(ids) }

  lemma AcquiredWell(c: Coordinator, identities: seq<Identity>, kind: Kind, tool: string)
    ensures var granted := Acquire(c, identities, kind, tool).1;
            granted.Leased? ==> WellFormed(granted.lease.identities)
  {
    hide ValidIdentity;
    SortOrders(identities);
    OrderedDuplicatesAreAdjacent(Sort(identities));
  }

  lemma {:induction false} LeasesAreWellFormed(steps: seq<Step>)
    ensures forall k :: 0 <= k < |After(steps).leases| ==> WellFormed(After(steps).leases[k].identities)
  {
    hide Acquire, Release, Detach, WellFormed;
    if steps != [] {
      var h, step := After(steps[..|steps| - 1]), steps[|steps| - 1];
      LeasesAreWellFormed(steps[..|steps| - 1]);
      if step.Take? { AcquiredWell(h.c, step.identities, step.kind, step.tool); }
    }
  }

  lemma OnlyRunsAreDetached(h: History, k: nat)
    requires Inv(h) && |h.leases| == |h.status| && k < |h.leases|
    ensures h.status[k].Detached? ==> h.leases[k].kind.Run?
  {
  }
}
