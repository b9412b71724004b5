/** Many key dispatches at once: each takes a lease on its panes, records what it will type,
    sends its keys, settles the record, and gives the lease back. Every change of one pane's
    pending text is a step of its own, and other users of the coordinator come and go. */
module InputDispatch {
  import opened Options
  import opened PaneIdentity
  import L = PaneLeases
  import opened PendingInput

  /** s is what WillType reports for the keys. */
  datatype Dispatch = Dispatch(panes: seq<Pane>, keys: seq<string>, literal: bool, enter: bool, s: Summary)

  /** The panes of one tmux server, as the coordinator knows them. */
  datatype Env = Env(endpoint: nat, serverPid: nat, serverStart: nat, dispatches: seq<Dispatch>, prints: Printing)

  ghost predicate Summarizes(d: Dispatch, prints: Printing)
  {
    && (forall line :: Applied(line, d.s) == Taken(line, d.keys, d.literal, prints))
    && (d.s.endsLine ==> d.s.text == "" && d.s.overflow == 0)
  }

  ghost predicate GoodEnv(env: Env)
  {
    forall i :: 0 <= i < |env.dispatches| ==> Summarizes(env.dispatches[i], env.prints)
  }

  function Identities(env: Env, panes: seq<Pane>): (ids: seq<Identity>)
    ensures |ids| == |panes|
    ensures forall i :: 0 <= i < |panes| ==>
              ids[i] == Identity(env.endpoint, env.serverPid, env.serverStart, panes[i])
  {
    seq(|panes|, i requires 0 <= i < |panes| => Identity(env.endpoint, env.serverPid, env.serverStart, panes[i]))
  }

  datatype Pc =
    | Waiting
    | Leased
    | Recording(i: nat)
    | Sending
    | Restoring(left: set<Pane>)
    | Clearing(i: nat)
    | Rerecording(i: nat)
    | Entering
    | EnterClearing(i: nat)
    | Releasing
    | Done

  predicate Active(pc: Pc) { !pc.Waiting? && !pc.Done? }

  /** lease is the one the dispatch holds while active, and saved what a failed one restores. */
  datatype Thread = Thread(pc: Pc, lease: nat, saved: map<Pane, string>)

  /** What came of sending keys: tmux took them and said so; or an error came back, and tmux had
      taken nothing, or had taken them all the same. */
  datatype Outcome = Accepted | NotTaken | TakenUnseen

  /** pending is what this process keeps, line the replay of the keys tmux accepted, and held
      what tmux holds on each pane's line: the replay of all the keys it took. */
  datatype Lines2 = Lines2(pending: Lines, line: Pane -> string, held: Pane -> string)

  datatype System = System(h: L.History, threads: seq<Thread>, lines: Lines2)

  datatype Step =
    | Lease(d: nat)
    | Go(d: nat, outcome: Outcome, pane: Pane)
    | Other(step: L.Step)

  function Init(env: Env): System
  {
    System(L.START, seq(|env.dispatches|, i => Thread(Waiting, 0, map[])), Lines2(map[], p => "", p => ""))
  }

  function Put(x: Lines2, pane: Pane, text: string): Lines2 { x.(pending := With(x.pending, pane, text)) }

  function OnPanes(lines: Pane -> string, panes: seq<Pane>, f: string -> string): Pane -> string
  {
    p => if p in panes then f(lines(p)) else lines(p)
  }

  function TmuxTakes(x: Lines2, panes: seq<Pane>, outcome: Outcome, f: string -> string): Lines2
  {
    x.(line := if outcome.Accepted? then OnPanes(x.line, panes, f) else x.line,
       held := if outcome.NotTaken? then x.held else OnPanes(x.held, panes, f))
  }

  function Settled(d: Dispatch): Pc { if d.enter then Entering else Releasing }

  /** One step of an active dispatch on its panes' lines. */
  function Local(d: Dispatch, t: Thread, x: Lines2, outcome: Outcome, pane: Pane, prints: Printing): (Thread, Lines2)
  {
    match t.pc
    case Leased =>
      (t.(pc := if d.s.overflow == 0 && d.s.text == "" then Sending else Recording(0), saved := map[]), x)
    case Recording(i) =>
      if i >= |d.panes| then (t.(pc := Sending), x)
      else
        var was := Of(x.pending, d.panes[i]);
        (t.(pc := Recording(i + 1), saved := t.saved[d.panes[i] := was]),
         Put(x, d.panes[i], Trim(was, d.s.overflow) + d.s.text))
    case Sending =>
      (t.(pc := if !outcome.Accepted? then Restoring(t.saved.Keys) else if d.s.endsLine then Clearing(0) else Settled(d)),
       TmuxTakes(x, d.panes, outcome, line => Taken(line, d.keys, d.literal, prints)))
    case Restoring(left) =>
      if left == {} then (t.(pc := Releasing), x)
      else if pane in left && pane in t.saved then
        (t.(pc := Restoring(left - {pane})), Put(x, pane, t.saved[pane]))
      else (t, x)
    case Clearing(i) =>
      if i >= |d.panes| then (t.(pc := if d.s.afterEnd == "" then Settled(d) else Rerecording(0)), x)
      else (t.(pc := Clearing(i + 1)), Put(x, d.panes[i], ""))
    case Rerecording(i) =>
      if i >= |d.panes| then (t.(pc := Settled(d)), x)
      else
        (t.(pc := Rerecording(i + 1)), Put(x, d.panes[i], Trim(Of(x.pending, d.panes[i]), 0) + d.s.afterEnd))
    case Entering =>
      (t.(pc := if outcome.Accepted? then EnterClearing(0) else Releasing),
       TmuxTakes(x, d.panes, outcome, line => ""))
    case EnterClearing(i) =>
      if i >= |d.panes| then (t.(pc := Releasing), x)
      else (t.(pc := EnterClearing(i + 1)), Put(x, d.panes[i], ""))
    case _ => (t, x)
  }

  /** No active dispatch holds lease k. */
  predicate NotHeld(s: System, k: nat)
  {
    forall i :: 0 <= i < |s.threads| && Active(s.threads[i].pc) ==> s.threads[i].lease != k
  }

  function Moves(env: Env, s: System, step: Step): System
    requires |s.h.leases| == |s.h.status|
  {
    match step
    case Lease(i) =>
      if i < |s.threads| && i < |env.dispatches| && s.threads[i].pc.Waiting? then
        var take := L.Take(Identities(env, env.dispatches[i].panes), L.Input, "send_keys");
        var h := L.Moves(s.h, take);
        if |h.leases| > |s.h.leases| then
          s.(h := h, threads := s.threads[i := Thread(Leased, |s.h.leases|, map[])])
        else s.(h := h, threads := s.threads[i := Thread(Done, 0, map[])])
      else s
    case Go(i, outcome, pane) =>
      if i < |s.threads| && i < |env.dispatches| && Active(s.threads[i].pc) then
        if s.threads[i].pc.Releasing? then
          s.(h := L.Moves(s.h, L.Give(s.threads[i].lease)), threads := s.threads[i := s.threads[i].(pc := Done)])
        else
          var (t, x) := Local(env.dispatches[i], s.threads[i], s.lines, outcome, pane, env.prints);
          s.(threads := s.threads[i := t], lines := x)
      else s
    case Other(other) =>
      // Whoever else uses the coordinator gives back only leases of its own.
      if other.Give? && !NotHeld(s, other.k) then s else s.(h := L.Moves(s.h, other))
  }

  function After(env: Env, steps: seq<Step>): (s: System)
    ensures |s.h.leases| == |s.h.status| && |s.threads| == |env.dispatches|
  {
    if steps == [] then Init(env)
    else
      var s := After(env, steps[..|steps| - 1]);
      Kept(env, s, steps[|steps| - 1]);
      Moves(env, s, steps[|steps| - 1])
  }

  lemma Kept(env: Env, s: System, step: Step)
    requires |s.h.leases| == |s.h.status|
    ensures |Moves(env, s, step).h.leases| == |Moves(env, s, step).h.status|
    ensures |Moves(env, s, step).threads| == |s.threads|
  {
    hide L.Acquire, L.Release, L.Detach, Local;
  }

  // ---------------------------------------------------------------- one dispatch

  /** What holds of the dispatch's pane at position j: pend is pending there, and line is
      tmux's. */
  predicate Fits(d: Dispatch, t: Thread, j: nat, pend: string, line: string)
    requires j < |d.panes|
  {
    var pane := d.panes[j];
    var recorded := Trim(line, d.s.overflow) + d.s.text;
    match t.pc
    case Recording(i) =>
      if j < i then pend == recorded && pane in t.saved && t.saved[pane] == line
      else pend == line
    case Sending => pend == recorded && if pane in t.saved then t.saved[pane] == line else pend == line
    case Restoring(left) => if pane in left then pane in t.saved && t.saved[pane] == line else pend == line
    case Clearing(i) => line == d.s.afterEnd && (j < i ==> pend == "")
    case Rerecording(i) => line == d.s.afterEnd && pend == if j < i then d.s.afterEnd else ""
    case EnterClearing(i) => line == "" && (j < i ==> pend == "")
    case _ => pend == line
  }

  lemma RecordingFits(d: Dispatch, t: Thread, x: Lines2, outcome: Outcome, pane: Pane, prints: Printing, j: nat)
    requires Summarizes(d, prints) && DistinctPanes(d.panes) && j < |d.panes| && t.pc.Recording?
    requires Fits(d, t, j, Of(x.pending, d.panes[j]), x.line(d.panes[j]))
    ensures var (u, y) := Local(d, t, x, outcome, pane, prints);
            Fits(d, u, j, Of(y.pending, d.panes[j]), y.line(d.panes[j]))
  {
    hide Taken, With, Of, DistinctPanes, Applied, Trim;
    NothingRecorded(x.line(d.panes[j]));
    if t.pc.i < |d.panes| {
      OfWith(x.pending, d.panes[t.pc.i], Trim(Of(x.pending, d.panes[t.pc.i]), d.s.overflow) + d.s.text);
      OtherPane(d.panes, t.pc.i, j);
    }
  }

  lemma SendingFits(d: Dispatch, t: Thread, x: Lines2, outcome: Outcome, pane: Pane, prints: Printing, j: nat)
    requires Summarizes(d, prints) && DistinctPanes(d.panes) && j < |d.panes| && t.pc.Sending?
    requires Fits(d, t, j, Of(x.pending, d.panes[j]), x.line(d.panes[j]))
    ensures var (u, y) := Local(d, t, x, outcome, pane, prints);
            Fits(d, u, j, Of(y.pending, d.panes[j]), y.line(d.panes[j]))
  {
    hide Taken, With, Of, DistinctPanes;
    var line := x.line(d.panes[j]);
    NothingRecorded(line);
    assert Applied(line, d.s) == Taken(line, d.keys, d.literal, prints);
  }

  lemma ClearingFits(d: Dispatch, t: Thread, x: Lines2, outcome: Outcome, pane: Pane, prints: Printing, j: nat)
    requires Summarizes(d, prints) && DistinctPanes(d.panes) && j < |d.panes| && (t.pc.Clearing? || t.pc.EnterClearing?)
    requires Fits(d, t, j, Of(x.pending, d.panes[j]), x.line(d.panes[j]))
    ensures var (u, y) := Local(d, t, x, outcome, pane, prints);
            Fits(d, u, j, Of(y.pending, d.panes[j]), y.line(d.panes[j]))
  {
    hide Taken, With, Of, DistinctPanes, Applied, Trim;
    if t.pc.i < |d.panes| {
      OfWith(x.pending, d.panes[t.pc.i], "");
      OtherPane(d.panes, t.pc.i, j);
    }
  }

  lemma RerecordingFits(d: Dispatch, t: Thread, x: Lines2, outcome: Outcome, pane: Pane, prints: Printing, j: nat)
    requires Summarizes(d, prints) && DistinctPanes(d.panes) && j < |d.panes| && t.pc.Rerecording?
    requires Fits(d, t, j, Of(x.pending, d.panes[j]), x.line(d.panes[j]))
    ensures var (u, y) := Local(d, t, x, outcome, pane, prints);
            Fits(d, u, j, Of(y.pending, d.panes[j]), y.line(d.panes[j]))
  {
    hide Taken, With, Of, DistinctPanes, Applied;
    if t.pc.i < |d.panes| {
      OfWith(x.pending, d.panes[t.pc.i], Trim(Of(x.pending, d.panes[t.pc.i]), 0) + d.s.afterEnd);
      OtherPane(d.panes, t.pc.i, j);
      assert "" + d.s.afterEnd == d.s.afterEnd;
    }
  }

  lemma LocalFits(d: Dispatch, t: Thread, x: Lines2, outcome: Outcome, pane: Pane, prints: Printing, j: nat)
    requires Summarizes(d, prints) && DistinctPanes(d.panes) && j < |d.panes|
    requires Fits(d, t, j, Of(x.pending, d.panes[j]), x.line(d.panes[j]))
    ensures var (u, y) := Local(d, t, x, outcome, pane, prints);
            Fits(d, u, j, Of(y.pending, d.panes[j]), y.line(d.panes[j]))
  {
    hide Taken, With, Of, DistinctPanes, Applied, Trim;
    NothingRecorded(x.line(d.panes[j]));
    if t.pc.Recording? { RecordingFits(d, t, x, outcome, pane, prints, j); }
    else if t.pc.Sending? { SendingFits(d, t, x, outcome, pane, prints, j); }
    else if t.pc.Clearing? || t.pc.EnterClearing? { ClearingFits(d, t, x, outcome, pane, prints, j); }
    else if t.pc.Rerecording? { RerecordingFits(d, t, x, outcome, pane, prints, j); }
    else if t.pc.Restoring? && pane in t.pc.left && pane in t.saved { OfWith(x.pending, pane, t.saved[pane]); }
  }

  lemma OtherPane(panes: seq<Pane>, i: nat, j: nat)
    requires DistinctPanes(panes) && i < |panes| && j < |panes|
    ensures panes[i] == panes[j] <==> i == j
  {
  }

  lemma OtherPanesStay(m: Lines, p: Pane)
    ensures forall q, text :: q != p ==> Of(With(m, q, text), p) == Of(m, p)
  {
  }

  lemma OtherLinesStay(x: Lines2, panes: seq<Pane>, outcome: Outcome, p: Pane)
    requires p !in panes
    ensures forall f: string -> string :: var y := TmuxTakes(x, panes, outcome, f);
              y.pending == x.pending && y.line(p) == x.line(p) && y.held(p) == x.held(p)
  {
  }

  /** A dispatch changes only its own panes. */
  lemma LocalStays(d: Dispatch, t: Thread, x: Lines2, outcome: Outcome, pane: Pane, prints: Printing, p: Pane)
    requires p !in d.panes && (forall q :: q in t.saved ==> q in d.panes)
    ensures var (u, y) := Local(d, t, x, outcome, pane, prints);
      && Of(y.pending, p) == Of(x.pending, p) && y.line(p) == x.line(p) && y.held(p) == x.held(p)
  {
    hide Taken, Trim, Of, With, TmuxTakes;
    OtherPanesStay(x.pending, p);
    OtherLinesStay(x, d.panes, outcome, p);
  }

  // ---------------------------------------------------------------- the invariant

  ghost predicate LeaseFits(env: Env, h: L.History, d: Dispatch, t: Thread)
    requires |h.leases| == |h.status|
  {
    && t.lease < |h.leases| && h.status[t.lease].Live? && h.leases[t.lease].kind.Input?
    && multiset(h.leases[t.lease].identities) == multiset(Identities(env, d.panes))
    && DistinctPanes(d.panes) && forall q :: q in t.saved ==> q in d.panes
  }

  ghost predicate PanesFit(d: Dispatch, t: Thread, x: Lines2)
  {
    forall j :: 0 <= j < |d.panes| ==> Fits(d, t, j, Of(x.pending, d.panes[j]), x.line(d.panes[j]))
  }

  /** No active dispatch is at work on the pane. */
  predicate AtRest(env: Env, threads: seq<Thread>, pane: Pane)
    requires |threads| == |env.dispatches|
  {
    forall i :: 0 <= i < |threads| && Active(threads[i].pc) ==> pane !in env.dispatches[i].panes
  }

  ghost predicate Inv(env: Env, s: System)
  {
    && L.Inv(s.h) && |s.h.leases| == |s.h.status| && |s.threads| == |env.dispatches|
    && (forall i :: 0 <= i < |s.threads| && Active(s.threads[i].pc) ==>
          LeaseFits(env, s.h, env.dispatches[i], s.threads[i]) && PanesFit(env.dispatches[i], s.threads[i], s.lines))
    && (forall i, j :: 0 <= i < j < |s.threads| && Active(s.threads[i].pc) && Active(s.threads[j].pc) ==>
          s.threads[i].lease != s.threads[j].lease)
    && forall p :: AtRest(env, s.threads, p) ==> Of(s.lines.pending, p) == s.lines.line(p)
  }

  /** The leases keep active dispatches apart. */
  lemma DispatchesAreApart(env: Env, s: System, i: nat, j: nat, p: Pane)
    requires Inv(env, s) && i < |s.threads| && j < |s.threads| && i != j
    requires Active(s.threads[i].pc) && Active(s.threads[j].pc)
    requires p in env.dispatches[i].panes
    ensures p !in env.dispatches[j].panes
  {
    hide PanesFit, AtRest;
    var id := Identity(env.endpoint, env.serverPid, env.serverStart, p);
    var a, b := s.threads[i].lease, s.threads[j].lease;
    assert a != b;
    assert L.Agrees(s.h, a, id) && L.Agrees(s.h, b, id);
    LeasedPane(env, s.h, env.dispatches[i], s.threads[i], p);
    if p in env.dispatches[j].panes { LeasedPane(env, s.h, env.dispatches[j], s.threads[j], p); }
  }

  lemma LeasedPane(env: Env, h: L.History, d: Dispatch, t: Thread, p: Pane)
    requires |h.leases| == |h.status| && LeaseFits(env, h, d, t) && p in d.panes
    ensures Identity(env.endpoint, env.serverPid, env.serverStart, p) in h.leases[t.lease].identities
  {
    var k :| 0 <= k < |d.panes| && d.panes[k] == p;
    var ids := Identities(env, d.panes);
    assert ids[k] in ids;
    assert ids[k] in multiset(h.leases[t.lease].identities);
  }

  lemma LocalKeepsInv(env: Env, s: System, i: nat, outcome: Outcome, pane: Pane)
    requires GoodEnv(env) && Inv(env, s) && i < |s.threads|
    requires Active(s.threads[i].pc) && !s.threads[i].pc.Releasing?
    ensures Inv(env, Moves(env, s, Go(i, outcome, pane)))
  {
    hide L.Inv, Local, Fits, Of, Summarizes;
    var d, t := env.dispatches[i], s.threads[i];
    var u, y := Local(d, t, s.lines, outcome, pane, env.prints).0, Local(d, t, s.lines, outcome, pane, env.prints).1;
    LocalStaysActive(d, t, s.lines, outcome, pane, env.prints);
    SavedStays(d, t, s.lines, outcome, pane, env.prints);
    assert PanesFit(d, u, y) by {
      forall j | 0 <= j < |d.panes| ensures Fits(d, u, j, Of(y.pending, d.panes[j]), y.line(d.panes[j])) {
        LocalFits(d, t, s.lines, outcome, pane, env.prints, j);
      }
    }
    forall k | 0 <= k < |s.threads| && k != i && Active(s.threads[k].pc)
      ensures PanesFit(env.dispatches[k], s.threads[k], y)
    {
      var e := env.dispatches[k];
      forall j | 0 <= j < |e.panes|
        ensures Of(y.pending, e.panes[j]) == Of(s.lines.pending, e.panes[j]) && y.line(e.panes[j]) == s.lines.line(e.panes[j])
      {
        DispatchesAreApart(env, s, k, i, e.panes[j]);
        LocalStays(d, t, s.lines, outcome, pane, env.prints, e.panes[j]);
      }
    }
    var after := Moves(env, s, Go(i, outcome, pane));
    forall p | AtRest(env, after.threads, p) ensures Of(y.pending, p) == y.line(p) {
      assert after.threads[i] == u;
      assert p !in d.panes;
      assert AtRest(env, s.threads, p) by {
        forall k | 0 <= k < |s.threads| && Active(s.threads[k].pc) ensures p !in env.dispatches[k].panes {
          assert k != i ==> after.threads[k] == s.threads[k];
        }
      }
      LocalStays(d, t, s.lines, outcome, pane, env.prints, p);
    }
  }

  lemma LocalStaysActive(d: Dispatch, t: Thread, x: Lines2, outcome: Outcome, pane: Pane, prints: Printing)
    requires Active(t.pc) && !t.pc.Releasing?
    ensures var u := Local(d, t, x, outcome, pane, prints).0; Active(u.pc) && u.lease == t.lease
  {
    hide Of, With, Trim;
  }

  lemma SavedStays(d: Dispatch, t: Thread, x: Lines2, outcome: Outcome, pane: Pane, prints: Printing)
    requires forall q :: q in t.saved ==> q in d.panes
    ensures var u := Local(d, t, x, outcome, pane, prints).0; forall q :: q in u.saved ==> q in d.panes
  {
    hide Of, With, Trim;
  }

  /** What a step of the coordinator leaves of the leases that are held. */
  ghost predicate LeasesStay(h: L.History, g: L.History, k: nat)
  {
    && |g.leases| == |g.status| && |h.leases| == |h.status| && k < |h.leases| <= |g.leases|
    && g.leases[k] == h.leases[k] && g.status[k] == h.status[k]
  }

  lemma StepLeavesLeases(h: L.History, step: L.Step, k: nat)
    requires L.Inv(h) && |h.leases| == |h.status| && k < |h.leases| && h.leases[k].kind.Input?
    requires !(step.Give? && step.k == k)
    ensures LeasesStay(h, L.Moves(h, step), k)
  {
    hide L.Acquire, L.Release, L.Detach, L.Inv;
  }

  /** A step of the coordinator that gives back no lease held by a dispatch. */
  lemma CoordinatorKeepsInv(env: Env, s: System, step: L.Step)
    requires Inv(env, s) && (step.Give? ==> NotHeld(s, step.k))
    ensures Inv(env, s.(h := L.Moves(s.h, step)))
  {
    hide L.Inv, Fits, Of, L.Moves, PanesFit;
    L.MovesKeepInv(s.h, step);
    Counts(s.h, step);
    forall i | 0 <= i < |s.threads| && Active(s.threads[i].pc)
      ensures LeaseFits(env, L.Moves(s.h, step), env.dispatches[i], s.threads[i])
    {
      StepLeavesLeases(s.h, step, s.threads[i].lease);
    }
  }

  lemma Counts(h: L.History, step: L.Step)
    requires L.Inv(h) && |h.leases| == |h.status|
    ensures |L.Moves(h, step).leases| == |L.Moves(h, step).status|
  {
    hide L.Acquire, L.Release, L.Detach, L.Inv;
  }

  lemma DistinctIdentities(env: Env, panes: seq<Pane>)
    requires PaneIdentity.Distinct(Identities(env, panes))
    ensures DistinctPanes(panes)
  {
    var ids := Identities(env, panes);
    forall i, j | 0 <= i < j < |panes| ensures panes[i] != panes[j] { assert ids[i] != ids[j]; }
  }

  /** A pane a dispatch was just granted was at rest. */
  lemma GrantedPaneIsAtRest(env: Env, s: System, panes: seq<Pane>, p: Pane)
    requires Inv(env, s) && p in panes && L.Free(s.h, Identities(env, panes), L.Input, "send_keys")
    ensures AtRest(env, s.threads, p)
  {
    hide L.Inv, PanesFit;
    var ids := Identities(env, panes);
    var j :| 0 <= j < |panes| && panes[j] == p;
    assert ids[j] in ids;
    forall i | 0 <= i < |s.threads| && Active(s.threads[i].pc) ensures p !in env.dispatches[i].panes {
      if p in env.dispatches[i].panes { LeasedPane(env, s.h, env.dispatches[i], s.threads[i], p); }
    }
  }

  lemma GrantShows(h: L.History, identities: seq<Identity>)
    requires L.Inv(h) && |h.leases| == |h.status|
    ensures var g := L.Moves(h, L.Take(identities, L.Input, "send_keys"));
      if |g.leases| > |h.leases| then
        && L.Free(h, identities, L.Input, "send_keys")
        && |g.leases| == |g.status| == |h.leases| + 1 && g.status[|h.leases|].Live?
        && g.leases[|h.leases|].kind.Input? && multiset(g.leases[|h.leases|].identities) == multiset(identities)
      else true
  {
    hide L.Acquire, L.Inv, L.Free;
    L.GrantedWhenFree(h, identities, L.Input, "send_keys");
  }

  lemma LeaseKeepsInv(env: Env, s: System, i: nat)
    requires Inv(env, s) && i < |s.threads| && s.threads[i].pc.Waiting?
    ensures Inv(env, Moves(env, s, Lease(i)))
  {
    hide L.Inv, Fits, Of, L.Moves, L.Free, PanesFit;
    var d := env.dispatches[i];
    var take := L.Take(Identities(env, d.panes), L.Input, "send_keys");
    var g := L.Moves(s.h, take);
    CoordinatorKeepsInv(env, s, take);
    GrantShows(s.h, Identities(env, d.panes));
    var t := Moves(env, s, Lease(i));
    if |g.leases| > |s.h.leases| {
      FreeIsDistinct(env, s.h, d.panes);
      assert LeaseFits(env, g, d, t.threads[i]);
      assert PanesFit(d, t.threads[i], s.lines) by { GrantedPanesFit(env, s, i, t.threads[i]); }
    }
    forall p | AtRest(env, t.threads, p) ensures AtRest(env, s.threads, p) {
      forall k | 0 <= k < |s.threads| && Active(s.threads[k].pc) ensures p !in env.dispatches[k].panes {
        assert t.threads[k] == s.threads[k];
      }
    }
  }

  lemma FreeIsDistinct(env: Env, h: L.History, panes: seq<Pane>)
    requires |h.leases| == |h.status| && L.Free(h, Identities(env, panes), L.Input, "send_keys")
    ensures DistinctPanes(panes)
  {
    DistinctIdentities(env, panes);
  }

  lemma GrantedPanesFit(env: Env, s: System, i: nat, t: Thread)
    requires Inv(env, s) && i < |s.threads| && t.pc.Leased?
    requires L.Free(s.h, Identities(env, env.dispatches[i].panes), L.Input, "send_keys")
    ensures PanesFit(env.dispatches[i], t, s.lines)
  {
    hide L.Inv, L.Free, Of;
    var panes := env.dispatches[i].panes;
    forall j | 0 <= j < |panes| ensures Of(s.lines.pending, panes[j]) == s.lines.line(panes[j]) {
      assert panes[j] in panes;
      GrantedPaneIsAtRest(env, s, panes, panes[j]);
    }
  }

  lemma ReleaseKeepsInv(env: Env, s: System, i: nat, outcome: Outcome, pane: Pane)
    requires Inv(env, s) && i < |s.threads| && s.threads[i].pc.Releasing?
    ensures Inv(env, Moves(env, s, Go(i, outcome, pane)))
  {
    hide L.Inv, Of, L.Moves, Fits;
    var d, t := env.dispatches[i], Moves(env, s, Go(i, outcome, pane));
    var give := L.Give(s.threads[i].lease);
    forall p | AtRest(env, t.threads, p) ensures Of(s.lines.pending, p) == s.lines.line(p) {
      if p in d.panes {
        var j :| 0 <= j < |d.panes| && d.panes[j] == p;
        ReleasingFits(d, s.threads[i], j, Of(s.lines.pending, p), s.lines.line(p));
      } else {
        assert AtRest(env, s.threads, p) by {
          forall k | 0 <= k < |s.threads| && Active(s.threads[k].pc) ensures p !in env.dispatches[k].panes {
            assert k != i ==> t.threads[k] == s.threads[k];
          }
        }
      }
    }
    var u := s.(threads := s.threads[i := s.threads[i].(pc := Done)]);
    assert Inv(env, u);
    CoordinatorKeepsInv(env, u, give);
  }

  lemma ReleasingFits(d: Dispatch, t: Thread, j: nat, pend: string, line: string)
    requires j < |d.panes| && t.pc.Releasing? && Fits(d, t, j, pend, line)
    ensures pend == line
  {
  }

  lemma MovesKeepInv(env: Env, s: System, step: Step)
    requires GoodEnv(env) && Inv(env, s)
    ensures Inv(env, Moves(env, s, step))
  {
    hide GoodEnv, Local, L.Inv, L.Moves, PanesFit, LeaseFits, AtRest;
    match step
    case Lease(i) => if i < |s.threads| && s.threads[i].pc.Waiting? { LeaseKeepsInv(env, s, i); }
    case Go(i, outcome, pane) =>
      if i < |s.threads| && Active(s.threads[i].pc) {
        if s.threads[i].pc.Releasing? { ReleaseKeepsInv(env, s, i, outcome, pane); }
        else { LocalKeepsInv(env, s, i, outcome, pane); }
      }
    case Other(other) => if !other.Give? || NotHeld(s, other.k) { CoordinatorKeepsInv(env, s, other); }
  }

  lemma InitInv(env: Env)
    ensures Inv(env, Init(env))
  {
    L.StartInv();
  }

  lemma {:induction false} EveryRunKeepsInv(env: Env, steps: seq<Step>)
    requires GoodEnv(env)
    ensures Inv(env, After(env, steps))
  {
    hide Moves, Inv, GoodEnv;
    if steps == [] {
      InitInv(env);
    } else {
      EveryRunKeepsInv(env, steps[..|steps| - 1]);
      MovesKeepInv(env, After(env, steps[..|steps| - 1]), steps[|steps| - 1]);
    }
  }

  /** In every run, whatever dispatches fail, whatever keys they hold and however they
      interleave: on a pane where no dispatch is at work, what is pending is what replaying the
      keys tmux accepted leaves on the line. */
  lemma PendingIsTheReplayedLine(env: Env, steps: seq<Step>, pane: Pane)
    requires GoodEnv(env)
    ensures var s := After(env, steps);
      AtRest(env, s.threads, pane) ==> Of(s.lines.pending, pane) == s.lines.line(pane)
  {
    hide After, GoodEnv, L.Inv, PanesFit, LeaseFits;
    EveryRunKeepsInv(env, steps);
  }

  // ---------------------------------------------------------------- dispatches of unknown outcome

  /** A dispatch with this summary leaves this line as it is. */
  predicate LeavesAlone(s: Summary, line: string)
  {
    if s.endsLine then line == s.afterEnd
    else
      var erased := if s.overflow <= |line| then s.overflow else |line|;
      line[|line| - erased..] == s.text
  }

  lemma LeavesAloneExactly(s: Summary, line: string)
    ensures Applied(line, s) == line <==> LeavesAlone(s, line)
  {
    TrimKeeps(line, s.overflow);
    var kept := Trim(line, s.overflow);
    assert line == kept + line[|kept|..];
    if !s.endsLine && kept + s.text == line { assert line[|kept|..] == s.text; }
  }

  lemma {:induction false} TrimKeeps(line: string, count: nat)
    ensures Trim(line, count) == line[..if count <= |line| then |line| - count else 0]
  {
    if count > 0 && line != "" { TrimKeeps(line[..|line| - 1], count - 1); }
  }

  /** This step sends keys of dispatch i to the pane. */
  predicate SendsTo(env: Env, s: System, step: Step, pane: Pane)
    requires |s.threads| == |env.dispatches|
  {
    step.Go? && step.d < |s.threads| && pane in env.dispatches[step.d].panes
    && (s.threads[step.d].pc.Sending? || s.threads[step.d].pc.Entering?)
  }

  /** These keys leave nothing of the line they were sent to. */
  predicate EndsTheLine(env: Env, s: System, step: Step, pane: Pane)
    requires |s.threads| == |env.dispatches|
  {
    SendsTo(env, s, step, pane) && (s.threads[step.d].pc.Sending? ==> env.dispatches[step.d].s.endsLine)
  }

  /** tmux took keys without saying so, and they are not such that the line, which is the
      pending text to be restored, stays as it was. */
  predicate Drifts(env: Env, s: System, step: Step, pane: Pane)
    requires |s.threads| == |env.dispatches|
  {
    && SendsTo(env, s, step, pane) && step.outcome.TakenUnseen?
    && !(if s.threads[step.d].pc.Sending? then LeavesAlone(env.dispatches[step.d].s, s.lines.line(pane))
         else s.lines.line(pane) == "")
  }

  lemma LocalHeld(d: Dispatch, t: Thread, x: Lines2, outcome: Outcome, other: Pane, prints: Printing, pane: Pane)
    requires Summarizes(d, prints) && pane in d.panes
    ensures var y := Local(d, t, x, outcome, other, prints).1;
      if t.pc.Sending? || t.pc.Entering? then
        var f := if t.pc.Sending? then (line => Applied(line, d.s)) else (line => "");
        && y.line(pane) == (if outcome.Accepted? then f(x.line(pane)) else x.line(pane))
        && y.held(pane) == (if outcome.NotTaken? then x.held(pane) else f(x.held(pane)))
      else y.line(pane) == x.line(pane) && y.held(pane) == x.held(pane)
  {
    hide Taken, Applied, Of, With, Trim;
    assert Applied(x.line(pane), d.s) == Taken(x.line(pane), d.keys, d.literal, prints);
    assert Applied(x.held(pane), d.s) == Taken(x.held(pane), d.keys, d.literal, prints);
  }

  /** What one step makes of the line that is replayed and the line that is held. */
  lemma MovesHeld(env: Env, s: System, step: Step, pane: Pane)
    requires GoodEnv(env) && |s.h.leases| == |s.h.status| && |s.threads| == |env.dispatches|
    requires forall i :: 0 <= i < |s.threads| && Active(s.threads[i].pc) ==>
                         forall q :: q in s.threads[i].saved ==> q in env.dispatches[i].panes
    ensures var x, y := s.lines, Moves(env, s, step).lines;
      if SendsTo(env, s, step, pane) then
        var d := env.dispatches[step.d];
        var f := if s.threads[step.d].pc.Sending? then (line => Applied(line, d.s)) else (line => "");
        && y.line(pane) == (if step.outcome.Accepted? then f(x.line(pane)) else x.line(pane))
        && y.held(pane) == (if step.outcome.NotTaken? then x.held(pane) else f(x.held(pane)))
      else y.line(pane) == x.line(pane) && y.held(pane) == x.held(pane)
  {
    hide Local, Applied, L.Moves, Summarizes;
    if step.Go? && step.d < |s.threads| && Active(s.threads[step.d].pc) && !s.threads[step.d].pc.Releasing? {
      var d, t := env.dispatches[step.d], s.threads[step.d];
      if pane in d.panes { LocalHeld(d, t, s.lines, step.outcome, step.pane, env.prints, pane); }
      else { LocalStays(d, t, s.lines, step.outcome, step.pane, env.prints, pane); }
    }
  }

  /** In every run: when the replayed line is the line tmux holds, the next step leaves it so if
      and only if it does not drift. */
  lemma SyncIsLostExactly(env: Env, steps: seq<Step>, step: Step, pane: Pane)
    requires GoodEnv(env)
    requires var x := After(env, steps).lines; x.held(pane) == x.line(pane)
    ensures var y := After(env, steps + [step]).lines;
      y.held(pane) == y.line(pane) <==> !Drifts(env, After(env, steps), step, pane)
  {
    hide Moves, GoodEnv, LeavesAlone, Applied, L.Inv, PanesFit, Active;
    EveryRunKeepsInv(env, steps);
    assert (steps + [step])[..|steps|] == steps;
    var s := After(env, steps);
    MovesHeld(env, s, step, pane);
    if SendsTo(env, s, step, pane) { LeavesAloneExactly(env.dispatches[step.d].s, s.lines.line(pane)); }
  }

  /** Accepted keys that end the line bring the two together again, whatever was held before. */
  lemma LineEndResyncs(env: Env, steps: seq<Step>, step: Step, pane: Pane)
    requires GoodEnv(env)
    requires EndsTheLine(env, After(env, steps), step, pane) && step.outcome.Accepted?
    ensures var y := After(env, steps + [step]).lines; y.held(pane) == y.line(pane)
  {
    hide Moves, GoodEnv, L.Inv, PanesFit, Active;
    EveryRunKeepsInv(env, steps);
    assert (steps + [step])[..|steps|] == steps;
    MovesHeld(env, After(env, steps), step, pane);
  }

  /** The run is in sync at the pane from step n on: it is at the start there, or has just had
      accepted keys that end the line, and no later step drifts. */
  ghost predicate SyncedSince(env: Env, steps: seq<Step>, n: nat, pane: Pane)
    requires n <= |steps|
  {
    && (n == 0 || (EndsTheLine(env, After(env, steps[..n - 1]), steps[n - 1], pane) && steps[n - 1].outcome.Accepted?))
    && forall i :: n <= i < |steps| ==> !Drifts(env, After(env, steps[..i]), steps[i], pane)
  }

  /** In every run, dispatches of unknown outcome included: on a pane at rest where no step has
      drifted since the last accepted line end, what is pending is what tmux holds. */
  lemma PendingIsWhatTmuxHolds(env: Env, steps: seq<Step>, n: nat, pane: Pane)
    requires GoodEnv(env) && n <= |steps| && SyncedSince(env, steps, n, pane)
    ensures var s := After(env, steps);
      AtRest(env, s.threads, pane) ==> Of(s.lines.pending, pane) == s.lines.held(pane)
  {
    hide After, GoodEnv, SyncedSince, AtRest;
    PendingIsTheReplayedLine(env, steps, pane);
    StaysSynced(env, steps, n, pane);
  }

  lemma {:induction false} StaysSynced(env: Env, steps: seq<Step>, n: nat, pane: Pane)
    requires GoodEnv(env) && n <= |steps| && SyncedSince(env, steps, n, pane)
    ensures var x := After(env, steps).lines; x.held(pane) == x.line(pane)
    decreases |steps|
  {
    hide GoodEnv, Moves, EndsTheLine, Drifts;
    if steps != [] {
      var last := |steps| - 1;
      var before := steps[..last];
      assert steps == before + [steps[last]];
      if n == |steps| {
        LineEndResyncs(env, before, steps[last], pane);
      } else {
        assert forall i :: 0 <= i <= last ==> before[..i] == steps[..i];
        StaysSynced(env, before, n, pane);
        SyncIsLostExactly(env, before, steps[last], pane);
      }
    }
  }

  lemma AfterOne(env: Env, steps: seq<Step>, step: Step)
    ensures After(env, steps + [step]) == Moves(env, After(env, steps), step)
  {
    hide Moves;
    assert (steps + [step])[..|steps|] == steps;
  }

  lemma Goes(env: Env, steps: seq<Step>, step: Step) returns (more: seq<Step>)
    requires step.Go? && step.d < |env.dispatches|
    requires var pc := After(env, steps).threads[step.d].pc; Active(pc) && !pc.Releasing?
    ensures more == steps + [step]
    ensures var s := After(env, steps);
            var (t, x) := Local(env.dispatches[step.d], s.threads[step.d], s.lines, step.outcome, step.pane, env.prints);
            After(env, more).threads == s.threads[step.d := t] && After(env, more).lines == x
  {
    hide Local;
    more := steps + [step];
    AfterOne(env, steps, step);
  }

  lemma FirstLease(env: Env, pane: Pane)
    requires |env.dispatches| == 1 && env.dispatches[0].panes == [pane]
    requires ValidIdentity(Identity(env.endpoint, env.serverPid, env.serverStart, pane))
    ensures var s := After(env, [Lease(0)]);
            s.threads == [Thread(Leased, 0, map[])] && s.lines == Init(env).lines
  {
    hide L.Acquire, L.Inv;
    var ids := Identities(env, [pane]);
    assert ids == [Identity(env.endpoint, env.serverPid, env.serverStart, pane)];
    L.StartInv();
    assert L.Free(L.START, ids, L.Input, "send_keys");
    L.GrantedWhenFree(L.START, ids, L.Input, "send_keys");
    AfterOne(env, [], Lease(0));
    assert [] + [Lease(0)] == [Lease(0)];
  }

  ghost predicate TypesALetter(env: Env, pane: Pane)
  {
    && env.dispatches == [Dispatch([pane], ["a"], true, false, Summary("a", "", false, 0))]
    && GoodEnv(env) && ValidIdentity(Identity(env.endpoint, env.serverPid, env.serverStart, pane))
  }

  lemma LetterRecorded(env: Env, pane: Pane) returns (steps: seq<Step>)
    requires TypesALetter(env, pane)
    ensures var s := After(env, steps);
            s.threads == [Thread(Sending, 0, map[pane := ""])] && s.lines.held(pane) == ""
  {
    hide Moves, GoodEnv, With, Trim, AtRest, After;
    steps := [Lease(0)];
    FirstLease(env, pane);
    steps := Goes(env, steps, Go(0, Accepted, pane));
    assert After(env, steps).threads == [Thread(Recording(0), 0, map[])];
    steps := Goes(env, steps, Go(0, Accepted, pane));
    assert After(env, steps).threads == [Thread(Recording(1), 0, map[pane := ""])];
    steps := Goes(env, steps, Go(0, Accepted, pane));
  }

  lemma LetterSent(d: Dispatch, t: Thread, x: Lines2, other: Pane, prints: Printing, pane: Pane)
    requires Summarizes(d, prints) && d.s == Summary("a", "", false, 0) && pane in d.panes
    requires t.pc.Sending? && x.held(pane) == ""
    ensures var (u, y) := Local(d, t, x, TakenUnseen, other, prints);
            u == t.(pc := Restoring(t.saved.Keys)) && y.held(pane) == "a"
  {
    hide Taken, Of, With;
    LocalHeld(d, t, x, TakenUnseen, other, prints, pane);
    assert Applied("", d.s) == "" + "a" == "a";
  }

  lemma LetterTaken(env: Env, pane: Pane) returns (steps: seq<Step>)
    requires TypesALetter(env, pane)
    ensures var s := After(env, steps);
            s.threads == [Thread(Restoring({pane}), 0, map[pane := ""])] && s.lines.held(pane) == "a"
  {
    hide Moves, After, Local, Summarizes, ValidIdentity;
    var before := LetterRecorded(env, pane);
    assert Summarizes(env.dispatches[0], env.prints);
    var s := After(env, before);
    LetterSent(env.dispatches[0], s.threads[0], s.lines, pane, env.prints, pane);
    steps := Goes(env, before, Go(0, TakenUnseen, pane));
    assert map[pane := ""].Keys == {pane};
  }

  lemma Restores(d: Dispatch, t: Thread, x: Lines2, outcome: Outcome, pane: Pane, prints: Printing)
    requires t.saved == map[pane := ""]
    ensures t.pc == Restoring({pane}) ==>
              Local(d, t, x, outcome, pane, prints) == (t.(pc := Restoring({})), Put(x, pane, ""))
    ensures t.pc == Restoring({}) ==> Local(d, t, x, outcome, pane, prints) == (t.(pc := Releasing), x)
  {
    hide Put, TmuxTakes, Of, Trim;
    assert {pane} - {pane} == {};
  }

  lemma LetterForgotten(env: Env, pane: Pane) returns (steps: seq<Step>)
    requires TypesALetter(env, pane)
    ensures var s := After(env, steps);
      && s.threads == [Thread(Releasing, 0, map[pane := ""])]
      && Of(s.lines.pending, pane) == "" && s.lines.held(pane) == "a"
  {
    hide After, Of, With, GoodEnv, Local, ValidIdentity;
    steps := LetterTaken(env, pane);
    var d, t, x := env.dispatches[0], After(env, steps).threads[0], After(env, steps).lines;
    OfWith(x.pending, pane, "");
    Restores(d, t, x, Accepted, pane, env.prints);
    steps := Goes(env, steps, Go(0, Accepted, pane));
    Restores(d, t.(pc := Restoring({})), Put(x, pane, ""), Accepted, pane, env.prints);
    steps := Goes(env, steps, Go(0, Accepted, pane));
  }

  /** The condition is needed: one dispatch that types a letter and fails although tmux took it
      leaves a pane at rest where the letter stands and nothing is pending. */
  lemma UnseenTypingIsForgotten(env: Env, pane: Pane) returns (steps: seq<Step>)
    requires TypesALetter(env, pane)
    ensures var s := After(env, steps);
      AtRest(env, s.threads, pane) && Of(s.lines.pending, pane) == "" && s.lines.held(pane) == "a"
  {
    hide After, Of, L.Moves, GoodEnv;
    var go := Go(0, Accepted, pane);
    var before := LetterForgotten(env, pane);
    steps := before + [go];
    AfterOne(env, before, go);
    assert After(env, steps).threads == [Thread(Done, 0, map[pane := ""])];
  }

  /** No two dispatches at work share a pane. */
  lemma ActiveDispatchesAreApart(env: Env, steps: seq<Step>, i: nat, j: nat, pane: Pane)
    requires GoodEnv(env) && i < j < |env.dispatches|
    ensures var threads := After(env, steps).threads;
      Active(threads[i].pc) && Active(threads[j].pc) ==>
        !(pane in env.dispatches[i].panes && pane in env.dispatches[j].panes)
  {
    hide After, GoodEnv, Inv;
    EveryRunKeepsInv(env, steps);
    var s := After(env, steps);
    if Active(s.threads[i].pc) && Active(s.threads[j].pc) && pane in env.dispatches[i].panes {
      DispatchesAreApart(env, s, i, j, pane);
    }
  }

  /** Until tmux has taken the keys that end a line, the old text stays pending: it is not
      cleared early. */
  lemma UnsubmittedTextStaysPending(env: Env, steps: seq<Step>, i: nat, pane: Pane)
    requires GoodEnv(env) && i < |env.dispatches| && pane in env.dispatches[i].panes
    ensures var s := After(env, steps);
      s.threads[i].pc.Sending? && env.dispatches[i].s.endsLine ==> Of(s.lines.pending, pane) == s.lines.line(pane)
  {
    hide After, L.Inv, Of, LeaseFits;
    EveryRunKeepsInv(env, steps);
    var d, t, x := env.dispatches[i], After(env, steps).threads[i], After(env, steps).lines;
    if t.pc.Sending? && d.s.endsLine {
      assert Summarizes(d, env.prints);
      var j :| 0 <= j < |d.panes| && d.panes[j] == pane;
      assert Fits(d, t, j, Of(x.pending, pane), x.line(pane));
      NothingRecorded(x.line(pane));
    }
  }

  // ---------------------------------------------------------------- every dispatch ends

  /** A dispatch restores only what it saved. */
  predicate RestoresSaved(t: Thread) { t.pc.Restoring? ==> t.pc.left <= t.saved.Keys }

  lemma LocalRestoresSaved(d: Dispatch, t: Thread, x: Lines2, outcome: Outcome, pane: Pane, prints: Printing)
    requires RestoresSaved(t)
    ensures RestoresSaved(Local(d, t, x, outcome, pane, prints).0)
  {
    hide Of, With, Trim, TmuxTakes, Taken;
  }

  lemma {:induction false} EveryRunRestoresSaved(env: Env, steps: seq<Step>)
    ensures forall i :: 0 <= i < |env.dispatches| ==> RestoresSaved(After(env, steps).threads[i])
  {
    hide Local, L.Moves, RestoresSaved;
    if steps == [] {
      forall i | 0 <= i < |env.dispatches| ensures RestoresSaved(After(env, steps).threads[i]) { WaitingRestores(); }
    } else {
      var s, step := After(env, steps[..|steps| - 1]), steps[|steps| - 1];
      EveryRunRestoresSaved(env, steps[..|steps| - 1]);
      WaitingRestores();
      if step.Go? && step.d < |s.threads| {
        LocalRestoresSaved(env.dispatches[step.d], s.threads[step.d], s.lines, step.outcome, step.pane, env.prints);
        WaitingRestoresToo(s.threads[step.d]);
      }
    }
  }

  lemma WaitingRestores()
    ensures forall pc, lease, saved :: pc == Waiting || pc == Done || pc == Leased ==> RestoresSaved(Thread(pc, lease, saved))
  {
  }

  lemma WaitingRestoresToo(t: Thread)
    ensures RestoresSaved(t.(pc := Done))
  {
  }

  function Left(n: nat, i: nat): nat { if i < n then n - i else 0 }

  /** How many steps a dispatch has before it, if tmux accepts its keys. */
  function Rank(d: Dispatch, pc: Pc): nat
  {
    var n := |d.panes|;
    match pc
    case Leased => 5 * n + 12
    case Recording(i) => 4 * n + 10 + Left(n, i)
    case Sending => 4 * n + 9
    case Clearing(i) => 3 * n + 8 + Left(n, i)
    case Rerecording(i) => 2 * n + 7 + Left(n, i)
    case Entering => 2 * n + 6
    case EnterClearing(i) => n + 5 + Left(n, i)
    case Restoring(left) => |left| + 2
    case Releasing => 1
    case _ => 0
  }

  lemma LocalGoesOn(d: Dispatch, t: Thread, x: Lines2, pane: Pane, prints: Printing)
    requires RestoresSaved(t) && Active(t.pc) && !t.pc.Releasing?
    requires t.pc.Restoring? && t.pc.left != {} ==> pane in t.pc.left
    ensures Rank(d, Local(d, t, x, Accepted, pane, prints).0.pc) < Rank(d, t.pc)
  {
    hide Of, With, Trim, TmuxTakes, Taken;
  }

  lemma AfterOneMore(env: Env, steps: seq<Step>, i: nat, outcome: Outcome, pane: Pane) returns (more: seq<Step>)
    requires i < |env.dispatches| && Active(After(env, steps).threads[i].pc)
    ensures more == steps + [Go(i, outcome, pane)]
    ensures var s := After(env, steps);
      After(env, more).threads[i]
      == if s.threads[i].pc.Releasing? then s.threads[i].(pc := Done)
         else Local(env.dispatches[i], s.threads[i], s.lines, outcome, pane, env.prints).0
  {
    hide Local, L.Moves, After;
    more := steps + [Go(i, outcome, pane)];
    AfterOne(env, steps, Go(i, outcome, pane));
  }

  /** In every reachable state a dispatch that holds its lease ends by steps of its own, if tmux
      accepts its keys, and gives the lease back: it waits for no other dispatch. */
  lemma {:induction false} EveryDispatchEnds(env: Env, steps: seq<Step>, i: nat) returns (more: seq<Step>)
    requires i < |env.dispatches| && Active(After(env, steps).threads[i].pc)
    ensures steps <= more && forall k :: |steps| <= k < |more| ==> more[k].Go? && more[k].d == i
    ensures After(env, more).threads[i].pc.Done?
    decreases Rank(env.dispatches[i], After(env, steps).threads[i].pc)
  {
    hide After, Local, RestoresSaved, Rank;
    var d, s := env.dispatches[i], After(env, steps);
    var t := s.threads[i];
    EveryRunRestoresSaved(env, steps);
    var pane := "";
    if t.pc.Restoring? && t.pc.left != {} { pane :| pane in t.pc.left; }
    more := AfterOneMore(env, steps, i, Accepted, pane);
    if !t.pc.Releasing? {
      LocalGoesOn(d, t, s.lines, pane, env.prints);
      LocalStaysActive(d, t, s.lines, Accepted, pane, env.prints);
      more := EveryDispatchEnds(env, more, i);
    }
  }
}
