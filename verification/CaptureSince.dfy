/** Reading on from a cursor while tmux scrolls, trims and renumbers a pane's rows. */
module CaptureSince {
  import opened Options

  const FINGERPRINT_ROWS := 12
  const STABLE_READ_ATTEMPTS := 3

  /** A row's fingerprint; how it is computed is a parameter of the model. */
  type Hash = nat
  type Hashing = string -> Hash

  ghost predicate CollisionFree(hash: Hashing) { forall a, b :: hash(a) == hash(b) ==> a == b }

  datatype PaneState = PaneState(pid: int, historySize: nat, height: nat, cursorY: nat, dead: bool, historyLimit: int,
    cursorX: int)

  datatype Cursor = Cursor(
    panePid: int,
    historySize: nat,
    paneHeight: nat,
    anchorAbs: nat,
    leading: seq<Hash>,
    anchorHash: Option<Hash>,
    belowHashes: seq<Hash>)

  /** unicode.IsSpace. */
  predicate Space(c: char)
  {
    var n := c as int;
    || 0x9 <= n <= 0xd || n == 0x20 || n == 0x85 || n == 0xa0 || n == 0x1680 || 0x2000 <= n <= 0x200a
    || n == 0x2028 || n == 0x2029 || n == 0x202f || n == 0x205f || n == 0x3000
  }

  /** Whether trimming the space around a row leaves nothing. */
  predicate Blank(row: string) { forall i :: 0 <= i < |row| ==> Space(row[i]) }

  function Hashes(hash: Hashing, rows: seq<string>): (r: seq<Hash>)
    ensures |r| == |rows|
    ensures forall i :: 0 <= i < |rows| ==> r[i] == hash(rows[i])
  {
    seq(|rows|, i requires 0 <= i < |rows| => hash(rows[i]))
  }

  lemma HashesTell(hash: Hashing, a: seq<string>, b: seq<string>)
    requires CollisionFree(hash) && Hashes(hash, a) == Hashes(hash, b)
    ensures a == b
  {
    assert |a| == |Hashes(hash, a)| == |b|;
    forall i | 0 <= i < |a| ensures a[i] == b[i] {
      assert Hashes(hash, a)[i] == Hashes(hash, b)[i];
    }
  }

  // ---------------------------------------------------------------- the grid

  /** What a capture of the grid from a line on shows; line 0 is the top of the screen. */
  function CaptureFrom(grid: seq<string>, historySize: nat, line: int): seq<string>
    requires -(historySize as int) <= line <= |grid| - historySize
  {
    grid[historySize + line..]
  }

  /** Everything a pane has written, how many of its oldest rows tmux has discarded, and the
      state it reports. */
  datatype Moment = Moment(wrote: seq<string>, dropped: nat, state: PaneState) {
    predicate Valid()
    {
      && dropped + state.historySize + state.height == |wrote|
      && state.cursorY < state.height
    }

    function Grid(): seq<string>
      requires Valid()
    {
      wrote[dropped..]
    }

    /** The row the cursor is on, counted from the first row ever written. */
    function Anchor(): nat { dropped + state.historySize + state.cursorY }

    function Lead(): nat
    {
      if state.cursorY + state.historySize < FINGERPRINT_ROWS then state.cursorY + state.historySize
      else FINGERPRINT_ROWS
    }

    function LeadingRows(): seq<string>
      requires Valid()
    {
      wrote[Anchor() - Lead()..Anchor()]
    }
  }

  function MomentCursor(hash: Hashing, m: Moment): Cursor
    requires m.Valid()
  {
    var below := m.wrote[m.Anchor()..];
    Cursor(m.state.pid, m.state.historySize, m.state.height, m.state.historySize + m.state.cursorY,
           Hashes(hash, m.LeadingRows()), Some(hash(below[0])), Hashes(hash, below[1..]))
  }

  // ---------------------------------------------------------------- building a cursor

  /** The rows from the cursor down, and the settled rows above it. */
  method CaptureFingerprintRows(m: Moment) returns (anchor: seq<string>, leading: seq<string>)
    requires m.Valid()
    ensures anchor == m.wrote[m.Anchor()..] && leading == m.LeadingRows()
  {
    var state, grid := m.state, m.Grid();
    anchor, leading := [], [];
    if state.cursorY < state.height {
      anchor := CaptureFrom(grid, state.historySize, state.cursorY);
    }
    if state.cursorY > 0 || state.historySize > 0 {
      var start := if state.cursorY - FINGERPRINT_ROWS > -(state.historySize as int) then state.cursorY - FINGERPRINT_ROWS
                   else -(state.historySize as int);
      leading := CaptureFrom(grid, state.historySize, start)[..state.cursorY - start];
    }
  }

  method HashRows(hash: Hashing, rows: seq<string>) returns (hashes: seq<Hash>)
    ensures hashes == Hashes(hash, rows)
  {
    hashes := [];
    for i := 0 to |rows|
      invariant |hashes| == i && forall k :: 0 <= k < i ==> hashes[k] == hash(rows[k])
    {
      hashes := hashes + [hash(rows[i])];
    }
  }

  method CursorForRead(hash: Hashing, state: PaneState, anchorRows: seq<string>, leadingRows: seq<string>)
      returns (cursor: Cursor)
    ensures cursor == Cursor(state.pid, state.historySize, state.height, state.historySize + state.cursorY,
                             Hashes(hash, leadingRows),
                             if anchorRows == [] then None else Some(hash(anchorRows[0])),
                             if anchorRows == [] then [] else Hashes(hash, anchorRows[1..]))
  {
    var leading := HashRows(hash, leadingRows);
    cursor := Cursor(state.pid, state.historySize, state.height, state.historySize + state.cursorY, leading, None, []);
    if |anchorRows| > 0 { cursor := cursor.(anchorHash := Some(hash(anchorRows[0]))); }
    if |anchorRows| > 1 {
      var below := HashRows(hash, anchorRows[1..]);
      cursor := cursor.(belowHashes := below);
    } else if |anchorRows| == 1 {
      assert Hashes(hash, anchorRows[1..]) == [];
    }
  }

  // ---------------------------------------------------------------- finding the anchor

  predicate AnchorLost(cursor: Cursor, state: PaneState)
  {
    || cursor.anchorAbs > state.historySize + state.height - 1
    || (state.historySize == 0 && cursor.historySize > 0)
    || (state.historySize < cursor.historySize && state.height <= cursor.paneHeight)
  }

  predicate MatchesAt(hash: Hashing, rows: seq<string>, at: nat, fingerprint: seq<Hash>)
  {
    at + |fingerprint| <= |rows| && Hashes(hash, rows[at..at + |fingerprint|]) == fingerprint
  }

  method MatchesFingerprint(hash: Hashing, rows: seq<string>, hashes: seq<Hash>) returns (matches: bool)
    ensures matches <==> Hashes(hash, rows) == hashes
  {
    if |rows| != |hashes| { return false; }
    for i := 0 to |hashes|
      invariant forall k :: 0 <= k < i ==> hash(rows[k]) == hashes[k]
    {
      if hash(rows[i]) != hashes[i] {
        assert Hashes(hash, rows)[i] != hashes[i];
        return false;
      }
    }
    return true;
  }

  ghost predicate OccursOnce(hash: Hashing, rows: seq<string>, at: nat, fingerprint: seq<Hash>)
  {
    && MatchesAt(hash, rows, at, fingerprint)
    && forall other: nat :: MatchesAt(hash, rows, other, fingerprint) ==> other == at
  }

  /** Where the fingerprint occurs, if it occurs exactly once, and -1 otherwise. */
  method UniqueFingerprintMatch(hash: Hashing, rows: seq<string>, fingerprint: seq<Hash>) returns (found: int)
    ensures found >= 0 <==> fingerprint != [] && exists at: nat :: OccursOnce(hash, rows, at, fingerprint)
    ensures found >= 0 ==> OccursOnce(hash, rows, found, fingerprint)
    ensures found < 0 ==> found == -1
  {
    if |fingerprint| == 0 || |rows| < |fingerprint| { return -1; }
    found := -1;
    var index := 0;
    while index + |fingerprint| <= |rows|
      invariant index <= |rows| - |fingerprint| + 1 && -1 <= found < index
      invariant found >= 0 ==> MatchesAt(hash, rows, found, fingerprint)
      invariant forall k: nat :: k < index && MatchesAt(hash, rows, k, fingerprint) ==> k == found
    {
      var matches := MatchesFingerprint(hash, rows[index..index + |fingerprint|], fingerprint);
      if matches {
        assert MatchesAt(hash, rows, index, fingerprint);
        if found >= 0 { return -1; }
        found := index;
      }
      index := index + 1;
    }
    if found >= 0 { assert OccursOnce(hash, rows, found, fingerprint); }
  }

  /** Whether row g of the grid passes for the cursor's anchor: its leading run matches at the
      place the cursor predicts, or else nowhere but above g. Without a leading run it is the
      oldest row, if none scrolled away or it still reads the same. */
  ghost predicate AnchorFound(hash: Hashing, cursor: Cursor, state: PaneState, grid: seq<string>, g: nat)
  {
    var lead := |cursor.leading|;
    if lead == 0 then
      g == 0 && (state.historySize == 0
                 || (grid != [] && !Blank(grid[0]) && cursor.anchorHash == Some(hash(grid[0]))))
    else
      && lead <= g <= |grid| && MatchesAt(hash, grid, g - lead, cursor.leading)
      && (g == cursor.anchorAbs
          || (lead <= cursor.anchorAbs && !MatchesAt(hash, grid, cursor.anchorAbs - lead, cursor.leading)
              && OccursOnce(hash, grid, g - lead, cursor.leading)))
  }

  /** rows[at] is the anchor, and base the capture line of rows[0]. */
  method LocateAnchor(hash: Hashing, cursor: Cursor, state: PaneState, grid: seq<string>)
      returns (rows: seq<string>, base: int, at: nat, found: bool)
    requires |grid| == state.historySize + state.height && |cursor.leading| <= cursor.anchorAbs
    requires !AnchorLost(cursor, state)
    ensures found <==> exists g: nat :: AnchorFound(hash, cursor, state, grid, g)
    ensures found ==>
              && -(state.historySize as int) <= base <= state.height
              && rows == CaptureFrom(grid, state.historySize, base) && at <= |rows|
              && AnchorFound(hash, cursor, state, grid, state.historySize + base + at)
  {
    if |cursor.leading| == 0 {
      rows := CaptureFrom(grid, state.historySize, -(state.historySize as int));
      assert rows == grid;
      if state.historySize == 0 {
        assert AnchorFound(hash, cursor, state, grid, 0);
        return rows, 0, 0, true;
      }
      if |rows| == 0 || Blank(rows[0]) || cursor.anchorHash.None? || hash(rows[0]) != cursor.anchorHash.value {
        return [], 0, 0, false;
      }
      assert AnchorFound(hash, cursor, state, grid, 0);
      return rows, -(state.historySize as int), 0, true;
    }
    var lead := |cursor.leading|;
    var start := cursor.anchorAbs - state.historySize - lead;
    rows := CaptureFrom(grid, state.historySize, start);
    if |rows| > lead {
      assert rows[..lead] == grid[cursor.anchorAbs - lead..cursor.anchorAbs];
      var matches := MatchesFingerprint(hash, rows[..lead], cursor.leading);
      if matches {
        assert AnchorFound(hash, cursor, state, grid, cursor.anchorAbs);
        return rows, start, lead, true;
      }
    }
    var whole := CaptureFrom(grid, state.historySize, -(state.historySize as int));
    assert whole == grid;
    var place := UniqueFingerprintMatch(hash, whole, cursor.leading);
    if place < 0 { return [], 0, 0, false; }
    assert AnchorFound(hash, cursor, state, grid, place + lead);
    return whole, -(state.historySize as int), place + lead, true;
  }

  // ---------------------------------------------------------------- what is new

  /** How many rows below the anchor read as they did. */
  function Unchanged(hash: Hashing, rows: seq<string>, below: seq<Hash>): (n: nat)
    ensures n <= |rows| && n <= |below|
    ensures forall i :: 0 <= i < n ==> hash(rows[i]) == below[i]
    ensures n < |rows| && n < |below| ==> hash(rows[n]) != below[n]
  {
    if rows == [] || below == [] || hash(rows[0]) != below[0] then 0 else 1 + Unchanged(hash, rows[1..], below[1..])
  }

  predicate AnchorChanged(hash: Hashing, row: string, cursor: Cursor)
  {
    cursor.anchorHash != Some(hash(row))
  }

  /** The rows from the anchor on, without an unchanged anchor and the unchanged run below. */
  function Unseen(hash: Hashing, rows: seq<string>, cursor: Cursor): seq<string>
  {
    if rows == [] then []
    else
      var n := Unchanged(hash, rows[1..], cursor.belowHashes);
      (if AnchorChanged(hash, rows[0], cursor) then [rows[0]] else []) + rows[n + 1..]
  }

  method UnseenRows(hash: Hashing, rows: seq<string>, cursor: Cursor) returns (kept: seq<string>, skipped: nat)
    ensures kept == Unseen(hash, rows, cursor)
    ensures kept != [] ==>
              skipped < |rows| && if AnchorChanged(hash, rows[0], cursor) then skipped == 0 else kept == rows[skipped..]
  {
    if |rows| == 0 { return [], 0; }
    kept, skipped := [], 0;
    var anchorKept := cursor.anchorHash.None? || hash(rows[0]) != cursor.anchorHash.value;
    if anchorKept { kept := [rows[0]]; }
    var tail := rows[1..];
    var drop := CountUnchanged(hash, tail, cursor.belowHashes);
    if !anchorKept { skipped := 1 + drop; }
    assert tail[drop..] == rows[drop + 1..];
    kept := kept + tail[drop..];
  }

  method CountUnchanged(hash: Hashing, tail: seq<string>, below: seq<Hash>) returns (drop: nat)
    ensures drop == Unchanged(hash, tail, below)
  {
    drop := 0;
    assert tail[0..] == tail && below[0..] == below;
    while drop < |below| && drop < |tail| && hash(tail[drop]) == below[drop]
      invariant drop <= |tail| && drop <= |below|
      invariant Unchanged(hash, tail, below) == drop + Unchanged(hash, tail[drop..], below[drop..])
    {
      assert tail[drop..][1..] == tail[drop + 1..] && below[drop..][1..] == below[drop + 1..];
      drop := drop + 1;
    }
  }

  function Trimmed(rows: seq<string>): seq<string>
  {
    if rows != [] && Blank(rows[|rows| - 1]) then Trimmed(rows[..|rows| - 1]) else rows
  }

  method TrimTrailingBlank(rows: seq<string>) returns (kept: seq<string>)
    ensures kept == Trimmed(rows)
  {
    kept := rows;
    while |kept| > 0 && Blank(kept[|kept| - 1])
      invariant Trimmed(kept) == Trimmed(rows)
    {
      kept := kept[..|kept| - 1];
    }
  }

  lemma {:induction false} TrimmedDropsBlanks(rows: seq<string>)
    ensures Trimmed(rows) <= rows
    ensures forall i :: |Trimmed(rows)| <= i < |rows| ==> Blank(rows[i])
    ensures Trimmed(rows) != [] ==> !Blank(Trimmed(rows)[|Trimmed(rows)| - 1])
  {
    hide Blank;
    if rows != [] && Blank(rows[|rows| - 1]) { TrimmedDropsBlanks(rows[..|rows| - 1]); }
  }

  // ---------------------------------------------------------------- reading on

  /** One attempt: the state before, what the captures saw, and the state after. */
  datatype Attempt = Attempt(before: PaneState, grid: seq<string>, after: PaneState)

  /** joinedFrom is the capture line from which the same rows are read joined. */
  datatype Read = Refused | Missed | Resumed(lines: seq<string>, joinedFrom: Option<int>)

  predicate LifecycleFits(state: PaneState, expected: int)
  {
    (expected != 0 ==> state.pid == expected) && (expected == 0 ==> !state.dead)
  }

  /** The rows from grid row g on, as the reply gives them; they are read joined from the first
      of them on. */
  ghost predicate Replies(hash: Hashing, cursor: Cursor, a: Attempt, g: nat, read: Read)
  {
    && read.Resumed? && g <= |a.grid|
    && read.lines == Trimmed(Unseen(hash, a.grid[g..], cursor))
    && (read.joinedFrom.Some? <==> Unseen(hash, a.grid[g..], cursor) != [])
    && (read.joinedFrom.Some? ==>
          var row := a.before.historySize + read.joinedFrom.value;
          && g <= row < |a.grid|
          && if AnchorChanged(hash, a.grid[g], cursor) then row == g else Unseen(hash, a.grid[g..], cursor) == a.grid[row..])
  }

  /** An attempt from which a read may come: settled, of the cursor's process, and with an
      anchor at grid row g. */
  ghost predicate Supports(hash: Hashing, cursor: Cursor, a: Attempt, g: nat, read: Read)
  {
    && a.before == a.after && LifecycleFits(a.after, cursor.panePid) && !AnchorLost(cursor, a.before)
    && AnchorFound(hash, cursor, a.before, a.grid, g) && Replies(hash, cursor, a, g, read)
  }

  ghost predicate Lost(hash: Hashing, cursor: Cursor, a: Attempt)
  {
    AnchorLost(cursor, a.before) || forall g: nat :: !AnchorFound(hash, cursor, a.before, a.grid, g)
  }

  /** What one attempt comes to. A pane that changed during it is tried again. */
  ghost predicate Comes(hash: Hashing, cursor: Cursor, a: Attempt, g: nat, read: Option<Read>)
  {
    if !LifecycleFits(a.before, cursor.panePid) then read == Some(Refused)
    else if Lost(hash, cursor, a) then read == Some(Missed)
    else if !LifecycleFits(a.after, cursor.panePid) then read == Some(Refused)
    else if a.before != a.after then read == None
    else read.Some? && Supports(hash, cursor, a, g, read.value)
  }

  method ReadOnce(hash: Hashing, cursor: Cursor, a: Attempt) returns (read: Option<Read>, ghost g: nat)
    requires |cursor.leading| <= cursor.anchorAbs && |a.grid| == a.before.historySize + a.before.height
    ensures Comes(hash, cursor, a, g, read)
  {
    hide AnchorFound, Unseen, Trimmed;
    g := 0;
    if !LifecycleFits(a.before, cursor.panePid) { return Some(Refused), g; }
    if AnchorLost(cursor, a.before) { return Some(Missed), g; }
    var rows, base, at, found := LocateAnchor(hash, cursor, a.before, a.grid);
    if !found { return Some(Missed), g; }
    g := a.before.historySize + base + at;
    assert rows[at..] == a.grid[g..];
    var unseen, skipped := UnseenRows(hash, rows[at..], cursor);
    var joinedFrom := None;
    if |unseen| > 0 { joinedFrom := Some(base + at + skipped); }
    if !LifecycleFits(a.after, cursor.panePid) { return Some(Refused), g; }
    if a.before != a.after { return None, g; }
    var lines := TrimTrailingBlank(unseen);
    return Some(Resumed(lines, joinedFrom)), g;
  }

  /** What a read comes to: the first attempt that settles decides, and without one the rows are
      missed. */
  ghost predicate Reads(hash: Hashing, cursor: Cursor, attempts: seq<Attempt>, read: Read)
  {
    if attempts == [] then read == Missed
    else exists g: nat, r ::
      Comes(hash, cursor, attempts[0], g, r) && if r.Some? then read == r.value else Reads(hash, cursor, attempts[1..], read)
  }

  method ReadDelta(hash: Hashing, cursor: Cursor, attempts: seq<Attempt>) returns (read: Read)
    requires |attempts| == STABLE_READ_ATTEMPTS && |cursor.leading| <= cursor.anchorAbs
    requires forall a :: a in attempts ==> |a.grid| == a.before.historySize + a.before.height
    ensures Reads(hash, cursor, attempts, read)
  {
    hide Comes;
    assert attempts[0..] == attempts;
    for i := 0 to STABLE_READ_ATTEMPTS
      invariant forall r :: Reads(hash, cursor, attempts[i..], r) ==> Reads(hash, cursor, attempts, r)
    {
      var result, g := ReadOnce(hash, cursor, attempts[i]);
      assert attempts[i..][1..] == attempts[i + 1..] && attempts[i..][0] == attempts[i];
      if result.Some? { return result.value; }
    }
    assert attempts[STABLE_READ_ATTEMPTS..] == [];
    return Missed;
  }

  // ---------------------------------------------------------------- what a later read promises

  /** A later moment of the same pane: rows are only added and trimmed, the size stays, and
      nothing above the earlier cursor was written over. */
  ghost predicate Follows(m: Moment, n: Moment)
  {
    && m.Valid() && n.Valid()
    && m.dropped <= n.dropped && |m.wrote| <= |n.wrote| && n.state.height == m.state.height
    && n.wrote[..m.Anchor()] == m.wrote[..m.Anchor()]
  }

  /** The run above the earlier cursor stands among the rows retained, from row i on. */
  predicate RunAt(m: Moment, n: Moment, i: nat)
    requires m.Valid()
  {
    n.dropped <= i && i + m.Lead() <= |n.wrote| && n.wrote[i..i + m.Lead()] == m.LeadingRows()
  }

  /** It occurs nowhere but above the cursor. */
  ghost predicate RunIsUnique(m: Moment, n: Moment)
    requires m.Valid()
  {
    forall i: nat :: RunAt(m, n, i) ==> i == m.Anchor() - m.Lead()
  }

  lemma RunAtItsPlace(m: Moment, n: Moment)
    requires Follows(m, n) && n.dropped <= m.Anchor() - m.Lead()
    ensures RunAt(m, n, m.Anchor() - m.Lead())
  {
    var a, b := m.Anchor() - m.Lead(), m.Anchor();
    assert n.wrote[a..b] == n.wrote[..b][a..];
    assert m.wrote[a..b] == m.wrote[..b][a..];
  }

  lemma GridRun(hash: Hashing, m: Moment, n: Moment, at: nat)
    requires CollisionFree(hash) && Follows(m, n)
    ensures MatchesAt(hash, n.Grid(), at, MomentCursor(hash, m).leading) <==> RunAt(m, n, n.dropped + at)
  {
    var lead, grid := m.Lead(), n.Grid();
    assert |m.LeadingRows()| == lead;
    if at + lead <= |grid| {
      assert grid[at..at + lead] == n.wrote[n.dropped + at..n.dropped + at + lead];
      if Hashes(hash, grid[at..at + lead]) == MomentCursor(hash, m).leading {
        HashesTell(hash, grid[at..at + lead], m.LeadingRows());
      }
    }
  }

  /** The grid row where the cursor predicts its run, counted from the first row ever written. */
  function Predicted(m: Moment, n: Moment): nat
    requires m.Valid()
  {
    n.dropped + (m.Anchor() - m.dropped) - m.Lead()
  }

  /** What the search finds, in terms of the rows written: the run at the predicted place, or
      else the one place where it stands. */
  lemma FoundMeans(hash: Hashing, m: Moment, n: Moment, g: nat)
    requires CollisionFree(hash) && Follows(m, n) && m.Lead() > 0
    ensures AnchorFound(hash, MomentCursor(hash, m), n.state, n.Grid(), g)
       <==> && m.Lead() <= g && RunAt(m, n, n.dropped + g - m.Lead())
            && (n.dropped + g - m.Lead() == Predicted(m, n)
                || forall i: nat :: RunAt(m, n, i) ==> i == n.dropped + g - m.Lead())
  {
    hide Hashes, MatchesAt, RunAt, Blank;
    var cursor, lead := MomentCursor(hash, m), m.Lead();
    LeadLength(hash, m);
    RunsAreRetained(m, n);
    forall at: nat ensures MatchesAt(hash, n.Grid(), at, cursor.leading) <==> RunAt(m, n, n.dropped + at) {
      GridRun(hash, m, n, at);
    }
    if g >= lead && (forall i: nat :: RunAt(m, n, i) ==> i == n.dropped + g - lead) && RunAt(m, n, n.dropped + g - lead) {
      assert OccursOnce(hash, n.Grid(), g - lead, cursor.leading);
    }
    if g >= lead && OccursOnce(hash, n.Grid(), g - lead, cursor.leading) {
      forall i: nat | RunAt(m, n, i) ensures i == n.dropped + g - lead {
        assert MatchesAt(hash, n.Grid(), i - n.dropped, cursor.leading);
      }
    }
  }

  lemma RunsAreRetained(m: Moment, n: Moment)
    requires m.Valid()
    ensures forall i: nat :: RunAt(m, n, i) ==> n.dropped <= i && i + m.Lead() <= |n.wrote|
  {
  }

  /** A later read finds the cursor's own row exactly when its leading run is retained, and
      either nothing was trimmed or the run occurs nowhere else. */
  lemma ResumesAtTheAnchor(hash: Hashing, m: Moment, n: Moment, g: nat)
    requires CollisionFree(hash) && Follows(m, n) && m.Lead() > 0 && n.dropped + g == m.Anchor()
    ensures AnchorFound(hash, MomentCursor(hash, m), n.state, n.Grid(), g)
       <==> n.dropped <= m.Anchor() - m.Lead() && (n.dropped == m.dropped || RunIsUnique(m, n))
  {
    hide AnchorFound, RunAt;
    FoundMeans(hash, m, n, g);
    RunsAreRetained(m, n);
    if n.dropped <= m.Anchor() - m.Lead() { RunAtItsPlace(m, n); }
  }

  /** Rows were trimmed, and the run that a search finds, at the predicted place or the one place
      where it stands, is not the one above the cursor. */
  ghost predicate Misleads(m: Moment, n: Moment)
    requires m.Valid()
  {
    && n.dropped > m.dropped
    && (RunAt(m, n, Predicted(m, n))
        || exists i: nat :: RunAt(m, n, i) && i != m.Anchor() - m.Lead() && forall j: nat :: RunAt(m, n, j) ==> j == i)
  }

  /** A later read resumes at another row than the cursor's exactly when the retained rows
      mislead it; while nothing was trimmed, a repeated run is harmless. */
  lemma ResumesElsewhereExactly(hash: Hashing, m: Moment, n: Moment)
    requires CollisionFree(hash) && Follows(m, n) && m.Lead() > 0
    ensures (exists g: nat ::
               AnchorFound(hash, MomentCursor(hash, m), n.state, n.Grid(), g) && n.dropped + g != m.Anchor())
       <==> Misleads(m, n)
  {
    hide AnchorFound, RunAt;
    forall g: nat | AnchorFound(hash, MomentCursor(hash, m), n.state, n.Grid(), g) && n.dropped + g != m.Anchor()
      ensures Misleads(m, n)
    {
      FoundElsewhere(hash, m, n, g);
    }
    if Misleads(m, n) {
      var g := MisledTo(hash, m, n);
    }
  }

  lemma FoundElsewhere(hash: Hashing, m: Moment, n: Moment, g: nat)
    requires CollisionFree(hash) && Follows(m, n) && m.Lead() > 0
    requires AnchorFound(hash, MomentCursor(hash, m), n.state, n.Grid(), g) && n.dropped + g != m.Anchor()
    ensures Misleads(m, n)
  {
    hide AnchorFound, RunAt, CollisionFree;
    FoundMeans(hash, m, n, g);
    if n.dropped == m.dropped {
      RunAtItsPlace(m, n);
    } else if n.dropped + g - m.Lead() != Predicted(m, n) {
      assert RunAt(m, n, n.dropped + g - m.Lead());
    }
  }

  lemma MisledTo(hash: Hashing, m: Moment, n: Moment) returns (g: nat)
    requires CollisionFree(hash) && Follows(m, n) && m.Lead() > 0 && Misleads(m, n)
    ensures AnchorFound(hash, MomentCursor(hash, m), n.state, n.Grid(), g) && n.dropped + g != m.Anchor()
  {
    hide AnchorFound, RunAt;
    RunsAreRetained(m, n);
    if RunAt(m, n, Predicted(m, n)) {
      g := m.Anchor() - m.dropped;
    } else {
      var i: nat :| RunAt(m, n, i) && i != m.Anchor() - m.Lead() && forall j: nat :: RunAt(m, n, j) ==> j == i;
      g := i - n.dropped + m.Lead();
    }
    FoundMeans(hash, m, n, g);
  }

  lemma LeadLength(hash: Hashing, m: Moment)
    requires m.Valid()
    ensures |MomentCursor(hash, m).leading| == m.Lead() <= MomentCursor(hash, m).anchorAbs
  {
  }

  /** Row i from the anchor on is returned in its place, reads as it did when the cursor was
      issued, or is a blank row at the end. */
  predicate AccountedFor(rows: seq<string>, before: seq<string>, lines: seq<string>, n: nat, i: nat)
    requires i < |rows| && before != []
  {
    var skippedFirst := rows[0] == before[0];
    if i == 0 && !skippedFirst then (if |lines| > 0 then lines[0] == rows[0] else Blank(rows[0]))
    else if i <= n then i < |before| && rows[i] == before[i]
    else
      var place := i - n - 1 + if skippedFirst then 0 else 1;
      if place < |lines| then lines[place] == rows[i] else Blank(rows[i])
  }

  /** The rows below the first, up to row n, read as before. */
  predicate SameUpTo(rows: seq<string>, before: seq<string>, n: nat)
  {
    forall i :: 1 <= i <= n ==> i < |rows| && i < |before| && rows[i] == before[i]
  }

  lemma UnseenIsTheRest(hash: Hashing, rows: seq<string>, before: seq<string>, cursor: Cursor) returns (n: nat)
    requires CollisionFree(hash) && rows != [] && before != []
    requires cursor.anchorHash == Some(hash(before[0])) && cursor.belowHashes == Hashes(hash, before[1..])
    ensures n < |rows|
    ensures SameUpTo(rows, before, n)
    ensures n + 1 < |rows| && n + 1 < |before| ==> rows[n + 1] != before[n + 1]
    ensures Unseen(hash, rows, cursor) == (if rows[0] == before[0] then [] else [rows[0]]) + rows[n + 1..]
  {
    n := Unchanged(hash, rows[1..], cursor.belowHashes);
    forall i | 1 <= i <= n ensures i < |before| && rows[i] == before[i] {
      assert hash(rows[1..][i - 1]) == cursor.belowHashes[i - 1];
      assert before[1..][i - 1] == before[i];
    }
    if n + 1 < |rows| && n + 1 < |before| {
      assert hash(rows[1..][n]) != cursor.belowHashes[n];
    }
  }

  /** capture_since loses nothing silently. A read that resumes starts at the cursor's own row
      of what the pane wrote, and every row from there on is returned in order, unchanged since
      the last reply, or trailing blank; and nothing else is returned. */
  lemma NothingIsLostSilently(hash: Hashing, m: Moment, n: Moment, a: Attempt, g: nat, read: Read)
      returns (same: nat)
    requires CollisionFree(hash) && Follows(m, n) && m.Lead() > 0 && !Misleads(m, n)
    requires a.before == n.state && a.grid == n.Grid()
    requires Supports(hash, MomentCursor(hash, m), a, g, read)
    ensures var rows, before := n.wrote[m.Anchor()..], m.wrote[m.Anchor()..];
      && a.grid[g..] == rows && same < |rows| && before != []
      && (forall i: nat :: i < |rows| ==> AccountedFor(rows, before, read.lines, same, i))
      && |read.lines| <= |rows| - same - (if rows[0] == before[0] then 1 else 0)
      && (read.lines != [] ==> !Blank(read.lines[|read.lines| - 1]))
      && (same + 1 < |rows| && same + 1 < |before| ==> rows[same + 1] != before[same + 1])
  {
    hide AnchorFound, Misleads, Blank, Hashes, Supports, CollisionFree, Unseen, Trimmed, AccountedFor, SameUpTo;
    var cursor := MomentCursor(hash, m);
    SupportedRows(hash, m, n, a, g, read);
    var rows, before := n.wrote[m.Anchor()..], m.wrote[m.Anchor()..];
    same := UnseenIsTheRest(hash, rows, before, cursor);
    var unseen := (if rows[0] == before[0] then [] else [rows[0]]) + rows[same + 1..];
    TrimmedDropsBlanks(unseen);
    assert read.lines == Trimmed(unseen);
    forall i: nat | i < |rows|
      ensures AccountedFor(rows, before, read.lines, same, i)
    {
      RowIsAccountedFor(rows, before, read.lines, same, i);
    }
  }

  lemma SupportedRows(hash: Hashing, m: Moment, n: Moment, a: Attempt, g: nat, read: Read)
    requires CollisionFree(hash) && Follows(m, n) && m.Lead() > 0 && !Misleads(m, n)
    requires a.before == n.state && a.grid == n.Grid()
    requires Supports(hash, MomentCursor(hash, m), a, g, read)
    ensures var rows, before, cursor := n.wrote[m.Anchor()..], m.wrote[m.Anchor()..], MomentCursor(hash, m);
      && m.Valid() && n.Valid() && m.Anchor() < |n.wrote| && m.Anchor() < |m.wrote|
      && g <= |a.grid| && a.grid[g..] == rows && rows != [] && before != []
      && read.Resumed? && read.lines == Trimmed(Unseen(hash, rows, cursor))
      && cursor.anchorHash == Some(hash(before[0])) && cursor.belowHashes == Hashes(hash, before[1..])
  {
    hide AnchorFound, Misleads, Blank, Hashes, Unseen, Trimmed;
    ResumesElsewhereExactly(hash, m, n);
    assert a.grid[g..] == n.wrote[m.Anchor()..];
  }

  lemma RowIsAccountedFor(rows: seq<string>, before: seq<string>, lines: seq<string>, n: nat, i: nat)
    requires before != [] && i < |rows| && n < |rows|
    requires SameUpTo(rows, before, n)
    requires var unseen := (if rows[0] == before[0] then [] else [rows[0]]) + rows[n + 1..];
      lines <= unseen && forall k :: |lines| <= k < |unseen| ==> Blank(unseen[k])
    ensures AccountedFor(rows, before, lines, n, i)
  {
    hide Blank;
    var unseen := (if rows[0] == before[0] then [] else [rows[0]]) + rows[n + 1..];
    if i == 0 && rows[0] != before[0] {
      assert unseen[0] == rows[0];
      if lines != [] { assert lines[0] == unseen[0]; }
    } else if i <= n {
      if i > 0 { assert rows[i] == before[i]; }
    } else {
      var place := i - n - 1 + if rows[0] == before[0] then 0 else 1;
      assert unseen[place] == rows[i];
      if place < |lines| { assert lines[place] == unseen[place]; }
    }
  }

  /** A pane whose size stayed is given up before the search exactly when its history shrank. */
  lemma LostExactlyWhenHistoryShrank(hash: Hashing, m: Moment, n: Moment)
    requires Follows(m, n)
    ensures AnchorLost(MomentCursor(hash, m), n.state) <==> n.state.historySize < m.state.historySize
  {
  }

  /** A pane that lost no row is given up, whatever its height became, exactly when its history is
      gone: a pane that grew shows rows of its history on the screen. */
  lemma ResizedIsLostExactly(hash: Hashing, m: Moment, n: Moment)
    requires m.Valid() && n.Valid() && n.dropped == m.dropped && |m.wrote| <= |n.wrote|
    ensures AnchorLost(MomentCursor(hash, m), n.state) <==> n.state.historySize == 0 && m.state.historySize > 0
  {
  }

  /** The attempt saw the pane at rest at moment n. */
  predicate Shows(a: Attempt, n: Moment)
    requires n.Valid()
  {
    a.before == n.state && a.after == n.state && a.grid == n.Grid()
  }

  lemma OnlyTheAnchorIsFound(hash: Hashing, m: Moment, n: Moment)
    requires CollisionFree(hash) && Follows(m, n) && m.Lead() > 0 && !Misleads(m, n)
    ensures forall g: nat :: AnchorFound(hash, MomentCursor(hash, m), n.state, n.Grid(), g) <==>
      && n.dropped + g == m.Anchor()
      && n.dropped <= m.Anchor() - m.Lead() && (n.dropped == m.dropped || RunIsUnique(m, n))
  {
    hide AnchorFound, RunIsUnique, Misleads;
    ResumesElsewhereExactly(hash, m, n);
    forall g: nat | n.dropped + g == m.Anchor()
      ensures AnchorFound(hash, MomentCursor(hash, m), n.state, n.Grid(), g)
         <==> n.dropped <= m.Anchor() - m.Lead() && (n.dropped == m.dropped || RunIsUnique(m, n))
    {
      ResumesAtTheAnchor(hash, m, n, g);
    }
  }

  /** A read of a pane at rest, exactly: it is refused if another process runs there, or if the
      cursor names none and the pane is dead; it resumes if the history has not shrunk and the run
      above the cursor is retained, and stands nowhere else unless nothing was trimmed; and
      otherwise the rows are reported missed. */
  lemma RestingPaneReadsExactly(hash: Hashing, m: Moment, n: Moment, attempts: seq<Attempt>, read: Read)
    requires CollisionFree(hash) && Follows(m, n) && m.Lead() > 0 && !Misleads(m, n)
    requires attempts != [] && Shows(attempts[0], n) && Reads(hash, MomentCursor(hash, m), attempts, read)
    ensures read.Refused? <==> if m.state.pid == 0 then n.state.dead else n.state.pid != m.state.pid
    ensures read.Resumed? <==>
              && !read.Refused? && n.state.historySize >= m.state.historySize
              && n.dropped <= m.Anchor() - m.Lead() && (n.dropped == m.dropped || RunIsUnique(m, n))
    ensures read.Resumed? ==> n.dropped <= m.Anchor() && Supports(hash, MomentCursor(hash, m), attempts[0], m.Anchor() - n.dropped, read)
  {
    hide AnchorFound, RunIsUnique, Misleads, AnchorLost, Unseen, Trimmed, CollisionFree, Hashes, RunAt;
    var cursor, a := MomentCursor(hash, m), attempts[0];
    LostExactlyWhenHistoryShrank(hash, m, n);
    OnlyTheAnchorIsFound(hash, m, n);
    var g: nat, r :| Comes(hash, cursor, a, g, r) && if r.Some? then read == r.value else Reads(hash, cursor, attempts[1..], read);
    var retained := n.dropped <= m.Anchor() - m.Lead() && (n.dropped == m.dropped || RunIsUnique(m, n));
    if if m.state.pid == 0 then n.state.dead else n.state.pid != m.state.pid {
      assert read == Refused;
    } else if n.state.historySize < m.state.historySize {
      assert read == Missed;
    } else if retained {
      assert AnchorFound(hash, cursor, a.before, a.grid, m.Anchor() - n.dropped);
      assert Supports(hash, cursor, a, g, read);
    } else {
      assert Lost(hash, cursor, a);
    }
  }

  /** Such a pane exists: one that shows the same run again after its rows were trimmed is
      resumed at the wrong row, and what it wrote in between is lost. */
  lemma RepeatedRunMisleads(hash: Hashing) returns (m: Moment, n: Moment, g: nat)
    requires CollisionFree(hash)
    ensures Follows(m, n) && m.Lead() > 0 && Misleads(m, n)
    ensures !AnchorLost(MomentCursor(hash, m), n.state)
    ensures AnchorFound(hash, MomentCursor(hash, m), n.state, n.Grid(), g) && n.dropped + g != m.Anchor()
  {
    hide Hashes, AnchorFound, CollisionFree;
    m, n := RepeatingPane();
    g := MisledTo(hash, m, n);
  }

  /** A pane without history that writes its prompt, is trimmed, and shows the prompt again. */
  lemma RepeatingPane() returns (m: Moment, n: Moment)
    ensures Follows(m, n) && m.Lead() > 0 && Misleads(m, n)
    ensures m.state == n.state && m.state.historySize == 0 && m.state.cursorY < m.state.height
  {
    var state := PaneState(1, 0, 2, 1, false, 0, 0);
    m := Moment(["$", "one"], 0, state);
    n := Moment(["$", "two", "$", "three"], 2, state);
    assert n.wrote[..1] == ["$"] == m.wrote[..1];
    assert m.LeadingRows() == ["$"] && n.wrote[2..3] == ["$"];
    assert Predicted(m, n) == 2 && RunAt(m, n, 2);
  }

  /** A row is taken for unused screen exactly if nothing in it can be seen. */
  lemma BlankExactly(row: string)
    ensures Blank(row) <==> forall c :: c in row ==> Space(c)
    ensures Space(' ') && Space('\t') && Space('\r')
    ensures forall c :: '!' <= c <= '~' ==> !Space(c)
  {
    if forall c :: c in row ==> Space(c) {
      forall i | 0 <= i < |row| ensures Space(row[i]) { assert row[i] in row; }
    }
  }

  /** The run above the cursor is all there is above it, or the twelve rows next to it. */
  lemma LeadIsBounded(m: Moment)
    requires m.Valid()
    ensures |m.LeadingRows()| <= FINGERPRINT_ROWS && m.LeadingRows() <= m.wrote[m.Anchor() - m.Lead()..]
    ensures |m.LeadingRows()| < FINGERPRINT_ROWS ==> m.LeadingRows() == m.wrote[m.dropped..m.Anchor()]
  {
  }
}
