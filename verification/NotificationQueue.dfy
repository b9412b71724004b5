/** The bounded notification backlog of a control client: a growing byte ring that holds
    records behind 12-byte headers. */
module NotificationQueue {
  import opened Bytes
  import opened Options

  const HEADER_SIZE := 12
  const TWO_32 := 0x1_0000_0000
  const TWO_64 := 0x1_0000_0000_0000_0000

  /** The source numbers records with 64 bits. */
  type Sequence = n: nat | n < TWO_64

  /** One queued notification: its position on the wire and its text. */
  datatype Record = Record(sequence: nat, text: bytes)

  datatype Error =
    | Closed                                                          // closed by the caller
    | Overflow(limit: int, pending: nat, notification: nat)           // the backlog filled
    | EndOfStream                                                     // io.EOF
    | ClosedPipe                                                      // append after a clean end
    | Stream(cause: string)                                           // what ended the reader

  // ---------------------------------------------------------------- wire form

  /** n in `width` big-endian bytes; higher bits are lost. */
  function BigEndian(n: nat, width: nat): (b: bytes)
    ensures |b| == width
  {
    if width == 0 then [] else BigEndian(n / 256, width - 1) + [(n % 256) as char]
  }

  function FromBigEndian(b: bytes): nat
  {
    if b == [] then 0 else FromBigEndian(b[..|b| - 1]) * 256 + b[|b| - 1] as int
  }

  function Power256(width: nat): (p: nat)
    ensures p >= 1
  {
    if width == 0 then 1 else 256 * Power256(width - 1)
  }

  lemma {:induction false} BigEndianInverse(n: nat, width: nat)
    ensures FromBigEndian(BigEndian(n, width)) == n % Power256(width)
  {
    if width != 0 {
      var b := BigEndian(n, width);
      BigEndianInverse(n / 256, width - 1);
      assert b[..|b| - 1] == BigEndian(n / 256, width - 1);
      var p := Power256(width - 1);
      assert n == 256 * (n / 256) + n % 256;
      DivModNested(n, p);
    }
  }

  lemma DivModNested(n: nat, p: nat)
    requires p >= 1
    ensures (n / 256 % p) * 256 + n % 256 == n % (256 * p)
  {
    var high := n / 256;
    var q, r := high / p, (high % p) * 256 + n % 256;
    assert n == (256 * p) * q + r by {
      assert high == p * q + high % p;
      assert 256 * (p * q) == (256 * p) * q;
    }
    assert r < 256 * p by {
      assert high % p <= p - 1;
    }
    ModUnique(n, 256 * p, q, r);
  }

  lemma ModUnique(n: int, d: int, q: int, r: int)
    requires 0 <= r < d && n == d * q + r
    ensures n % d == r
  {
    var q', r' := n / d, n % d;
    assert d * (q - q') == r' - r by { assert d * (q - q') == d * q - d * q'; }
    Multiple(d, q - q');
  }

  lemma Multiple(d: int, k: int)
    requires d > 0
    ensures k >= 1 ==> d * k >= d
    ensures k <= -1 ==> d * k <= -d
  {
  }

  function Header(r: Record): (h: bytes)
    ensures |h| == HEADER_SIZE
  {
    BigEndian(r.sequence, 8) + BigEndian(|r.text|, 4)
  }

  /** A record as it lies in the ring. */
  function Stored(r: Record): (b: bytes)
    ensures |b| == HEADER_SIZE + |r.text|
  {
    Header(r) + r.text
  }

  function StoredAll(records: seq<Record>): bytes
  {
    if records == [] then [] else Stored(records[0]) + StoredAll(records[1..])
  }

  /** The length field of a header holds 32 bits and the sequence 64. */
  predicate Fits(r: Record) { |r.text| < TWO_32 && r.sequence < TWO_64 }

  /** What a reader of the ring takes for the first record of a window. */
  function FirstOf(window: bytes): Record
    requires |window| >= HEADER_SIZE
  {
    var length := FromBigEndian(window[8..HEADER_SIZE]);
    var end := if HEADER_SIZE + length <= |window| then HEADER_SIZE + length else |window|;
    Record(FromBigEndian(window[..8]), window[HEADER_SIZE..end])
  }

  lemma HeaderFields(r: Record)
    ensures FromBigEndian(Header(r)[..8]) == r.sequence % TWO_64
    ensures FromBigEndian(Header(r)[8..]) == |r.text| % TWO_32
  {
    BigEndianInverse(r.sequence, 8);
    BigEndianInverse(|r.text|, 4);
    assert Header(r)[..8] == BigEndian(r.sequence, 8);
    assert Header(r)[8..] == BigEndian(|r.text|, 4);
    PowerValues();
  }

  lemma PowerValues()
    ensures Power256(4) == TWO_32 && Power256(8) == TWO_64
  {
    assert Power256(2) == 0x1_0000;
    assert Power256(4) == TWO_32;
    assert Power256(6) == TWO_32 * 0x1_0000;
  }

  /** The ring gives a record back intact exactly when its header can hold its size and
      position: a text of 4 GiB or more, which only a limit above 4 GiB lets in, is not. */
  lemma StoredRecordReadsBack(r: Record, rest: bytes)
    ensures FirstOf(Stored(r) + rest) == r <==> Fits(r)
  {
    hide FromBigEndian, Header;
    var w := Stored(r) + rest;
    HeaderFields(r);
    StoredParts(r, rest);
    assert w[..8] == w[..HEADER_SIZE][..8] && w[8..HEADER_SIZE] == w[..HEADER_SIZE][8..];
  }

  lemma {:induction false} StoredAllAppend(records: seq<Record>, r: Record)
    ensures StoredAll(records + [r]) == StoredAll(records) + Stored(r)
  {
    hide Stored;
    if records == [] {
      assert records + [r] == [r] && [r][1..] == [];
      assert Stored(r) + [] == Stored(r) == [] + Stored(r);
    } else {
      StoredAllAppend(records[1..], r);
      assert (records + [r])[0] == records[0];
      assert (records + [r])[1..] == records[1..] + [r];
      Associative(Stored(records[0]), StoredAll(records[1..]), Stored(r));
    }
  }

  lemma StoredAllFirst(records: seq<Record>)
    requires records != [] && Fits(records[0])
    ensures var live, r := StoredAll(records), records[0];
            && |live| >= HEADER_SIZE + |r.text|
            && live[..HEADER_SIZE] == Header(r)
            && live[HEADER_SIZE..HEADER_SIZE + |r.text|] == r.text
            && live[HEADER_SIZE + |r.text|..] == StoredAll(records[1..])
            && FromBigEndian(Header(r)[..8]) == r.sequence
            && FromBigEndian(Header(r)[8..]) == |r.text|
  {
    hide FromBigEndian, Header;
    HeaderFields(records[0]);
    StoredParts(records[0], StoredAll(records[1..]));
  }

  lemma StoredParts(r: Record, rest: bytes)
    ensures var live := Stored(r) + rest;
            && live[..HEADER_SIZE] == Header(r)
            && live[HEADER_SIZE..HEADER_SIZE + |r.text|] == r.text
            && live[HEADER_SIZE + |r.text|..] == rest
  {
  }

  /** Sequence numbers have 64 bits. */
  predicate Numbered(records: seq<Record>) { forall i :: 0 <= i < |records| ==> records[i].sequence < TWO_64 }

  /** The header can hold the size of every record. A limit below 4 GiB lets no other in. */
  predicate Sized(limit: int, records: seq<Record>)
  {
    limit >= HEADER_SIZE + TWO_32 ==> forall i :: 0 <= i < |records| ==> |records[i].text| < TWO_32
  }

  lemma FirstFits(limit: int, records: seq<Record>)
    requires Numbered(records) && Sized(limit, records) && records != [] && |StoredAll(records)| <= limit
    ensures Fits(records[0]) && Numbered(records[1..]) && Sized(limit, records[1..])
  {
    hide Header;
    assert |StoredAll(records)| >= HEADER_SIZE + |records[0].text|;
  }

  // ---------------------------------------------------------------- ring

  /** The ring position k places behind head. */
  function At(head: nat, k: nat, capacity: nat): nat
  {
    if head + k < capacity then head + k else head + k - capacity
  }

  /** Whether ring position i is one of the first `used` places from head. */
  predicate InWindow(i: nat, head: nat, used: nat, capacity: nat)
  {
    if head <= i then i - head < used else i + capacity - head < used
  }

  lemma Wrap(x: nat, capacity: nat)
    requires x < 2 * capacity
    ensures x % capacity == At(0, x, capacity)
  {
    if x >= capacity { ModUnique(x, capacity, 1, x - capacity); }
  }

  // ---------------------------------------------------------------- abstract queue

  /** What a queue holds, apart from how the ring stores it. */
  datatype Queue = Queue(limit: int, records: seq<Record>, finished: bool, err: Option<Error>, closed: bool)

  datatype Taken = Delivered(text: bytes) | Wait | Ended(err: Error)

  function Size(records: seq<Record>): (n: nat)
    ensures n == |StoredAll(records)|
  {
    |StoredAll(records)|
  }

  function EndError(q: Queue): Error { if q.err.Some? then q.err.value else EndOfStream }

  function AppendTo(q: Queue, r: Record): (Queue, Option<Error>)
  {
    if q.closed then (q, Some(Closed))
    else if q.finished then (q, Some(if q.err.Some? then q.err.value else ClosedPipe))
    else if HEADER_SIZE + |r.text| > q.limit - Size(q.records) then
      var e := Overflow(q.limit, Size(q.records), |r.text|);
      (q.(finished := true, err := Some(e)), Some(e))
    else (q.(records := q.records + [r]), None)
  }

  function TakeFrom(q: Queue, after: nat): (Queue, Taken)
    decreases |q.records|
  {
    if q.closed then (q, Ended(Closed))
    else if q.records == [] then (q, if q.finished then Ended(EndError(q)) else Wait)
    else
      var q' := q.(records := q.records[1..]);
      if q.records[0].sequence > after then (q', Delivered(q.records[0].text))
      else TakeFrom(q', after)
  }

  function FinishWith(q: Queue, err: Option<Error>): Queue
  {
    if q.closed || q.finished then q else q.(finished := true, err := err)
  }

  function CloseOf(q: Queue): Queue
  {
    if q.closed then q else q.(closed := true, records := [])
  }

  class RingQueue {
    const limit: int
    var data: array<byte>
    var head: nat
    var used: nat
    var finished: bool
    var err: Option<Error>
    var closed: bool
    var ready: bool                     // the one buffered wake-up signal
    ghost var records: seq<Record>

    /** The window from head holds exactly `live`, and everything outside it is erased. */
    ghost predicate Holds(live: bytes)
      reads this, data
    {
      && used == |live| <= data.Length
      && (head < data.Length || data.Length == 0)
      && (forall k :: 0 <= k < |live| ==> data[At(head, k, data.Length)] == live[k])
      && (forall i :: 0 <= i < data.Length && !InWindow(i, head, used, data.Length) ==> data[i] == '\0')
    }

    /** The live window is the records' wire form, and the ring never outgrows its limit. */
    ghost predicate Valid()
      reads this, data
    {
      && Holds(StoredAll(records)) && Numbered(records)
      && (data.Length == 0 || data.Length <= limit)
    }

    ghost function State(): Queue
      reads this
    {
      Queue(limit, records, finished, err, closed)
    }

    constructor (limit: int)
      ensures Valid() && fresh(data)
      ensures State() == Queue(limit, [], false, None, false) && !ready
    {
      this.limit := limit;
      data := new byte[0];
      head, used, finished, err, closed, ready, records := 0, 0, false, None, false, false, [];
    }

    method Signal()
      modifies this`ready
      ensures ready
    {
      ready := true;
    }

    /** Copies the window to the front of a larger ring. */
    method CopyWindow(grown: array<byte>)
      requires used <= data.Length && used <= grown.Length && head < data.Length && grown != data
      modifies grown
      ensures forall k :: 0 <= k < used ==> grown[k] == data[At(head, k, data.Length)]
      ensures forall k :: used <= k < grown.Length ==> grown[k] == old(grown[k])
    {
      var first := if used <= data.Length - head then used else data.Length - head;
      forall i | 0 <= i < first { grown[i] := data[head + i]; }
      forall i | 0 <= i < used - first { grown[first + i] := data[i]; }
    }

    /** Makes room for `stored` more bytes, moving the window to the front of a larger ring. */
    method Reserve(ghost live: bytes, stored: nat)
      requires Holds(live) && (data.Length == 0 || data.Length <= limit) && 0 < stored <= limit - used
      modifies this`data, this`head
      ensures Holds(live) && used + stored <= data.Length <= limit
      ensures data == old(data) || fresh(data)
    {
      if used + stored <= data.Length { return; }
      var wanted := used + stored;
      var capacity := if 64 >= 2 * data.Length then 64 else 2 * data.Length;
      capacity := if capacity >= wanted then capacity else wanted;
      capacity := if capacity <= limit then capacity else limit;
      var grown := new byte[capacity](_ => '\0');
      if used != 0 { CopyWindow(grown); }
      data, head := grown, 0;
    }

    /** Copies text into the ring from position `at` on. */
    method CopyIn(at: nat, text: bytes)
      requires at + |text| <= data.Length
      modifies data
      ensures forall i :: 0 <= i < data.Length ==>
                data[i] == if at <= i < at + |text| then text[i - at] else old(data[i])
    {
      forall i | 0 <= i < |text| { data[at + i] := text[i]; }
    }

    /** Copies text into the ring from position tail on, around the end if need be. */
    method CopyAround(tail: nat, text: bytes)
      requires tail < data.Length && |text| <= data.Length
      modifies data
      ensures forall k :: 0 <= k < |text| ==> data[At(tail, k, data.Length)] == text[k]
      ensures forall i :: 0 <= i < data.Length && !InWindow(i, tail, |text|, data.Length) ==> data[i] == old(data[i])
    {
      var first := if |text| <= data.Length - tail then |text| else data.Length - tail;
      CopyIn(tail, text[..first]);
      CopyIn(0, text[first..]);
    }

    /** Writes text behind the window. */
    method WriteBytes(ghost live: bytes, text: bytes)
      requires Holds(live) && used + |text| <= data.Length && data.Length > 0
      modifies this`used, data
      ensures Holds(live + text)
    {
      Wrap(head + used, data.Length);
      var tail := (head + used) % data.Length;
      ghost var n := data.Length;
      CopyAround(tail, text);
      forall k | 0 <= k < used + |text|
        ensures data[At(head, k, n)] == (live + text)[k]
      {
        if k >= used { assert At(head, k, n) == At(tail, k - used, n); }
      }
      used := used + |text|;
    }

    /** Stores one record behind the others. */
    method Push(sequence: Sequence, text: bytes)
      requires Valid() && HEADER_SIZE + |text| <= limit - used
      modifies this`data, this`head, this`used, this`records, data
      ensures Valid() && (data == old(data) || fresh(data))
      ensures records == old(records) + [Record(sequence, text)]
    {
      ghost var live, r := StoredAll(records), Record(sequence, text);
      Reserve(live, HEADER_SIZE + |text|);
      var header := BigEndian(sequence, 8) + BigEndian(|text|, 4);
      assert header == Header(r);
      WriteBytes(live, header);
      WriteBytes(live + header, text);
      StoredAllAppend(records, r);
      assert live + header + text == live + Stored(r);
      records := records + [r];
    }

    method Append(sequence: Sequence, text: bytes) returns (result: Option<Error>)
      requires Valid()
      modifies this, data
      ensures Valid() && (data == old(data) || fresh(data))
      ensures (State(), result) == AppendTo(old(State()), Record(sequence, text))
      ensures ready == (old(ready) || State() != old(State()))
    {
      if closed { return Some(Closed); }
      if finished {
        if err.Some? { return err; }
        return Some(ClosedPipe);
      }
      var stored := HEADER_SIZE + |text|;
      var pending := used;
      if stored > limit - pending {
        err := Some(Overflow(limit, pending, |text|));
        finished := true;
        Signal();
        return err;
      }
      Push(sequence, text);
      Signal();
      return None;
    }

    /** Reads `length` bytes of the window, from `offset` on. */
    method ReadBytes(ghost live: bytes, offset: nat, length: nat) returns (text: bytes)
      requires Holds(live) && offset + length <= used && data.Length > 0
      ensures text == live[offset..offset + length]
    {
      Wrap(head + offset, data.Length);
      var start := (head + offset) % data.Length;
      var first := if length <= data.Length - start then length else data.Length - start;
      text := data[start..start + first] + data[..length - first];
      forall j | 0 <= j < length
        ensures text[j] == live[offset + j]
      {
        assert At(start, j, data.Length) == At(head, offset + j, data.Length);
      }
    }

    /** Erases the first `length` bytes of the window. */
    method ClearBytes(length: nat)
      requires length <= data.Length && head < data.Length
      modifies data
      ensures forall i :: 0 <= i < data.Length ==>
                data[i] == if InWindow(i, head, length, data.Length) then '\0' else old(data[i])
    {
      var first := if length <= data.Length - head then length else data.Length - head;
      forall i | head <= i < head + first { data[i] := '\0'; }
      forall i | 0 <= i < length - first { data[i] := '\0'; }
    }

    /** Drops the first `length` bytes of the window, erasing them. */
    method DropBytes(ghost live: bytes, length: nat)
      requires Holds(live) && length <= used && data.Length > 0
      modifies this`head, this`used, data
      ensures Holds(live[length..])
    {
      ClearBytes(length);
      Wrap(head + length, data.Length);
      ghost var h := head;
      head := (head + length) % data.Length;
      used := used - length;
      forall k | 0 <= k < used
        ensures data[At(head, k, data.Length)] == live[length..][k]
      {
        assert At(head, k, data.Length) == At(h, length + k, data.Length);
      }
      if used == 0 {
        head := 0;
      }
    }

    /** Removes the first queued record from the ring, erasing its bytes. */
    method Pop() returns (r: Record)
      requires Valid() && records != [] && Sized(limit, records)
      modifies this`head, this`used, this`records, data
      ensures Valid() && Sized(limit, records) && r == old(records)[0] && records == old(records)[1..]
    {
      ghost var live := StoredAll(records);
      FirstFits(limit, records);
      StoredAllFirst(records);
      var header := ReadBytes(live, 0, HEADER_SIZE);
      var sequence := FromBigEndian(header[..8]);
      var length := FromBigEndian(header[8..]);
      var text := ReadBytes(live, HEADER_SIZE, length);
      DropBytes(live, HEADER_SIZE + length);
      records := records[1..];
      return Record(sequence, text);
    }

    /** Removes and returns the first queued record above `after`, erasing what it passes. */
    method Take(after: nat) returns (taken: Taken)
      requires Valid() && Sized(limit, records)
      modifies this, data
      ensures Valid() && data == old(data) && ready == old(ready)
      ensures (State(), taken) == TakeFrom(old(State()), after)
    {
      while true
        invariant Valid() && data == old(data) && ready == old(ready)
        invariant Sized(limit, records)
        invariant TakeFrom(State(), after) == TakeFrom(old(State()), after)
        decreases |records|
      {
        if closed { return Ended(Closed); }
        if used == 0 {
          if !finished { return Wait; }
          if err.Some? { return Ended(err.value); }
          return Ended(EndOfStream);
        }
        var r := Pop();
        if r.sequence > after { return Delivered(r.text); }
      }
    }

    method Finish(terminal: Option<Error>)
      requires Valid()
      modifies this
      ensures Valid() && data == old(data) && State() == FinishWith(old(State()), terminal)
      ensures ready == (old(ready) || State() != old(State()))
    {
      if !closed && !finished {
        finished, err := true, terminal;
        Signal();
      }
    }

    method Close()
      requires Valid()
      modifies this, data
      ensures Valid() && State() == CloseOf(old(State()))
      ensures ready == (old(ready) || State() != old(State()))
      ensures !old(closed) ==> forall i :: 0 <= i < old(data).Length ==> old(data)[i] == '\0'
    {
      if !closed {
        closed := true;
        forall i | 0 <= i < data.Length { data[i] := '\0'; }
        data := new byte[0];
        used, records := 0, [];
        Signal();
      }
    }
  }

  /** A record is accepted exactly by a queue that has not ended and has room for its stored form. */
  lemma AcceptedExactlyWhenItFits(q: Queue, r: Record)
    ensures AppendTo(q, r).1.None? <==> !q.closed && !q.finished && |StoredAll(q.records + [r])| <= q.limit
  {
    StoredAllAppend(q.records, r);
  }
}
