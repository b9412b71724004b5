/** The size limit of a batch of read calls: result bodies are dropped, largest first, until the
    reply fits, and the last field set afterwards must not break the bound. */
module ReadBatch {
  import opened Bytes
  import opened Options

  const WIRE_MAX_BYTES := 1_000_000
  const MAX_CALLS := 16
  const NULL_BYTES := 4

  /** What surrounds the summary and the output in a reply, and the bytes around the reply. */
  datatype Shape = Shape(overhead: nat, head: string, middle: string, tail: string)

  /** A call's row. tool, error and result are encoded already. */
  datatype Row = Row(index: nat, tool: string, success: bool, error: Option<string>, result: Option<string>,
    resultTruncated: bool)

  datatype Output = Output(
    results: seq<Row>,
    onError: string,
    succeeded: nat,
    failed: nat,
    stoppedAt: Option<nat>,
    truncated: bool,
    truncatedBytes: nat)

  // ---------------------------------------------------------------- the text of a reply

  function BoolText(b: bool): string { if b then "true" else "false" }

  function OptionText(text: Option<string>): string { if text.Some? then text.value else "null" }

  function RowText(row: Row): string
  {
    "{\"index\":" + Decimal(row.index) + ",\"tool\":" + row.tool + ",\"success\":" + BoolText(row.success)
    + ",\"error\":" + OptionText(row.error) + ",\"result\":" + OptionText(row.result)
    + ",\"resultTruncated\":" + BoolText(row.resultTruncated) + "}"
  }

  function RowsText(rows: seq<Row>): string
  {
    if rows == [] then ""
    else if |rows| == 1 then RowText(rows[0])
    else RowsText(rows[..|rows| - 1]) + "," + RowText(rows[|rows| - 1])
  }

  function StoppedText(stoppedAt: Option<nat>): string
  {
    if stoppedAt.Some? then Decimal(stoppedAt.value) else "null"
  }

  function OutputText(o: Output): string
  {
    "{\"results\":[" + RowsText(o.results) + "],\"onError\":" + o.onError + ",\"succeeded\":" + Decimal(o.succeeded)
    + ",\"failed\":" + Decimal(o.failed) + ",\"stoppedAt\":" + StoppedText(o.stoppedAt)
    + ",\"truncated\":" + BoolText(o.truncated) + ",\"truncatedBytes\":" + Decimal(o.truncatedBytes) + "}"
  }

  function Summary(o: Output): string
  {
    "Read batch completed: " + Decimal(o.succeeded) + " succeeded, " + Decimal(o.failed)
    + if o.truncated then " failed; nested result bytes were truncated." else " failed."
  }

  /** The bytes of the whole reply on the wire. */
  function WireBytes(shape: Shape, o: Output): nat
  {
    shape.overhead + |shape.head + Summary(o) + shape.middle + OutputText(o) + shape.tail|
  }

  // ---------------------------------------------------------------- one row dropped

  /** Row c holds the largest body, and the first of that size. */
  predicate IsLargest(rows: seq<Row>, c: nat)
  {
    && c < |rows| && rows[c].result.Some?
    && (forall i :: 0 <= i < |rows| && rows[i].result.Some? ==> |rows[i].result.value| <= |rows[c].result.value|)
    && (forall i :: 0 <= i < c && rows[i].result.Some? ==> |rows[i].result.value| < |rows[c].result.value|)
  }

  method LargestBody(rows: seq<Row>) returns (candidate: Option<nat>)
    ensures candidate.Some? ==> IsLargest(rows, candidate.value)
    ensures candidate.None? ==> Bodiless(rows)
  {
    candidate := None;
    var candidateSize: int := -1;
    for index := 0 to |rows|
      invariant candidate.None? ==> candidateSize == -1 && forall i :: 0 <= i < index ==> rows[i].result.None?
      invariant candidate.Some? ==>
                  && candidate.value < index && rows[candidate.value].result.Some?
                  && |rows[candidate.value].result.value| == candidateSize
                  && (forall i :: 0 <= i < index && rows[i].result.Some? ==> |rows[i].result.value| <= candidateSize)
                  && (forall i :: 0 <= i < candidate.value && rows[i].result.Some? ==> |rows[i].result.value| < candidateSize)
    {
      if rows[index].result.None? { continue; }
      if |rows[index].result.value| > candidateSize {
        candidate := Some(index);
        candidateSize := |rows[index].result.value|;
      }
    }
  }

  /** What dropping a body of this size saves. */
  function Saved(size: nat): nat { if size > NULL_BYTES then size - NULL_BYTES else 0 }

  function Dropped(row: Row): Row { row.(result := None, resultTruncated := true) }

  // ---------------------------------------------------------------- what shrinking keeps

  /** Rows are as they were but for bodies dropped. */
  predicate OnlyBodiesDropped(before: seq<Row>, after: seq<Row>)
  {
    && |before| == |after|
    && forall i :: 0 <= i < |before| ==> after[i] == before[i] || (before[i].result.Some? && after[i] == Dropped(before[i]))
  }

  /** No body is left to drop. */
  predicate Bodiless(rows: seq<Row>) { forall i :: 0 <= i < |rows| ==> rows[i].result.None? }

  predicate WasDropped(before: Row, after: Row) { before.result.Some? && after.result.None? }

  /** Every body dropped was at least as large as every body kept. */
  predicate LargestFirst(before: seq<Row>, after: seq<Row>)
    requires |before| == |after|
  {
    forall i, j :: 0 <= i < |before| && 0 <= j < |after| && WasDropped(before[i], after[i]) && after[j].result.Some? ==>
      |after[j].result.value| <= |before[i].result.value|
  }

  function SavedBytes(before: seq<Row>, after: seq<Row>): nat
    requires |before| == |after|
  {
    if before == [] then 0
    else
      var n := |before| - 1;
      SavedBytes(before[..n], after[..n]) + if WasDropped(before[n], after[n]) then Saved(|before[n].result.value|) else 0
  }

  function Bodies(rows: seq<Row>): nat
  {
    if rows == [] then 0 else Bodies(rows[..|rows| - 1]) + if rows[|rows| - 1].result.Some? then 1 else 0
  }

  lemma {:induction false} DropOne(before: seq<Row>, after: seq<Row>, c: nat)
    requires OnlyBodiesDropped(before, after) && c < |after| && after[c].result.Some?
    ensures var t := after[c := Dropped(after[c])];
      && SavedBytes(before, t) == SavedBytes(before, after) + Saved(|after[c].result.value|)
      && Bodies(t) == Bodies(after) - 1
  {
    var n := |after| - 1;
    var t := after[c := Dropped(after[c])];
    if c == n {
      assert t[..n] == after[..n];
    } else {
      assert t[..n] == after[..n][c := Dropped(after[c])];
      DropOne(before[..n], after[..n], c);
    }
  }

  lemma {:induction false} NothingSaved(rows: seq<Row>)
    ensures SavedBytes(rows, rows) == 0
  {
    if rows != [] { NothingSaved(rows[..|rows| - 1]); }
  }

  lemma DropKeeps(before: seq<Row>, after: seq<Row>, c: nat)
    requires OnlyBodiesDropped(before, after) && LargestFirst(before, after) && IsLargest(after, c)
    ensures var t := after[c := Dropped(after[c])]; OnlyBodiesDropped(before, t) && LargestFirst(before, t)
  {
  }

  /** What becomes of a batch's output under its limit. */
  ghost predicate Shrinks(shape: Shape, before: Output, after: Output)
  {
    && OnlyBodiesDropped(before.results, after.results) && LargestFirst(before.results, after.results)
    && after.truncatedBytes == before.truncatedBytes + SavedBytes(before.results, after.results)
    && after == before.(results := after.results, truncated := after.truncated, truncatedBytes := after.truncatedBytes)
    && (after.truncated <==> before.truncated || after.results != before.results)
  }

  class Batch {
    var output: Output

    constructor (onError: string)
      ensures output == Output([], onError, 0, 0, None, false, 0)
    {
      output := Output([], onError, 0, 0, None, false, 0);
    }

    /** Drops the largest bodies, and only while the reply is over its limit; fails only when no
        body is left to drop. */
    method EnforceReadBatchLimit(shape: Shape) returns (ok: bool)
      modifies this
      ensures Shrinks(shape, old(output), output)
      ensures ok <==> WireBytes(shape, output) <= WIRE_MAX_BYTES
      ensures !ok ==> Bodiless(output.results)
      ensures ok ==> (output.results != old(output).results <==> WireBytes(shape, old(output)) > WIRE_MAX_BYTES)
    {
      hide WireBytes, SavedBytes, Bodies, IsLargest, OnlyBodiesDropped, LargestFirst;
      NothingSaved(output.results);
      NothingDropped(output.results);
      while true
        invariant Shrinks(shape, old(output), output)
        invariant WireBytes(shape, old(output)) <= WIRE_MAX_BYTES ==> output == old(output)
        decreases Bodies(output.results)
      {
        var wireBytes := WireBytes(shape, output);
        if wireBytes <= WIRE_MAX_BYTES { return true; }
        var candidate := LargestBody(output.results);
        if candidate.None? { return false; }
        var c := candidate.value;
        LargestIsBody(output.results, c);
        DropOne(old(output.results), output.results, c);
        DropKeeps(old(output.results), output.results, c);
        DropChanges(old(output.results), output.results, c);
        var size := |output.results[c].result.value|;
        output := output.(results := output.results[c := Dropped(output.results[c])], truncated := true);
        if size > NULL_BYTES {
          output := output.(truncatedBytes := output.truncatedBytes + (size - NULL_BYTES));
        }
      }
    }
  }

  lemma NothingDropped(rows: seq<Row>)
    ensures OnlyBodiesDropped(rows, rows) && LargestFirst(rows, rows)
  {
  }

  lemma LargestIsBody(rows: seq<Row>, c: nat)
    requires IsLargest(rows, c)
    ensures c < |rows| && rows[c].result.Some?
  {
  }

  lemma DropChanges(before: seq<Row>, after: seq<Row>, c: nat)
    requires OnlyBodiesDropped(before, after) && c < |after| && after[c].result.Some?
    ensures after[c := Dropped(after[c])] != before
  {
    assert before[c] == after[c];
    assert after[c := Dropped(after[c])][c] == Dropped(after[c]) != after[c];
  }

  // ---------------------------------------------------------------- a whole batch

  /** What one call came to, encoded. */
  datatype Called = Called(tool: string, error: Option<string>, result: Option<string>)

  datatype Reply = Refused | MetadataTooLarge | Replied(output: Output)

  function RowOf(index: nat, call: Called): Row
  {
    Row(index, call.tool, call.error.None?, call.error, call.result, false)
  }

  /** The rows of the first n calls, with all their bodies. */
  function RowsOf(calls: seq<Called>, n: nat): (rows: seq<Row>)
    requires n <= |calls|
    ensures |rows| == n
  {
    if n == 0 then [] else RowsOf(calls, n - 1) + [RowOf(n - 1, calls[n - 1])]
  }

  /** How many calls run: with stop, those up to the first that fails. */
  function Ran(calls: seq<Called>, stop: bool): (n: nat)
    ensures n <= |calls|
  {
    if calls == [] then 0
    else if stop && calls[0].error.Some? then 1
    else 1 + Ran(calls[1..], stop)
  }

  function Failures(calls: seq<Called>, n: nat): nat
    requires n <= |calls|
  {
    if n == 0 then 0 else Failures(calls, n - 1) + if calls[n - 1].error.Some? then 1 else 0
  }

  lemma {:induction false} RanCounts(calls: seq<Called>, stop: bool, n: nat)
    requires n < |calls| && forall k :: 0 <= k < n ==> !(stop && calls[k].error.Some?)
    ensures n + 1 <= Ran(calls, stop)
    ensures stop && calls[n].error.Some? ==> Ran(calls, stop) == n + 1
    ensures !(stop && calls[n].error.Some?) && n + 1 == |calls| ==> Ran(calls, stop) == n + 1
  {
    if n > 0 {
      assert forall k :: 0 <= k < n - 1 ==> calls[1..][k] == calls[k + 1];
      RanCounts(calls[1..], stop, n - 1);
    }
  }

  /** Dropping more bodies after another row came keeps the account of the first rows. */
  lemma {:induction false} SavedInTurn(orig: seq<Row>, kept: seq<Row>, after: seq<Row>)
    requires OnlyBodiesDropped(orig, kept) && OnlyBodiesDropped(kept, after)
    ensures OnlyBodiesDropped(orig, after)
    ensures SavedBytes(orig, after) == SavedBytes(orig, kept) + SavedBytes(kept, after)
  {
    if orig != [] {
      var n := |orig| - 1;
      assert after[n] == kept[n] || (kept[n].result.Some? && after[n] == Dropped(kept[n]));
      SavedInTurn(orig[..n], kept[..n], after[..n]);
    }
  }

  lemma RowAdded(orig: seq<Row>, kept: seq<Row>, row: Row)
    requires OnlyBodiesDropped(orig, kept)
    ensures OnlyBodiesDropped(orig + [row], kept + [row])
    ensures SavedBytes(orig + [row], kept + [row]) == SavedBytes(orig, kept)
    ensures orig + [row] == kept + [row] <==> orig == kept
  {
    assert (orig + [row])[..|orig|] == orig && (kept + [row])[..|kept|] == kept;
  }

  lemma SomeDropped(orig: seq<Row>, kept: seq<Row>, after: seq<Row>)
    requires OnlyBodiesDropped(orig, kept) && OnlyBodiesDropped(kept, after)
    ensures orig == after <==> orig == kept && kept == after
  {
    if orig == after {
      forall i | 0 <= i < |orig| ensures orig[i] == kept[i] == after[i] {}
    }
  }

  lemma DigitsOfSmall(n: nat)
    requires n < 100
    ensures |Decimal(n)| <= 2
  {
    if n >= 10 {
      assert n / 10 < 10 && |Decimal(n / 10)| == 1;
      assert |Decimal(n)| == |Decimal(n / 10)| + 1;
    }
  }

  /** The reply to the first n calls with every body in it. */
  function Whole(calls: seq<Called>, n: nat, onError: string): Output
    requires n <= |calls|
  {
    FailuresAreFew(calls, n);
    Output(RowsOf(calls, n), onError, n - Failures(calls, n), Failures(calls, n), None, false, 0)
  }

  /** The rows with every body dropped. */
  function Stripped(rows: seq<Row>): (r: seq<Row>)
    ensures |r| == |rows|
    ensures forall i :: 0 <= i < |rows| ==> r[i] == if rows[i].result.Some? then Dropped(rows[i]) else rows[i]
  {
    if rows == [] then []
    else
      var n := |rows| - 1;
      Stripped(rows[..n]) + [if rows[n].result.Some? then Dropped(rows[n]) else rows[n]]
  }

  /** The reply to the first n calls with every body dropped. */
  function Bare(calls: seq<Called>, n: nat, onError: string): Output
    requires n <= |calls|
  {
    var rows := RowsOf(calls, n);
    Whole(calls, n, onError).(results := Stripped(rows), truncated := Stripped(rows) != rows,
                                   truncatedBytes := SavedBytes(rows, Stripped(rows)))
  }

  /** Some reply so far was over the limit with every body in it. */
  predicate Overflowed(shape: Shape, calls: seq<Called>, n: nat, onError: string)
    requires n <= |calls|
  {
    n > 0 && (Overflowed(shape, calls, n - 1, onError)
              || WireBytes(shape, Whole(calls, n, onError)) > WIRE_MAX_BYTES)
  }

  /** The batch as far as it has run: its rows but for bodies dropped, and every byte dropped
      accounted for. */
  predicate Accounts(calls: seq<Called>, n: nat, onError: string, o: Output)
    requires n <= |calls|
  {
    && OnlyBodiesDropped(RowsOf(calls, n), o.results)
    && o.truncatedBytes == SavedBytes(RowsOf(calls, n), o.results)
    && (o.truncated <==> o.results != RowsOf(calls, n))
    && o == Whole(calls, n, onError).(results := o.results, truncated := o.truncated,
                                           truncatedBytes := o.truncatedBytes)
  }

  /** A batch that is within its limit, with something dropped exactly if some reply overflowed. */
  predicate BatchFits(shape: Shape, calls: seq<Called>, n: nat, onError: string, o: Output)
    requires n <= |calls|
  {
    && Accounts(calls, n, onError, o)
    && (o.truncated <==> Overflowed(shape, calls, n, onError))
    && (n > 0 ==> WireBytes(shape, o) <= WIRE_MAX_BYTES)
  }

  /** The output with the row of call n added, before its limit is enforced. */
  function Added(calls: seq<Called>, n: nat, o: Output): Output
    requires n < |calls|
  {
    o.(results := o.results + [RowOf(n, calls[n])],
       failed := o.failed + if calls[n].error.Some? then 1 else 0,
       succeeded := o.succeeded + if calls[n].error.Some? then 0 else 1)
  }

  lemma BatchGrows(shape: Shape, calls: seq<Called>, n: nat, onError: string, o: Output, after: Output)
    requires n < |calls| && Accounts(calls, n, onError, o) && Shrinks(shape, Added(calls, n, o), after)
    ensures Accounts(calls, n + 1, onError, after)
    ensures after.truncated <==> o.truncated || after.results != Added(calls, n, o).results
  {
    hide WireBytes, OnlyBodiesDropped, SavedBytes, LargestFirst;
    var orig, row := RowsOf(calls, n), RowOf(n, calls[n]);
    FailuresAreFew(calls, n);
    RowAdded(orig, o.results, row);
    SavedInTurn(orig + [row], o.results + [row], after.results);
    SomeDropped(orig + [row], o.results + [row], after.results);
  }

  /** Nothing was dropped before the first overflow. */
  lemma OverflowGrows(shape: Shape, calls: seq<Called>, n: nat, onError: string, o: Output)
    requires n < |calls| && Accounts(calls, n, onError, o)
    requires o.truncated <==> Overflowed(shape, calls, n, onError)
    ensures Overflowed(shape, calls, n + 1, onError)
       <==> o.truncated || WireBytes(shape, Added(calls, n, o)) > WIRE_MAX_BYTES
  {
    hide WireBytes, OnlyBodiesDropped, LargestFirst;
    FailuresAreFew(calls, n);
    NothingSaved(o.results);
    if !o.truncated { assert Added(calls, n, o) == Whole(calls, n + 1, onError); }
  }

  /** A batch without any body left is the batch with every body dropped. */
  lemma BodilessIsBare(calls: seq<Called>, n: nat, onError: string, o: Output)
    requires n <= |calls| && Accounts(calls, n, onError, o) && Bodiless(o.results)
    ensures o == Bare(calls, n, onError)
  {
    var rows := RowsOf(calls, n);
    assert forall i :: 0 <= i < n ==> o.results[i] == Stripped(rows)[i];
    assert o.results == Stripped(rows);
  }

  lemma {:induction false} FailuresAreFew(calls: seq<Called>, n: nat)
    requires n <= |calls|
    ensures Failures(calls, n) <= n
  {
    if n > 0 { FailuresAreFew(calls, n - 1); }
  }

  /** Setting where a batch stopped, after its last check, only shortens the reply. */
  lemma StoppingFits(shape: Shape, o: Output, index: nat)
    requires o.stoppedAt.None? && index < MAX_CALLS
    ensures WireBytes(shape, o.(stoppedAt := Some(index))) <= WireBytes(shape, o)
  {
    hide RowsText, Decimal;
    DigitsOfSmall(index);
  }

  /** The row says what came of the call, with its body or with the word that it was dropped. */
  predicate Tells(call: Called, i: nat, row: Row)
  {
    && row.index == i && row.tool == call.tool && row.error == call.error && (row.success <==> call.error.None?)
    && if row.resultTruncated then call.result.Some? && row.result.None? else row.result == call.result
  }

  lemma {:induction false} RowsTell(calls: seq<Called>, n: nat, rows: seq<Row>)
    requires n <= |calls| && OnlyBodiesDropped(RowsOf(calls, n), rows)
    ensures |rows| == n && forall i :: 0 <= i < n ==> Tells(calls[i], i, rows[i])
  {
    if n > 0 {
      assert RowsOf(calls, n)[..n - 1] == RowsOf(calls, n - 1);
      RowsTell(calls, n - 1, rows[..n - 1]);
      assert rows[n - 1] == RowsOf(calls, n)[n - 1] || rows[n - 1] == Dropped(RowsOf(calls, n)[n - 1]);
    }
  }

  /** What dropping a body is counted as saving is what it saves of the row's text, apart from the
      byte by which the row's new flag is shorter. */
  lemma SavingIsMeasured(row: Row)
    requires row.result.Some? && !row.resultTruncated
    ensures var shorter := |RowText(row)| - |RowText(Dropped(row))| - 1;
            Saved(|row.result.value|) == if shorter > 0 then shorter else 0
  {
    hide Decimal;
  }

  /** The calls that run are those up to the first failure, or all of them. */
  lemma {:induction false} RanUpToTheFirstFailure(calls: seq<Called>, stop: bool)
    ensures var n := Ran(calls, stop);
      && (forall k :: 0 <= k < n - 1 ==> !(stop && calls[k].error.Some?))
      && (calls != [] ==> n > 0)
      && (n < |calls| ==> stop && calls[n - 1].error.Some?)
  {
    if calls != [] {
      RanUpToTheFirstFailure(calls[1..], stop);
      assert forall k :: 0 < k < |calls| ==> calls[k] == calls[1..][k - 1];
    }
  }

  lemma {:induction false} FailuresAreCounted(calls: seq<Called>, n: nat)
    requires n <= |calls|
    ensures Failures(calls, n) == |set i | 0 <= i < n && calls[i].error.Some?|
  {
    if n > 0 {
      FailuresAreCounted(calls, n - 1);
      var fewer, all := set i | 0 <= i < n - 1 && calls[i].error.Some?, set i | 0 <= i < n && calls[i].error.Some?;
      assert all == if calls[n - 1].error.Some? then fewer + {n - 1} else fewer;
    }
  }

  /** Runs a batch over what its calls come to. A reply fits the wire limit, although where the
      batch stopped is set after the last check; its rows are those of the calls that ran, with
      nothing lost but the bodies it reports dropped, byte for byte, and with nothing lost at all
      unless the bodies so far were over the limit. A batch of a proper size is given up only when
      its rows are over the limit with every body dropped. */
  method RunReadBatch(shape: Shape, calls: seq<Called>, stop: bool, onError: string) returns (reply: Reply)
    ensures reply.Refused? <==> |calls| == 0 || |calls| > MAX_CALLS
    ensures reply.MetadataTooLarge? ==>
              exists n :: 0 < n <= Ran(calls, stop) && WireBytes(shape, Bare(calls, n, onError)) > WIRE_MAX_BYTES
    ensures reply.Replied? ==>
      var o, n := reply.output, Ran(calls, stop);
      && WireBytes(shape, o) <= WIRE_MAX_BYTES
      && OnlyBodiesDropped(RowsOf(calls, n), o.results)
      && |o.results| == n && (forall i :: 0 <= i < n ==> Tells(calls[i], i, o.results[i]))
      && o.truncatedBytes == SavedBytes(RowsOf(calls, n), o.results)
      && (o.truncated <==> o.results != RowsOf(calls, n))
      && (o.truncated <==> Overflowed(shape, calls, n, onError))
      && o.failed == Failures(calls, n) && o.succeeded == n - Failures(calls, n)
      && o.stoppedAt == if stop && calls[n - 1].error.Some? then Some(n - 1) else None
  {
    hide WireBytes, OnlyBodiesDropped, SavedBytes, LargestFirst, Ran, Bare, Bodiless, Tells;
    if |calls| == 0 || |calls| > MAX_CALLS { return Refused; }
    var batch := new Batch(onError);
    NothingDropped([]);
    NothingSaved([]);
    for index := 0 to |calls|
      invariant fresh(batch) && BatchFits(shape, calls, index, onError, batch.output)
      invariant forall k :: 0 <= k < index ==> !(stop && calls[k].error.Some?)
      invariant index == |calls| ==> Ran(calls, stop) == index
    {
      var call := calls[index];
      ghost var before := batch.output;
      FailuresAreFew(calls, index);
      RanCounts(calls, stop, index);
      var output := batch.output;
      if call.error.Some? {
        output := output.(failed := output.failed + 1);
      } else {
        output := output.(succeeded := output.succeeded + 1);
      }
      output := output.(results := output.results + [RowOf(index, call)]);
      batch.output := output;
      assert output == Added(calls, index, before);
      var ok := batch.EnforceReadBatchLimit(shape);
      BatchGrows(shape, calls, index, onError, before, batch.output);
      if !ok {
        BodilessIsBare(calls, index + 1, onError, batch.output);
        return MetadataTooLarge;
      }
      OverflowGrows(shape, calls, index, onError, before);
      if call.error.Some? && stop {
        StoppingFits(shape, batch.output, index);
        RowsTell(calls, index + 1, batch.output.results);
        return Replied(batch.output.(stoppedAt := Some(index)));
      }
    }
    RowsTell(calls, |calls|, batch.output.results);
    return Replied(batch.output);
  }
}
