/** Rebuilding an event's frame table from its sparse rows, and searching it. Times are in
    microseconds; a row's offset is its distance from the start of the event. */
module FrameTable {
  import opened Sums
  import opened Wrappers
  import EventWriter

  datatype DbRow = DbRow(frameId: int, offset: int)

  datatype FrameData = FrameData(id: int, timestamp: int, offset: int, delta: int, inDb: bool)

  /** Integer division of durations, which drops the fraction towards zero. */
  function TruncDiv(a: int, b: int): (q: int)
    requires 0 < b
  {
    if 0 <= a then a / b else -(-a / b)
  }

  lemma TruncDivByOne(a: int)
    ensures TruncDiv(a, 1) == a
  {
  }

  /** Whole steps towards zero, as many as fit. */
  lemma TruncDivIs(a: int, b: int)
    requires 0 < b
    ensures 0 <= a ==> TruncDiv(a, b) * b <= a < (TruncDiv(a, b) + 1) * b
    ensures a <= 0 ==> (TruncDiv(a, b) - 1) * b < a <= TruncDiv(a, b) * b
  {
    DivisionIs(a, b);
    DivisionIs(-a, b);
  }

  lemma DivisionIs(a: int, b: int)
    requires 0 < b
    ensures a / b * b <= a < a / b * b + b
  {
  }

  /** The end of an event as loaded: an event without one ends now. */
  function LoadedEnd(recorded: Option<int>, now: int): int
  {
    if recorded.Some? then recorded.value else now
  }

  // ---------------------------------------------------------------- what a table should be

  /** Rows of an event: ids increase from 1. */
  ghost predicate GoodRows(rows: seq<DbRow>)
  {
    && (rows != [] ==> rows[0].frameId == 1)
    && forall i, j :: 0 <= i < j < |rows| ==> rows[i].frameId < rows[j].frameId
  }

  ghost predicate RowsSorted(rows: seq<DbRow>)
  {
    && (rows != [] ==> 0 <= rows[0].offset)
    && forall i, j :: 0 <= i < j < |rows| ==> rows[i].offset <= rows[j].offset
  }

  /** One frame for every id from 1 on, each at its offset from the start. */
  ghost predicate Dense(frames: seq<FrameData>, start: int)
  {
    forall i :: 0 <= i < |frames| ==> frames[i].id == i + 1 && frames[i].timestamp == start + frames[i].offset
  }

  ghost predicate Sorted(frames: seq<FrameData>)
  {
    forall i, j :: 0 <= i < j < |frames| ==> frames[i].offset <= frames[j].offset
  }

  /** The row's own frame. */
  ghost predicate RowPlaced(frames: seq<FrameData>, row: DbRow)
  {
    1 <= row.frameId <= |frames| && frames[row.frameId - 1].offset == row.offset && frames[row.frameId - 1].inDb
  }

  /** The length of a frame's window, which is that of one of the even steps from row a to row b. */
  ghost predicate WindowIs(frames: seq<FrameData>, a: DbRow, b: DbRow, id: int)
    requires a.frameId < b.frameId
  {
    1 <= id <= |frames| && frames[id - 1].delta == TruncDiv(b.offset - a.offset, b.frameId - a.frameId)
  }

  /** A frame between two rows, spaced evenly from the earlier one. */
  ghost predicate Interpolated(frames: seq<FrameData>, a: DbRow, b: DbRow, id: int)
    requires a.frameId < b.frameId
  {
    && WindowIs(frames, a, b, id) && !frames[id - 1].inDb
    && frames[id - 1].offset
       == a.offset + Times(id - a.frameId, TruncDiv(b.offset - a.offset, b.frameId - a.frameId))
  }

  ghost predicate GapFilled(frames: seq<FrameData>, a: DbRow, b: DbRow)
    requires a.frameId < b.frameId
  {
    && (forall id :: a.frameId < id < b.frameId ==> Interpolated(frames, a, b, id))
    && WindowIs(frames, a, b, b.frameId)
  }

  /** Every row has its frame, and the gaps between neighbouring rows are filled. A row's window is
      as long as a step of the gap before it; the first row's reaches as far on as the row lies after
      the start. */
  ghost predicate RowsInTable(rows: seq<DbRow>, frames: seq<FrameData>)
    requires GoodRows(rows)
  {
    && (rows != [] ==> frames != [] && frames[0].delta == rows[0].offset)
    && (forall j :: 0 <= j < |rows| ==> RowPlaced(frames, rows[j]))
    && (forall j, k :: 0 <= j && k == j + 1 < |rows| ==> GapFilled(frames, rows[j], rows[k]))
  }

  lemma TableGrows(rows: seq<DbRow>, before: seq<FrameData>, after: seq<FrameData>)
    requires GoodRows(rows) && RowsInTable(rows, before) && before <= after
    ensures RowsInTable(rows, after)
  {
    forall j, k | 0 <= j && k == j + 1 < |rows| ensures GapFilled(after, rows[j], rows[k]) {
      assert GapFilled(before, rows[j], rows[k]);
      forall id | rows[j].frameId < id < rows[k].frameId ensures Interpolated(after, rows[j], rows[k], id) {
        assert Interpolated(before, rows[j], rows[k], id);
      }
    }
    forall j | 0 <= j < |rows| ensures RowPlaced(after, rows[j]) {
      assert RowPlaced(before, rows[j]);
    }
  }

  /** Dividing and stepping never oversteps. */
  lemma StepsWithin(a: int, n: nat, k: int)
    requires 0 <= a && 0 < n && k <= n
    ensures 0 <= TruncDiv(a, n) && Times(k, TruncDiv(a, n)) <= a
  {
    var q := a / n;
    TimesMono(k, n, q);
    TimesIsProduct(n, q);
    assert n * q <= a;
  }

  // ---------------------------------------------------------------- loading

  class EventData {
    const startTime: int
    const endTime: int          // as LoadedEnd gives it
    const duration: int
    var frameCount: int         // the Frames column, later raised
    var lastFrameId: int
    var frames: seq<FrameData>

    constructor (startTime: int, endTime: int, duration: int, frameCount: int)
      ensures this.startTime == startTime && this.endTime == endTime && this.duration == duration
      ensures this.frameCount == frameCount && frames == []
    {
      this.startTime, this.endTime, this.duration, this.frameCount := startTime, endTime, duration, frameCount;
      lastFrameId, frames := 0, [];
    }

    /** The frames between the last row and this one, then the row's own. Before the first row,
        last is row 0 at the start of the event. */
    method AddRow(last: DbRow, row: DbRow)
      requires |frames| == last.frameId < row.frameId && Dense(frames, startTime)
      requires last.frameId == 0 ==> row.frameId == 1
      requires 0 < last.frameId ==> frames[last.frameId - 1].offset == last.offset
      modifies `frames
      ensures |frames| == row.frameId && Dense(frames, startTime) && old(frames) <= frames
      ensures RowPlaced(frames, row) && GapFilled(frames, last, row)
    {
      var idDiff := row.frameId - last.frameId;
      var delta := TruncDiv(row.offset - last.offset, idDiff);
      var lastTimestamp := startTime + last.offset;
      if idDiff > 1 {
        for i := last.frameId + 1 to row.frameId
          invariant |frames| == i - 1 && Dense(frames, startTime) && old(frames) <= frames
          invariant frames[i - 2].offset == last.offset + Times(i - 1 - last.frameId, delta)
          invariant forall id :: last.frameId < id < i ==> Interpolated(frames, last, row, id)
        {
          TimesIsProduct(i - last.frameId, delta);
          ghost var before := frames;
          frames := frames + [FrameData(i, lastTimestamp + (i - last.frameId) * delta,
                                        (frames[|frames| - 1].timestamp - startTime) + delta, delta, false)];
          forall id | last.frameId < id < i ensures Interpolated(frames, last, row, id) {
            assert Interpolated(before, last, row, id);
          }
        }
      }
      ghost var before := frames;
      frames := frames + [FrameData(row.frameId, startTime + row.offset, row.offset, delta, true)];
      forall id | last.frameId < id < row.frameId ensures Interpolated(frames, last, row, id) {
        assert Interpolated(before, last, row, id);
      }
    }

    /** The table of the rows alone, before any padding. */
    method AddRows(rows: seq<DbRow>)
      requires GoodRows(rows)
      modifies `frames
      ensures |frames| == (if rows == [] then 0 else rows[|rows| - 1].frameId)
      ensures Dense(frames, startTime) && RowsInTable(rows, frames)
    {
      frames := [];
      var last := DbRow(0, 0);
      for j := 0 to |rows|
        invariant |frames| == last.frameId && (if j == 0 then last == DbRow(0, 0) else last == rows[j - 1])
        invariant Dense(frames, startTime) && GoodRows(rows[..j]) && RowsInTable(rows[..j], frames)
      {
        ghost var before := frames;
        AddRow(last, rows[j]);
        if j == 0 { TruncDivByOne(rows[0].offset); }
        OneMoreRow(rows, j, before, frames);
        last := rows[j];
      }
      assert rows[..|rows|] == rows;
    }

    /** One more trailing frame. */
    method PadOne(timestamp: int, delta: int, ghost n: nat)
      requires frames != [] && Dense(frames, startTime) && lastFrameId == |frames| && n <= |frames|
      requires timestamp == frames[|frames| - 1].timestamp + delta && Padded(frames, n, delta)
      modifies `frames, `frameCount, `lastFrameId
      ensures |frames| == old(|frames|) + 1 && old(frames) <= frames && frames[|frames| - 1].timestamp == timestamp
      ensures Dense(frames, startTime) && lastFrameId == |frames| && Padded(frames, n, delta)
      ensures frameCount == old(frameCount) + 1
    {
      lastFrameId := lastFrameId + 1;
      frames := frames + [FrameData(lastFrameId, timestamp, frames[|frames| - 1].offset + delta, delta, false)];
      frameCount := frameCount + 1;
    }

    /** Frames at a fixed step after the last one, for as long as they do not pass the end of the
        event. */
    method PadTrailing(delta: int, terminate: bool)
      requires 0 < delta && frames != [] && Dense(frames, startTime) && lastFrameId == |frames|
      modifies `frames, `frameCount, `lastFrameId
      ensures Dense(frames, startTime) && lastFrameId == |frames| && old(frames) <= frames
      ensures frameCount == old(frameCount) + (|frames| - |old(frames)|)
      ensures Padded(frames, |old(frames)|, delta)
      ensures
        var left := endTime - old(frames[|frames| - 1].timestamp);
        |frames| == |old(frames)| + if terminate then 0 else PadCount(left, delta)
      ensures |frames| > |old(frames)| ==> frames[|frames| - 1].timestamp <= endTime
      ensures !terminate ==> endTime < frames[|frames| - 1].timestamp + delta
    {
      var lastTimestamp := frames[|frames| - 1].timestamp;
      ghost var n, first := 0, lastTimestamp;
      while endTime > lastTimestamp && !terminate
        invariant 0 <= n && |frames| == |old(frames)| + n && old(frames) <= frames
        invariant Dense(frames, startTime) && lastFrameId == |frames| && frameCount == old(frameCount) + n
        invariant Padded(frames, |old(frames)|, delta)
        invariant lastTimestamp == frames[|frames| - 1].timestamp == first + Times(n, delta)
        invariant n > 0 ==> lastTimestamp <= endTime && !terminate
        decreases endTime - lastTimestamp
      {
        lastTimestamp := lastTimestamp + delta;
        if endTime < lastTimestamp {
          PadCountIs(endTime - first, delta, n);
          return;
        }
        PadOne(lastTimestamp, delta, |old(frames)|);
        n := n + 1;
      }
      if !terminate {
        PadCountIs(endTime - first, delta, n);
      }
    }

    /** An event without rows: a first frame at its start, then a step that comes from the frame
        rate. */
    method PadFromStart(noRowsDelta: int, terminate: bool)
      requires frames == [] && lastFrameId == 0
      modifies `frames, `frameCount, `lastFrameId
      ensures Dense(frames, startTime) && lastFrameId == |frames| && Sorted(frames)
      ensures !terminate ==>
        |frames| == 1 + if noRowsDelta > 0 then PadCount(endTime - startTime, noRowsDelta) else 0
      ensures frames != [] && frames[0] == FrameData(1, startTime, 0, 0, false) && Padded(frames, 1, noRowsDelta)
      ensures !terminate && noRowsDelta > 0 ==> endTime < frames[|frames| - 1].timestamp + noRowsDelta
    {
      frames := [FrameData(1, startTime, 0, 0, false)];
      lastFrameId := 1;
      frameCount := frameCount + 1;
      if noRowsDelta > 0 {
        ghost var before := frames;
        PadTrailing(noRowsDelta, terminate);
        PaddedSorted(before, frames, noRowsDelta);
      }
    }

    /** An event with rows: what is left of it is divided among the frames still missing. */
    method PadAfterRows(terminate: bool)
      requires frames != [] && Dense(frames, startTime) && lastFrameId == |frames| < frameCount
      modifies `frames, `frameCount, `lastFrameId
      ensures Dense(frames, startTime) && lastFrameId == |frames| && old(frames) <= frames
      ensures Sorted(old(frames)) ==> Sorted(frames)
      ensures
        var m, d := old(frameCount - |frames|), endTime - old(frames[|frames| - 1].timestamp);
        && Padded(frames, |old(frames)|, TruncDiv(d, m))
        && |frames| == |old(frames)| + (if terminate then 0 else TrailingFrames(d, m))
        && frameCount == old(frameCount) + (if terminate then 0 else TrailingFrames(d, m))
        && (!terminate && m <= d ==>
              && old(frameCount) <= |frames|
              && frames[|frames| - 1].timestamp <= endTime < frames[|frames| - 1].timestamp + TruncDiv(d, m))
    {
      var delta := TruncDiv(endTime - frames[|frames| - 1].timestamp, frameCount - lastFrameId);
      ghost var d, m := endTime - frames[|frames| - 1].timestamp, frameCount - lastFrameId;
      TruncDivPositive(d, m);
      if delta > 0 {
        ghost var before := frames;
        TrailingIsPadding(d, m);
        PadTrailing(delta, terminate);
        PaddedSorted(before, frames, delta);
      }
    }

    /** The trailing frames of a table that holds its rows. */
    method PadTable(rows: seq<DbRow>, noRowsDelta: int, terminate: bool)
      requires GoodRows(rows) && Dense(frames, startTime) && lastFrameId == |frames|
      requires |frames| == (if rows == [] then 0 else rows[|rows| - 1].frameId)
      requires rows != [] ==> frames[|frames| - 1].offset == rows[|rows| - 1].offset
      modifies `frames, `frameCount, `lastFrameId
      ensures Dense(frames, startTime) && lastFrameId == |frames| && old(frames) <= frames
      ensures Sorted(old(frames)) ==> Sorted(frames)
      ensures
        var lastId := |old(frames)|;
        var padding := endTime != 0 && duration != 0 && old(frameCount) > lastId;
        && (!padding ==> |frames| == lastId && frameCount == old(frameCount))
        && (padding && rows == [] && !terminate ==>
              && |frames| == 1 + (if noRowsDelta > 0 then PadCount(endTime - startTime, noRowsDelta) else 0)
              && frames[0] == FrameData(1, startTime, 0, 0, false) && Padded(frames, 1, noRowsDelta))
        && (padding && rows != [] && !terminate ==>
              var m, d := old(frameCount) - lastId, endTime - startTime - rows[|rows| - 1].offset;
              && |frames| == lastId + TrailingFrames(d, m)
              && frameCount == old(frameCount) + TrailingFrames(d, m)
              && Padded(frames, lastId, TruncDiv(d, m))
              && (m <= d ==>
                    && old(frameCount) <= |frames|
                    && frames[|frames| - 1].timestamp <= endTime < frames[|frames| - 1].timestamp + TruncDiv(d, m)))
    {
      if endTime != 0 && duration != 0 && frameCount > lastFrameId {
        if rows == [] {
          PadFromStart(noRowsDelta, terminate);
        } else {
          PadAfterRows(terminate);
        }
      }
    }

    /** What follows the rows in a table loaded for a Frames column of `counted`. */
    ghost predicate FilledUp(rows: seq<DbRow>, counted: int, noRowsDelta: int, terminate: bool)
      requires GoodRows(rows)
      reads this
    {
      var recorded := if counted < |rows| then |rows| else counted;
      var lastId := if rows == [] then 0 else rows[|rows| - 1].frameId;
      var padding := endTime != 0 && duration != 0 && recorded > lastId;
      && (!padding ==> |frames| == lastId && frameCount == recorded)
      && (padding && rows == [] && !terminate ==>
            && |frames| == 1 + (if noRowsDelta > 0 then PadCount(endTime - startTime, noRowsDelta) else 0)
            && frames[0] == FrameData(1, startTime, 0, 0, false) && Padded(frames, 1, noRowsDelta))
      && (padding && rows != [] && !terminate ==>
            var m, d := recorded - lastId, endTime - startTime - rows[|rows| - 1].offset;
            && |frames| == lastId + TrailingFrames(d, m)
            && frameCount == recorded + TrailingFrames(d, m)
            && Padded(frames, lastId, TruncDiv(d, m))
            && (m <= d ==>
                  && recorded <= |frames|
                  && frames[|frames| - 1].timestamp <= endTime < frames[|frames| - 1].timestamp + TruncDiv(d, m)))
    }

    /** loadEventData's frame loops. noRowsDelta is the step it works out from the frame rate when
        the event has no rows at all. */
    method LoadFrames(rows: seq<DbRow>, noRowsDelta: int, terminate: bool)
      requires GoodRows(rows)
      modifies this
      ensures Dense(frames, startTime) && lastFrameId == |frames|
      ensures RowsInTable(rows, frames)
      ensures RowsSorted(rows) ==> Sorted(frames)
      ensures FilledUp(rows, old(frameCount), noRowsDelta, terminate)
    {
      if frameCount < |rows| {
        frameCount := |rows|;
      }
      AddRows(rows);
      TableSorted(rows, frames, startTime);
      lastFrameId := |frames|;
      ghost var before := frames;
      if rows != [] { assert RowPlaced(frames, rows[|rows| - 1]); }
      PadTable(rows, noRowsDelta, terminate);
      TableGrows(rows, before, frames);
    }
  }

  /** Every frame from the n-th on follows the one before it at this step, and has no row. */
  ghost predicate Padded(frames: seq<FrameData>, n: int, delta: int)
    requires 0 <= n
  {
    forall i :: n <= i < |frames| ==>
      !frames[i].inDb && frames[i].delta == delta && (i > 0 ==> frames[i].offset == frames[i - 1].offset + delta)
  }

  lemma {:induction false} PaddedSorted(before: seq<FrameData>, after: seq<FrameData>, delta: int)
    requires before != [] && before <= after && Padded(after, |before|, delta) && 0 <= delta
    ensures Sorted(before) ==> Sorted(after)
    decreases |after|
  {
    if Sorted(before) && |before| < |after| {
      var rest := after[..|after| - 1];
      PaddedSorted(before, rest, delta);
      assert forall i :: 0 <= i < |rest| ==> after[i] == rest[i] && rest[i].offset <= rest[|rest| - 1].offset;
    }
  }

  /** How many whole steps fit. */
  function PadCount(d: int, delta: int): int
    requires 0 < delta
  {
    if d <= 0 then 0 else d / delta
  }

  /** The frames appended after the last row, when m more were recorded and d is left of the
      event: m of them and as many again as the remainder holds, or none when d is too short for
      a step of at least one microsecond. */
  function TrailingFrames(d: int, m: int): int
    requires 0 < m
  {
    if d < m then 0 else m + (d % m) / (d / m)
  }

  lemma PadCountIs(d: int, delta: int, n: nat)
    requires 0 < delta
    requires n > 0 ==> Times(n, delta) <= d
    requires d <= Times(n, delta) || d < Times(n + 1, delta)
    ensures n == PadCount(d, delta)
  {
    TimesIsProduct(n, delta);
    TimesIsProduct(n + 1, delta);
    assert (n + 1) * delta == n * delta + delta;
    if 0 < d {
      QuotientIs(d, delta, n);
    }
  }

  lemma {:induction false} MulStep(a: int, b: int, k: int)
    requires a < b && 0 <= k
    ensures a * k + k <= b * k
    decreases b - a
  {
    assert b * k == (b - 1) * k + k;
    if a + 1 < b { MulStep(a, b - 1, k); }
  }

  lemma QuotientIs(d: int, delta: int, n: int)
    requires 0 < delta && n * delta <= d < n * delta + delta
    ensures n == d / delta
  {
    var q := d / delta;
    assert q * delta <= d < q * delta + delta;
    if q < n { MulStep(q, n, delta); }
    if n < q { MulStep(n, q, delta); }
  }

  lemma TruncDivPositive(d: int, m: int)
    requires 0 < m
    ensures TruncDiv(d, m) > 0 <==> m <= d
  {
    if m <= d { QuotientAtLeastOne(d, m); }
  }

  lemma QuotientAtLeastOne(d: int, m: int)
    requires 0 < m <= d
    ensures 1 <= d / m && d == (d / m) * m + d % m && 0 <= d % m < m
  {
  }

  lemma TrailingIsPadding(d: int, m: int)
    requires 0 < m <= d
    ensures TrailingFrames(d, m) == PadCount(d, d / m) && m <= TrailingFrames(d, m)
  {
    QuotientAtLeastOne(d, m);
    RemainderSteps(d, d / m, m, d % m);
  }

  lemma RemainderSteps(d: int, q: int, m: int, r: int)
    requires 1 <= q && 0 <= r && d == q * m + r
    ensures d / q == m + r / q && 0 <= r / q
  {
    var k := r / q;
    assert k * q <= r < k * q + q;
    assert (m + k) * q == q * m + k * q;
    QuotientIs(d, q, m + k);
  }

  // ---------------------------------------------------------------- order

  lemma GapSorted(frames: seq<FrameData>, a: DbRow, b: DbRow, id: int)
    requires a.frameId < b.frameId && a.offset <= b.offset
    requires GapFilled(frames, a, b) && RowPlaced(frames, a) && RowPlaced(frames, b) && a.frameId <= id < b.frameId
    ensures frames[id - 1].offset <= frames[id].offset
  {
    var step := TruncDiv(b.offset - a.offset, b.frameId - a.frameId);
    GapOffset(frames, a, b, id);
    StepsWithin(b.offset - a.offset, b.frameId - a.frameId, id - a.frameId);
    TimesMono(0, 1, step);
    if id + 1 < b.frameId { GapOffset(frames, a, b, id + 1); }
  }

  lemma GapOffset(frames: seq<FrameData>, a: DbRow, b: DbRow, id: int)
    requires a.frameId < b.frameId
    requires GapFilled(frames, a, b) && RowPlaced(frames, a) && a.frameId <= id < b.frameId
    ensures 1 <= id <= |frames|
    ensures frames[id - 1].offset
         == a.offset + Times(id - a.frameId, TruncDiv(b.offset - a.offset, b.frameId - a.frameId))
  {
    if a.frameId < id { assert Interpolated(frames, a, b, id); }
  }

  /** Rows whose offsets never go back give a table whose offsets never go back. */
  lemma TableSorted(rows: seq<DbRow>, frames: seq<FrameData>, start: int)
    requires GoodRows(rows) && RowsInTable(rows, frames)
    requires |frames| == if rows == [] then 0 else rows[|rows| - 1].frameId
    ensures RowsSorted(rows) ==> Sorted(frames)
  {
    if RowsSorted(rows) {
      forall id | 1 <= id < |frames| ensures frames[id - 1].offset <= frames[id].offset {
        var j := RowBefore(rows, id);
        assert RowPlaced(frames, rows[j]) && RowPlaced(frames, rows[j + 1]);
        assert GapFilled(frames, rows[j], rows[j + 1]);
        GapSorted(frames, rows[j], rows[j + 1], id);
      }
      NeighboursSorted(frames);
    }
  }

  /** The last row at or before a frame that is not the last one. */
  lemma {:induction false} RowBefore(rows: seq<DbRow>, id: int) returns (j: nat)
    requires GoodRows(rows) && rows != [] && 1 <= id < rows[|rows| - 1].frameId
    ensures j + 1 < |rows| && rows[j].frameId <= id < rows[j + 1].frameId
  {
    j := 0;
    while rows[j + 1].frameId <= id
      invariant j + 1 < |rows| && rows[j].frameId <= id
    {
      j := j + 1;
    }
  }

  lemma {:induction false} NeighboursSorted(frames: seq<FrameData>)
    requires forall id :: 1 <= id < |frames| ==> frames[id - 1].offset <= frames[id].offset
    ensures Sorted(frames)
  {
    if |frames| > 1 {
      var rest := frames[..|frames| - 1];
      NeighboursSorted(rest);
      assert forall i :: 0 <= i < |rest| ==> frames[i] == rest[i] && rest[i].offset <= rest[|rest| - 1].offset;
    }
  }

  lemma OneMoreRow(rows: seq<DbRow>, j: nat, before: seq<FrameData>, after: seq<FrameData>)
    requires GoodRows(rows) && j < |rows| && GoodRows(rows[..j]) && RowsInTable(rows[..j], before) && before <= after
    requires RowPlaced(after, rows[j])
    requires if j == 0 then after[0].delta == rows[j].offset else GapFilled(after, rows[j - 1], rows[j])
    ensures GoodRows(rows[..j + 1]) && RowsInTable(rows[..j + 1], after)
  {
    TableGrows(rows[..j], before, after);
    var some := rows[..j + 1];
    forall i, k | 0 <= i && k == i + 1 < |some| ensures GapFilled(after, some[i], some[k]) {
      if k < j { assert GapFilled(after, rows[..j][i], rows[..j][k]); }
    }
    forall i | 0 <= i < |some| ensures RowPlaced(after, some[i]) {
      if i < j { assert RowPlaced(after, rows[..j][i]); }
    }
  }

  // ---------------------------------------------------------------- from recording to playback

  /** The Delta column holds seconds with two decimals. */
  function Centi(us: int): int
  {
    (us + 5000) / 10000 * 10000
  }

  function Stored(frames: seq<EventWriter.Frame>): seq<DbRow>
  {
    seq(|frames|, i requires 0 <= i < |frames| => DbRow(frames[i].frameId, Centi(frames[i].delta)))
  }

  lemma CentiMono(a: int, b: int)
    requires 0 <= a <= b
    ensures 0 <= Centi(a) <= Centi(b) && -4999 <= Centi(a) - a <= 5000 && Centi(a) % 10000 == 0
  {
  }

  /** What an event writes is what the reader needs: ids from 1 on, offsets in order. */
  lemma StoredRowsAreGood(bulkInterval: int, start: int, ps: seq<EventWriter.Packet>)
    requires EventWriter.Chronological(start, ps)
    ensures GoodRows(Stored(EventWriter.Rows(bulkInterval, start, ps)))
    ensures RowsSorted(Stored(EventWriter.Rows(bulkInterval, start, ps)))
  {
    var frames := EventWriter.Rows(bulkInterval, start, ps);
    EventWriter.RowsAreInOrder(bulkInterval, start, ps);
    EventWriter.FirstRowIsFrameOne(bulkInterval, start, ps);
    forall i, j | 0 <= i < j < |frames|
      ensures Stored(frames)[i].frameId < Stored(frames)[j].frameId && Stored(frames)[i].offset <= Stored(frames)[j].offset
    {
      CentiMono(frames[i].delta, frames[j].delta);
    }
    if frames != [] { CentiMono(frames[0].delta, frames[0].delta); }
  }

  /** Records an event packet by packet and closes it. */
  method RecordAll(ps: seq<EventWriter.Packet>, start: int, bulkInterval: int) returns (rows: seq<EventWriter.Frame>)
    ensures rows == EventWriter.Rows(bulkInterval, start, ps)
  {
    var writer := new EventWriter.Event(start, bulkInterval);
    for i := 0 to |ps|
      invariant writer.Valid() && writer.history == ps[..i] && fresh(writer)
    {
      assert ps[..i + 1] == ps[..i] + [ps[i]];
      writer.AddFrame(ps[i]);
    }
    assert ps[..|ps|] == ps;
    writer.Close();
    rows := writer.written;
  }

  const SECOND: int := 1_000_000

  /** The StartDateTime column holds whole seconds, and that is the start the reader gets. */
  function StoredStart(start: int): int
  {
    TruncDiv(start, SECOND) * SECOND
  }

  /** A recorded row's frame is found under its id, with the row's delta as the database rounds it
      and a timestamp that lacks the part of a second at which the event began. */
  ghost predicate Recovered(row: EventWriter.Frame, frames: seq<FrameData>, start: int)
  {
    && 1 <= row.frameId <= |frames|
    && frames[row.frameId - 1].inDb
    && frames[row.frameId - 1].offset == Centi(row.delta)
    && frames[row.frameId - 1].timestamp - row.timestamp == Centi(row.delta) - row.delta - (start - StoredStart(start))
  }

  lemma RowRecovered(bulkInterval: int, start: int, ps: seq<EventWriter.Packet>, frames: seq<FrameData>, j: nat)
    requires EventWriter.Chronological(start, ps) && Dense(frames, StoredStart(start))
    requires j < |EventWriter.Rows(bulkInterval, start, ps)|
    requires RowPlaced(frames, Stored(EventWriter.Rows(bulkInterval, start, ps))[j])
    ensures Recovered(EventWriter.Rows(bulkInterval, start, ps)[j], frames, start)
  {
    EventWriter.RowDelta(bulkInterval, start, ps, j);
  }

  /** How far off that is: an offset by at most 5 ms, a timestamp by up to a second more. The
      timestamp is within 5 ms exactly when the lost part of a second is small enough. */
  lemma RecoveredWithin(row: EventWriter.Frame, frames: seq<FrameData>, start: int)
    requires Recovered(row, frames, start) && 0 <= start && 0 <= row.delta
    ensures start - StoredStart(start) == start % SECOND
    ensures
      var frame := frames[row.frameId - 1];
      && -4999 <= frame.offset - row.delta <= 5000
      && -1_004_998 <= frame.timestamp - row.timestamp <= 5000
      && (-5000 <= frame.timestamp - row.timestamp <= 5000 <==>
            start % SECOND <= 5000 + Centi(row.delta) - row.delta)
  {
    CentiMono(row.delta, row.delta);
  }

  /** An event that begins 0.4 s into a second with its first packet: the frame of that packet comes
      back 0.4 s early. */
  lemma SubsecondLost(bulkInterval: int, ps: seq<EventWriter.Packet>, frames: seq<FrameData>)
    requires ps == [EventWriter.Packet(1_700_000_000_400_000, 0, true, EventWriter.Idle, 10.0)]
    requires Dense(frames, StoredStart(1_700_000_000_400_000))
    requires RowsFrom(frames, Stored(EventWriter.Rows(bulkInterval, 1_700_000_000_400_000, ps)))
    ensures |frames| >= 1 && frames[0].timestamp == ps[0].timestamp - 400_000
  {
    var start := 1_700_000_000_400_000;
    EventWriter.OneMorePacket(bulkInterval, start, [], ps[0]);
    assert [] + [ps[0]] == ps;
    assert Stored(EventWriter.Rows(bulkInterval, start, ps))[0] == DbRow(1, 0);
    assert RowPlaced(frames, DbRow(1, 0));
  }

  ghost predicate RowsFrom(frames: seq<FrameData>, rows: seq<DbRow>)
  {
    forall j :: 0 <= j < |rows| ==> RowPlaced(frames, rows[j])
  }

  /** An event recorded packet by packet, closed, and loaded again: the table is dense and in
      order, and every recorded row is recovered. */
  method RecordAndReload(ps: seq<EventWriter.Packet>, start: int, bulkInterval: int, recordedEnd: Option<int>,
                         now: int, duration: int, frameCount: int, noRowsDelta: int)
    returns (rows: seq<EventWriter.Frame>, event: EventData)
    requires EventWriter.Chronological(start, ps)
    ensures rows == EventWriter.Rows(bulkInterval, start, ps) && event.startTime == StoredStart(start)
    ensures event.endTime == LoadedEnd(recordedEnd, now) && fresh(event)
    ensures Dense(event.frames, StoredStart(start)) && Sorted(event.frames)
    ensures forall j :: 0 <= j < |rows| ==> Recovered(rows[j], event.frames, start)
  {
    rows := RecordAll(ps, start, bulkInterval);
    StoredRowsAreGood(bulkInterval, start, ps);
    event := new EventData(StoredStart(start), LoadedEnd(recordedEnd, now), duration, frameCount);
    event.LoadFrames(Stored(rows), noRowsDelta, false);
    forall j | 0 <= j < |rows| ensures Recovered(rows[j], event.frames, start) {
      assert RowPlaced(event.frames, Stored(rows)[j]);
      RowRecovered(bulkInterval, start, ps, event.frames, j);
    }
  }

  // ---------------------------------------------------------------- searching the table

  ghost predicate ByTime(frames: seq<FrameData>)
  {
    forall i, j :: 0 <= i < j < |frames| ==> frames[i].timestamp <= frames[j].timestamp
  }

  lemma LoadedTableByTime(frames: seq<FrameData>, start: int)
    requires Dense(frames, start) && Sorted(frames)
    ensures ByTime(frames)
  {
  }

  /** std::lower_bound on the timestamps: the first frame at or after t. */
  method FirstAtOrAfter(frames: seq<FrameData>, t: int) returns (k: nat)
    requires ByTime(frames)
    ensures k <= |frames|
    ensures forall i :: 0 <= i < k ==> frames[i].timestamp < t
    ensures forall i :: k <= i < |frames| ==> t <= frames[i].timestamp
  {
    k := 0;
    var len := |frames|;
    while len > 0
      invariant 0 <= len && k + len <= |frames|
      invariant forall i :: 0 <= i < k ==> frames[i].timestamp < t
      invariant forall i :: k + len <= i < |frames| ==> t <= frames[i].timestamp
    {
      var half := len / 2;
      if frames[k + half].timestamp < t {
        k, len := k + half + 1, len - half - 1;
      } else {
        len := half;
      }
    }
  }

  /** std::upper_bound on the offsets: the first frame with a greater one. */
  method FirstAfterOffset(frames: seq<FrameData>, offset: int) returns (k: nat)
    requires Sorted(frames)
    ensures k <= |frames|
    ensures forall i :: 0 <= i < k ==> frames[i].offset <= offset
    ensures forall i :: k <= i < |frames| ==> offset < frames[i].offset
  {
    k := 0;
    var len := |frames|;
    while len > 0
      invariant 0 <= len && k + len <= |frames|
      invariant forall i :: 0 <= i < k ==> frames[i].offset <= offset
      invariant forall i :: k + len <= i < |frames| ==> offset < frames[i].offset
    {
      var half := len / 2;
      if offset < frames[k + half].offset {
        len := half;
      } else {
        k, len := k + half + 1, len - half - 1;
      }
    }
  }

  /** Frame i's display window reaches t. */
  predicate Reaches(frames: seq<FrameData>, i: int, t: int)
    requires 0 <= i < |frames|
  {
    t <= frames[i].timestamp + frames[i].delta
  }

  /** k is the first frame at or after t, or the table's length. */
  ghost predicate IsFirst(frames: seq<FrameData>, t: int, k: int)
  {
    && 0 <= k <= |frames|
    && (forall i :: 0 <= i < k ==> frames[i].timestamp < t)
    && (forall i :: k <= i < |frames| ==> t <= frames[i].timestamp)
  }

  /** Which frame a time within the event belongs to; k is the first frame at or after it. */
  predicate Found(event: EventData, t: int, k: int, found: bool, index: nat)
    requires 0 <= k <= |event.frames|
    reads event
  {
    var frames, n := event.frames, |event.frames|;
    && (found <==> event.startTime <= t <= event.endTime
                   && (k < n || (0 < n && Reaches(frames, n - 1, t)) || (1 < n && Reaches(frames, n - 2, t))))
    && (found && k < n ==> index == if 0 < k && Reaches(frames, k - 1, t) then k - 1 else k)
    && (found && k == n ==> index == if 1 < n && Reaches(frames, n - 2, t) then n - 2 else n - 1)
  }

  method Seek(event: EventData, t: int) returns (found: bool, index: nat)
    requires ByTime(event.frames)
    ensures exists k :: IsFirst(event.frames, t, k)
    ensures forall k :: IsFirst(event.frames, t, k) ==> Found(event, t, k, found, index)
  {
    var it := FirstAtOrAfter(event.frames, t);
    assert IsFirst(event.frames, t, it);
    index, found := 0, false;
    if t < event.startTime || t > event.endTime {
      return;
    }
    if it == |event.frames| && it != 0 {
      it := it - 1;
    }
    if it != 0 {
      var prev := it - 1;
      if event.frames[prev].timestamp + event.frames[prev].delta >= t {
        it := prev;
      }
    }
    if it != |event.frames|
       && (event.frames[it].timestamp >= t || event.frames[it].timestamp + event.frames[it].delta >= t) {
      return true, it;
    }
  }

  /** A stream set up at a time within an event: the table is loaded, then searched. */
  method LoadAndSeek(event: EventData, rows: seq<DbRow>, noRowsDelta: int, terminate: bool, t: int)
    returns (found: bool, index: nat)
    requires GoodRows(rows) && RowsSorted(rows)
    modifies event
    ensures Dense(event.frames, event.startTime) && ByTime(event.frames) && RowsInTable(rows, event.frames)
    ensures event.FilledUp(rows, old(event.frameCount), noRowsDelta, terminate)
    ensures exists k :: IsFirst(event.frames, t, k)
    ensures forall k :: IsFirst(event.frames, t, k) ==> Found(event, t, k, found, index)
  {
    event.LoadFrames(rows, noRowsDelta, terminate);
    LoadedTableByTime(event.frames, event.startTime);
    found, index := Seek(event, t);
  }

  /** A time after one frame and no later than the next belongs to the earlier one if its window
      reaches it, and to the later one if not. */
  lemma SeekBetween(event: EventData, t: int, i: nat, found: bool, index: nat)
    requires ByTime(event.frames) && i + 1 < |event.frames|
    requires event.frames[i].timestamp < t <= event.frames[i + 1].timestamp
    requires forall k :: IsFirst(event.frames, t, k) ==> Found(event, t, k, found, index)
    ensures found <==> event.startTime <= t <= event.endTime
    ensures found ==> index == if t <= event.frames[i].timestamp + event.frames[i].delta then i else i + 1
  {
    assert IsFirst(event.frames, t, i + 1);
  }

  /** The windows of the frames of a gap join on to each other, and the last one falls short of the
      row after it by less than a microsecond a frame. */
  lemma GapWindowsJoin(frames: seq<FrameData>, start: int, a: DbRow, b: DbRow, id: int)
    requires Dense(frames, start) && RowPlaced(frames, a) && RowPlaced(frames, b)
    requires a.frameId < id < b.frameId && a.offset <= b.offset && GapFilled(frames, a, b)
    ensures id < |frames|
    ensures
      var windowEnd := frames[id - 1].timestamp + frames[id - 1].delta;
      if id + 1 < b.frameId then windowEnd == frames[id].timestamp
      else windowEnd <= frames[id].timestamp < windowEnd + (b.frameId - a.frameId)
  {
    var n, step := b.frameId - a.frameId, TruncDiv(b.offset - a.offset, b.frameId - a.frameId);
    GapOffset(frames, a, b, id);
    assert Interpolated(frames, a, b, id);
    TimesIsProduct(id - a.frameId, step);
    TimesIsProduct(id - a.frameId + 1, step);
    if id + 1 < b.frameId {
      GapOffset(frames, a, b, id + 1);
    } else {
      TruncDivIs(b.offset - a.offset, n);
    }
  }

  /** So in a loaded table a time between two frames of a gap, or from the last of them up to where
      its window ends, is shown by the earlier frame. A time after a row is shown by the row as far
      as the step of the gap before the row reaches, and from there on by the frame after it. */
  lemma SeekInGap(event: EventData, rows: seq<DbRow>, j: nat, id: int, t: int, found: bool, index: nat)
    requires GoodRows(rows) && RowsSorted(rows) && j + 1 < |rows| && rows[j].frameId <= id < rows[j + 1].frameId
    requires Dense(event.frames, event.startTime) && ByTime(event.frames) && RowsInTable(rows, event.frames)
    requires id < |event.frames| && event.frames[id - 1].timestamp < t <= event.frames[id].timestamp
    requires event.startTime <= t <= event.endTime
    requires forall k :: IsFirst(event.frames, t, k) ==> Found(event, t, k, found, index)
    ensures found
    ensures rows[j].frameId < id && id + 1 < rows[j + 1].frameId ==> index == id - 1
    ensures rows[j].frameId == id ==>
      var before := if j == 0 then rows[0].offset
                    else TruncDiv(rows[j].offset - rows[j - 1].offset, rows[j].frameId - rows[j - 1].frameId);
      index == if t <= event.startTime + rows[j].offset + before then id - 1 else id
    ensures rows[j].frameId < id && id + 1 == rows[j + 1].frameId ==>
      index == if t <= event.frames[id - 1].timestamp + event.frames[id - 1].delta then id - 1 else id
  {
    var a, b := rows[j], rows[j + 1];
    assert RowPlaced(event.frames, a) && RowPlaced(event.frames, b) && GapFilled(event.frames, a, b);
    SeekBetween(event, t, id - 1, found, index);
    if a.frameId < id {
      GapWindowsJoin(event.frames, event.startTime, a, b, id);
    } else if j > 0 {
      assert GapFilled(event.frames, rows[j - 1], rows[j]);
      assert WindowIs(event.frames, rows[j - 1], rows[j], id);
    }
  }

  /** Rows for frames 1 and 3, two seconds apart, in an event of three seconds: the middle of the gap
      after frame 2 is shown by frame 2, and a time after frame 3 by frame 3. */
  method SeekAroundRow() returns (between: nat, after: nat)
    ensures between == 1 && after == 2
  {
    var rows := [DbRow(1, 0), DbRow(3, 2_000_000)];
    var event := new EventData(0, 3_000_000, 3_000_000, 3);
    var found;
    found, between := LoadAndSeek(event, rows, 0, false, 1_500_000);
    GapOfOne(event, rows);
    assert IsFirst(event.frames, 1_500_000, 2) && Found(event, 1_500_000, 2, found, between);
    event := new EventData(0, 3_000_000, 3_000_000, 3);
    found, after := LoadAndSeek(event, rows, 0, false, 2_500_000);
    GapOfOne(event, rows);
    assert IsFirst(event.frames, 2_500_000, 3) && Found(event, 2_500_000, 3, found, after);
  }

  lemma GapOfOne(event: EventData, rows: seq<DbRow>)
    requires rows == [DbRow(1, 0), DbRow(3, 2_000_000)] && GoodRows(rows)
    requires RowsInTable(rows, event.frames) && Dense(event.frames, 0) && |event.frames| == 3
    ensures event.frames[0].timestamp == 0
    ensures event.frames[1].timestamp == event.frames[1].delta == event.frames[2].delta == 1_000_000
    ensures event.frames[2].timestamp == 2_000_000
  {
    assert RowPlaced(event.frames, rows[0]) && RowPlaced(event.frames, rows[1]);
    assert GapFilled(event.frames, rows[0], rows[1]);
    assert Interpolated(event.frames, rows[0], rows[1], 2) && WindowIs(event.frames, rows[0], rows[1], 3);
    TimesIsProduct(1, 1_000_000);
  }

  /** The frame at i has this time, or is the one before it and its window reaches there. */
  ghost predicate Shows(frames: seq<FrameData>, i: int, t: int)
  {
    && 0 <= i < |frames|
    && (frames[i].timestamp == t || (i + 1 < |frames| && frames[i + 1].timestamp == t && Reaches(frames, i, t)))
  }

  lemma SeekShows(event: EventData, t: int, j: nat, found: bool, index: nat)
    requires ByTime(event.frames) && j < |event.frames| && event.frames[j].timestamp == t
    requires exists k :: IsFirst(event.frames, t, k)
    requires forall k :: IsFirst(event.frames, t, k) ==> Found(event, t, k, found, index)
    ensures found <==> event.startTime <= t <= event.endTime
    ensures found ==> Shows(event.frames, index, t)
  {
    var k :| IsFirst(event.frames, t, k);
    assert Found(event, t, k, found, index);
    assert k <= j && event.frames[k].timestamp == t;
  }

  /** The end an event is closed with: the time of its last packet, or, if that has none, the time
      at which it is closed. */
  function EndOf(start: int, ps: seq<EventWriter.Packet>, closedAt: int): int
  {
    if ps == [] then start else if ps[|ps| - 1].timestamp == 0 then closedAt else ps[|ps| - 1].timestamp
  }

  /** From recording to playback. The event is closed with its end in whole seconds, its length to
      two decimals and its count of frames, and loaded again; then the time at which a recorded row
      comes back is sought. That succeeds exactly when the row's rounded delta is no more than the
      whole seconds from the event's start to its end, and then shows a frame of that time. */
  method RecordReloadAndSeek(ps: seq<EventWriter.Packet>, start: int, bulkInterval: int, closedAt: int,
                             now: int, noRowsDelta: int, j: nat)
    returns (rows: seq<EventWriter.Frame>, event: EventData, t: int, found: bool, index: nat)
    requires EventWriter.Chronological(start, ps) && j < |EventWriter.Rows(bulkInterval, start, ps)|
    ensures rows == EventWriter.Rows(bulkInterval, start, ps) && Recovered(rows[j], event.frames, start)
    ensures t == event.frames[rows[j].frameId - 1].timestamp
    ensures found <==> Centi(rows[j].delta) <= StoredStart(EndOf(start, ps, closedAt)) - StoredStart(start)
    ensures found ==> Shows(event.frames, index, t)
  {
    rows, event := RecordAndReload(ps, start, bulkInterval, Some(StoredStart(EndOf(start, ps, closedAt))), now,
                                   Centi(EndOf(start, ps, closedAt) - start), EventWriter.FrameCount(ps), noRowsDelta);
    assert Recovered(rows[j], event.frames, start);
    LoadedTableByTime(event.frames, event.startTime);
    t := event.frames[rows[j].frameId - 1].timestamp;
    found, index := Seek(event, t);
    SeekShows(event, t, rows[j].frameId - 1, found, index);
    EventWriter.RowsAreInOrder(bulkInterval, start, ps);
    CentiMono(rows[j].delta, rows[j].delta);
    assert event.frames[rows[j].frameId - 1].timestamp == StoredStart(start) + Centi(rows[j].delta);
  }

  /** So the last row of an event that ends with its last packet can be sought only if its end is no
      further into a second than its start, but for the rounding of its delta. */
  lemma LastRowSought(start: int, end: int)
    requires 0 <= start <= end
    ensures Centi(end - start) <= StoredStart(end) - StoredStart(start)
       <==> end % SECOND + Centi(end - start) - (end - start) <= start % SECOND
  {
    WholeSeconds(start);
    WholeSeconds(end);
  }

  lemma WholeSeconds(t: int)
    requires 0 <= t
    ensures t - StoredStart(t) == t % SECOND
  {
  }

  /** The frame a seek to an offset lands on: the last at or before it, else the first. */
  ghost predicate IsSeekTarget(frames: seq<FrameData>, offset: int, i: int)
  {
    && 0 <= i < |frames|
    && (forall j :: i < j < |frames| ==> offset < frames[j].offset)
    && (frames[i].offset <= offset || i == 0)
  }

  /** The search part of CMD_SEEK. An offset past the event is cut down to its duration. */
  method SeekOffset(event: EventData, offset: int) returns (index: nat)
    requires event.frames != [] && Sorted(event.frames)
    ensures IsSeekTarget(event.frames, if offset > event.duration then event.duration else offset, index)
  {
    var target := offset;
    if target > event.duration {
      target := event.duration;
    }
    index := FirstAfterOffset(event.frames, target);
    if index != 0 {
      index := index - 1;
    }
  }

  lemma SeekTargetUnique(frames: seq<FrameData>, offset: int, i: int, j: int)
    requires Sorted(frames) && IsSeekTarget(frames, offset, i) && IsSeekTarget(frames, offset, j)
    ensures i == j
  {
  }

  /** Seeking to the offset of frame i returns to frame i exactly when that offset is within the
      event's duration, or i is the first frame. */
  lemma SeekRoundTrip(frames: seq<FrameData>, duration: int, i: int)
    requires 0 <= i < |frames|
    requires forall p, q :: 0 <= p < q < |frames| ==> frames[p].offset < frames[q].offset
    ensures IsSeekTarget(frames, if frames[i].offset > duration then duration else frames[i].offset, i)
       <==> frames[i].offset <= duration || i == 0
  {
  }

  lemma {:induction false} PaddedOffset(frames: seq<FrameData>, delta: int, i: nat)
    requires i < |frames| && Padded(frames, 1, delta)
    ensures frames[i].offset == frames[0].offset + Times(i, delta)
  {
    if i > 0 { PaddedOffset(frames, delta, i - 1); }
  }

  /** An event that begins 0.4 s into a second and ends on a whole one, ten seconds later by the
      stored times but 9.6 s long. Its one row and the ten frames counted after it are spread over
      the ten seconds, so the last frame lies past the length, and seeking to its offset gives the
      frame before it. */
  method SeekMissesLastFrame() returns (event: EventData, index: nat)
    ensures |event.frames| == 11 && event.frames[10].offset == 10_000_000 && event.duration == 9_600_000
    ensures index == 9
  {
    var start, end := 1_700_000_000_400_000, 1_700_000_010_000_000;
    event := new EventData(StoredStart(start), StoredStart(end), Centi(end - start), 11);
    event.LoadFrames([DbRow(1, 0)], 0, false);
    assert RowPlaced(event.frames, [DbRow(1, 0)][0]);
    TenSecondTable(event.frames);
    index := SeekOffset(event, 10_000_000);
    assert IsSeekTarget(event.frames, 9_600_000, 9);
    SeekTargetUnique(event.frames, 9_600_000, index, 9);
  }

  lemma TenSecondTable(frames: seq<FrameData>)
    requires |frames| == 11 && frames[0].offset == 0 && Padded(frames, 1, 1_000_000)
    ensures forall i :: 0 <= i < 11 ==> frames[i].offset == i * 1_000_000
  {
    forall i | 0 <= i < 11 ensures frames[i].offset == i * 1_000_000 {
      PaddedOffset(frames, 1_000_000, i);
      TimesIsProduct(i, 1_000_000);
    }
  }
}
