/** Recording the frame rows of an event: which frames get a row, and when the queued rows are
    flushed to the database. Times are in microseconds. */
module EventWriter {

  const MAX_DB_FRAMES: nat := 100

  datatype MonitorState = Unknown | Idle | PreAlarm | Alarm | Alert

  datatype FrameType = Normal | Bulk | Alarmed

  /** One packet as AddFrame sees it, with the monitor's state and capture rate at that moment. */
  datatype Packet = Packet(timestamp: int, score: int, hasImage: bool, state: MonitorState, fps: real)

  datatype Frame = Frame(frameId: nat, kind: FrameType, timestamp: int, delta: int, score: nat)

  // ------------------------------------------ what the rows of an event are, by history

  /** Packets that count as frames: all but those without a timestamp. */
  function FrameCount(ps: seq<Packet>): nat
  {
    if ps == [] then 0 else FrameCount(ps[..|ps| - 1]) + if ps[|ps| - 1].timestamp == 0 then 0 else 1
  }

  function Clipped(score: int): nat { if score < 0 then 0 else score }

  /** The best score so far; below any score before the first frame. */
  function BestScore(ps: seq<Packet>): int
    ensures -1 <= BestScore(ps)
  {
    if ps == [] then -1
    else
      var best, last := BestScore(ps[..|ps| - 1]), ps[|ps| - 1];
      if last.timestamp != 0 && Clipped(last.score) > best then Clipped(last.score) else best
  }

  /** The first frame that reached the best score. */
  function BestFrame(ps: seq<Packet>): nat
  {
    if ps == [] then 0
    else
      var last := ps[|ps| - 1];
      if last.timestamp != 0 && Clipped(last.score) > BestScore(ps[..|ps| - 1]) then FrameCount(ps)
      else BestFrame(ps[..|ps| - 1])
  }

  /** Some frame came with a picture, which became the event's snapshot. */
  predicate SnapshotTaken(ps: seq<Packet>)
  {
    ps != [] && (SnapshotTaken(ps[..|ps| - 1]) || (ps[|ps| - 1].timestamp != 0 && ps[|ps| - 1].hasImage))
  }

  /** Some alarmed frame came with a picture, which became the event's alarm image. */
  predicate AlarmImageTaken(ps: seq<Packet>)
  {
    ps != [] && (AlarmImageTaken(ps[..|ps| - 1])
                 || (ps[|ps| - 1].timestamp != 0 && ps[|ps| - 1].hasImage && ps[|ps| - 1].score > 0))
  }

  function AlarmCount(ps: seq<Packet>): nat
  {
    if ps == [] then 0
    else AlarmCount(ps[..|ps| - 1]) + if ps[|ps| - 1].timestamp != 0 && ps[|ps| - 1].score > 0 then 1 else 0
  }

  function TotalScore(ps: seq<Packet>): nat
  {
    if ps == [] then 0
    else TotalScore(ps[..|ps| - 1]) + if ps[|ps| - 1].timestamp != 0 then Clipped(ps[|ps| - 1].score) else 0
  }

  function KindOf(bulkInterval: int, p: Packet, id: nat): FrameType
  {
    if p.score > 0 then Alarmed
    else if p.state == Idle && bulkInterval > 1 && id % bulkInterval == 0 then Bulk
    else Normal
  }

  /** A row is due for a frame that is not a normal one, for the first, for one with a new best
      score, and while the monitor is in or near an alarm. */
  predicate RowDue(bulkInterval: int, best: int, p: Packet, id: nat)
  {
    || KindOf(bulkInterval, p, id) != Normal
    || id == 1
    || Clipped(p.score) > best
    || p.state == Alert || p.state == Alarm || p.state == PreAlarm
  }

  /** Whether the last packet of a history gets a row. */
  predicate GetsRow(bulkInterval: int, ps: seq<Packet>)
    requires ps != []
  {
    ps[|ps| - 1].timestamp != 0 && RowDue(bulkInterval, BestScore(ps[..|ps| - 1]), ps[|ps| - 1], FrameCount(ps))
  }

  function RowOf(bulkInterval: int, start: int, ps: seq<Packet>): Frame
    requires ps != []
  {
    var p := ps[|ps| - 1];
    Frame(FrameCount(ps), KindOf(bulkInterval, p, FrameCount(ps)), p.timestamp, p.timestamp - start, Clipped(p.score))
  }

  /** All rows of an event that has received these packets. */
  function Rows(bulkInterval: int, start: int, ps: seq<Packet>): seq<Frame>
  {
    if ps == [] then []
    else Rows(bulkInterval, start, ps[..|ps| - 1]) + if GetsRow(bulkInterval, ps) then [RowOf(bulkInterval, start, ps)] else []
  }

  /** Packets with a timestamp come no earlier than the event's start, and in order. */
  ghost predicate Chronological(start: int, ps: seq<Packet>)
  {
    && (forall i :: 0 <= i < |ps| && ps[i].timestamp != 0 ==> start <= ps[i].timestamp)
    && (forall i, j :: 0 <= i < j < |ps| && ps[i].timestamp != 0 && ps[j].timestamp != 0 ==> ps[i].timestamp <= ps[j].timestamp)
  }

  ghost predicate RowsInOrder(rows: seq<Frame>)
  {
    && (forall i :: 0 <= i < |rows| ==> 1 <= rows[i].frameId && 0 <= rows[i].delta)
    && (forall i, j :: 0 <= i < j < |rows| ==> rows[i].frameId < rows[j].frameId && rows[i].delta <= rows[j].delta)
  }

  /** No row's delta or id exceeds a bound that holds for all the packets. */
  lemma {:induction false} RowsBounded(bulkInterval: int, start: int, ps: seq<Packet>, latest: int)
    requires forall i :: 0 <= i < |ps| && ps[i].timestamp != 0 ==> start <= ps[i].timestamp <= latest
    ensures forall r :: r in Rows(bulkInterval, start, ps) ==>
      1 <= r.frameId <= FrameCount(ps) && 0 <= r.delta <= latest - start
  {
    if ps != [] {
      RowsBounded(bulkInterval, start, ps[..|ps| - 1], latest);
    }
  }

  /** Rows come in strictly increasing id order, at times that never go back. */
  lemma {:induction false} RowsAreInOrder(bulkInterval: int, start: int, ps: seq<Packet>)
    requires Chronological(start, ps)
    ensures RowsInOrder(Rows(bulkInterval, start, ps))
  {
    if ps != [] {
      var ps' := ps[..|ps| - 1];
      assert forall i :: 0 <= i < |ps'| ==> ps'[i] == ps[i];
      RowsAreInOrder(bulkInterval, start, ps');
      if GetsRow(bulkInterval, ps) {
        RowsBounded(bulkInterval, start, ps', ps[|ps| - 1].timestamp);
        RowsAppended(Rows(bulkInterval, start, ps'), RowOf(bulkInterval, start, ps));
      }
    }
  }

  /** The first row is that of frame 1. */
  lemma {:induction false} FirstRowIsFrameOne(bulkInterval: int, start: int, ps: seq<Packet>)
    ensures FrameCount(ps) == 0 ==> Rows(bulkInterval, start, ps) == []
    ensures FrameCount(ps) > 0 ==>
      Rows(bulkInterval, start, ps) != [] && Rows(bulkInterval, start, ps)[0].frameId == 1
  {
    if ps != [] {
      FirstRowIsFrameOne(bulkInterval, start, ps[..|ps| - 1]);
    }
  }

  /** A row's delta is its distance from the start. */
  lemma {:induction false} RowDelta(bulkInterval: int, start: int, ps: seq<Packet>, i: nat)
    requires i < |Rows(bulkInterval, start, ps)|
    ensures
      var r := Rows(bulkInterval, start, ps)[i];
      r.delta == r.timestamp - start
  {
    if ps != [] && i < |Rows(bulkInterval, start, ps[..|ps| - 1])| {
      RowDelta(bulkInterval, start, ps[..|ps| - 1], i);
    }
  }

  lemma RowsAppended(rows: seq<Frame>, row: Frame)
    requires RowsInOrder(rows) && 1 <= row.frameId && 0 <= row.delta
    requires forall r :: r in rows ==> r.frameId < row.frameId && r.delta <= row.delta
    ensures RowsInOrder(rows + [row])
  {
  }

  lemma OneMorePacket(bulkInterval: int, start: int, h: seq<Packet>, p: Packet)
    ensures
      var id := FrameCount(h) + 1;
      var row := Frame(id, KindOf(bulkInterval, p, id), p.timestamp, p.timestamp - start, Clipped(p.score));
      && FrameCount(h + [p]) == (if p.timestamp == 0 then FrameCount(h) else id)
      && Rows(bulkInterval, start, h + [p]) == Rows(bulkInterval, start, h)
         + if p.timestamp != 0 && RowDue(bulkInterval, BestScore(h), p, id) then [row] else []
    ensures p.timestamp != 0 ==>
      && BestScore(h + [p]) == (if Clipped(p.score) > BestScore(h) then Clipped(p.score) else BestScore(h))
      && BestFrame(h + [p]) == (if Clipped(p.score) > BestScore(h) then FrameCount(h) + 1 else BestFrame(h))
      && AlarmCount(h + [p]) == AlarmCount(h) + (if p.score > 0 then 1 else 0)
      && TotalScore(h + [p]) == TotalScore(h) + Clipped(p.score)
      && SnapshotTaken(h + [p]) == (SnapshotTaken(h) || p.hasImage)
      && AlarmImageTaken(h + [p]) == (AlarmImageTaken(h) || (p.hasImage && p.score > 0))
    ensures p.timestamp == 0 ==>
      && BestScore(h + [p]) == BestScore(h) && BestFrame(h + [p]) == BestFrame(h)
      && AlarmCount(h + [p]) == AlarmCount(h) && TotalScore(h + [p]) == TotalScore(h)
      && SnapshotTaken(h + [p]) == SnapshotTaken(h) && AlarmImageTaken(h + [p]) == AlarmImageTaken(h)
  {
    assert (h + [p])[..|h|] == h;
  }

  /** Whether the row of a frame that follows a history is to be in the database at once: a bulk
      frame, or one whose picture is saved as the snapshot or the alarm image. */
  predicate Urgent(bulkInterval: int, h: seq<Packet>, p: Packet)
  {
    || KindOf(bulkInterval, p, FrameCount(h) + 1) == Bulk
    || (p.hasImage
        && (FrameCount(h) == 0 || Clipped(p.score) > BestScore(h) || !SnapshotTaken(h)
            || (p.score > 0 && !AlarmImageTaken(h))))
  }

  /** When a queue of n rows is sent. */
  predicate FlushDue(n: nat, urgent: bool, fps: real)
  {
    urgent || n >= MAX_DB_FRAMES || (fps != 0.0 && n as real > 5.0 * fps)
  }

  /** A row that is not urgent is held back for up to a hundred rows or five seconds of them. */
  lemma HeldBackIff(n: nat, urgent: bool, fps: real)
    ensures !FlushDue(n, urgent, fps) <==> !urgent && n < 100 && (fps == 0.0 || n as real <= 5.0 * fps)
  {
  }

  // ---------------------------------------------------------------- the event

  class Event {
    const startTime: int
    const bulkInterval: int
    var frames: nat
    var alarmFrames: nat
    var totScore: nat
    var maxScore: int
    var maxScoreFrameId: nat
    var snapshotWritten: bool
    var alarmFrameWritten: bool
    var lastDbFrame: nat
    var frameData: seq<Frame>            // rows still queued
    var written: seq<Frame>              // rows sent to the database, batch after batch
    ghost var history: seq<Packet>

    ghost predicate Valid()
      reads this
    {
      && frames == FrameCount(history) && maxScore == BestScore(history) && maxScoreFrameId == BestFrame(history)
      && alarmFrames == AlarmCount(history) && totScore == TotalScore(history)
      && snapshotWritten == SnapshotTaken(history) && alarmFrameWritten == AlarmImageTaken(history)
      && written + frameData == Rows(bulkInterval, startTime, history)
      && |frameData| < MAX_DB_FRAMES
    }

    constructor (startTime: int, bulkInterval: int)
      ensures Valid() && history == []
      ensures this.startTime == startTime && this.bulkInterval == bulkInterval
    {
      this.startTime, this.bulkInterval := startTime, bulkInterval;
      frames, alarmFrames, totScore, maxScore, maxScoreFrameId := 0, 0, 0, -1, 0;
      snapshotWritten, alarmFrameWritten, lastDbFrame := false, false, 0;
      frameData, written, history := [], [], [];
    }

    /** Sends the whole queue as one batch. */
    method WriteDbFrames()
      modifies `frameData, `written
      ensures frameData == [] && written == old(written + frameData)
    {
      while |frameData| > 0
        invariant written + frameData == old(written + frameData)
        decreases |frameData|
      {
        var frame := frameData[0];
        frameData := frameData[1..];
        written := written + [frame];
      }
    }

    /** Decides which pictures of this frame are saved as the event's snapshot or alarm image, and
        with that whether its row is urgent. */
    method SavePictures(packet: Packet, kind: FrameType, score: nat) returns (writeToDb: bool)
      modifies `snapshotWritten, `alarmFrameWritten
      ensures snapshotWritten == (old(snapshotWritten) || packet.hasImage)
      ensures alarmFrameWritten == (old(alarmFrameWritten) || (packet.hasImage && kind == Alarmed))
      ensures writeToDb <==> (packet.hasImage
        && (frames == 1 || score > maxScore || !old(snapshotWritten) || (kind == Alarmed && !old(alarmFrameWritten))))
    {
      writeToDb := false;
      if packet.hasImage {
        if frames == 1 || score > maxScore || !snapshotWritten {
          writeToDb := true;
          snapshotWritten := true;
        }
        if kind == Alarmed && !alarmFrameWritten {
          writeToDb := true;
          alarmFrameWritten := true;
        }
      }
    }

    method QueueRow(row: Frame, urgent: bool, fps: real)
      requires |frameData| < MAX_DB_FRAMES
      modifies `frameData, `written, `lastDbFrame
      ensures written + frameData == old(written + frameData) + [row] && |frameData| < MAX_DB_FRAMES
      ensures frameData == if FlushDue(old(|frameData|) + 1, urgent, fps) then [] else old(frameData) + [row]
    {
      frameData := frameData + [row];
      assert written + frameData == old(written + frameData) + [row];
      if urgent || |frameData| >= MAX_DB_FRAMES || (fps != 0.0 && (|frameData| as real) > 5.0 * fps) {
        WriteDbFrames();
        lastDbFrame := frames;
      }
    }

    /** Counts a frame and its score; tells whether it gets a row, and whether that is urgent. */
    method NoteFrame(packet: Packet) returns (kind: FrameType, score: nat, dbFrame: bool, urgent: bool)
      modifies `frames, `alarmFrames, `totScore, `maxScore, `maxScoreFrameId, `snapshotWritten, `alarmFrameWritten
      ensures frames == old(frames) + 1 && kind == KindOf(bulkInterval, packet, frames) && score == Clipped(packet.score)
      ensures alarmFrames == old(alarmFrames) + (if packet.score > 0 then 1 else 0)
      ensures totScore == old(totScore) + score
      ensures maxScore == if score > old(maxScore) then score else old(maxScore)
      ensures maxScoreFrameId == if score > old(maxScore) then frames else old(maxScoreFrameId)
      ensures snapshotWritten == (old(snapshotWritten) || packet.hasImage)
      ensures alarmFrameWritten == (old(alarmFrameWritten) || (packet.hasImage && packet.score > 0))
      ensures urgent == (kind == Bulk || (packet.hasImage
                         && (frames == 1 || score > old(maxScore) || !old(snapshotWritten)
                             || (packet.score > 0 && !old(alarmFrameWritten)))))
      ensures dbFrame <==> RowDue(bulkInterval, old(maxScore), packet, frames)
    {
      frames := frames + 1;
      kind := KindOf(bulkInterval, packet, frames);
      if kind == Alarmed {
        alarmFrames := alarmFrames + 1;
      }
      score := if packet.score < 0 then 0 else packet.score;
      totScore := totScore + score;
      var writeToDb := SavePictures(packet, kind, score);
      urgent := writeToDb || kind == Bulk;
      dbFrame := kind == Bulk || kind == Alarmed || frames == 1 || score > maxScore
                 || packet.state == Alert || packet.state == Alarm || packet.state == PreAlarm;
      if score > maxScore {
        maxScore := score;
        maxScoreFrameId := frames;
      }
    }

    method AddFrame(packet: Packet)
      requires Valid()
      modifies this
      ensures Valid() && history == old(history) + [packet]
      ensures frameData ==
        if packet.timestamp == 0 || !GetsRow(bulkInterval, history) then old(frameData)
        else if FlushDue(old(|frameData|) + 1, Urgent(bulkInterval, old(history), packet), packet.fps) then []
        else old(frameData) + [RowOf(bulkInterval, startTime, history)]
    {
      OneMorePacket(bulkInterval, startTime, history, packet);
      if packet.timestamp == 0 {
        history := history + [packet];
        return;
      }
      var kind, score, dbFrame, urgent := NoteFrame(packet);
      if dbFrame {
        QueueRow(Frame(frames, kind, packet.timestamp, packet.timestamp - startTime, score), urgent, packet.fps);
      }
      history := history + [packet];
    }

    /** The flush when the event is closed: every row of the event has been sent. */
    method Close()
      requires Valid()
      modifies `frameData, `written
      ensures Valid() && frameData == [] && written == Rows(bulkInterval, startTime, history)
    {
      if |frameData| > 0 {
        WriteDbFrames();
      }
    }
  }
}
