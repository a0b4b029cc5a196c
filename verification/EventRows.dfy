/** The rows and counters of an event in terms of its packets and their positions, without the
    running values that recording keeps. */
module EventRows {
  import opened EventWriter

  /** Packet i is recorded as a frame. */
  predicate Counts(ps: seq<Packet>, i: int)
  {
    0 <= i < |ps| && ps[i].timestamp != 0
  }

  function AtLeastZero(score: int): nat { if score > 0 then score else 0 }

  /** The first i packets hold none that scores as much as this. */
  ghost predicate Tops(ps: seq<Packet>, i: int, score: nat)
  {
    forall j :: 0 <= j < i && Counts(ps, j) ==> AtLeastZero(ps[j].score) < score
  }

  lemma {:induction false} BestIsMaximum(ps: seq<Packet>, score: nat)
    ensures BestScore(ps) < score <==> Tops(ps, |ps|, score)
  {
    if ps != [] {
      var earlier := ps[..|ps| - 1];
      BestIsMaximum(earlier, score);
      TopsEarlier(ps, |earlier|, score);
      assert Counts(ps, |ps| - 1) <==> ps[|ps| - 1].timestamp != 0;
    }
  }

  lemma TopsEarlier(ps: seq<Packet>, n: nat, score: nat)
    requires n <= |ps|
    ensures Tops(ps[..n], n, score) <==> Tops(ps, n, score)
  {
    forall j | 0 <= j < n ensures Counts(ps[..n], j) <==> Counts(ps, j) {}
  }

  /** The id of packet i if it counts: how many do up to it. */
  function IdOf(ps: seq<Packet>, i: nat): nat
    requires i < |ps|
  {
    FrameCount(ps[..i + 1])
  }

  /** Ids number the packets that count from 1 on. */
  lemma {:induction false} IdsCount(ps: seq<Packet>, i: nat, j: nat)
    requires i < j < |ps| && Counts(ps, j)
    ensures IdOf(ps, i) < IdOf(ps, j)
    ensures (forall k :: i < k < j ==> !Counts(ps, k)) ==> IdOf(ps, j) == IdOf(ps, i) + 1
    decreases j
  {
    assert ps[..j + 1][..j] == ps[..j];
    if i + 1 < j {
      IdsGrow(ps, i, j - 1);
      if !Counts(ps, j - 1) {
        assert ps[..j][..j - 1] == ps[..j - 1];
        IdsStay(ps, i, j - 1);
      }
    }
  }

  lemma {:induction false} IdsGrow(ps: seq<Packet>, i: nat, j: nat)
    requires i <= j < |ps|
    ensures IdOf(ps, i) <= IdOf(ps, j)
    decreases j
  {
    if i < j {
      assert ps[..j + 1][..j] == ps[..j];
      IdsGrow(ps, i, j - 1);
    }
  }

  lemma {:induction false} IdsStay(ps: seq<Packet>, i: nat, j: nat)
    requires i <= j < |ps|
    ensures (forall k :: i < k <= j ==> !Counts(ps, k)) ==> IdOf(ps, j) == IdOf(ps, i)
    decreases j
  {
    if i < j {
      assert ps[..j + 1][..j] == ps[..j];
      IdsStay(ps, i, j - 1);
      assert Counts(ps, j) <==> ps[j].timestamp != 0;
    }
  }

  /** Every so many frames of a quiet monitor one is a bulk frame. */
  predicate OnInterval(bulkInterval: int, p: Packet, id: nat)
  {
    p.score <= 0 && p.state == Idle && bulkInterval > 1 && id % bulkInterval == 0
  }

  /** A packet with a timestamp gets a row if it scores, is the first frame or more of a score than
      all before it, comes while the monitor is in or near an alarm, or falls on the interval. */
  ghost predicate Recorded(bulkInterval: int, ps: seq<Packet>, i: int)
  {
    && Counts(ps, i)
    && var p := ps[i];
       || p.score > 0
       || Tops(ps, i, AtLeastZero(p.score))
       || p.state == PreAlarm || p.state == Alarm || p.state == Alert
       || OnInterval(bulkInterval, p, IdOf(ps, i))
  }

  function RowFor(bulkInterval: int, start: int, ps: seq<Packet>, i: nat): Frame
    requires i < |ps|
  {
    var p, id := ps[i], IdOf(ps, i);
    var kind := if p.score > 0 then Alarmed else if OnInterval(bulkInterval, p, id) then Bulk else Normal;
    Frame(id, kind, p.timestamp, p.timestamp - start, AtLeastZero(p.score))
  }

  ghost predicate RowOfSome(bulkInterval: int, start: int, ps: seq<Packet>, r: Frame)
  {
    exists i: nat :: i < |ps| && Recorded(bulkInterval, ps, i) && r == RowFor(bulkInterval, start, ps, i)
  }

  /** The first frame scores more than all before it, there being none. */
  lemma FirstTops(ps: seq<Packet>)
    requires ps != [] && Counts(ps, |ps| - 1) && FrameCount(ps) == 1
    ensures Tops(ps, |ps| - 1, AtLeastZero(ps[|ps| - 1].score))
  {
    NoneCount(ps[..|ps| - 1]);
    forall j | 0 <= j < |ps| - 1 ensures !Counts(ps, j) {
      assert !Counts(ps[..|ps| - 1], j);
    }
  }

  lemma {:induction false} NoneCount(ps: seq<Packet>)
    ensures FrameCount(ps) == 0 <==> forall j :: 0 <= j < |ps| ==> !Counts(ps, j)
  {
    if ps != [] {
      var earlier := ps[..|ps| - 1];
      NoneCount(earlier);
      assert forall j :: 0 <= j < |earlier| ==> Counts(earlier, j) == Counts(ps, j);
      assert Counts(ps, |ps| - 1) == (ps[|ps| - 1].timestamp != 0);
    }
  }

  lemma LastRecordedIff(bulkInterval: int, start: int, ps: seq<Packet>)
    requires ps != []
    ensures GetsRow(bulkInterval, ps) <==> Recorded(bulkInterval, ps, |ps| - 1)
    ensures GetsRow(bulkInterval, ps) ==> RowOf(bulkInterval, start, ps) == RowFor(bulkInterval, start, ps, |ps| - 1)
  {
    var p, last := ps[|ps| - 1], |ps| - 1;
    assert ps[..|ps|] == ps && IdOf(ps, last) == FrameCount(ps);
    BestIsMaximum(ps[..last], AtLeastZero(p.score));
    TopsEarlier(ps, last, AtLeastZero(p.score));
    if Counts(ps, last) && FrameCount(ps) == 1 { FirstTops(ps); }
  }

  lemma RecordedEarlier(bulkInterval: int, start: int, ps: seq<Packet>, i: nat)
    requires i < |ps| - 1
    ensures Recorded(bulkInterval, ps[..|ps| - 1], i) <==> Recorded(bulkInterval, ps, i)
    ensures RowFor(bulkInterval, start, ps[..|ps| - 1], i) == RowFor(bulkInterval, start, ps, i)
  {
    var earlier := ps[..|ps| - 1];
    assert earlier[..i + 1] == ps[..i + 1] && earlier[..i] == ps[..i];
    TopsEarlier(earlier, i, AtLeastZero(ps[i].score));
    TopsEarlier(ps, i, AtLeastZero(ps[i].score));
  }

  lemma RowOfSomeIff(bulkInterval: int, start: int, ps: seq<Packet>, r: Frame)
    requires ps != []
    ensures RowOfSome(bulkInterval, start, ps, r) <==>
      || RowOfSome(bulkInterval, start, ps[..|ps| - 1], r)
      || (Recorded(bulkInterval, ps, |ps| - 1) && r == RowFor(bulkInterval, start, ps, |ps| - 1))
  {
    forall i: nat | i < |ps| - 1
      ensures Recorded(bulkInterval, ps[..|ps| - 1], i) <==> Recorded(bulkInterval, ps, i)
      ensures RowFor(bulkInterval, start, ps[..|ps| - 1], i) == RowFor(bulkInterval, start, ps, i)
    {
      RecordedEarlier(bulkInterval, start, ps, i);
    }
    if RowOfSome(bulkInterval, start, ps[..|ps| - 1], r) {
      var i: nat :| i < |ps| - 1 && Recorded(bulkInterval, ps[..|ps| - 1], i)
                    && r == RowFor(bulkInterval, start, ps[..|ps| - 1], i);
      assert Recorded(bulkInterval, ps, i);
    }
  }

  /** The rows of an event are exactly those of the packets that are to be recorded. With their order
      this is the whole list. */
  lemma {:induction false} RowsIff(bulkInterval: int, start: int, ps: seq<Packet>, r: Frame)
    ensures r in Rows(bulkInterval, start, ps) <==> RowOfSome(bulkInterval, start, ps, r)
  {
    if ps != [] {
      RowsIff(bulkInterval, start, ps[..|ps| - 1], r);
      RowOfSomeIff(bulkInterval, start, ps, r);
      LastRecordedIff(bulkInterval, start, ps);
    }
  }

  // ---------------------------------------------------------------- counters

  function AlarmRows(rows: seq<Frame>): nat
  {
    if rows == [] then 0 else AlarmRows(rows[..|rows| - 1]) + if rows[|rows| - 1].kind == Alarmed then 1 else 0
  }

  function RowScores(rows: seq<Frame>): nat
  {
    if rows == [] then 0 else RowScores(rows[..|rows| - 1]) + rows[|rows| - 1].score
  }

  lemma RowsSnoc(rows: seq<Frame>, r: Frame)
    ensures AlarmRows(rows + [r]) == AlarmRows(rows) + if r.kind == Alarmed then 1 else 0
    ensures RowScores(rows + [r]) == RowScores(rows) + r.score
  {
    assert (rows + [r])[..|rows|] == rows;
  }

  /** The alarm frames and the total score of an event are those of its rows: no frame that scores is
      without one. */
  lemma {:induction false} CountersAreOfRows(bulkInterval: int, start: int, ps: seq<Packet>)
    ensures AlarmCount(ps) == AlarmRows(Rows(bulkInterval, start, ps))
    ensures TotalScore(ps) == RowScores(Rows(bulkInterval, start, ps))
  {
    if ps != [] {
      var earlier, row := Rows(bulkInterval, start, ps[..|ps| - 1]), RowOf(bulkInterval, start, ps);
      CountersAreOfRows(bulkInterval, start, ps[..|ps| - 1]);
      if GetsRow(bulkInterval, ps) {
        assert Rows(bulkInterval, start, ps) == earlier + [row];
        RowsSnoc(earlier, row);
      } else {
        assert Rows(bulkInterval, start, ps) == earlier;
      }
    }
  }

  /** The frame named as the best has a row, with the best score; no frame has a higher one, and none
      before it as high a one. */
  lemma {:induction false} BestFrameHasRow(bulkInterval: int, start: int, ps: seq<Packet>) returns (i: nat)
    requires FrameCount(ps) > 0
    ensures i < |ps| && Recorded(bulkInterval, ps, i) && IdOf(ps, i) == BestFrame(ps)
    ensures RowFor(bulkInterval, start, ps, i) in Rows(bulkInterval, start, ps)
    ensures AtLeastZero(ps[i].score) == BestScore(ps) && Tops(ps, i, AtLeastZero(ps[i].score))
    ensures forall j :: Counts(ps, j) ==> AtLeastZero(ps[j].score) <= BestScore(ps)
  {
    var last, earlier := ps[|ps| - 1], ps[..|ps| - 1];
    if last.timestamp != 0 && Clipped(last.score) > BestScore(earlier) {
      i := |ps| - 1;
      assert ps[..|ps|] == ps;
      BestIsMaximum(earlier, AtLeastZero(last.score));
      TopsEarlier(ps, i, AtLeastZero(last.score));
    } else {
      if FrameCount(earlier) == 0 { BestOfNone(earlier); }
      i := BestFrameHasRow(bulkInterval, start, earlier);
      RecordedEarlier(bulkInterval, start, ps, i);
      assert earlier[..i + 1] == ps[..i + 1];
      TopsEarlier(earlier, i, AtLeastZero(ps[i].score));
      TopsEarlier(ps, i, AtLeastZero(ps[i].score));
    }
    RowsIff(bulkInterval, start, ps, RowFor(bulkInterval, start, ps, i));
    BestIsMaximum(ps, AtLeastZero(BestScore(ps) + 1));
  }

  lemma {:induction false} BestOfNone(ps: seq<Packet>)
    requires FrameCount(ps) == 0
    ensures BestScore(ps) == -1
  {
    if ps != [] { BestOfNone(ps[..|ps| - 1]); }
  }

  // ---------------------------------------------------------------- what is sent at once

  /** None of the packets is a frame with a picture, or with one of an alarm. */
  ghost predicate NoPicture(ps: seq<Packet>, alarmed: bool)
  {
    forall j :: Counts(ps, j) ==> !(ps[j].hasImage && (!alarmed || ps[j].score > 0))
  }

  lemma {:induction false} PicturesTaken(ps: seq<Packet>)
    ensures SnapshotTaken(ps) <==> !NoPicture(ps, false)
    ensures AlarmImageTaken(ps) <==> !NoPicture(ps, true)
  {
    if ps != [] {
      var earlier := ps[..|ps| - 1];
      PicturesTaken(earlier);
      assert forall j :: Counts(earlier, j) ==> Counts(ps, j) && ps[j] == earlier[j];
      assert forall j :: Counts(ps, j) && j < |ps| - 1 ==> Counts(earlier, j);
      assert Counts(ps, |ps| - 1) == (ps[|ps| - 1].timestamp != 0);
    }
  }

  /** A row is sent to the database at once if it is that of a bulk frame, or of one that comes with
      the first picture, the first one of an alarm, or a picture with a new best score. */
  lemma UrgentIff(bulkInterval: int, h: seq<Packet>, p: Packet)
    requires p.timestamp != 0
    ensures Urgent(bulkInterval, h, p) <==>
      || OnInterval(bulkInterval, p, FrameCount(h) + 1)
      || (p.hasImage && (NoPicture(h, false) || (p.score > 0 && NoPicture(h, true)) || Tops(h, |h|, AtLeastZero(p.score))))
  {
    PicturesTaken(h);
    BestIsMaximum(h, AtLeastZero(p.score));
    if FrameCount(h) == 0 { NoneCount(h); }
  }
}
