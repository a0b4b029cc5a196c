/** Where a restarted input continues, to the tick, and which packets are turned away for jumping
    back. */
module LoopJoins {
  import opened LoopReader
  import opened Wrappers

  /** How long the packet is shown: what it says, or else what the last one before it said. */
  function FrameOf(p: Packet, earlier: int): int
  {
    if p.duration > 0 then p.duration else earlier
  }

  /** The next packet to be read of the input whose turn it is. */
  predicate Reads(c: Config, s: State, readSecond: bool, p: Packet)
  {
    var src := if c.second.Some? && c.audio.Some? && readSecond then Second else Main;
    s.PosOf(src) < |c.InputOf(src).packets| && p == c.InputOf(src).packets[s.PosOf(src)]
  }

  /** A packet read in a looped session is taken to be of the video if it has the video's index, else
      of the audio if it has the audio's. That stream's frame duration becomes the packet's; no offset
      changes. */
  lemma FrameDurationsNoted(c: Config, s: State, readSecond: bool, p: Packet)
    requires c.loop && Reads(c, s, readSecond, p)
    requires p.streamIndex == c.video.index || (c.audio.Some? && p.streamIndex == c.audio.value.index)
    ensures
      var t, ofVideo := Capture(c, s, readSecond).0, p.streamIndex == c.video.index;
      && t.videoTrack.offset == s.videoTrack.offset && t.audioTrack.offset == s.audioTrack.offset
      && t.videoTrack.frameDuration == (if ofVideo then FrameOf(p, s.videoTrack.frameDuration) else s.videoTrack.frameDuration)
      && t.audioTrack.frameDuration == (if ofVideo then s.audioTrack.frameDuration else FrameOf(p, s.audioTrack.frameDuration))
  {
  }

  /** A packet that is delivered goes out at its own dts plus the offset of its stream, and that is
      the dts remembered. */
  lemma DtsRemembered(c: Config, s: State, readSecond: bool, p: Packet)
    requires c.loop && Reads(c, s, readSecond, p) && p.dts.Some? && Capture(c, s, readSecond).1.Delivered?
    ensures p.streamIndex == c.video.index ==>
      && Capture(c, s, readSecond).0.videoTrack.lastDts == Some(p.dts.value + s.videoTrack.offset)
      && Capture(c, s, readSecond).0.audioTrack.lastDts == s.audioTrack.lastDts
    ensures p.streamIndex != c.video.index && c.audio.Some? && p.streamIndex == c.audio.value.index ==>
      && Capture(c, s, readSecond).0.audioTrack.lastDts == Some(p.dts.value + s.audioTrack.offset)
      && Capture(c, s, readSecond).0.videoTrack.lastDts == s.videoTrack.lastDts
  {
  }

  /** The last packet of a pass is delivered and then the first of the next one. */
  predicate Joins(c: Config, s: State, readSecond: bool, p: Packet, q: Packet)
  {
    var src := if c.second.Some? && c.audio.Some? && readSecond then Second else Main;
    && c.loop && c.InputOf(src).seekable && Reads(c, s, readSecond, p)
    && s.PosOf(src) + 1 == |c.InputOf(src).packets| && q == c.InputOf(src).packets[0]
    && p.dts.Some? && q.dts.Some?
    && Capture(c, s, readSecond).1.Delivered?
    && Capture(c, Capture(c, s, readSecond).0, readSecond).1.Delivered?
  }

  /** Where the last packet of a pass and the first of the next are of the video: the first goes out
      one frame of the last one later, and later still by as much as it lies after the start time. */
  lemma VideoJoin(c: Config, s: State, p: Packet, q: Packet)
    requires Joins(c, s, false, p, q) && p.streamIndex == q.streamIndex == c.video.index
    ensures
      var dts := p.dts.value + s.videoTrack.offset;
      Capture(c, Capture(c, s, false).0, false).0.videoLog ==
        s.videoLog + [dts]
        + [dts + FrameOf(p, s.videoTrack.frameDuration) + (q.dts.value - StartOf(c.video))]
  {
    FrameDurationsNoted(c, s, false, p);
    DtsRemembered(c, s, false, p);
    var t := Capture(c, s, false).0;
    assert t.videoLog == s.videoLog + [p.dts.value + s.videoTrack.offset];
  }

  /** The same of the audio, on the input that carries it. */
  lemma AudioJoin(c: Config, s: State, p: Packet, q: Packet)
    requires c.audio.Some? && c.audio.value.index != c.video.index && Joins(c, s, c.second.Some?, p, q)
    requires p.streamIndex == q.streamIndex == c.audio.value.index
    ensures
      var dts := p.dts.value + s.audioTrack.offset;
      Capture(c, Capture(c, s, c.second.Some?).0, c.second.Some?).0.audioLog ==
        s.audioLog + [dts]
        + [dts + FrameOf(p, s.audioTrack.frameDuration) + (q.dts.value - StartOf(c.audio.value))]
  {
    FrameDurationsNoted(c, s, c.second.Some?, p);
    DtsRemembered(c, s, c.second.Some?, p);
    var t := Capture(c, s, c.second.Some?).0;
    assert t.audioLog == s.audioLog + [p.dts.value + s.audioTrack.offset];
  }

  /** Whatever lies between the last packet of a stream and the restart, the restart sets the stream's
      offset so that the stream's start time comes one frame after the last dts. */
  lemma StartComesOneFrameLater(c: Config, s: State, src: Source)
    requires c.Open(src)
    ensures
      var t := Restart(c, s, src);
      && (src == Main && s.videoTrack.lastDts.Some? ==>
            StartOf(c.video) + t.videoTrack.offset == s.videoTrack.lastDts.value + s.videoTrack.frameDuration)
      && (c.audio.Some? && src == (if c.second.Some? then Second else Main) && s.audioTrack.lastDts.Some? ==>
            StartOf(c.audio.value) + t.audioTrack.offset == s.audioTrack.lastDts.value + s.audioTrack.frameDuration)
      && (src == Second ==> t.videoTrack == s.videoTrack && t.mainPos == s.mainPos)
      && (src == Main && c.second.Some? ==> t.audioTrack == s.audioTrack && t.secondPos == s.secondPos)
      && t.PosOf(src) == 0 && t.videoLog == s.videoLog && t.audioLog == s.audioLog
  {
  }

  /** A packet of the video that lies more than ten seconds before the last one is turned away: the
      first six are dropped, and after that it is an error. Nothing goes out, and no dts is
      remembered. */
  lemma VideoJumpTurnedAway(c: Config, s: State, p: Packet)
    requires c.loop && Reads(c, s, false, p) && p.streamIndex == c.video.index
    requires p.dts.Some? && s.videoTrack.lastDts.Some?
    ensures
      var back := s.videoTrack.lastDts.value - (p.dts.value + s.videoTrack.offset);
      var (t, result) := Capture(c, s, false);
      && (back > 10 * c.video.den ==>
            && !result.Delivered? && t.videoLog == s.videoLog && t.videoTrack.lastDts == s.videoTrack.lastDts
            && (p.pts.None? ==> result == (if s.errorCount <= 5 then Dropped else Error))
            && (result.Dropped? ==> t.errorCount == s.errorCount + 1))
      && (back <= 10 * c.video.den && (p.pts.None? || s.videoTrack.lastPts < 0) ==>
            result.Delivered? && t.errorCount == s.errorCount)
  {
  }

  /** And one whose presentation time lies more than ten seconds before that of the last one. */
  lemma VideoPtsJumpTurnedAway(c: Config, s: State, p: Packet)
    requires c.loop && Reads(c, s, false, p) && p.streamIndex == c.video.index
    requires p.pts.Some? && s.videoTrack.lastPts >= 0
    ensures
      var pts := p.pts.value + s.videoTrack.offset;
      var (t, result) := Capture(c, s, false);
      && (pts < 0 ==> result.Error?)
      && (0 <= pts < s.videoTrack.lastPts - 10 * c.video.den ==>
            result == (if s.errorCount <= 5 then Dropped else Error) && t.videoLog == s.videoLog)
      && (pts >= 0 && pts >= s.videoTrack.lastPts - 10 * c.video.den && p.dts.None? ==> result.Delivered?)
  {
  }
}
