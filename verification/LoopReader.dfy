/** Reading packets from a file that is looped: per-stream offsets keep the delivered timestamps
    increasing over any number of restarts. */
module LoopReader {

  import opened Wrappers

  /** AV_NOPTS_VALUE is None. */
  datatype Packet = Packet(streamIndex: int, pts: Option<int>, dts: Option<int>, duration: int)

  /** One open input: its packets in read order, and whether it can be sought back to the start. */
  datatype Input = Input(packets: seq<Packet>, seekable: bool)

  /** A stream of an input, as opened. den is the denominator of its time base. */
  datatype Stream = Stream(index: int, start: Option<int>, den: nat)

  /** What the camera keeps per stream. */
  datatype Track = Track(offset: int, frameDuration: int, lastDts: Option<int>, lastPts: int, firstPts: Option<int>)

  datatype Source = Main | Second

  datatype Result = Delivered | Dropped | Error

  function StartOf(stream: Stream): int
  {
    if stream.start.Some? then stream.start.value else 0
  }

  function Shift(t: Option<int>, shift: int): Option<int>
  {
    if t.Some? then Some(t.value + shift) else None
  }

  function Shifted(p: Packet, shift: int): Packet
  {
    p.(pts := Shift(p.pts, shift), dts := Shift(p.dts, shift))
  }

  /** The offset a restart gives a stream: the next packet is to follow one frame after the last. */
  function RestartTrack(track: Track, stream: Stream): Track
  {
    if track.lastDts.None? then track
    else track.(offset := track.lastDts.value + track.frameDuration - StartOf(stream))
  }

  /** A packet read after a restart comes after everything delivered before it exactly when its own
      dts is above the stream's start time less one frame. */
  lemma RestartIncreasesIff(track: Track, stream: Stream, dts: int)
    requires track.lastDts.Some?
    ensures track.lastDts.value < dts + RestartTrack(track, stream).offset <==> StartOf(stream) - track.frameDuration < dts
  {
  }

  // ---------------------------------------------------------------- what is assumed of the file

  predicate Increasing(s: seq<int>)
  {
    forall i, j :: 0 <= i < j < |s| ==> s[i] < s[j]
  }

  /** A packet of the stream that has a dts. */
  predicate Of(p: Packet, stream: Stream)
  {
    p.streamIndex == stream.index && p.dts.Some?
  }

  /** Within one pass the dts of the stream increase and are never below its start time. */
  ghost predicate GoodStream(packets: seq<Packet>, stream: Stream)
  {
    && (forall i :: 0 <= i < |packets| && Of(packets[i], stream) ==>
          StartOf(stream) <= packets[i].dts.value)
    && (forall i, j ::
          0 <= i < j < |packets| && Of(packets[i], stream) && Of(packets[j], stream)
          ==> packets[i].dts.value < packets[j].dts.value)
  }

  /** Everything still to be read of the stream will come after what was delivered last. */
  ghost predicate Ahead(packets: seq<Packet>, pos: nat, stream: Stream, track: Track, offset: int)
  {
    track.lastDts.Some? ==>
      forall i :: pos <= i < |packets| && Of(packets[i], stream) ==>
        track.lastDts.value < packets[i].dts.value + offset
  }

  ghost predicate LogOk(log: seq<int>, track: Track)
  {
    && Increasing(log)
    && 0 < track.frameDuration
    && (track.lastDts.Some? <==> log != [])
    && (log != [] ==> track.lastDts.value == log[|log| - 1])
  }

  // ---------------------------------------------------------------- one capture

  /** What does not change while the inputs are open. */
  datatype Config = Config(loop: bool, main: Input, second: Option<Input>, video: Stream, audio: Option<Stream>)
  {
    /** The input that carries the audio stream. */
    function AudioSource(): Source { if second.Some? then Second else Main }

    predicate Open(src: Source) { src == Main || second.Some? }

    function InputOf(src: Source): Input
      requires Open(src)
    {
      if src == Main then main else second.value
    }

    predicate IsVideo(src: Source, p: Packet) { src == Main && p.streamIndex == video.index }

    predicate IsAudio(src: Source, p: Packet)
    {
      audio.Some? && src == AudioSource() && p.streamIndex == audio.value.index
    }

    predicate HasVideoIndex(p: Packet) { p.streamIndex == video.index }

    predicate HasAudioIndex(p: Packet) { audio.Some? && p.streamIndex == audio.value.index }
  }

  /** Read positions, the two tracks, and the dts delivered so far on each stream. */
  datatype State = State(
    mainPos: nat, secondPos: nat, videoTrack: Track, audioTrack: Track, errorCount: nat,
    videoLog: seq<int>, audioLog: seq<int>)
  {
    function PosOf(src: Source): nat { if src == Main then mainPos else secondPos }

    function At(src: Source, pos: nat): State
    {
      if src == Main then this.(mainPos := pos) else this.(secondPos := pos)
    }
  }

  /** loopSeekToStart: the streams carried by this input get new offsets. */
  function Restart(c: Config, s: State, src: Source): State
  {
    s.At(src, 0).(
      videoTrack := if src == Main then RestartTrack(s.videoTrack, c.video) else s.videoTrack,
      audioTrack := if c.audio.Some? && src == c.AudioSource() then RestartTrack(s.audioTrack, c.audio.value)
                    else s.audioTrack)
  }

  /** readFrameWithLoop: the next packet, from the start again at the end of a looped input. */
  function Read(c: Config, s: State, src: Source): (State, Option<Packet>)
    requires c.Open(src)
  {
    var packets := c.InputOf(src).packets;
    if s.PosOf(src) < |packets| then (s.At(src, s.PosOf(src) + 1), Some(packets[s.PosOf(src)]))
    else if c.loop && c.InputOf(src).seekable then
      var t := Restart(c, s, src);
      if packets == [] then (t, None) else (t.At(src, 1), Some(packets[0]))
    else (s, None)
  }

  /** The shift of a packet in loop mode; tracks are told apart by stream index alone. */
  function ShiftOf(c: Config, s: State, p: Packet): int
  {
    if !c.loop then 0
    else if c.HasVideoIndex(p) then s.videoTrack.offset
    else if c.HasAudioIndex(p) then s.audioTrack.offset
    else 0
  }

  function NoteDuration(c: Config, s: State, p: Packet): State
  {
    if !c.loop || p.duration <= 0 then s
    else if c.HasVideoIndex(p) then s.(videoTrack := s.videoTrack.(frameDuration := p.duration))
    else if c.HasAudioIndex(p) then s.(audioTrack := s.audioTrack.(frameDuration := p.duration))
    else s
  }

  function DenOf(c: Config, src: Source, p: Packet): nat
  {
    if src == Main && c.HasVideoIndex(p) then c.video.den
    else if c.audio.Some? then c.audio.value.den
    else c.video.den
  }

  function JumpError(s: State): (State, Result)
  {
    if s.errorCount > 5 then (s, Error) else (s.(errorCount := s.errorCount + 1), Dropped)
  }

  /** The checks and bookkeeping for a packet whose timestamps have been shifted. */
  function Deliver(c: Config, s: State, src: Source, q: Packet): (State, Result)
  {
    var lastPts := if src == Main && c.HasVideoIndex(q) then s.videoTrack.lastPts else s.audioTrack.lastPts;
    var den := DenOf(c, src, q);
    var lastDts := if c.HasVideoIndex(q) then s.videoTrack.lastDts else s.audioTrack.lastDts;
    if q.pts.Some? && lastPts >= 0 && q.pts.value < 0 then (s, Error)
    else if q.pts.Some? && lastPts >= 0 && q.pts.value - lastPts < -10 * den then JumpError(s)
    else if q.dts.Some? && lastDts.Some? && q.dts.value - lastDts.value < -10 * den then JumpError(s)
    else (Remember(c, s, src, q), Delivered)
  }

  function RememberPts(track: Track, pts: Option<int>): Track
  {
    if pts.None? then track
    else
      var first := if track.firstPts.Some? then track.firstPts.value else pts.value;
      track.(firstPts := Some(first), lastPts := pts.value - first)
  }

  function RememberDts(track: Track, dts: Option<int>): Track
  {
    if dts.Some? then track.(lastDts := dts) else track
  }

  function Remember(c: Config, s: State, src: Source, q: Packet): State
  {
    var v := if c.IsVideo(src, q) then RememberPts(s.videoTrack, q.pts) else s.videoTrack;
    var a := if !c.IsVideo(src, q) && c.IsAudio(src, q) then RememberPts(s.audioTrack, q.pts) else s.audioTrack;
    s.(videoTrack := if c.HasVideoIndex(q) then RememberDts(v, q.dts) else v,
       audioTrack := if !c.HasVideoIndex(q) && c.HasAudioIndex(q) then RememberDts(a, q.dts) else a,
       videoLog := if c.IsVideo(src, q) && q.dts.Some? then s.videoLog + [q.dts.value] else s.videoLog,
       audioLog := if c.IsAudio(src, q) && q.dts.Some? then s.audioLog + [q.dts.value] else s.audioLog)
  }

  /** The packet that a capture hands on, when it hands one on. */
  function Outgoing(c: Config, s: State, p: Packet): Packet
  {
    Shifted(p, ShiftOf(c, s, p))
  }

  /** Capture. readSecond is the outcome of comparing how far audio and video have got. */
  function Capture(c: Config, s: State, readSecond: bool): (State, Result)
  {
    var src := if c.second.Some? && c.audio.Some? && readSecond then Second else Main;
    var (t, p) := Read(c, s, src);
    if p.None? then (t, Error)
    else if src == Main && !c.HasVideoIndex(p.value) && !c.HasAudioIndex(p.value) then (t, Dropped)
    else Deliver(c, NoteDuration(c, t, p.value), src, Outgoing(c, t, p.value))
  }

  function Run(c: Config, s: State, choices: seq<bool>): State
  {
    if choices == [] then s else Capture(c, Run(c, s, choices[..|choices| - 1]), choices[|choices| - 1]).0
  }

  // ---------------------------------------------------------------- what every run keeps

  /** Streams in order within a pass, and stream indices, which are unique only within an input,
      that do not coincide across the two inputs. */
  ghost predicate GoodFiles(c: Config)
  {
    && GoodStream(c.main.packets, c.video)
    && (c.audio.Some? ==>
          && c.audio.value.index != c.video.index
          && GoodStream(c.InputOf(c.AudioSource()).packets, c.audio.value))
    && (c.second.Some? ==>
          && (forall i :: 0 <= i < |c.second.value.packets| ==> !c.HasVideoIndex(c.second.value.packets[i]))
          && (forall i :: 0 <= i < |c.main.packets| ==> !c.HasAudioIndex(c.main.packets[i])))
  }

  function OffsetOf(c: Config, track: Track): int
  {
    if c.loop then track.offset else 0
  }

  ghost predicate VideoOk(c: Config, s: State)
  {
    LogOk(s.videoLog, s.videoTrack) && Ahead(c.main.packets, s.mainPos, c.video, s.videoTrack, OffsetOf(c, s.videoTrack))
  }

  ghost predicate AudioOk(c: Config, s: State)
  {
    && LogOk(s.audioLog, s.audioTrack)
    && (c.audio.Some? ==>
          Ahead(c.InputOf(c.AudioSource()).packets, s.PosOf(c.AudioSource()), c.audio.value, s.audioTrack,
                OffsetOf(c, s.audioTrack)))
  }

  ghost predicate Inv(c: Config, s: State)
  {
    && s.mainPos <= |c.main.packets|
    && (c.second.Some? ==> s.secondPos <= |c.second.value.packets|)
    && VideoOk(c, s) && AudioOk(c, s)
  }

  lemma RestartKeepsInv(c: Config, s: State, src: Source)
    requires GoodFiles(c) && c.loop && c.Open(src) && Inv(c, s)
    ensures Inv(c, Restart(c, s, src))
  {
    var t := Restart(c, s, src);
    assert VideoOk(c, t);
    assert AudioOk(c, t);
  }

  /** After a read, the packet read is the one position passed, and still ahead of its stream. */
  ghost predicate JustRead(c: Config, s: State, src: Source, p: Packet)
  {
    && c.Open(src) && 0 < s.PosOf(src) <= |c.InputOf(src).packets|
    && p == c.InputOf(src).packets[s.PosOf(src) - 1]
    && Inv(c, s.At(src, s.PosOf(src) - 1))
  }

  lemma ReadIsAhead(c: Config, s: State, src: Source)
    requires GoodFiles(c) && c.Open(src) && Inv(c, s)
    ensures
      var (t, p) := Read(c, s, src);
      if p.Some? then JustRead(c, t, src, p.value) else Inv(c, t)
  {
    var packets := c.InputOf(src).packets;
    if s.PosOf(src) < |packets| {
      assert s.At(src, s.PosOf(src) + 1).At(src, s.PosOf(src)) == s;
    } else if c.loop && c.InputOf(src).seekable {
      RestartKeepsInv(c, s, src);
      var t := Restart(c, s, src);
      assert t.At(src, 1).At(src, 0) == t;
    }
  }

  /** A track and its log after a packet: as before, or one dts further. */
  ghost predicate Advanced(track: Track, log: seq<int>, track': Track, log': seq<int>, dts: Option<int>)
  {
    && track'.offset == track.offset
    && (0 < track.frameDuration ==> 0 < track'.frameDuration)
    && if dts.Some? then track'.lastDts == dts && log' == log + [dts.value]
       else track'.lastDts == track.lastDts && log' == log
  }

  lemma AdvancedStaysAhead(packets: seq<Packet>, pos: nat, stream: Stream, offset: int,
                           track: Track, log: seq<int>, track': Track, log': seq<int>, dts: Option<int>)
    requires 0 < pos <= |packets| && GoodStream(packets, stream)
    requires LogOk(log, track) && Ahead(packets, pos - 1, stream, track, offset)
    requires Advanced(track, log, track', log', dts)
    requires dts.Some? ==> Of(packets[pos - 1], stream) && dts == Shift(packets[pos - 1].dts, offset)
    ensures LogOk(log', track') && Ahead(packets, pos, stream, track', offset)
  {
  }

  lemma IndicesTellStreams(c: Config, s: State, src: Source, p: Packet)
    requires GoodFiles(c) && JustRead(c, s, src, p)
    ensures c.HasVideoIndex(p) <==> c.IsVideo(src, p)
    ensures c.HasAudioIndex(p) <==> c.IsAudio(src, p)
    ensures !(c.HasVideoIndex(p) && c.HasAudioIndex(p))
  {
  }

  /** The dts that a delivered packet of a stream goes out with. */
  function SentDts(sent: bool, p: Packet, offset: int): Option<int>
  {
    if sent then Shift(p.dts, offset) else None
  }

  lemma DeliverVideoEffect(c: Config, s: State, src: Source, p: Packet)
    requires GoodFiles(c) && JustRead(c, s, src, p)
    ensures
      var (r, result) := Deliver(c, NoteDuration(c, s, p), src, Outgoing(c, s, p));
      && r.mainPos == s.mainPos
      && Advanced(s.videoTrack, s.videoLog, r.videoTrack, r.videoLog,
                  SentDts(result.Delivered? && c.IsVideo(src, p), p, OffsetOf(c, s.videoTrack)))
  {
    IndicesTellStreams(c, s, src, p);
  }

  lemma DeliverAudioEffect(c: Config, s: State, src: Source, p: Packet)
    requires GoodFiles(c) && JustRead(c, s, src, p)
    ensures
      var (r, result) := Deliver(c, NoteDuration(c, s, p), src, Outgoing(c, s, p));
      && r.mainPos == s.mainPos && r.secondPos == s.secondPos
      && Advanced(s.audioTrack, s.audioLog, r.audioTrack, r.audioLog,
                  SentDts(result.Delivered? && c.IsAudio(src, p), p, OffsetOf(c, s.audioTrack)))
  {
    IndicesTellStreams(c, s, src, p);
  }

  lemma DeliverKeepsVideo(c: Config, s: State, src: Source, p: Packet)
    requires GoodFiles(c) && JustRead(c, s, src, p)
    ensures VideoOk(c, Deliver(c, NoteDuration(c, s, p), src, Outgoing(c, s, p)).0)
  {
    var (r, result) := Deliver(c, NoteDuration(c, s, p), src, Outgoing(c, s, p));
    DeliverVideoEffect(c, s, src, p);
    if src == Main {
      AdvancedStaysAhead(c.main.packets, s.mainPos, c.video, OffsetOf(c, s.videoTrack), s.videoTrack, s.videoLog,
                         r.videoTrack, r.videoLog,
                         SentDts(result.Delivered? && c.IsVideo(src, p), p, OffsetOf(c, s.videoTrack)));
    }
  }

  lemma DeliverKeepsAudio(c: Config, s: State, src: Source, p: Packet)
    requires GoodFiles(c) && JustRead(c, s, src, p)
    ensures AudioOk(c, Deliver(c, NoteDuration(c, s, p), src, Outgoing(c, s, p)).0)
  {
    var (r, result) := Deliver(c, NoteDuration(c, s, p), src, Outgoing(c, s, p));
    DeliverAudioEffect(c, s, src, p);
    if c.audio.Some? && src == c.AudioSource() {
      AdvancedStaysAhead(c.InputOf(src).packets, s.PosOf(src), c.audio.value, OffsetOf(c, s.audioTrack),
                         s.audioTrack, s.audioLog, r.audioTrack, r.audioLog,
                         SentDts(result.Delivered? && c.IsAudio(src, p), p, OffsetOf(c, s.audioTrack)));
    }
  }

  lemma DeliverKeepsInv(c: Config, s: State, src: Source, p: Packet)
    requires GoodFiles(c) && JustRead(c, s, src, p)
    ensures Inv(c, Deliver(c, NoteDuration(c, s, p), src, Outgoing(c, s, p)).0)
  {
    DeliverAudioEffect(c, s, src, p);
    DeliverKeepsVideo(c, s, src, p);
    DeliverKeepsAudio(c, s, src, p);
  }

  /** A packet that is for neither stream moves the position only. */
  lemma IgnoredKeepsInv(c: Config, s: State, src: Source, p: Packet)
    requires JustRead(c, s, src, p)
    ensures Inv(c, s)
  {
    var before := s.At(src, s.PosOf(src) - 1);
    assert VideoOk(c, before) && AudioOk(c, before);
  }

  lemma CaptureKeepsInv(c: Config, s: State, readSecond: bool)
    requires GoodFiles(c) && Inv(c, s)
    ensures Inv(c, Capture(c, s, readSecond).0)
  {
    var src := if c.second.Some? && c.audio.Some? && readSecond then Second else Main;
    var (t, p) := Read(c, s, src);
    ReadIsAhead(c, s, src);
    if p.Some? {
      if src == Main && !c.HasVideoIndex(p.value) && !c.HasAudioIndex(p.value) {
        IgnoredKeepsInv(c, t, src, p.value);
      } else {
        DeliverKeepsInv(c, t, src, p.value);
      }
    }
  }

  /** Where indices do not meet across inputs, delivered video dts and delivered audio dts increase
      strictly over the whole run, through any number of restarts of either input. */
  lemma {:induction false} DistinctIndicesInOrder(c: Config, s: State, choices: seq<bool>)
    requires GoodFiles(c) && Inv(c, s)
    ensures Inv(c, Run(c, s, choices))
    ensures Increasing(Run(c, s, choices).videoLog) && Increasing(Run(c, s, choices).audioLog)
  {
    if choices != [] {
      DistinctIndicesInOrder(c, s, choices[..|choices| - 1]);
      CaptureKeepsInv(c, Run(c, s, choices[..|choices| - 1]), choices[|choices| - 1]);
    }
  }

  /** Presentation times keep their distance from decode times. */
  lemma OutgoingKeepsDistance(c: Config, s: State, p: Packet)
    requires p.pts.Some? && p.dts.Some?
    ensures
      var q := Outgoing(c, s, p);
      q.pts.Some? && q.dts.Some? && q.pts.value - q.dts.value == p.pts.value - p.dts.value
  {
  }

  /** A session as OpenFfmpeg leaves it: no offsets, nothing delivered, positive fallback durations. */
  function Opened(videoDuration: int, audioDuration: int): State
  {
    State(0, 0,
          Track(0, if videoDuration <= 0 then 1 else videoDuration, None, 0, None),
          Track(0, if audioDuration <= 0 then 1 else audioDuration, None, 0, None),
          0, [], [])
  }

  lemma OpenedInv(c: Config, videoDuration: int, audioDuration: int)
    ensures Inv(c, Opened(videoDuration, audioDuration))
  {
  }

  lemma RunSnoc(c: Config, s: State, choices: seq<bool>, choice: bool)
    ensures Run(c, s, choices + [choice]) == Capture(c, Run(c, s, choices), choice).0
  {
    assert (choices + [choice])[..|choices|] == choices;
  }

  // ---------------------------------------------------------------- inputs that share an index

  /** The next read of the main input starts it again, with a video packet. */
  predicate RestartsVideo(c: Config, s: State)
  {
    && c.loop && c.main.seekable && |c.main.packets| <= s.mainPos && 0 < |c.main.packets|
    && c.IsVideo(Main, c.main.packets[0]) && c.main.packets[0].dts.Some?
  }

  /** The next read of the second input gives a packet with the index of the main input's video. */
  predicate SecondHasVideoIndex(c: Config, s: State)
  {
    && c.loop && c.second.Some? && c.audio.Some? && s.secondPos < |c.second.value.packets|
    && c.HasVideoIndex(c.second.value.packets[s.secondPos]) && c.second.value.packets[s.secondPos].dts.Some?
  }

  /** The first video packet after a restart stays in order exactly when the last one delivered
      comes before the time one frame after the remembered dts, less the start time. Where the
      remembered dts is that of the last one delivered, this is RestartIncreasesIff. */
  lemma RestartInOrderIff(c: Config, s: State)
    requires RestartsVideo(c, s) && s.videoTrack.lastDts.Some?
    requires Increasing(s.videoLog) && s.videoLog != [] && Capture(c, s, false).1.Delivered?
    ensures Increasing(Capture(c, s, false).0.videoLog) <==>
      s.videoLog[|s.videoLog| - 1]
      < s.videoTrack.lastDts.value + s.videoTrack.frameDuration - StartOf(c.video) + c.main.packets[0].dts.value
  {
    var p := c.main.packets[0];
    var offset := s.videoTrack.lastDts.value + s.videoTrack.frameDuration - StartOf(c.video);
    assert Capture(c, s, false).0.videoLog == s.videoLog + [p.dts.value + offset];
    AnySnoc(s.videoLog, p.dts.value + offset);
  }

  /** A delivered packet of the second input with the video's index becomes the remembered one of
      the video track, though no video packet has gone out. */
  lemma SecondTakesOver(c: Config, s: State)
    requires SecondHasVideoIndex(c, s) && Capture(c, s, true).1.Delivered?
    ensures
      var (t, q) := (Capture(c, s, true).0, c.second.value.packets[s.secondPos]);
      && t.videoLog == s.videoLog && t.mainPos == s.mainPos
      && t.videoTrack.lastDts == Some(q.dts.value + s.videoTrack.offset)
      && t.videoTrack.frameDuration == (if q.duration > 0 then q.duration else s.videoTrack.frameDuration)
  {
  }

  /** So for every looped pair of inputs that share the index: when the second input is read just
      before the main one starts again, the video stays in order if and only if the second input's
      packet is not too far behind the video. */
  lemma SharedIndexInOrderIff(c: Config, s: State)
    requires SecondHasVideoIndex(c, s) && RestartsVideo(c, s)
    requires Increasing(s.videoLog) && s.videoLog != []
    requires Capture(c, s, true).1.Delivered? && Capture(c, Capture(c, s, true).0, false).1.Delivered?
    ensures
      var (p, q) := (c.main.packets[0], c.second.value.packets[s.secondPos]);
      var frame := if q.duration > 0 then q.duration else s.videoTrack.frameDuration;
      Increasing(Capture(c, Capture(c, s, true).0, false).0.videoLog) <==>
        s.videoLog[|s.videoLog| - 1] < q.dts.value + s.videoTrack.offset + frame - StartOf(c.video) + p.dts.value
  {
    SecondTakesOver(c, s);
    RestartInOrderIff(c, Capture(c, s, true).0);
  }

  // ------------------------------------------------- where a stream can get out of order

  datatype Kind = Video | Audio

  predicate Carried(c: Config, k: Kind) { k == Audio ==> c.audio.Some? }

  function StreamOf(c: Config, k: Kind): Stream
    requires Carried(c, k)
  {
    if k == Video then c.video else c.audio.value
  }

  function SourceOf(c: Config, k: Kind): Source { if k == Video then Main else c.AudioSource() }

  function PacketsOf(c: Config, k: Kind): seq<Packet> { c.InputOf(SourceOf(c, k)).packets }

  function PosIn(c: Config, s: State, k: Kind): nat { s.PosOf(SourceOf(c, k)) }

  function LogOf(s: State, k: Kind): seq<int> { if k == Video then s.videoLog else s.audioLog }

  /** Packets with the video's index are shifted with the video, whichever input they come from. */
  predicate ShiftedWithVideo(c: Config, k: Kind)
    requires Carried(c, k)
  {
    StreamOf(c, k).index == c.video.index
  }

  /** The offset that a packet of the stream would go out with. */
  function OffsetFor(c: Config, s: State, k: Kind): int
    requires Carried(c, k)
  {
    if !c.loop then 0 else if ShiftedWithVideo(c, k) then s.videoTrack.offset else s.audioTrack.offset
  }

  function SourceRead(c: Config, readSecond: bool): Source
  {
    if c.second.Some? && c.audio.Some? && readSecond then Second else Main
  }

  /** This capture starts that input again. */
  predicate Starts(c: Config, s: State, readSecond: bool, src: Source)
    requires c.Open(src)
  {
    && SourceRead(c, readSecond) == src
    && |c.InputOf(src).packets| <= s.PosOf(src) && c.loop && c.InputOf(src).seekable
  }

  /** It begins a new pass of a stream: its own input starts again, or the offset it goes out with
      may change because the main input does. */
  predicate BeginsPass(c: Config, s: State, readSecond: bool, k: Kind)
    requires Carried(c, k)
  {
    Starts(c, s, readSecond, SourceOf(c, k)) || (ShiftedWithVideo(c, k) && Starts(c, s, readSecond, Main))
  }

  predicate SendsOf(c: Config, s: State, readSecond: bool, k: Kind)
  {
    LogOf(Capture(c, s, readSecond).0, k) != LogOf(s, k)
  }

  /** A packet of the stream has gone out in the present pass. */
  predicate SentInPass(c: Config, s: State, choices: seq<bool>, k: Kind)
    requires Carried(c, k)
  {
    choices != [] &&
      var (before, last) := (Run(c, s, choices[..|choices| - 1]), choices[|choices| - 1]);
      SendsOf(c, before, last, k) || (SentInPass(c, s, choices[..|choices| - 1], k) && !BeginsPass(c, before, last, k))
  }

  /** The last packet of the stream that went out is one that has been read in this pass. */
  ghost predicate LastIsOfPass(c: Config, s: State, k: Kind)
    requires Carried(c, k)
  {
    && LogOf(s, k) != []
    && exists j :: 0 <= j < PosIn(c, s, k) <= |PacketsOf(c, k)| && Of(PacketsOf(c, k)[j], StreamOf(c, k))
                   && LogOf(s, k)[|LogOf(s, k)| - 1] == PacketsOf(c, k)[j].dts.value + OffsetFor(c, s, k)
  }

  lemma ReadEffect(c: Config, s: State, src: Source, k: Kind)
    requires Carried(c, k) && c.Open(src) && PosIn(c, s, k) <= |PacketsOf(c, k)|
    ensures
      var (t, p) := Read(c, s, src);
      && PosIn(c, t, k) <= |PacketsOf(c, k)| && LogOf(t, k) == LogOf(s, k)
      && (src == SourceOf(c, k) && p.Some? ==> 0 < PosIn(c, t, k) && p.value == PacketsOf(c, k)[PosIn(c, t, k) - 1])
  {
  }

  lemma ReadInPass(c: Config, s: State, readSecond: bool, k: Kind)
    requires Carried(c, k) && PosIn(c, s, k) <= |PacketsOf(c, k)| && !BeginsPass(c, s, readSecond, k)
    ensures
      var (t, p) := Read(c, s, SourceRead(c, readSecond));
      && PosIn(c, s, k) <= PosIn(c, t, k) && OffsetFor(c, t, k) == OffsetFor(c, s, k)
      && (SourceRead(c, readSecond) == SourceOf(c, k) && p.Some? ==> PosIn(c, s, k) < PosIn(c, t, k))
  {
  }

  lemma DeliverEffect(c: Config, t: State, src: Source, p: Packet, k: Kind)
    requires Carried(c, k)
    ensures
      var r := Deliver(c, NoteDuration(c, t, p), src, Outgoing(c, t, p)).0;
      && PosIn(c, r, k) == PosIn(c, t, k) && OffsetFor(c, r, k) == OffsetFor(c, t, k)
      && (LogOf(r, k) == LogOf(t, k)
          || (src == SourceOf(c, k) && Of(p, StreamOf(c, k))
              && LogOf(r, k) == LogOf(t, k) + [p.dts.value + OffsetFor(c, t, k)]))
  {
  }

  /** What a capture does to a stream: a packet that goes out is the one just read, shifted by the
      offset of its pass, which nothing but a restart changes. */
  ghost predicate StreamStep(c: Config, s: State, t: State, begins: bool, k: Kind)
    requires Carried(c, k)
  {
    && PosIn(c, t, k) <= |PacketsOf(c, k)|
    && (LogOf(t, k) != LogOf(s, k) ==>
          && 0 < PosIn(c, t, k) && Of(PacketsOf(c, k)[PosIn(c, t, k) - 1], StreamOf(c, k))
          && LogOf(t, k) == LogOf(s, k) + [PacketsOf(c, k)[PosIn(c, t, k) - 1].dts.value + OffsetFor(c, t, k)])
    && (!begins ==>
          && PosIn(c, s, k) <= PosIn(c, t, k) && OffsetFor(c, t, k) == OffsetFor(c, s, k)
          && (LogOf(t, k) != LogOf(s, k) ==> PosIn(c, s, k) < PosIn(c, t, k)))
  }

  /** A read from s to t with what it gave: the first half of a capture. */
  ghost predicate ReadStep(c: Config, s: State, t: State, src: Source, p: Option<Packet>, begins: bool, k: Kind)
    requires Carried(c, k)
  {
    && PosIn(c, t, k) <= |PacketsOf(c, k)| && LogOf(t, k) == LogOf(s, k)
    && (src == SourceOf(c, k) && p.Some? ==> 0 < PosIn(c, t, k) && p.value == PacketsOf(c, k)[PosIn(c, t, k) - 1])
    && (!begins ==>
          && PosIn(c, s, k) <= PosIn(c, t, k) && OffsetFor(c, t, k) == OffsetFor(c, s, k)
          && (src == SourceOf(c, k) && p.Some? ==> PosIn(c, s, k) < PosIn(c, t, k)))
  }

  /** The packet read is sent, or not, and nothing else of the stream changes: the second half. */
  ghost predicate SendStep(c: Config, t: State, r: State, src: Source, p: Option<Packet>, k: Kind)
    requires Carried(c, k)
  {
    && PosIn(c, r, k) == PosIn(c, t, k) && OffsetFor(c, r, k) == OffsetFor(c, t, k)
    && (LogOf(r, k) == LogOf(t, k)
        || (p.Some? && src == SourceOf(c, k) && Of(p.value, StreamOf(c, k))
            && LogOf(r, k) == LogOf(t, k) + [p.value.dts.value + OffsetFor(c, t, k)]))
  }

  lemma HalvesMakeStep(c: Config, s: State, t: State, r: State, src: Source, p: Option<Packet>, begins: bool, k: Kind)
    requires Carried(c, k) && ReadStep(c, s, t, src, p, begins, k) && SendStep(c, t, r, src, p, k)
    ensures StreamStep(c, s, r, begins, k)
  {
  }

  lemma CaptureSends(c: Config, s: State, readSecond: bool, k: Kind)
    requires Carried(c, k)
    ensures
      var (t, p) := Read(c, s, SourceRead(c, readSecond));
      SendStep(c, t, Capture(c, s, readSecond).0, SourceRead(c, readSecond), p, k)
  {
    var (t, p) := Read(c, s, SourceRead(c, readSecond));
    if p.Some? { DeliverEffect(c, t, SourceRead(c, readSecond), p.value, k); }
  }

  lemma CaptureEffect(c: Config, s: State, readSecond: bool, k: Kind)
    requires Carried(c, k) && PosIn(c, s, k) <= |PacketsOf(c, k)|
    ensures StreamStep(c, s, Capture(c, s, readSecond).0, BeginsPass(c, s, readSecond, k), k)
  {
    var src, begins := SourceRead(c, readSecond), BeginsPass(c, s, readSecond, k);
    var (t, p) := Read(c, s, src);
    ReadEffect(c, s, src, k);
    if !begins { ReadInPass(c, s, readSecond, k); }
    CaptureSends(c, s, readSecond, k);
    HalvesMakeStep(c, s, t, Capture(c, s, readSecond).0, src, p, begins, k);
  }

  /** The packet just read comes, with the offset of its pass, after the last one that went out. */
  predicate Joins(c: Config, s: State, t: State, k: Kind)
    requires Carried(c, k)
  {
    && LogOf(s, k) != [] && 0 < PosIn(c, t, k) <= |PacketsOf(c, k)|
    && PacketsOf(c, k)[PosIn(c, t, k) - 1].dts.Some?
    && LogOf(s, k)[|LogOf(s, k)| - 1] < PacketsOf(c, k)[PosIn(c, t, k) - 1].dts.value + OffsetFor(c, t, k)
  }

  /** If a capture from s to t sends a packet that is the first of its pass, though not the first of
      all, it joins on. */
  predicate JoinsIfFirst(c: Config, s: State, t: State, begins: bool, inPass: bool, k: Kind)
    requires Carried(c, k)
  {
    LogOf(t, k) != LogOf(s, k) && LogOf(s, k) != [] && (begins || !inPass) ==> Joins(c, s, t, k)
  }

  lemma AnySnoc(log: seq<int>, dts: int)
    ensures Increasing(log + [dts]) <==> Increasing(log) && (log == [] || log[|log| - 1] < dts)
  {
    var longer := log + [dts];
    assert longer[|log|] == dts && forall i :: 0 <= i < |log| ==> longer[i] == log[i];
  }

  lemma StreamStepOrder(c: Config, s: State, t: State, begins: bool, inPass: bool, k: Kind)
    requires Carried(c, k) && GoodStream(PacketsOf(c, k), StreamOf(c, k)) && StreamStep(c, s, t, begins, k)
    requires inPass ==> LastIsOfPass(c, s, k)
    ensures Increasing(LogOf(t, k)) <==> Increasing(LogOf(s, k)) && JoinsIfFirst(c, s, t, begins, inPass, k)
  {
    if LogOf(t, k) != LogOf(s, k) {
      AnySnoc(LogOf(s, k), PacketsOf(c, k)[PosIn(c, t, k) - 1].dts.value + OffsetFor(c, t, k));
    }
  }

  lemma StreamStepPass(c: Config, s: State, t: State, begins: bool, k: Kind)
    requires Carried(c, k) && StreamStep(c, s, t, begins, k)
    requires LogOf(t, k) != LogOf(s, k) || (!begins && LastIsOfPass(c, s, k))
    ensures LastIsOfPass(c, t, k)
  {
  }

  lemma {:induction false} PassKept(c: Config, s: State, choices: seq<bool>, k: Kind)
    requires Carried(c, k) && PosIn(c, s, k) <= |PacketsOf(c, k)|
    ensures PosIn(c, Run(c, s, choices), k) <= |PacketsOf(c, k)|
    ensures SentInPass(c, s, choices, k) ==> LastIsOfPass(c, Run(c, s, choices), k)
  {
    if choices != [] {
      var before, last := Run(c, s, choices[..|choices| - 1]), choices[|choices| - 1];
      PassKept(c, s, choices[..|choices| - 1], k);
      CaptureEffect(c, before, last, k);
      if SentInPass(c, s, choices, k) {
        StreamStepPass(c, before, Capture(c, before, last).0, BeginsPass(c, before, last, k), k);
      }
    }
  }

  /** Every packet of the stream that is the first of its pass comes after the one that went out
      before it, by the offset that the restart left. */
  predicate PassesJoin(c: Config, s: State, choices: seq<bool>, k: Kind)
    requires Carried(c, k)
  {
    choices == [] ||
      var (earlier, last) := (choices[..|choices| - 1], choices[|choices| - 1]);
      var before := Run(c, s, earlier);
      && PassesJoin(c, s, earlier, k)
      && JoinsIfFirst(c, before, Capture(c, before, last).0, BeginsPass(c, before, last, k),
                      SentInPass(c, s, earlier, k), k)
  }

  /** For any inputs, whatever indices they have, whose stream of this kind is in order within a
      pass of its input: over any run its delivered dts increase strictly if and only if each pass
      joins on to what went out before it. */
  lemma {:induction false} InOrderIff(c: Config, s: State, choices: seq<bool>, k: Kind)
    requires Carried(c, k) && GoodStream(PacketsOf(c, k), StreamOf(c, k))
    requires PosIn(c, s, k) <= |PacketsOf(c, k)| && LogOf(s, k) == []
    ensures Increasing(LogOf(Run(c, s, choices), k)) <==> PassesJoin(c, s, choices, k)
  {
    if choices != [] {
      var earlier, last := choices[..|choices| - 1], choices[|choices| - 1];
      var before := Run(c, s, earlier);
      InOrderIff(c, s, earlier, k);
      PassKept(c, s, earlier, k);
      CaptureEffect(c, before, last, k);
      StreamStepOrder(c, before, Capture(c, before, last).0, BeginsPass(c, before, last, k),
                      SentInPass(c, s, earlier, k), k);
    }
  }

  lemma {:induction false} NoAudioNoLog(c: Config, s: State, choices: seq<bool>)
    requires c.audio.None?
    ensures Run(c, s, choices).audioLog == s.audioLog
  {
    if choices != [] { NoAudioNoLog(c, s, choices[..|choices| - 1]); }
  }

  /** A session, for any inputs whose streams are in order within a pass: delivered video dts and
      delivered audio dts both increase strictly if and only if every pass joins on. They always do
      where indices do not meet across the two inputs. */
  lemma DeliveredDtsIncrease(c: Config, videoDuration: int, audioDuration: int, choices: seq<bool>)
    requires GoodStream(c.main.packets, c.video)
    requires c.audio.Some? ==> GoodStream(c.InputOf(c.AudioSource()).packets, c.audio.value)
    ensures
      var (first, last) := (Opened(videoDuration, audioDuration), Run(c, Opened(videoDuration, audioDuration), choices));
      && (Increasing(last.videoLog) && Increasing(last.audioLog) <==>
            PassesJoin(c, first, choices, Video) && (c.audio.Some? ==> PassesJoin(c, first, choices, Audio)))
      && (GoodFiles(c) ==> Increasing(last.videoLog) && Increasing(last.audioLog))
  {
    var first := Opened(videoDuration, audioDuration);
    InOrderIff(c, first, choices, Video);
    if c.audio.Some? { InOrderIff(c, first, choices, Audio); } else { NoAudioNoLog(c, first, choices); }
    if GoodFiles(c) {
      OpenedInv(c, videoDuration, audioDuration);
      DistinctIndicesInOrder(c, first, choices);
    }
  }

  /** With a shared index, a restart of the second input moves no offset that its audio goes out
      with: the first audio packet stays in order exactly when the video's offset has moved on far
      enough. */
  lemma AudioRestartInOrderIff(c: Config, s: State)
    requires c.audio.Some? && c.second.Some? && c.audio.value.index == c.video.index
    requires Starts(c, s, true, Second) && c.second.value.packets != []
    requires Of(c.second.value.packets[0], c.audio.value)
    requires Increasing(s.audioLog) && s.audioLog != [] && Capture(c, s, true).1.Delivered?
    ensures Increasing(Capture(c, s, true).0.audioLog) <==>
      s.audioLog[|s.audioLog| - 1] < c.second.value.packets[0].dts.value + s.videoTrack.offset
  {
    var p := c.second.value.packets[0];
    assert Capture(c, s, true).0.audioLog == s.audioLog + [p.dts.value + s.videoTrack.offset];
    AnySnoc(s.audioLog, p.dts.value + s.videoTrack.offset);
  }

  // ---------------------------------------------------------------- runs that get out of order

  /** The comparison of presentation times that decides what is read next, for time bases 1/den. */
  predicate AudioBehind(c: Config, s: State)
  {
    c.audio.Some? && s.audioTrack.lastPts * c.video.den < s.videoTrack.lastPts * c.audio.value.den
  }

  /** Every choice of the run is the one that comparison makes. */
  predicate Scheduled(c: Config, s: State, choices: seq<bool>)
  {
    choices == [] ||
      (Scheduled(c, s, choices[..|choices| - 1])
       && choices[|choices| - 1] == AudioBehind(c, Run(c, s, choices[..|choices| - 1])))
  }

  lemma ScheduledSnoc(c: Config, s: State, choices: seq<bool>, choice: bool, t: State)
    requires Scheduled(c, s, choices) && Run(c, s, choices) == t && choice == AudioBehind(c, t)
    ensures Scheduled(c, s, choices + [choice]) && Run(c, s, choices + [choice]) == Capture(c, t, choice).0
  {
    RunSnoc(c, s, choices, choice);
    assert (choices + [choice])[..|choices|] == choices;
  }

  /** A looped video of two packets, and a second input with two packets of audio, all with stream
      index 0. */
  function SharedIndex(first: Packet, second: Packet): Config
  {
    Config(true, Input([Packet(0, Some(0), Some(0), 1), Packet(0, Some(100), Some(100), 1)], true),
           Some(Input([first, second], true)), Stream(0, Some(0), 1000), Some(Stream(0, Some(0), 1000)))
  }

  const VIDEO_SENT: State := State(2, 0, Track(0, 1, Some(100), 100, Some(0)), Track(0, 1, None, 0, None), 0, [0, 100], [])

  lemma VideoSent(c: Config, first: Packet, second: Packet)
    requires c == SharedIndex(first, second)
    ensures Scheduled(c, Opened(1, 1), [] + [false] + [false]) && Run(c, Opened(1, 1), [] + [false] + [false]) == VIDEO_SENT
  {
    var one := State(1, 0, Track(0, 1, Some(0), 0, Some(0)), Track(0, 1, None, 0, None), 0, [0], []);
    assert Capture(c, Opened(1, 1), false).0 == one;
    assert Capture(c, one, false).0 == VIDEO_SENT;
    ScheduledSnoc(c, Opened(1, 1), [], false, Opened(1, 1));
    ScheduledSnoc(c, Opened(1, 1), [] + [false], false, one);
  }

  /** The first audio packet takes over the video track. */
  lemma AudioSent(c: Config, first: Packet, second: Packet, s: State)
    requires c == SharedIndex(first, second) && s == VIDEO_SENT
    requires first.streamIndex == 0 && first.pts == first.dts && first.dts.Some? && 0 <= first.dts.value <= 50
    requires first.duration == 1
    ensures Capture(c, s, true).0
         == State(2, 1, Track(0, 1, first.dts, 100, Some(0)), Track(0, 1, None, 0, first.pts), 0, [0, 100], [first.dts.value])
  {
  }

  ghost predicate InOrderWithinPass(c: Config)
  {
    GoodStream(c.main.packets, c.video) && (c.audio.Some? ==> GoodStream(c.InputOf(c.AudioSource()).packets, c.audio.value))
  }

  lemma SharedIndexGood(first: Packet, second: Packet)
    requires first.streamIndex == second.streamIndex == 0 && first.dts.Some? && second.dts.Some?
    requires 0 <= first.dts.value < second.dts.value
    ensures InOrderWithinPass(SharedIndex(first, second))
  {
  }

  const SLOW_FIRST: Packet := Packet(0, Some(5), Some(5), 1)
  const SLOW_SECOND: Packet := Packet(0, Some(105), Some(6), 1)

  lemma SlowAudioSteps(c: Config, one: State)
    requires c == SharedIndex(SLOW_FIRST, SLOW_SECOND)
    requires one == State(2, 1, Track(0, 1, Some(5), 100, Some(0)), Track(0, 1, None, 0, Some(5)), 0, [0, 100], [5])
    ensures AudioBehind(c, one)
    ensures
      var two := Capture(c, one, true).0;
      !AudioBehind(c, two) && Capture(c, two, false).0.videoLog == [0, 100, 7]
  {
    var two := Capture(c, one, true).0;
    assert two == State(2, 2, Track(0, 1, Some(6), 100, Some(0)), Track(0, 1, None, 100, Some(5)), 0, [0, 100], [5, 6]);
  }

  /** Stream indices are compared without regard to the input, so a second input whose audio has
      the video's index takes over the video track. Here each stream is in order within a pass, yet
      the video dts 0, 100 are followed by 7. */
  lemma SharedIndexBreaksOrder()
    ensures
      var c, choices := SharedIndex(SLOW_FIRST, SLOW_SECOND), [] + [false] + [false] + [true] + [true] + [false];
      InOrderWithinPass(c) && Scheduled(c, Opened(1, 1), choices) && Run(c, Opened(1, 1), choices).videoLog == [0, 100, 7]
  {
    SharedIndexGood(SLOW_FIRST, SLOW_SECOND);
    var c := SharedIndex(SLOW_FIRST, SLOW_SECOND);
    VideoSent(c, SLOW_FIRST, SLOW_SECOND);
    AudioSent(c, SLOW_FIRST, SLOW_SECOND, VIDEO_SENT);
    var one := Capture(c, VIDEO_SENT, true).0;
    SlowAudioSteps(c, one);
    ScheduledSnoc(c, Opened(1, 1), [] + [false] + [false], true, VIDEO_SENT);
    ScheduledSnoc(c, Opened(1, 1), [] + [false] + [false] + [true], true, one);
    ScheduledSnoc(c, Opened(1, 1), [] + [false] + [false] + [true] + [true], false, Capture(c, one, true).0);
  }

  const AUDIO_FIRST: Packet := Packet(0, Some(0), Some(0), 1)
  const AUDIO_SECOND: Packet := Packet(0, Some(50), Some(50), 1)

  lemma RestartedAudioSteps(c: Config, one: State)
    requires c == SharedIndex(AUDIO_FIRST, AUDIO_SECOND)
    requires one == State(2, 1, Track(0, 1, Some(0), 100, Some(0)), Track(0, 1, None, 0, Some(0)), 0, [0, 100], [0])
    ensures AudioBehind(c, one)
    ensures
      var two := Capture(c, one, true).0;
      AudioBehind(c, two) && Capture(c, two, true).0.audioLog == [0, 50, 0]
  {
    var two := Capture(c, one, true).0;
    assert two == State(2, 2, Track(0, 1, Some(50), 100, Some(0)), Track(0, 1, None, 50, Some(0)), 0, [0, 100], [0, 50]);
  }

  /** The audio breaks without any restart of the main input: its packets never become the
      remembered ones of the audio track, so when the second input starts again after 0 and 50, its
      offset does not move, and 0 goes out once more. */
  lemma SharedIndexBreaksAudio()
    ensures
      var c, choices := SharedIndex(AUDIO_FIRST, AUDIO_SECOND), [] + [false] + [false] + [true] + [true] + [true];
      InOrderWithinPass(c) && Scheduled(c, Opened(1, 1), choices) && Run(c, Opened(1, 1), choices).audioLog == [0, 50, 0]
  {
    SharedIndexGood(AUDIO_FIRST, AUDIO_SECOND);
    var c := SharedIndex(AUDIO_FIRST, AUDIO_SECOND);
    VideoSent(c, AUDIO_FIRST, AUDIO_SECOND);
    AudioSent(c, AUDIO_FIRST, AUDIO_SECOND, VIDEO_SENT);
    var one := Capture(c, VIDEO_SENT, true).0;
    RestartedAudioSteps(c, one);
    ScheduledSnoc(c, Opened(1, 1), [] + [false] + [false], true, VIDEO_SENT);
    ScheduledSnoc(c, Opened(1, 1), [] + [false] + [false] + [true], true, one);
    ScheduledSnoc(c, Opened(1, 1), [] + [false] + [false] + [true] + [true], true, Capture(c, one, true).0);
  }

  // ---------------------------------------------------------------- the camera

  class Camera {
    const config: Config
    var mainPos: nat
    var secondPos: nat
    var videoTrack: Track
    var audioTrack: Track
    var errorCount: nat
    ghost var videoLog: seq<int>
    ghost var audioLog: seq<int>

    ghost function Snapshot(): State
      reads this
    {
      State(mainPos, secondPos, videoTrack, audioTrack, errorCount, videoLog, audioLog)
    }

    /** OpenFfmpeg clears the offsets and seeds the frame durations. */
    constructor (config: Config, videoDuration: int, audioDuration: int)
      ensures this.config == config && Snapshot() == Opened(videoDuration, audioDuration)
      ensures Inv(config, Snapshot())
    {
      this.config, mainPos, secondPos, errorCount := config, 0, 0, 0;
      videoTrack := Track(0, if videoDuration <= 0 then 1 else videoDuration, None, 0, None);
      audioTrack := Track(0, if audioDuration <= 0 then 1 else audioDuration, None, 0, None);
      videoLog, audioLog := [], [];
    }

    method LoopSeekToStart(src: Source) returns (ok: bool)
      requires config.Open(src)
      modifies this
      ensures ok == config.InputOf(src).seekable
      ensures Snapshot() == if ok then Restart(config, old(Snapshot()), src) else old(Snapshot())
    {
      if !config.InputOf(src).seekable {
        return false;
      }
      var hasVideo := src == Main;
      var hasAudio := config.audio.Some? && src == config.AudioSource();
      if hasVideo && videoTrack.lastDts.Some? {
        videoTrack := videoTrack.(offset := videoTrack.lastDts.value + videoTrack.frameDuration - StartOf(config.video));
      }
      if hasAudio && audioTrack.lastDts.Some? {
        audioTrack := audioTrack.(offset := audioTrack.lastDts.value + audioTrack.frameDuration - StartOf(config.audio.value));
      }
      if src == Main { mainPos := 0; } else { secondPos := 0; }
      return true;
    }

    /** av_read_frame: the next packet, or none at the end of the input. */
    method ReadFrame(src: Source) returns (p: Option<Packet>)
      requires config.Open(src)
      modifies this
      ensures
        var s, packets := old(Snapshot()), config.InputOf(src).packets;
        if s.PosOf(src) < |packets| then p == Some(packets[s.PosOf(src)]) && Snapshot() == s.At(src, s.PosOf(src) + 1)
        else p == None && Snapshot() == s
    {
      var packets := config.InputOf(src).packets;
      var pos := if src == Main then mainPos else secondPos;
      if pos >= |packets| {
        return None;
      }
      if src == Main { mainPos := pos + 1; } else { secondPos := pos + 1; }
      return Some(packets[pos]);
    }

    method ReadFrameWithLoop(src: Source) returns (p: Option<Packet>)
      requires config.Open(src)
      modifies this
      ensures (Snapshot(), p) == Read(config, old(Snapshot()), src)
    {
      p := ReadFrame(src);
      if p.Some? {
        return;
      }
      if config.loop {
        var ok := LoopSeekToStart(src);
        if ok {
          p := ReadFrame(src);
        }
      }
    }

    /** Reads one packet and hands it on, its timestamps shifted. */
    method CaptureOne(readSecond: bool) returns (result: Result)
      modifies this
      ensures (Snapshot(), result) == Capture(config, old(Snapshot()), readSecond)
      ensures GoodFiles(config) && old(Inv(config, Snapshot())) ==>
        Inv(config, Snapshot()) && Increasing(videoLog) && Increasing(audioLog)
    {
      if GoodFiles(config) && Inv(config, Snapshot()) {
        CaptureKeepsInv(config, Snapshot(), readSecond);
      }
      var src := if config.second.Some? && config.audio.Some? && readSecond then Second else Main;
      var read := ReadFrameWithLoop(src);
      if read.None? {
        return Error;
      }
      var p := read.value;
      if src == Main && !config.HasVideoIndex(p) && !config.HasAudioIndex(p) {
        return Dropped;
      }
      result := ShiftAndDeliver(src, p);
    }

    method ShiftAndDeliver(src: Source, p: Packet) returns (result: Result)
      modifies this
      ensures (Snapshot(), result) == Deliver(config, NoteDuration(config, old(Snapshot()), p), src,
                                              Outgoing(config, old(Snapshot()), p))
    {
      var q := p;
      if config.loop {
        var off := 0;
        if p.streamIndex == config.video.index {
          off := videoTrack.offset;
          if p.duration > 0 { videoTrack := videoTrack.(frameDuration := p.duration); }
        } else if config.HasAudioIndex(p) {
          off := audioTrack.offset;
          if p.duration > 0 { audioTrack := audioTrack.(frameDuration := p.duration); }
        }
        if off != 0 {
          q := Shifted(p, off);
        }
      }
      ShiftByNothing(p);
      result := CheckAndRemember(src, q);
    }

    method CheckAndRemember(src: Source, q: Packet) returns (result: Result)
      modifies this
      ensures (Snapshot(), result) == Deliver(config, old(Snapshot()), src, q)
    {
      var lastPts := if src == Main && config.HasVideoIndex(q) then videoTrack.lastPts else audioTrack.lastPts;
      var den: int := DenOf(config, src, q);
      if q.pts.Some? && lastPts >= 0 {
        if q.pts.value < 0 {
          return Error;
        } else if q.pts.value - lastPts < -10 * den {
          result := CountError();
          return;
        }
      }
      if q.dts.Some? {
        var lastDts := if config.HasVideoIndex(q) then videoTrack.lastDts else audioTrack.lastDts;
        if lastDts.Some? && q.dts.value - lastDts.value < -10 * den {
          result := CountError();
          return;
        }
      }
      if config.IsVideo(src, q) {
        videoTrack := RememberPts(videoTrack, q.pts);
      } else if config.IsAudio(src, q) {
        audioTrack := RememberPts(audioTrack, q.pts);
      }
      if q.dts.Some? {
        if config.HasVideoIndex(q) {
          videoTrack := videoTrack.(lastDts := q.dts);
        } else if config.HasAudioIndex(q) {
          audioTrack := audioTrack.(lastDts := q.dts);
        }
        videoLog := if config.IsVideo(src, q) then videoLog + [q.dts.value] else videoLog;
        audioLog := if config.IsAudio(src, q) then audioLog + [q.dts.value] else audioLog;
      }
      return Delivered;
    }

    method CountError() returns (result: Result)
      modifies this
      ensures (Snapshot(), result) == JumpError(old(Snapshot()))
    {
      if errorCount > 5 {
        return Error;
      }
      errorCount := errorCount + 1;
      return Dropped;
    }
  }

  lemma ShiftByNothing(p: Packet)
    ensures Shifted(p, 0) == p
  {
  }
}
