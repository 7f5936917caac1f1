/**
 What media-net makes of the bytes of the frame pipe, said of the records it parses and the
 encoders' output alone: which stream each record is for, whose data it carries, and that the video
 among them can be decoded and each buffer has its caps.
 */
module FramesReceived {
  import opened Bytes
  import opened NetRecords
  import opened FramePath
  import opened FrameGuards
  import W = PipeWriter

  function BufferKind(stream: Stream): FrameKind {
    if stream == Video then VideoBuffer else AudioBuffer
  }

  function CapsKind(stream: Stream): FrameKind {
    if stream == Video then VideoCaps else AudioCaps
  }

  predicate IsBuffer(r: FrameRecord, stream: Stream) {
    r.header.kind == BufferKind(stream)
  }

  /** The record carries this encoder output: its data, its duration if known, and whether it is a delta. */
  predicate Carries(r: FrameRecord, s: Sample) {
    && r.payload == s.data && r.header.length == |s.data|
    && (r.header.flags == 1 <==> s.delta) && (r.header.flags == 0 <==> !s.delta)
    && r.header.duration == if s.duration.Some? then s.duration.value else 0
  }

  /** Record k is the last one of its kind before record n, if there is one. */
  predicate LastOf(records: seq<FrameRecord>, kind: FrameKind, k: int, n: nat)
    requires n <= |records|
  {
    && -1 <= k < n && (k >= 0 ==> records[k].header.kind == kind)
    && forall j :: k < j < n ==> records[j].header.kind != kind
  }

  /**
   `numbers` tells which output of its encoder each buffer record carries: the encoder's own
   output, in order, with gaps but no repeats.
   */
  ghost predicate FromOutputs(records: seq<FrameRecord>, numbers: seq<nat>, video: seq<Sample>, audio: seq<Sample>) {
    && |numbers| == |records|
    && (forall k :: 0 <= k < |records| && IsBuffer(records[k], Video) ==>
          numbers[k] < |video| && Carries(records[k], video[numbers[k]]))
    && (forall k :: 0 <= k < |records| && IsBuffer(records[k], Audio) ==>
          numbers[k] < |audio| && Carries(records[k], audio[numbers[k]]))
    && (forall stream, j, k :: 0 <= j < k < |records| && IsBuffer(records[j], stream) && IsBuffer(records[k], stream) ==>
          numbers[j] < numbers[k])
  }

  /** Each delta buffer comes right after the buffer of the frame it was made from. */
  ghost predicate VideoDecodes(records: seq<FrameRecord>, numbers: seq<nat>)
    requires |numbers| == |records|
  {
    forall n :: 0 <= n < |records| && IsBuffer(records[n], Video) && records[n].header.flags == 1 ==>
      exists k :: 0 <= k && LastOf(records, VideoBuffer, k, n) && numbers[k] + 1 == numbers[n]
  }

  /** Each buffer's own caps are the last caps of its stream before it. */
  ghost predicate CapsPrecede(records: seq<FrameRecord>, numbers: seq<nat>, stream: Stream, out: seq<Sample>)
    requires |numbers| == |records|
    requires forall n :: 0 <= n < |records| && IsBuffer(records[n], stream) ==> numbers[n] < |out|
  {
    forall n :: 0 <= n < |records| && IsBuffer(records[n], stream) ==>
      exists k :: 0 <= k && LastOf(records, CapsKind(stream), k, n) && records[k].payload == out[numbers[n]].caps
  }

  // ---- From frames to records

  /** What the record of a frame is. */
  predicate Says(r: FrameRecord, f: Frame) {
    match f
    case CapsFrame(stream, caps) => r.header == FrameHeader(CapsKind(stream), 0, |caps|, 0) && r.payload == caps
    case BufferFrame(stream, _, s) => IsBuffer(r, stream) && Carries(r, s)
  }

  lemma RecordSays(f: Frame)
    requires Sendable(f)
    ensures Says(RecordOf(f), f)
  {
  }

  function Numbers(fs: seq<Frame>): (numbers: seq<nat>)
    ensures |numbers| == |fs|
  {
    seq(|fs|, k requires 0 <= k < |fs| => if fs[k].BufferFrame? then fs[k].index else 0)
  }

  ghost predicate AllSay(records: seq<FrameRecord>, fs: seq<Frame>) {
    |records| == |fs| && forall k :: 0 <= k < |fs| ==> Says(records[k], fs[k])
  }

  lemma RecordsSay(fs: seq<Frame>)
    requires AllSendable(fs)
    ensures AllSay(Records(fs), fs)
  {
    hide RecordOf, Says;
    forall k | 0 <= k < |fs| ensures Says(Records(fs)[k], fs[k]) {
      RecordSays(fs[k]);
    }
  }

  /** A record's kind tells which frame it is of. */
  lemma KindSays(r: FrameRecord, f: Frame, stream: Stream)
    requires Says(r, f)
    ensures IsBuffer(r, stream) <==> f.BufferFrame? && f.stream == stream
    ensures r.header.kind == CapsKind(stream) <==> f.CapsFrame? && f.stream == stream
    ensures f.BufferFrame? ==> Carries(r, f.sample)
    ensures f.CapsFrame? ==> r.payload == f.caps
  {
  }

  /** The last buffer or caps of a stream, as a position. */
  lemma {:induction false} LastBuffer(fs: seq<Frame>, stream: Stream) returns (k: int)
    ensures -1 <= k < |fs| && (k >= 0 ==> fs[k].BufferFrame? && fs[k].stream == stream && fs[k].index == LastIndex(fs, stream))
    ensures k < 0 ==> LastIndex(fs, stream) == -1
    ensures forall j :: k < j < |fs| ==> !(fs[j].BufferFrame? && fs[j].stream == stream)
  {
    k := |fs| - 1;
    if fs != [] && !(fs[k].BufferFrame? && fs[k].stream == stream) {
      k := LastBuffer(fs[..k], stream);
    }
  }

  lemma {:induction false} LastCapsAt(fs: seq<Frame>, stream: Stream) returns (k: int)
    ensures -1 <= k < |fs| && (k >= 0 ==> fs[k].CapsFrame? && fs[k].stream == stream && LastCaps(fs, stream) == Some(fs[k].caps))
    ensures k < 0 ==> LastCaps(fs, stream) == None
    ensures forall j :: k < j < |fs| ==> !(fs[j].CapsFrame? && fs[j].stream == stream)
  {
    k := |fs| - 1;
    if fs != [] && !(fs[k].CapsFrame? && fs[k].stream == stream) {
      k := LastCapsAt(fs[..k], stream);
    }
  }

  lemma InOrder(records: seq<FrameRecord>, fs: seq<Frame>, p: Path, stream: Stream, j: nat, k: nat)
    requires AllSay(records, fs) && FromEncoders(fs, p)
    requires j < k < |records| && IsBuffer(records[j], stream) && IsBuffer(records[k], stream)
    ensures Numbers(fs)[j] < Numbers(fs)[k]
  {
    hide Says;
    KindSays(records[j], fs[j], stream);
    KindSays(records[k], fs[k], stream);
    var last := LastBuffer(fs[..k], stream);
    assert fs[..k][j] == fs[j];
    if last > j {
      KindSays(records[last], fs[last], stream);
      InOrder(records, fs, p, stream, j, last);
    }
  }

  lemma OutputsOf(records: seq<FrameRecord>, fs: seq<Frame>, p: Path)
    requires AllSay(records, fs) && FromEncoders(fs, p)
    ensures FromOutputs(records, Numbers(fs), p.videoOut, p.audioOut)
  {
    hide Says, Carries;
    forall k, stream | 0 <= k < |records| && IsBuffer(records[k], stream)
      ensures Numbers(fs)[k] < |Out(p, stream)| && Carries(records[k], Out(p, stream)[Numbers(fs)[k]])
    {
      KindSays(records[k], fs[k], stream);
    }
    forall k | 0 <= k < |records| && IsBuffer(records[k], Video)
      ensures Numbers(fs)[k] < |p.videoOut| && Carries(records[k], p.videoOut[Numbers(fs)[k]])
    {
      KindSays(records[k], fs[k], Video);
    }
    forall k | 0 <= k < |records| && IsBuffer(records[k], Audio)
      ensures Numbers(fs)[k] < |p.audioOut| && Carries(records[k], p.audioOut[Numbers(fs)[k]])
    {
      KindSays(records[k], fs[k], Audio);
    }
    forall stream, j, k | 0 <= j < k < |records| && IsBuffer(records[j], stream) && IsBuffer(records[k], stream)
      ensures Numbers(fs)[j] < Numbers(fs)[k]
    {
      InOrder(records, fs, p, stream, j, k);
    }
  }

  lemma DecodesOf(records: seq<FrameRecord>, fs: seq<Frame>)
    requires AllSay(records, fs) && Decodable(fs)
    ensures VideoDecodes(records, Numbers(fs))
  {
    hide Says;
    forall n | 0 <= n < |records| && IsBuffer(records[n], Video) && records[n].header.flags == 1
      ensures exists k :: 0 <= k && LastOf(records, VideoBuffer, k, n) && Numbers(fs)[k] + 1 == Numbers(fs)[n]
    {
      KindSays(records[n], fs[n], Video);
      assert DeltaBuffer(fs[n]);
      var k := LastBuffer(fs[..n], Video);
      forall j | 0 <= j < n ensures IsBuffer(records[j], Video) <==> fs[..n][j].BufferFrame? && fs[..n][j].stream == Video {
        KindSays(records[j], fs[j], Video);
      }
      assert LastOf(records, VideoBuffer, k, n);
    }
  }

  lemma CapsOf(records: seq<FrameRecord>, fs: seq<Frame>, p: Path, stream: Stream)
    requires AllSay(records, fs) && FromEncoders(fs, p) && CapsAgree(fs)
    requires forall n :: 0 <= n < |records| && IsBuffer(records[n], stream) ==> Numbers(fs)[n] < |Out(p, stream)|
    ensures CapsPrecede(records, Numbers(fs), stream, Out(p, stream))
  {
    hide Says;
    forall n | 0 <= n < |records| && IsBuffer(records[n], stream)
      ensures exists k :: 0 <= k && LastOf(records, CapsKind(stream), k, n)
                          && records[k].payload == Out(p, stream)[Numbers(fs)[n]].caps
    {
      KindSays(records[n], fs[n], stream);
      var k := LastCapsAt(fs[..n], stream);
      forall j | 0 <= j < n
        ensures records[j].header.kind == CapsKind(stream) <==> fs[..n][j].CapsFrame? && fs[..n][j].stream == stream
      {
        KindSays(records[j], fs[j], stream);
      }
      KindSays(records[k], fs[k], stream);
      assert LastOf(records, CapsKind(stream), k, n);
    }
  }

  // ---- The results

  /**
   Whatever media-net has read of the pipe, at any moment of any interleaving: whole records, none
   malformed, each a caps record or the encoder output of its own stream that it is numbered after.
   */
  lemma RecordsAreOutputs(budget: nat, videoEnabled: bool, steps: seq<Step>, n: nat) returns (numbers: seq<nat>)
    requires n <= |Run(Started(budget, videoEnabled), steps).writer.wire|
    ensures var p := Run(Started(budget, videoEnabled), steps);
      var parsed := ParseFrames(p.writer.wire[..n]);
      parsed.ok && FromOutputs(parsed.records, numbers, p.videoOut, p.audioOut)
  {
    hide Run, ParseFrames, Linked, FromEncoders, FromOutputs, AllSay;
    var frames := ReaderSeesFrames(budget, videoEnabled, steps, n);
    RecordsSay(frames);
    OutputsOf(Records(frames), frames, Run(Started(budget, videoEnabled), steps));
    numbers := Numbers(frames);
  }

  /** ... and under the condition on the encoder's output the video among them decodes. */
  lemma RecordsDecode(budget: nat, videoEnabled: bool, steps: seq<Step>, n: nat) returns (numbers: seq<nat>)
    requires var p := Run(Started(budget, videoEnabled), steps);
      n <= |p.writer.wire| && EachMayDecode(p.videoOut)
    ensures var p := Run(Started(budget, videoEnabled), steps);
      var parsed := ParseFrames(p.writer.wire[..n]);
      parsed.ok && FromOutputs(parsed.records, numbers, p.videoOut, p.audioOut) && VideoDecodes(parsed.records, numbers)
  {
    hide Run, ParseFrames, EachMayDecode, FromEncoders, Decodable, FromOutputs, VideoDecodes, AllSay;
    var frames := AlwaysDecodable(budget, videoEnabled, steps, n);
    RecordsSay(frames);
    OutputsOf(Records(frames), frames, Run(Started(budget, videoEnabled), steps));
    DecodesOf(Records(frames), frames);
    numbers := Numbers(frames);
  }

  /** ... and each buffer comes after its own caps, when no caps are the empty text. */
  lemma RecordsHaveCaps(budget: nat, videoEnabled: bool, steps: seq<Step>, n: nat) returns (numbers: seq<nat>)
    requires var p := Run(Started(budget, videoEnabled), steps);
      && n <= |p.writer.wire|
      && (forall s :: s in p.videoOut ==> s.caps != []) && (forall s :: s in p.audioOut ==> s.caps != [])
    ensures var p := Run(Started(budget, videoEnabled), steps);
      var parsed := ParseFrames(p.writer.wire[..n]);
      && parsed.ok && FromOutputs(parsed.records, numbers, p.videoOut, p.audioOut)
      && CapsPrecede(parsed.records, numbers, Video, p.videoOut)
      && CapsPrecede(parsed.records, numbers, Audio, p.audioOut)
  {
    hide Run, ParseFrames, FromEncoders, CapsAgree, CapsPrecede, AllSay, LastCaps, LastIndex, Carries;
    var frames := CapsAlwaysAgree(budget, videoEnabled, steps, n);
    var p := Run(Started(budget, videoEnabled), steps);
    RecordsSay(frames);
    OutputsOf(Records(frames), frames, p);
    CapsOf(Records(frames), frames, p, Video);
    CapsOf(Records(frames), frames, p, Audio);
    numbers := Numbers(frames);
  }

  // ---- Nothing is left out without a reason

  /** Caps that are sent are those of some output of the stream. */
  ghost predicate CapsFrom(fs: seq<Frame>, p: Path) {
    forall f :: f in fs && f.CapsFrame? ==> exists i :: 0 <= i < |Out(p, f.stream)| && Out(p, f.stream)[i].caps == f.caps
  }

  /** An output that can be sent is on its way, about to be, or behind an overflow. */
  predicate OnItsWay(p: Path, stream: Stream, i: nat)
    requires i < |Out(p, stream)|
  {
    var f := BufferFrame(stream, i, Out(p, stream)[i]);
    Lost(f.sample) || f in p.taken || f in p.queue || p.phase == Sending(stream, i) || p.phase == Overflowing
  }

  ghost predicate AllQueued(p: Path) {
    forall stream, i: nat :: i < |Out(p, stream)| ==> OnItsWay(p, stream, i)
  }

  lemma CapsFromMore(fs: seq<Frame>, p: Path, p': Path)
    requires CapsFrom(fs, p) && p.videoOut <= p'.videoOut && p.audioOut <= p'.audioOut
    ensures CapsFrom(fs, p')
  {
    forall f | f in fs && f.CapsFrame? ensures exists i :: 0 <= i < |Out(p', f.stream)| && Out(p', f.stream)[i].caps == f.caps {
      var i :| 0 <= i < |Out(p, f.stream)| && Out(p, f.stream)[i].caps == f.caps;
      assert Out(p', f.stream)[i] == Out(p, f.stream)[i];
    }
  }

  lemma CapsFromArrive(p: Path, stream: Stream, s: Sample)
    requires CapsFrom(p.taken, p) && CapsFrom(p.queue, p)
    ensures var p' := Arrive(p, stream, s); CapsFrom(p'.taken, p') && CapsFrom(p'.queue, p')
  {
    hide RecordOf, RecordBytes, CapsFrom;
    var p' := Arrive(p, stream, s);
    CapsFromMore(p.taken, p, p');
    CapsFromMore(p.queue, p, p');
    if p'.queue != p.queue {
      assert p'.queue == p.queue + [CapsFrame(stream, s.caps)];
      assert Out(p', stream)[|Out(p', stream)| - 1] == s;
      CapsFromOne(p.queue, p', stream, s.caps, |Out(p', stream)| - 1);
    }
  }

  lemma CapsFromOne(fs: seq<Frame>, p: Path, stream: Stream, caps: Text, i: nat)
    requires CapsFrom(fs, p) && i < |Out(p, stream)| && Out(p, stream)[i].caps == caps
    ensures CapsFrom(fs + [CapsFrame(stream, caps)], p)
  {
  }

  lemma CapsFromApply(p: Path, step: Step)
    requires CapsFrom(p.taken, p) && CapsFrom(p.queue, p)
    ensures var p' := Apply(p, step); CapsFrom(p'.taken, p') && CapsFrom(p'.queue, p')
  {
    hide Arrive, RecordOf, RecordBytes, CapsFrom;
    var p' := Apply(p, step);
    if step.ArriveStep? {
      CapsFromArrive(p, step.stream, step.sample);
    } else {
      assert p'.videoOut == p.videoOut && p'.audioOut == p.audioOut;
      var all := p.taken + p.queue;
      CapsFromBoth(p);
      CapsFromSome(all, p'.taken, p, p');
      CapsFromSome(all, p'.queue, p, p');
    }
  }

  lemma CapsFromBoth(p: Path)
    requires CapsFrom(p.taken, p) && CapsFrom(p.queue, p)
    ensures CapsFrom(p.taken + p.queue, p)
  {
  }

  lemma CapsFromSome(fs: seq<Frame>, some: seq<Frame>, p: Path, p': Path)
    requires CapsFrom(fs, p) && p'.videoOut == p.videoOut && p'.audioOut == p.audioOut
    requires forall f :: f in some && f.CapsFrame? ==> f in fs
    ensures CapsFrom(some, p')
  {
    forall f | f in some && f.CapsFrame? ensures exists i :: 0 <= i < |Out(p', f.stream)| && Out(p', f.stream)[i].caps == f.caps {
      var i :| 0 <= i < |Out(p, f.stream)| && Out(p, f.stream)[i].caps == f.caps;
      assert Out(p', f.stream)[i] == Out(p, f.stream)[i];
    }
  }

  lemma {:induction false} CapsFromAlways(budget: nat, videoEnabled: bool, steps: seq<Step>)
    ensures var p := Run(Started(budget, videoEnabled), steps); CapsFrom(p.taken, p) && CapsFrom(p.queue, p)
  {
    hide Apply, CapsFrom;
    if steps == [] {
      NoCaps(budget, videoEnabled);
    } else {
      CapsFromAlways(budget, videoEnabled, steps[..|steps| - 1]);
      CapsFromApply(Run(Started(budget, videoEnabled), steps[..|steps| - 1]), steps[|steps| - 1]);
    }
  }

  lemma NoCaps(budget: nat, videoEnabled: bool)
    ensures CapsFrom([], Started(budget, videoEnabled))
  {
  }

  /** Every caps record that media-net reads carries, unflagged, the caps of an output of its stream. */
  lemma CapsAreOutputs(budget: nat, videoEnabled: bool, steps: seq<Step>, n: nat, k: nat, stream: Stream)
    returns (i: nat)
    requires n <= |Run(Started(budget, videoEnabled), steps).writer.wire|
    requires var records := ParseFrames(Run(Started(budget, videoEnabled), steps).writer.wire[..n]).records;
      k < |records| && records[k].header.kind == CapsKind(stream)
    ensures var p := Run(Started(budget, videoEnabled), steps);
      var r := ParseFrames(p.writer.wire[..n]).records[k];
      i < |Out(p, stream)| && r.payload == Out(p, stream)[i].caps && r.header.flags == 0
  {
    hide Run, ParseFrames, Linked, FromEncoders;
    var frames := ReaderSeesFrames(budget, videoEnabled, steps, n);
    var p := Run(Started(budget, videoEnabled), steps);
    RecordsSay(frames);
    KindSays(Records(frames)[k], frames[k], stream);
    CapsFromAlways(budget, videoEnabled, steps);
    assert frames[k] == p.taken[k] && frames[k] in p.taken;
    i :| 0 <= i < |Out(p, stream)| && Out(p, stream)[i].caps == frames[k].caps;
  }

  ghost predicate KeptInv(p: Path) {
    AllQueued(p) && !p.video.skipping && !p.audio.skipping
  }

  lemma KeptArrive(p: Path, stream: Stream, s: Sample)
    requires KeptInv(p)
    ensures KeptInv(Arrive(p, stream, s))
  {
    hide RecordOf, RecordBytes, Lost, Sendable, OnItsWay;
    var p' := Arrive(p, stream, s);
    if p' != p {
      assert p'.taken == p.taken && p.queue <= p'.queue;
      forall other, i: nat | i < |Out(p', other)| ensures OnItsWay(p', other, i) {
        if i < |Out(p, other)| {
          assert Out(p', other)[i] == Out(p, other)[i];
          OnItsWayStill(p, p', other, i);
        } else {
          JustArrived(p', other, i);
        }
      }
    }
  }

  lemma OnItsWayStill(p: Path, p': Path, stream: Stream, i: nat)
    requires i < |Out(p, stream)| && OnItsWay(p, stream, i)
    requires i < |Out(p', stream)| && Out(p', stream)[i] == Out(p, stream)[i]
    requires p.phase == Idle && p'.taken == p.taken && p.queue <= p'.queue
    ensures OnItsWay(p', stream, i)
  {
    hide Lost;
  }

  lemma JustArrived(p: Path, stream: Stream, i: nat)
    requires i < |Out(p, stream)| && (p.phase == Sending(stream, i) || p.phase == Overflowing)
    ensures OnItsWay(p, stream, i)
  {
  }

  lemma KeptSend(p: Path)
    requires KeptInv(p)
    ensures KeptInv(Send(p))
  {
    hide RecordOf, RecordBytes;
    var p' := Send(p);
    forall other, i: nat | i < |Out(p', other)| ensures OnItsWay(p', other, i) {
      assert OnItsWay(p, other, i);
    }
  }

  lemma KeptTake(p: Path)
    requires KeptInv(p)
    ensures KeptInv(Take(p))
  {
    hide Lost;
    var p' := Take(p);
    assert p.queue != [] ==> p.queue == [p.queue[0]] + p.queue[1..];
    forall other, i: nat | i < |Out(p', other)| ensures OnItsWay(p', other, i) {
      assert OnItsWay(p, other, i);
    }
  }

  predicate NeverOverflows(steps: seq<Step>) {
    forall step :: step in steps ==> !step.OverflowStep? && !step.BreakStep?
  }

  lemma {:induction false} KeptAlways(budget: nat, videoEnabled: bool, steps: seq<Step>)
    requires NeverOverflows(steps)
    ensures KeptInv(Run(Started(budget, videoEnabled), steps))
  {
    hide Arrive, Send, Take, KeptInv;
    if steps == [] {
      KeptAtStart(budget, videoEnabled);
    } else {
      var before, step := steps[..|steps| - 1], steps[|steps| - 1];
      var p := Run(Started(budget, videoEnabled), before);
      assert step in steps;
      KeptAlways(budget, videoEnabled, before);
      match step
      case ArriveStep(stream, s) => KeptArrive(p, stream, s);
      case SendStep => KeptSend(p);
      case TakeStep => KeptTake(p);
      case CloseStep => KeptLike(p, Close(p));
      case WriteStep(n) => KeptLike(p, Apply(p, step));
    }
  }

  lemma KeptAtStart(budget: nat, videoEnabled: bool)
    ensures KeptInv(Started(budget, videoEnabled))
  {
  }

  lemma KeptLike(p: Path, p': Path)
    requires KeptInv(p) && p' == p.(writer := p'.writer)
    ensures KeptInv(p')
  {
    forall other, i: nat | i < |Out(p', other)| ensures OnItsWay(p', other, i) {
      assert OnItsWay(p, other, i);
    }
  }

  /**
   As long as nothing overflows and the pipe holds, every output of either encoder that can be sent
   has been written or is queued, once new_sample is done with it.
   */
  lemma NothingLeftOut(budget: nat, videoEnabled: bool, steps: seq<Step>, stream: Stream, i: nat)
    requires NeverOverflows(steps) && Run(Started(budget, videoEnabled), steps).phase == Idle
    requires var p := Run(Started(budget, videoEnabled), steps); i < |Out(p, stream)| && !Lost(Out(p, stream)[i])
    ensures var p := Run(Started(budget, videoEnabled), steps);
      var f := BufferFrame(stream, i, Out(p, stream)[i]); f in p.taken || f in p.queue
  {
    hide Run;
    KeptAlways(budget, videoEnabled, steps);
    assert OnItsWay(Run(Started(budget, videoEnabled), steps), stream, i);
  }

  lemma SinksStep(p: Path, step: Step)
    requires !p.audio.skipping
    ensures !Apply(p, step).audio.skipping && Apply(p, step).videoEnabled == p.videoEnabled
  {
    hide Accepts, RecordOf, RecordBytes, W.Push, W.Clear, W.CanTake, W.Take, W.Write, W.Break, W.Close;
  }

  lemma {:induction false} AudioNeverSkips(budget: nat, videoEnabled: bool, steps: seq<Step>)
    ensures var p := Run(Started(budget, videoEnabled), steps); !p.audio.skipping && p.videoEnabled == videoEnabled
  {
    hide Apply;
    if steps != [] {
      AudioNeverSkips(budget, videoEnabled, steps[..|steps| - 1]);
      SinksStep(Run(Started(budget, videoEnabled), steps[..|steps| - 1]), steps[|steps| - 1]);
    }
  }

  /** What can keep a sample, and caps before it, out of the queue. */
  predicate NoRoom(w: W.Writer, s: Sample) {
    w.closing || w.broken || |s.caps| > 4096 || w.queued + 64 + |s.caps| + |s.data| > w.budget
  }

  /**
   Overflows or not: a sample that can be sent, and is not a delta frame of video that is skipping,
   is queued right then, unless there is no room for it; then it overflows. Audio is never skipped.
   */
  lemma SampleIsQueued(budget: nat, videoEnabled: bool, steps: seq<Step>, stream: Stream, s: Sample)
    requires Run(Started(budget, videoEnabled), steps).phase == Idle && !Lost(s)
    requires stream == Video ==> videoEnabled && !(s.delta && Run(Started(budget, videoEnabled), steps).video.skipping)
    ensures var p := Run(Started(budget, videoEnabled), steps);
      var p' := Run(Started(budget, videoEnabled), steps + [ArriveStep(stream, s)] + [SendStep]);
      && Out(p', stream) == Out(p, stream) + [s]
      && ((p'.phase == Overflowing && NoRoom(p.writer, s))
          || (p'.phase == Idle && p'.queue != [] && p'.queue[|p'.queue| - 1] == BufferFrame(stream, |Out(p, stream)|, s)))
  {
    hide Run;
    var p0 := Started(budget, videoEnabled);
    AudioNeverSkips(budget, videoEnabled, steps);
    RunSnoc(p0, steps, ArriveStep(stream, s));
    RunSnoc(p0, steps + [ArriveStep(stream, s)], SendStep);
    ArriveThenSend(Run(p0, steps), stream, s);
  }

  lemma ArriveThenSend(p: Path, stream: Stream, s: Sample)
    requires p.phase == Idle && !Lost(s) && (stream == Video ==> p.videoEnabled)
    requires !(SinkOf(p, stream).skipping && s.delta)
    ensures var p' := Send(Arrive(p, stream, s));
      && Out(p', stream) == Out(p, stream) + [s]
      && ((p'.phase == Overflowing && NoRoom(p.writer, s))
          || (p'.phase == Idle && p'.queue != [] && p'.queue[|p'.queue| - 1] == BufferFrame(stream, |Out(p, stream)|, s)))
  {
    hide Lost, RecordOf, RecordBytes, Arrive;
    Sizes(stream, |Out(p, stream)|, s);
    Arrives(p, stream, s);
  }

  lemma Arrives(p: Path, stream: Stream, s: Sample)
    requires p.phase == Idle && !Lost(s) && (stream == Video ==> p.videoEnabled)
    requires !(SinkOf(p, stream).skipping && s.delta)
    ensures var p', w' := Arrive(p, stream, s), Arrive(p, stream, s).writer;
      && Out(p', stream) == Out(p, stream) + [s]
      && ((p'.phase == Overflowing && NoRoom(p.writer, s))
          || (p'.phase == Sending(stream, |Out(p, stream)|) && w'.queued <= p.writer.queued + 32 + |s.caps|
              && w'.closing == p.writer.closing && w'.broken == p.writer.broken && w'.budget == p.writer.budget))
  {
    hide Lost, RecordOf, RecordBytes;
    Sizes(stream, |Out(p, stream)|, s);
  }

  /** The sizes of the two records that a sample can need. */
  lemma Sizes(stream: Stream, i: nat, s: Sample)
    requires !Lost(s)
    ensures |RecordBytes(RecordOf(BufferFrame(stream, i, s)))| == 32 + |s.data|
    ensures |s.caps| <= 4096 ==> |RecordBytes(RecordOf(CapsFrame(stream, s.caps)))| == 32 + |s.caps|
  {
    hide LittleEndian;
  }

  /**
   After an overflow everything starts again: the next sample, a key frame if it is video, is
   queued behind nothing but its own caps, if the writer still works and they fit the budget.
   */
  lemma RoomAgain(budget: nat, videoEnabled: bool, steps: seq<Step>, stream: Stream, s: Sample)
    requires var p := Run(Started(budget, videoEnabled), steps);
      p.phase == Overflowing && !p.writer.closing && !p.writer.broken
    requires !Lost(s) && 0 < |s.caps| <= 4096 && 64 + |s.caps| + |s.data| <= budget
    requires stream == Video ==> videoEnabled && !s.delta
    ensures var p := Run(Started(budget, videoEnabled), steps);
      var p' := Run(Started(budget, videoEnabled), steps + [OverflowStep] + [ArriveStep(stream, s)] + [SendStep]);
      && p'.phase == Idle && p'.taken == p.taken
      && p'.queue == [CapsFrame(stream, s.caps), BufferFrame(stream, |Out(p, stream)|, s)]
  {
    hide Run;
    var p0 := Started(budget, videoEnabled);
    AudioNeverSkips(budget, videoEnabled, steps);
    SameBudget(budget, videoEnabled, steps);
    RunSnoc(p0, steps, OverflowStep);
    RunSnoc(p0, steps + [OverflowStep], ArriveStep(stream, s));
    RunSnoc(p0, steps + [OverflowStep] + [ArriveStep(stream, s)], SendStep);
    StartsAgain(Run(p0, steps), stream, s);
  }

  lemma StartsAgain(p: Path, stream: Stream, s: Sample)
    requires p.phase == Overflowing && !p.writer.closing && !p.writer.broken && !p.audio.skipping
    requires !Lost(s) && 0 < |s.caps| <= 4096 && 64 + |s.caps| + |s.data| <= p.writer.budget
    requires stream == Video ==> p.videoEnabled && !s.delta
    ensures var p' := Send(Arrive(Overflow(p), stream, s));
      && p'.phase == Idle && p'.taken == p.taken
      && p'.queue == [CapsFrame(stream, s.caps), BufferFrame(stream, |Out(p, stream)|, s)]
  {
    hide Lost, RecordOf, RecordBytes;
    Sizes(stream, |Out(p, stream)|, s);
  }

  lemma BudgetStep(p: Path, step: Step)
    ensures Apply(p, step).writer.budget == p.writer.budget
  {
    hide RecordOf, RecordBytes, Lost, W.Accepts;
  }

  lemma {:induction false} SameBudget(budget: nat, videoEnabled: bool, steps: seq<Step>)
    ensures Run(Started(budget, videoEnabled), steps).writer.budget == budget
  {
    hide Apply;
    if steps != [] {
      SameBudget(budget, videoEnabled, steps[..|steps| - 1]);
      BudgetStep(Run(Started(budget, videoEnabled), steps[..|steps| - 1]), steps[|steps| - 1]);
    }
  }
}
