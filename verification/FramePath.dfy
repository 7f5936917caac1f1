/**
 The path of encoded frames from the worker to media-net: new_sample and frames_overflowed
 (media-worker.cpp), the writer thread (PipeWriter) and the reader (PipeReaders), as one
 concurrent system. new_sample holds frame_mutex, so one sample is handled at a time; between any
 two of its uses of the queue, the writer thread may take, write or fail.
 */
module FramePath {
  import opened Bytes
  import opened NetRecords
  import W = PipeWriter

  datatype Stream = Video | Audio

  /** Caps as text; its length always fits the 32 bits of a record header. */
  type Text = t: seq<byte> | |t| < 0x1_0000_0000

  /** An encoded buffer from the appsink, and whether mapping its memory will succeed. */
  datatype Sample = Sample(delta: bool, caps: Text, mapped: bool, data: seq<byte>, duration: Option<uint64>)

  /** A record on its way, with the encoder output it came from. */
  datatype Frame = CapsFrame(stream: Stream, caps: Text) | BufferFrame(stream: Stream, index: nat, sample: Sample)

  /** A buffer that is left out without any trace: the worker neither sends it nor overflows. */
  predicate Lost(s: Sample) {
    !s.mapped || |s.data| > MAX_FRAME_BYTES
  }

  predicate Sendable(f: Frame) {
    match f
    case CapsFrame(_, caps) => |caps| <= MAX_CAPS_BYTES
    case BufferFrame(_, _, sample) => !Lost(sample)
  }

  function RecordOf(f: Frame): (r: FrameRecord)
    requires Sendable(f)
    ensures ValidRecord(r)
  {
    match f
    case CapsFrame(stream, caps) =>
      FrameRecord(FrameHeader(if stream == Video then VideoCaps else AudioCaps, 0, |caps|, 0), caps)
    case BufferFrame(stream, _, s) =>
      FrameRecord(FrameHeader(if stream == Video then VideoBuffer else AudioBuffer, if s.delta then 1 else 0,
                              |s.data|, if s.duration.Some? then s.duration.value else 0),
                  s.data)
  }

  datatype Sink = Sink(sentCaps: Text, skipping: bool)

  /** Where new_sample is: outside, about to push a buffer, or about to call frames_overflowed. */
  datatype Phase = Idle | Sending(stream: Stream, index: nat) | Overflowing

  /**
   `video` and `audio` are the two FrameSinks. Each encoder's output so far, and the frames behind
   the records that the writer took and still queues, are history.
   */
  datatype Path = Path(
    writer: W.Writer, video: Sink, audio: Sink, phase: Phase, videoEnabled: bool,
    videoOut: seq<Sample>, audioOut: seq<Sample>, taken: seq<Frame>, queue: seq<Frame>)

  function Started(budget: nat, videoEnabled: bool): Path {
    Path(W.Started(budget), Sink([], false), Sink([], false), Idle, videoEnabled, [], [], [], [])
  }

  function SinkOf(p: Path, stream: Stream): Sink {
    if stream == Video then p.video else p.audio
  }

  function SetSink(p: Path, stream: Stream, sink: Sink): Path {
    if stream == Video then p.(video := sink) else p.(audio := sink)
  }

  function Out(p: Path, stream: Stream): seq<Sample> {
    if stream == Video then p.videoOut else p.audioOut
  }

  predicate Accepts(p: Path, f: Frame) {
    Sendable(f) && W.Accepts(p.writer, RecordBytes(RecordOf(f)))
  }

  function Push(p: Path, f: Frame): Path
    requires Accepts(p, f)
  {
    p.(writer := W.Push(p.writer, RecordBytes(RecordOf(f))), queue := p.queue + [f])
  }

  /** new_sample up to its first use of the queue: the skip rule, then caps if they changed. */
  function Arrive(p: Path, stream: Stream, s: Sample): Path {
    if p.phase != Idle || (stream == Video && !p.videoEnabled) then p
    else
      var index := |Out(p, stream)|;
      var p := if stream == Video then p.(videoOut := p.videoOut + [s]) else p.(audioOut := p.audioOut + [s]);
      var sink := SinkOf(p, stream);
      if sink.skipping && s.delta then p
      else if sink.sentCaps == s.caps then
        SetSink(p, stream, Sink(s.caps, false)).(phase := Sending(stream, index))
      else if Accepts(p, CapsFrame(stream, s.caps)) then
        Push(SetSink(p, stream, Sink(s.caps, false)), CapsFrame(stream, s.caps)).(phase := Sending(stream, index))
      else SetSink(p, stream, sink.(skipping := false)).(phase := Overflowing)
  }

  /** The rest of new_sample: a buffer that cannot be mapped or is too large is not sent. */
  function Send(p: Path): Path {
    if !p.phase.Sending? || p.phase.index >= |Out(p, p.phase.stream)| then p
    else
      var s := Out(p, p.phase.stream)[p.phase.index];
      var f := BufferFrame(p.phase.stream, p.phase.index, s);
      if Lost(s) then p.(phase := Idle)
      else if Accepts(p, f) then Push(p, f).(phase := Idle)
      else p.(phase := Overflowing)
  }

  /** frames_overflowed: empty the queue, forget the caps sent, skip video to a key frame. */
  function Overflow(p: Path): Path {
    if p.phase != Overflowing then p
    else p.(writer := W.Clear(p.writer), queue := [], phase := Idle,
            video := Sink([], p.videoEnabled), audio := p.audio.(sentCaps := []))
  }

  function Take(p: Path): Path {
    if !W.CanTake(p.writer) || p.queue == [] then p
    else p.(writer := W.Take(p.writer), taken := p.taken + [p.queue[0]], queue := p.queue[1..])
  }

  function Break(p: Path): Path {
    if p.writer.current == [] then p else p.(writer := W.Break(p.writer), queue := [])
  }

  /** close, called with frame_mutex held. */
  function Close(p: Path): Path {
    if p.phase != Idle then p else p.(writer := W.Close(p.writer))
  }

  datatype Step =
    | ArriveStep(stream: Stream, sample: Sample) | SendStep | OverflowStep | CloseStep
    | TakeStep | WriteStep(n: nat) | BreakStep

  function Apply(p: Path, step: Step): Path {
    match step
    case ArriveStep(stream, sample) => Arrive(p, stream, sample)
    case SendStep => Send(p)
    case OverflowStep => Overflow(p)
    case CloseStep => Close(p)
    case TakeStep => Take(p)
    case WriteStep(n) => p.(writer := W.Write(p.writer, n))
    case BreakStep => Break(p)
  }

  function Run(p: Path, steps: seq<Step>): Path {
    if steps == [] then p else Apply(Run(p, steps[..|steps| - 1]), steps[|steps| - 1])
  }

  // ---- What the frames say about each other

  /** The encoder index of the last buffer of a stream, or -1. */
  function LastIndex(fs: seq<Frame>, stream: Stream): int {
    if fs == [] then -1
    else
      var f := fs[|fs| - 1];
      if f.BufferFrame? && f.stream == stream then f.index else LastIndex(fs[..|fs| - 1], stream)
  }

  /** The last caps of a stream, if any were sent. */
  function LastCaps(fs: seq<Frame>, stream: Stream): Option<Text> {
    if fs == [] then None
    else
      var f := fs[|fs| - 1];
      if f.CapsFrame? && f.stream == stream then Some(f.caps) else LastCaps(fs[..|fs| - 1], stream)
  }

  /** The encoder's frame before number i was lost, there is none, or it was the last one sent. */
  predicate Follows(fs: seq<Frame>, out: seq<Sample>, i: nat)
    requires i <= |out|
  {
    i == 0 || Lost(out[i - 1]) || LastIndex(fs, Video) == i - 1
  }

  /** A frame fits behind the ones before it. */
  predicate Fits(before: seq<Frame>, f: Frame, out: seq<Sample>) {
    Sendable(f)
    && (f.BufferFrame? ==>
          && f.index < |out| && f.sample == out[f.index] && LastIndex(before, f.stream) < f.index
          && (f.sample.caps == [] || LastCaps(before, f.stream) == Some(f.sample.caps))
          && (f.stream == Video && f.sample.delta ==> Follows(before, out, f.index)))
  }

  ghost predicate Linked(fs: seq<Frame>, videoOut: seq<Sample>, audioOut: seq<Sample>) {
    forall k :: 0 <= k < |fs| ==> Fits(fs[..k], fs[k], if fs[k].stream == Video then videoOut else audioOut)
  }

  lemma LinkedPrefix(fs: seq<Frame>, v: seq<Sample>, a: seq<Sample>, n: nat)
    requires Linked(fs, v, a) && n <= |fs|
    ensures Linked(fs[..n], v, a)
  {
    forall k | 0 <= k < n ensures Fits(fs[..n][..k], fs[..n][k], if fs[..n][k].stream == Video then v else a) {
      assert fs[..n][..k] == fs[..k];
    }
  }

  lemma LinkedAppend(fs: seq<Frame>, f: Frame, v: seq<Sample>, a: seq<Sample>)
    requires Linked(fs, v, a) && Fits(fs, f, if f.stream == Video then v else a)
    ensures Linked(fs + [f], v, a)
  {
    var all := fs + [f];
    forall k | 0 <= k < |all| ensures Fits(all[..k], all[k], if all[k].stream == Video then v else a) {
      assert all[..k] == fs[..k];
      assert fs[..|fs|] == fs;
    }
  }

  lemma LinkedGrows(fs: seq<Frame>, v: seq<Sample>, a: seq<Sample>, v': seq<Sample>, a': seq<Sample>)
    requires Linked(fs, v, a) && v <= v' && a <= a'
    ensures Linked(fs, v', a')
  {
    forall k | 0 <= k < |fs| ensures Fits(fs[..k], fs[k], if fs[k].stream == Video then v' else a') {
      assert Fits(fs[..k], fs[k], if fs[k].stream == Video then v else a);
    }
  }

  lemma {:induction false} LastIndexBelow(fs: seq<Frame>, v: seq<Sample>, a: seq<Sample>, stream: Stream)
    requires Linked(fs, v, a)
    ensures LastIndex(fs, stream) < |if stream == Video then v else a|
    ensures LastIndex(fs, stream) >= 0 ==> !Lost((if stream == Video then v else a)[LastIndex(fs, stream)])
  {
    if fs != [] {
      var last := |fs| - 1;
      assert Fits(fs[..last], fs[last], if fs[last].stream == Video then v else a);
      LinkedPrefix(fs, v, a, last);
      LastIndexBelow(fs[..last], v, a, stream);
    }
  }

  // ---- The invariant

  function All(p: Path): seq<Frame> {
    p.taken + p.queue
  }

  predicate AllSendable(fs: seq<Frame>) {
    forall k :: 0 <= k < |fs| ==> Sendable(fs[k])
  }

  function Records(fs: seq<Frame>): (records: seq<FrameRecord>)
    requires AllSendable(fs)
    ensures |records| == |fs| && forall k :: 0 <= k < |fs| ==> ValidRecord(records[k])
  {
    seq(|fs|, k requires 0 <= k < |fs| => RecordOf(fs[k]))
  }

  /** The writer holds the bytes of exactly these frames. */
  ghost predicate Mirrored(w: W.Writer, taken: seq<Frame>, queue: seq<Frame>) {
    && W.Inv(w) && AllSendable(taken) && AllSendable(queue)
    && w.queue == Encoded(Records(queue))
    && w.taken == Encoded(Records(taken))
  }

  /** While the pipe works, each sink knows the last caps of its stream. */
  ghost predicate CapsKnown(p: Path) {
    && (p.video.sentCaps != [] ==> LastCaps(All(p), Video) == Some(p.video.sentCaps))
    && (p.audio.sentCaps != [] ==> LastCaps(All(p), Audio) == Some(p.audio.sentCaps))
  }

  ghost predicate PhaseInv(p: Path) {
    match p.phase
    case Idle => !p.video.skipping ==> Follows(All(p), p.videoOut, |p.videoOut|)
    case Overflowing => true
    case Sending(stream, i) =>
      && i + 1 == |Out(p, stream)| && LastIndex(All(p), stream) < i
      && SinkOf(p, stream).sentCaps == Out(p, stream)[i].caps
      && (stream == Video && p.videoOut[i].delta ==> Follows(All(p), p.videoOut, i))
      && (stream == Audio && !p.video.skipping ==> Follows(All(p), p.videoOut, |p.videoOut|))
  }

  ghost predicate Inv(p: Path) {
    && Mirrored(p.writer, p.taken, p.queue) && Linked(All(p), p.videoOut, p.audioOut)
    && (!p.videoEnabled ==> p.videoOut == [])
    && (!p.writer.broken ==> CapsKnown(p) && PhaseInv(p))
  }

  lemma Appended(fs: seq<Frame>, f: Frame, stream: Stream)
    ensures LastIndex(fs + [f], stream) == if f.BufferFrame? && f.stream == stream then f.index else LastIndex(fs, stream)
    ensures LastCaps(fs + [f], stream) == if f.CapsFrame? && f.stream == stream then Some(f.caps) else LastCaps(fs, stream)
  {
    assert (fs + [f])[..|fs|] == fs;
  }

  /** Pushing an acceptable frame that fits keeps writer and frames in step. */
  lemma KeepPush(p: Path, f: Frame)
    requires Mirrored(p.writer, p.taken, p.queue) && Linked(All(p), p.videoOut, p.audioOut)
    requires Accepts(p, f) && Fits(All(p), f, Out(p, f.stream))
    ensures Mirrored(Push(p, f).writer, p.taken, p.queue + [f]) && Linked(All(Push(p, f)), p.videoOut, p.audioOut)
    ensures All(Push(p, f)) == All(p) + [f]
  {
    hide LastIndex, LastCaps, W.Inv, HeaderBytes, Linked;
    W.KeepPush(p.writer, RecordBytes(RecordOf(f)));
    assert Encoded(Records(p.queue + [f])) == Encoded(Records(p.queue)) + [RecordBytes(RecordOf(f))];
    assert p.taken + (p.queue + [f]) == All(p) + [f];
    LinkedAppend(All(p), f, p.videoOut, p.audioOut);
  }

  /** The encoder's new output, before anything is done with it. */
  function WithOutput(p: Path, stream: Stream, s: Sample): Path {
    if stream == Video then p.(videoOut := p.videoOut + [s]) else p.(audioOut := p.audioOut + [s])
  }

  lemma KeepOutput(p: Path, stream: Stream, s: Sample)
    requires Inv(p)
    ensures var p1 := WithOutput(p, stream, s);
      Mirrored(p1.writer, p1.taken, p1.queue) && All(p1) == All(p) && Linked(All(p1), p1.videoOut, p1.audioOut)
    ensures LastIndex(All(p), stream) < |Out(p, stream)|
  {
    hide W.Inv, RecordBytes, LastIndex, LastCaps;
    var p1 := WithOutput(p, stream, s);
    LastIndexBelow(All(p), p.videoOut, p.audioOut, stream);
    LinkedGrows(All(p), p.videoOut, p.audioOut, p1.videoOut, p1.audioOut);
  }

  lemma KeepArrive(p: Path, stream: Stream, s: Sample)
    requires Inv(p)
    ensures Inv(Arrive(p, stream, s))
  {
    hide Mirrored, Linked, LastIndex, LastCaps, RecordBytes, W.Push;
    if p.phase == Idle && !(stream == Video && !p.videoEnabled) {
      KeepOutput(p, stream, s);
      var p1, sink := WithOutput(p, stream, s), SinkOf(p, stream);
      if sink.skipping && s.delta {
        assert Arrive(p, stream, s) == p1;
      } else if sink.sentCaps == s.caps {
        var p2 := SetSink(p1, stream, Sink(s.caps, false)).(phase := Sending(stream, |Out(p, stream)|));
        assert Arrive(p, stream, s) == p2;
        assert All(p2) == All(p);
      } else if Accepts(p1, CapsFrame(stream, s.caps)) {
        ArriveWithCaps(p, stream, s);
      } else {
        var p2 := SetSink(p1, stream, sink.(skipping := false)).(phase := Overflowing);
        assert Arrive(p, stream, s) == p2;
        assert All(p2) == All(p);
      }
    }
  }

  lemma ArriveWithCaps(p: Path, stream: Stream, s: Sample)
    requires Inv(p) && p.phase == Idle && !(stream == Video && !p.videoEnabled)
    requires !(SinkOf(p, stream).skipping && s.delta) && SinkOf(p, stream).sentCaps != s.caps
    requires Accepts(WithOutput(p, stream, s), CapsFrame(stream, s.caps))
    ensures Inv(Arrive(p, stream, s))
  {
    hide Mirrored, Linked, LastIndex, LastCaps, RecordBytes, W.Push;
    KeepOutput(p, stream, s);
    var f := CapsFrame(stream, s.caps);
    var p2 := SetSink(WithOutput(p, stream, s), stream, Sink(s.caps, false));
    assert All(p2) == All(p);
    KeepPush(p2, f);
    Appended(All(p), f, Video);
    Appended(All(p), f, Audio);
    var p3 := Push(p2, f).(phase := Sending(stream, |Out(p, stream)|));
    assert Arrive(p, stream, s) == p3;
    assert All(p3) == All(p) + [f];
  }

  lemma KeepSend(p: Path)
    requires Inv(p)
    ensures Inv(Send(p))
  {
    hide Mirrored, Linked, LastIndex, LastCaps, RecordBytes, W.Push;
    if p.phase.Sending? && p.phase.index < |Out(p, p.phase.stream)| {
      var s := Out(p, p.phase.stream)[p.phase.index];
      var f := BufferFrame(p.phase.stream, p.phase.index, s);
      if Lost(s) {
        assert Send(p) == p.(phase := Idle);
        assert All(Send(p)) == All(p);
      } else if Accepts(p, f) {
        KeepPush(p, f);
        Appended(All(p), f, Video);
        Appended(All(p), f, Audio);
        assert Send(p) == Push(p, f).(phase := Idle);
        assert All(Send(p)) == All(p) + [f];
      } else {
        assert Send(p) == p.(phase := Overflowing);
        assert All(Send(p)) == All(p);
      }
    }
  }

  lemma KeepDrop(p: Path, writer: W.Writer)
    requires Inv(p) && W.Inv(writer) && writer.queue == [] && writer.taken == p.writer.taken
    ensures Mirrored(writer, p.taken, [])
    ensures Linked(All(p.(writer := writer, queue := [])), p.videoOut, p.audioOut)
  {
    hide LastIndex, LastCaps, W.Inv, RecordBytes, Linked;
    LinkedPrefix(All(p), p.videoOut, p.audioOut, |p.taken|);
    assert All(p)[..|p.taken|] == p.taken + [];
  }

  lemma KeepTake(p: Path)
    requires Inv(p)
    ensures Inv(Take(p))
  {
    hide W.Inv, Linked, LastIndex, LastCaps, RecordBytes;
    if W.CanTake(p.writer) && p.queue != [] {
      W.KeepTake(p.writer);
      var p' := Take(p);
      MoveFront(p.taken, p.queue);
      assert All(p') == All(p);
    }
  }

  lemma MoveFront(taken: seq<Frame>, queue: seq<Frame>)
    requires AllSendable(taken) && AllSendable(queue) && queue != []
    ensures AllSendable(taken + [queue[0]]) && AllSendable(queue[1..])
    ensures Encoded(Records(taken + [queue[0]])) == Encoded(Records(taken)) + [Encoded(Records(queue))[0]]
    ensures Encoded(Records(queue[1..])) == Encoded(Records(queue))[1..]
  {
  }

  lemma KeepOverflow(p: Path)
    requires Inv(p) && p.phase == Overflowing
    ensures Inv(Overflow(p))
  {
    hide W.Inv, Linked, LastIndex, LastCaps;
    W.KeepClear(p.writer);
    KeepDrop(p, W.Clear(p.writer));
    assert All(Overflow(p)) == All(p.(writer := W.Clear(p.writer), queue := []));
  }

  lemma KeepBreak(p: Path)
    requires Inv(p) && p.writer.current != []
    ensures Inv(Break(p))
  {
    hide W.Inv, Linked, LastIndex, LastCaps;
    W.KeepBreak(p.writer);
    KeepDrop(p, W.Break(p.writer));
  }

  lemma KeepApply(p: Path, step: Step)
    requires Inv(p)
    ensures Inv(Apply(p, step))
  {
    hide Inv, Arrive, Send, Take;
    match step
    case ArriveStep(stream, sample) => KeepArrive(p, stream, sample);
    case SendStep => KeepSend(p);
    case OverflowStep => if p.phase == Overflowing { KeepOverflow(p); }
    case CloseStep => KeepWriter(p, W.CloseStep);
    case TakeStep => KeepTake(p);
    case WriteStep(n) => KeepWriter(p, W.WriteStep(n));
    case BreakStep => if p.writer.current != [] { KeepBreak(p); }
  }

  /** Writing and closing touch neither the queue nor what was taken. */
  lemma KeepWriter(p: Path, step: W.Step)
    requires Inv(p) && (step.CloseStep? || step.WriteStep?)
    ensures Inv(p.(writer := W.Apply(p.writer, step)))
  {
    hide W.Inv, Linked, LastIndex, LastCaps;
    W.KeepApply(p.writer, step);
    assert All(p.(writer := W.Apply(p.writer, step))) == All(p);
  }

  lemma {:induction false} InvAlways(p: Path, steps: seq<Step>)
    requires Inv(p)
    ensures Inv(Run(p, steps))
  {
    hide Inv, Apply;
    if steps != [] {
      InvAlways(p, steps[..|steps| - 1]);
      KeepApply(Run(p, steps[..|steps| - 1]), steps[|steps| - 1]);
    }
  }

  // ---- The results

  /** Every delta buffer comes right after the frame the encoder made it from. */
  ghost predicate Decodable(fs: seq<Frame>) {
    forall k :: 0 <= k < |fs| && DeltaBuffer(fs[k]) ==>
                  fs[k].index > 0 && LastIndex(fs[..k], Video) == fs[k].index - 1
  }

  predicate DeltaBuffer(f: Frame) {
    f.BufferFrame? && f.stream == Video && f.sample.delta
  }

  /** Every buffer comes after caps of its stream, the last of which are its own. */
  ghost predicate CapsAgree(fs: seq<Frame>) {
    forall k :: 0 <= k < |fs| && fs[k].BufferFrame? ==>
                  LastCaps(fs[..k], fs[k].stream) == Some(fs[k].sample.caps)
  }

  /** The frames are the encoders' own output, in order, with gaps but no repeats. */
  ghost predicate FromEncoders(fs: seq<Frame>, p: Path) {
    forall k :: 0 <= k < |fs| && fs[k].BufferFrame? ==>
                  && fs[k].index < |Out(p, fs[k].stream)| && fs[k].sample == Out(p, fs[k].stream)[fs[k].index]
                  && LastIndex(fs[..k], fs[k].stream) < fs[k].index
  }

  /**
   What media-net reads, at any moment of any interleaving: from the first n bytes of the pipe it
   parses, without ever meeting a malformed record, the records of some frames.
   */
  lemma ReaderSeesFrames(budget: nat, videoEnabled: bool, steps: seq<Step>, n: nat)
    returns (frames: seq<Frame>)
    requires n <= |Run(Started(budget, videoEnabled), steps).writer.wire|
    ensures var p := Run(Started(budget, videoEnabled), steps);
      && frames <= p.taken && AllSendable(frames)
      && ParseFrames(p.writer.wire[..n]) == Parsed(Records(frames), true)
      && FromEncoders(frames, p) && Linked(frames, p.videoOut, p.audioOut)
  {
    hide Run, Linked, Mirrored, PhaseInv, CapsKnown, ParseFrames, AllSendable;
    var p := Run(Started(budget, videoEnabled), steps);
    StartInv(budget, videoEnabled);
    InvAlways(Started(budget, videoEnabled), steps);
    var k := ParsesFront(p.writer, p.taken, p.queue, n);
    frames := p.taken[..k];
    LinkedPrefix(All(p), p.videoOut, p.audioOut, k);
    assert All(p)[..k] == frames;
    LinkedFromEncoders(frames, p);
  }

  /** Any prefix of the pipe's bytes parses as some of the first frames that were taken. */
  lemma ParsesFront(w: W.Writer, taken: seq<Frame>, queue: seq<Frame>, n: nat) returns (k: nat)
    requires Mirrored(w, taken, queue) && n <= |w.wire|
    ensures k <= |taken| && AllSendable(taken[..k])
    ensures ParseFrames(w.wire[..n]) == Parsed(Records(taken[..k]), true)
  {
    hide ParseFrames, W.CountsInv, HeaderBytes, RecordOf;
    var records := Records(taken);
    WireIsPrefix(w);
    ParsePrefix(records, n);
    assert w.wire[..n] == StreamBytes(records)[..n];
    k := WholeParts(Encoded(records), n);
    assert Records(taken[..k]) == records[..k];
  }

  lemma StartInv(budget: nat, videoEnabled: bool)
    ensures Inv(Started(budget, videoEnabled))
  {
    W.InvAlways(budget, []);
    assert Records([]) == [] && Encoded([]) == [];
  }

  lemma WireIsPrefix(w: W.Writer)
    requires W.Inv(w)
    ensures w.wire <= Concat(w.taken)
  {
  }

  lemma LinkedFromEncoders(fs: seq<Frame>, p: Path)
    requires Linked(fs, p.videoOut, p.audioOut)
    ensures FromEncoders(fs, p)
  {
    forall k | 0 <= k < |fs| && fs[k].BufferFrame?
      ensures fs[k].index < |Out(p, fs[k].stream)| && fs[k].sample == Out(p, fs[k].stream)[fs[k].index]
      ensures LastIndex(fs[..k], fs[k].stream) < fs[k].index
    {
      assert Fits(fs[..k], fs[k], if fs[k].stream == Video then p.videoOut else p.audioOut);
    }
  }

  /**
   The video that media-net reads is decodable exactly when no delta buffer among it was the
   encoder's first frame or directly follows a frame that was lost for its size or its mapping.
   */
  lemma DecodableIff(fs: seq<Frame>, videoOut: seq<Sample>, audioOut: seq<Sample>)
    requires Linked(fs, videoOut, audioOut)
    ensures Decodable(fs) <==>
              forall k :: 0 <= k < |fs| && DeltaBuffer(fs[k]) ==>
                            0 < fs[k].index <= |videoOut| && !Lost(videoOut[fs[k].index - 1])
  {
    forall k | 0 <= k < |fs| && DeltaBuffer(fs[k])
      ensures 0 <= fs[k].index <= |videoOut|
      ensures fs[k].index > 0 && LastIndex(fs[..k], Video) == fs[k].index - 1 <==>
                fs[k].index > 0 && !Lost(videoOut[fs[k].index - 1])
    {
      assert Fits(fs[..k], fs[k], videoOut);
      LinkedPrefix(fs, videoOut, audioOut, k);
      LastIndexBelow(fs[..k], videoOut, audioOut, Video);
    }
  }

  /**
   Caps agree in every interleaving: when no caps are the empty text, each buffer that is read
   has been preceded by its own caps, and by no other caps of its stream since.
   */
  lemma CapsAlwaysAgree(budget: nat, videoEnabled: bool, steps: seq<Step>, n: nat)
    returns (frames: seq<Frame>)
    requires var p := Run(Started(budget, videoEnabled), steps);
      && n <= |p.writer.wire|
      && (forall s :: s in p.videoOut ==> s.caps != []) && (forall s :: s in p.audioOut ==> s.caps != [])
    ensures var p := Run(Started(budget, videoEnabled), steps);
      && AllSendable(frames) && ParseFrames(p.writer.wire[..n]) == Parsed(Records(frames), true)
      && FromEncoders(frames, p) && CapsAgree(frames)
  {
    hide Run, ParseFrames;
    frames := ReaderSeesFrames(budget, videoEnabled, steps, n);
    var p := Run(Started(budget, videoEnabled), steps);
    forall k | 0 <= k < |frames| && frames[k].BufferFrame?
      ensures LastCaps(frames[..k], frames[k].stream) == Some(frames[k].sample.caps)
    {
      assert Fits(frames[..k], frames[k], Out(p, frames[k].stream));
      assert Out(p, frames[k].stream)[frames[k].index] in Out(p, frames[k].stream);
    }
  }

  // ---- Where conditions are needed

  lemma RunSnoc(p: Path, steps: seq<Step>, step: Step)
    ensures Run(p, steps + [step]) == Apply(Run(p, steps), step)
  {
    assert (steps + [step])[..|steps|] == steps;
  }

  /** Take the queued frame and write all of it. */
  lemma Deliver(p: Path, steps: seq<Step>, q: Path) returns (steps': seq<Step>)
    requires q == Run(p, steps) && Mirrored(q.writer, q.taken, q.queue) && q.queue != []
    requires W.CanTake(q.writer)
    ensures var q' := Run(p, steps');
      && q'.taken == q.taken + [q.queue[0]] && q'.queue == q.queue[1..]
      && q'.writer.wire == q.writer.wire + RecordBytes(RecordOf(q.queue[0]))
      && q'.writer.current == [] && !q'.writer.broken && Mirrored(q'.writer, q'.taken, q'.queue)
      && q'.writer.closing == q.writer.closing && q'.writer.budget == q.writer.budget
      && q' == q.(writer := q'.writer, taken := q'.taken, queue := q'.queue)
  {
    hide W.CountsInv, W.WireInv, HeaderBytes, Run;
    var bytes := RecordBytes(RecordOf(q.queue[0]));
    RunSnoc(p, steps, TakeStep);
    RunSnoc(p, steps + [TakeStep], WriteStep(|bytes|));
    steps' := steps + [TakeStep] + [WriteStep(|bytes|)];
    MoveFront(q.taken, q.queue);
    W.KeepTake(q.writer);
    W.KeepApply(W.Take(q.writer), W.WriteStep(|bytes|));
    assert bytes[..|bytes|] == bytes;
  }

  /**
   When a key frame is too large or cannot be mapped, it is left out with no overflow, so the delta
   frame made from it is delivered right after the caps.
   */
  lemma LostKeyFrame(budget: nat, key: Sample, delta: Sample) returns (steps: seq<Step>, frames: seq<Frame>)
    requires Lost(key) && !key.delta && !Lost(delta) && delta.delta
    requires key.caps == delta.caps != [] && |key.caps| <= MAX_CAPS_BYTES
    requires budget >= 2 * HEADER_SIZE + |key.caps| + |delta.data|
    ensures var p := Run(Started(budget, true), steps);
      && p.videoOut == [key, delta] && AllSendable(frames)
      && ParseFrames(p.writer.wire) == Parsed(Records(frames), true)
      && frames == [CapsFrame(Video, key.caps), BufferFrame(Video, 1, delta)] && !Decodable(frames)
  {
    hide HeaderBytes, Run, W.CountsInv, W.WireInv, ParseFrames, Apply;
    var p0 := Started(budget, true);
    steps := [ArriveStep(Video, key)] + [SendStep] + [ArriveStep(Video, delta)] + [SendStep];
    StartInv(budget, true);
    InvAlways(p0, steps);
    KeyLostDeltaQueued(budget, key, delta);
    steps := Deliver(p0, steps, Run(p0, steps));
    WaitingReady(Run(p0, steps));
    steps := Deliver(p0, steps, Run(p0, steps));
    var p := Run(p0, steps);
    frames := p.taken;
    WholeWire(p);
    assert frames[..1] == [CapsFrame(Video, key.caps)];
    assert LastIndex(frames[..1], Video) == -1;
  }

  lemma KeyLostDeltaQueued(budget: nat, key: Sample, delta: Sample)
    requires Lost(key) && !key.delta && !Lost(delta) && delta.delta
    requires key.caps == delta.caps != [] && |key.caps| <= MAX_CAPS_BYTES
    requires budget >= 2 * HEADER_SIZE + |key.caps| + |delta.data|
    ensures var p := Run(Started(budget, true),
                         [ArriveStep(Video, key)] + [SendStep] + [ArriveStep(Video, delta)] + [SendStep]);
      && p.videoOut == [key, delta] && p.taken == []
      && p.queue == [CapsFrame(Video, key.caps), BufferFrame(Video, 1, delta)] && W.CanTake(p.writer)
  {
    hide HeaderBytes, Run;
    var p0 := Started(budget, true);
    var steps: seq<Step> := [];
    assert Run(p0, steps) == p0 by { RunNothing(p0); }
    RunSnoc(p0, steps, ArriveStep(Video, key));
    assert steps + [ArriveStep(Video, key)] == [ArriveStep(Video, key)];
    var p1 := Arrive(p0, Video, key);
    assert p1.queue == [CapsFrame(Video, key.caps)] && p1.phase == Sending(Video, 0);
    RunSnoc(p0, [ArriveStep(Video, key)], SendStep);
    var p2 := Send(p1);
    assert p2 == p1.(phase := Idle);
    RunSnoc(p0, [ArriveStep(Video, key)] + [SendStep], ArriveStep(Video, delta));
    var p3 := Arrive(p2, Video, delta);
    assert p3.phase == Sending(Video, 1) && p3.videoOut == [key, delta] && p3.writer == p2.writer;
    RunSnoc(p0, [ArriveStep(Video, key)] + [SendStep] + [ArriveStep(Video, delta)], SendStep);
  }

  lemma RunNothing(p: Path)
    ensures Run(p, []) == p
  {
  }

  lemma WaitingReady(p: Path)
    requires Mirrored(p.writer, p.taken, p.queue)
    requires p.queue != [] && p.writer.current == [] && !p.writer.broken
    ensures W.CanTake(p.writer)
  {
  }

  lemma WholeWire(p: Path)
    requires Mirrored(p.writer, p.taken, p.queue) && p.writer.current == [] && !p.writer.broken
    ensures ParseFrames(p.writer.wire) == Parsed(Records(p.taken), true)
  {
    hide ParseFrames, HeaderBytes;
    var n := |p.writer.wire|;
    assert p.writer.wire + [] == p.writer.wire;
    ParsePrefix(Records(p.taken), n);
    assert StreamBytes(Records(p.taken))[..n] == p.writer.wire;
    assert Records(p.taken)[..|p.taken|] == Records(p.taken);
  }

  /**
   The empty text also means "no caps sent yet": a buffer whose caps were the empty text would go
   out with no caps before it. (GStreamer never turns caps into the empty text.)
   */
  lemma EmptyCaps(budget: nat, stream: Stream, s: Sample) returns (steps: seq<Step>, frames: seq<Frame>)
    requires s.caps == [] && !Lost(s) && budget >= HEADER_SIZE + |s.data|
    ensures var p := Run(Started(budget, true), steps);
      && Out(p, stream) == [s] && Out(p, if stream == Video then Audio else Video) == [] && AllSendable(frames)
      && ParseFrames(p.writer.wire) == Parsed(Records(frames), true)
      && frames == p.taken == [BufferFrame(stream, 0, s)] && !CapsAgree(frames)
  {
    hide HeaderBytes, Run, W.CountsInv, W.WireInv, ParseFrames;
    var p0 := Started(budget, true);
    steps := [ArriveStep(stream, s)] + [SendStep];
    StartInv(budget, true);
    InvAlways(p0, steps);
    RunNothing(p0);
    RunSnoc(p0, [], ArriveStep(stream, s));
    assert [] + [ArriveStep(stream, s)] == [ArriveStep(stream, s)];
    RunSnoc(p0, [ArriveStep(stream, s)], SendStep);
    steps := Deliver(p0, steps, Run(p0, steps));
    var p := Run(p0, steps);
    frames := p.taken;
    WholeWire(p);
    assert frames[..0] == [] && LastCaps(frames[..0], stream) == None;
  }

  // ---- The code of the worker

  predicate NoSamples(steps: seq<Step>) {
    forall s :: s in steps ==> !s.ArriveStep? && !s.CloseStep?
  }

  lemma {:induction false} RunJoin(p: Path, a: seq<Step>, b: seq<Step>)
    ensures Run(p, a + b) == Run(Run(p, a), b)
  {
    hide Apply;
    if b == [] {
      assert a + b == a;
    } else {
      var last := |b| - 1;
      RunJoin(p, a, b[..last]);
      assert (a + b)[..|a + b| - 1] == a + b[..last];
    }
  }

  /** The two sinks and the queue they share; `phase` and the encoders' output are history. */
  class FrameSender {
    const writer: W.QueuedWriter
    const videoEnabled: bool
    var video: Sink
    var audio: Sink
    ghost var phase: Phase
    ghost var videoOut: seq<Sample>
    ghost var audioOut: seq<Sample>
    ghost var taken: seq<Frame>
    ghost var queue: seq<Frame>

    ghost function State(): Path
      reads this, writer
    {
      Path(writer.State(), video, audio, phase, videoEnabled, videoOut, audioOut, taken, queue)
    }

    constructor (budget: nat, videoEnabled: bool)
      ensures State() == Started(budget, videoEnabled) && fresh(writer)
    {
      writer := new W.QueuedWriter(budget);
      this.videoEnabled := videoEnabled;
      video, audio, phase := Sink([], false), Sink([], false), Idle;
      videoOut, audioOut, taken, queue := [], [], [], [];
    }

    /** Whatever the writer thread does while the worker is not using the queue. */
    method WriterThread() returns (ghost steps: seq<Step>)
      requires Inv(State())
      modifies this`taken, this`queue, writer
      ensures Inv(State()) && NoSamples(steps) && State() == Run(old(State()), steps)
    {
      hide Inv, Run, Apply;
      steps := [];
      RunNothing(State());
      var rounds: nat :| rounds >= 0;
      for i := 0 to rounds
        invariant Inv(State()) && NoSamples(steps) && State() == Run(old(State()), steps)
      {
        ghost var before := State();
        ghost var step := OneWriterStep();
        RunSnoc(old(State()), steps, step);
        KeepApply(before, step);
        steps := steps + [step];
      }
    }

    method OneWriterStep() returns (ghost step: Step)
      requires Inv(State())
      modifies this`taken, this`queue, writer
      ensures step.TakeStep? || step.WriteStep? || step.BreakStep?
      ensures State() == Apply(old(State()), step)
    {
      hide Linked, LastIndex, LastCaps, RecordBytes, CapsKnown, PhaseInv, W.WireInv;
      if writer.current != [] {
        var written := writer.WriteSome();
        step := if written == 0 then BreakStep else WriteStep(written);
        queue := if written == 0 then [] else queue;
      } else if writer.broken {
        step := TakeStep;
      } else {
        var took := writer.TakeFront();
        step := TakeStep;
        if took {
          taken, queue := taken + [queue[0]], queue[1..];
        }
      }
    }

    /** frames_overflowed. The request for a key frame goes to the main loop and is not shown. */
    method FramesOverflowed()
      requires phase == Overflowing
      modifies this, writer
      ensures State() == Apply(old(State()), OverflowStep)
      ensures phase == Idle && videoOut == old(videoOut) && audioOut == old(audioOut)
    {
      writer.Clear();
      queue, phase := [], Idle;
      video := Sink([], videoEnabled);
      audio := audio.(sentCaps := []);
    }

    /** Encode a header and payload and push the record. */
    method PushFrame(header: FrameHeader, payload: seq<byte>, ghost f: Frame) returns (ok: bool)
      requires Sendable(f) && RecordOf(f) == FrameRecord(header, payload)
      modifies this`queue, writer
      ensures ok <==> Accepts(old(State()), f)
      ensures State() == if ok then Push(old(State()), f) else old(State())
    {
      hide HeaderBytes;
      var record := EncodeFrame(header, payload);
      assert payload[..|payload|] == payload;
      ok := writer.Push(record);
      if ok {
        queue := queue + [f];
      }
    }

    /**
     new_sample, with the writer thread running in between: one run of the system, in which
     exactly this sample arrives and is dealt with completely.
     */
    method NewSample(stream: Stream, s: Sample) returns (ghost steps: seq<Step>)
      requires Inv(State()) && phase == Idle && (stream == Video ==> videoEnabled)
      modifies this, writer
      ensures Inv(State()) && phase == Idle && State() == Run(old(State()), steps)
      ensures steps != [] && steps[0] == ArriveStep(stream, s)
      ensures NoSamples(steps[1..])
      ensures Out(State(), stream) == Out(old(State()), stream) + [s]
    {
      hide Inv, Run, Apply;
      ghost var start := State();
      steps := [ArriveStep(stream, s)];
      KeepApply(start, steps[0]);
      RunOne(start, steps[0]);
      var skip, queued := Arrived(stream, s);
      if skip {
        return;
      }
      ghost var more := WriterThread();
      steps := Extend(start, steps, more);
      if queued {
        KeepApply(State(), SendStep);
        RunOne(State(), SendStep);
        queued := SendBuffer(stream, s);
        steps := Extend(start, steps, [SendStep]);
        more := WriterThread();
        steps := Extend(start, steps, more);
      }
      if !queued {
        KeepApply(State(), OverflowStep);
        RunOne(State(), OverflowStep);
        FramesOverflowed();
        steps := Extend(start, steps, [OverflowStep]);
      }
    }

    /** The first half: skip the sample, or make sure its caps have been sent. */
    method Arrived(stream: Stream, s: Sample) returns (skip: bool, queued: bool)
      requires phase == Idle && (stream == Video ==> videoEnabled)
      modifies this, writer
      ensures State() == Apply(old(State()), ArriveStep(stream, s))
      ensures Out(State(), stream) == Out(old(State()), stream) + [s]
      ensures phase == if skip then Idle else if queued then Sending(stream, |Out(old(State()), stream)|) else Overflowing
    {
      hide RecordBytes, W.Push, W.Accepts;
      var sink := if stream == Video then video else audio;
      ghost var index := |Out(State(), stream)|;
      if stream == Video {
        videoOut := videoOut + [s];
      } else {
        audioOut := audioOut + [s];
      }
      if sink.skipping && s.delta {
        return true, true;
      }
      skip := false;
      sink := sink.(skipping := false);
      queued := true;
      if sink.sentCaps != s.caps {
        queued := |s.caps| <= MAX_CAPS_BYTES;
        if queued {
          var header := FrameHeader(if stream == Video then VideoCaps else AudioCaps, 0, |s.caps|, 0);
          queued := PushFrame(header, s.caps, CapsFrame(stream, s.caps));
        }
        if queued {
          sink := sink.(sentCaps := s.caps);
        }
      }
      if stream == Video {
        video := sink;
      } else {
        audio := sink;
      }
      phase := if queued then Sending(stream, index) else Overflowing;
    }

    /** The second half: the buffer itself, if it can be mapped and is not too large. */
    method SendBuffer(stream: Stream, s: Sample) returns (queued: bool)
      requires Out(State(), stream) != [] && Out(State(), stream)[|Out(State(), stream)| - 1] == s
      requires phase == Sending(stream, |Out(State(), stream)| - 1)
      modifies this, writer
      ensures State() == Apply(old(State()), SendStep)
      ensures phase == if queued then Idle else Overflowing
      ensures videoOut == old(videoOut) && audioOut == old(audioOut)
    {
      hide RecordBytes, W.Push, W.Accepts;
      queued := true;
      if s.mapped && |s.data| <= MAX_FRAME_BYTES {
        var header := FrameHeader(if stream == Video then VideoBuffer else AudioBuffer, if s.delta then 1 else 0,
                                  |s.data|, if s.duration.Some? then s.duration.value else 0);
        queued := PushFrame(header, s.data, BufferFrame(stream, |Out(State(), stream)| - 1, s));
      }
      phase := if queued then Idle else Overflowing;
    }
  }

  lemma RunOne(p: Path, step: Step)
    ensures Run(p, [step]) == Apply(p, step)
  {
    RunNothing(p);
    RunSnoc(p, [], step);
    assert [] + [step] == [step];
  }

  lemma Extend(start: Path, steps: seq<Step>, more: seq<Step>) returns (all: seq<Step>)
    requires steps != [] && NoSamples(steps[1..]) && NoSamples(more)
    ensures all != [] && all[0] == steps[0] && NoSamples(all[1..])
    ensures Run(start, all) == Run(Run(start, steps), more)
  {
    hide Run, Apply;
    all := steps + more;
    RunJoin(start, steps, more);
    assert all[1..] == steps[1..] + more;
  }
}
