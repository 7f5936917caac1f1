/**
 Exactly when the frame path keeps its two promises, whatever the interleaving: the conditions on
 the encoders' output that a caller could check beforehand. `taken` is everything that the writer
 thread ever writes; media-net reads a prefix of it (FramePath.ReaderSeesFrames).
 */
module FrameGuards {
  import opened Bytes
  import opened NetRecords
  import opened FramePath
  import W = PipeWriter

  // ---- Decodable video

  /** Caps too long for a record: the worker never sends them, and overflows instead. */
  predicate LongCaps(s: Sample) {
    |s.caps| > MAX_CAPS_BYTES
  }

  /** In every run the worker is skipping to a key frame when frame n arrives. */
  predicate Forced(out: seq<Sample>, n: nat)
    requires n <= |out|
  {
    n > 0 && (LongCaps(out[n - 1]) || (out[n - 1].delta && Forced(out, n - 1)))
  }

  /** A delta frame that can be sent, and that no run is bound to skip. */
  predicate MayFollow(out: seq<Sample>, i: nat)
    requires i < |out|
  {
    out[i].delta && !Lost(out[i]) && !LongCaps(out[i]) && !Forced(out, i)
  }

  /** Every such frame comes right after a frame that can be sent. */
  ghost predicate EachMayDecode(out: seq<Sample>) {
    forall i :: 0 <= i < |out| && MayFollow(out, i) ==> i > 0 && !Lost(out[i - 1])
  }

  /** Room for every record. The worker's queue has more: 32 MiB. */
  const ROOM := HEADER_SIZE + MAX_FRAME_BYTES

  /** Decodable in every interleaving, behind a queue of this budget, in which the encoder puts this out. */
  ghost predicate AlwaysDecodes(out: seq<Sample>, budget: nat) {
    forall videoEnabled, steps ::
      var p := Run(Started(budget, videoEnabled), steps);
      p.videoOut == out ==> Decodable(p.taken)
  }

  lemma {:induction false} ForcedGrows(out: seq<Sample>, more: seq<Sample>, n: nat)
    requires n <= |out|
    ensures Forced(out + more, n) == Forced(out, n)
  {
    if n > 0 {
      ForcedGrows(out, more, n - 1);
    }
  }

  // ---- No run delivers a delta frame that is bound to be skipped

  predicate Unforced(f: Frame, out: seq<Sample>) {
    f.BufferFrame? && f.stream == Video && f.sample.delta ==>
      f.index < |out| && f.sample == out[f.index] && !LongCaps(f.sample) && !Forced(out, f.index)
  }

  ghost predicate AllUnforced(fs: seq<Frame>, out: seq<Sample>) {
    forall f :: f in fs ==> Unforced(f, out)
  }

  /** Outside an overflow, a worker that is not skipping was not bound to. */
  predicate SkipInv(p: Path) {
    && (!p.videoEnabled ==> p.videoOut == [])
    && |p.video.sentCaps| <= MAX_CAPS_BYTES
    && (p.phase != Overflowing && !p.video.skipping ==> !Forced(p.videoOut, |p.videoOut|))
    && (p.phase.Sending? && p.phase.stream == Video && p.phase.index < |p.videoOut| ==>
          Unforced(BufferFrame(Video, p.phase.index, p.videoOut[p.phase.index]), p.videoOut))
  }

  ghost predicate GuardInv(p: Path) {
    SkipInv(p) && AllUnforced(p.taken, p.videoOut) && AllUnforced(p.queue, p.videoOut)
  }

  lemma UnforcedGrows(fs: seq<Frame>, out: seq<Sample>, s: Sample)
    requires AllUnforced(fs, out)
    ensures AllUnforced(fs, out + [s])
  {
    forall f | f in fs ensures Unforced(f, out + [s]) {
      if f.BufferFrame? && f.stream == Video && f.sample.delta {
        ForcedGrows(out, [s], f.index);
      }
    }
  }

  lemma SkipArrive(p: Path, stream: Stream, s: Sample)
    requires SkipInv(p)
    ensures SkipInv(Arrive(p, stream, s))
  {
    hide W.Accepts, W.Push, RecordBytes;
    ForcedGrows(p.videoOut, [s], |p.videoOut|);
  }

  lemma KeepArrives(p: Path, stream: Stream, s: Sample)
    requires GuardInv(p)
    ensures GuardInv(Arrive(p, stream, s))
  {
    hide SkipInv, Unforced, W.Accepts, W.Push, RecordBytes;
    SkipArrive(p, stream, s);
    UnforcedGrows(p.taken, p.videoOut, s);
    UnforcedGrows(p.queue, p.videoOut, s);
    CapsUnforced(stream, s.caps, p.videoOut + [s]);
    CapsUnforced(stream, s.caps, p.videoOut);
  }

  lemma CapsUnforced(stream: Stream, caps: Text, out: seq<Sample>)
    ensures Unforced(CapsFrame(stream, caps), out)
  {
  }

  lemma KeepSends(p: Path)
    requires GuardInv(p)
    ensures GuardInv(Send(p))
  {
    hide Forced, W.Accepts, W.Push, RecordBytes;
  }

  lemma GuardApply(p: Path, step: Step)
    requires GuardInv(p)
    ensures GuardInv(Apply(p, step))
  {
    hide Unforced, Forced, Arrive, Send, W.Apply, W.Take, W.Clear, W.Break, W.Write;
    match step
    case ArriveStep(stream, sample) => KeepArrives(p, stream, sample);
    case SendStep => KeepSends(p);
    case OverflowStep => assert p.videoOut == [] ==> !Forced(p.videoOut, 0) by { NeverForced(p.videoOut); }
    case TakeStep =>
    case _ =>
  }

  lemma NeverForced(out: seq<Sample>)
    ensures !Forced(out, 0)
  {
  }

  lemma {:induction false} GuardAlways(budget: nat, videoEnabled: bool, steps: seq<Step>)
    ensures GuardInv(Run(Started(budget, videoEnabled), steps))
  {
    hide Apply, GuardInv;
    if steps == [] {
      GuardAtStart(budget, videoEnabled);
    } else {
      GuardAlways(budget, videoEnabled, steps[..|steps| - 1]);
      GuardApply(Run(Started(budget, videoEnabled), steps[..|steps| - 1]), steps[|steps| - 1]);
    }
  }

  lemma GuardAtStart(budget: nat, videoEnabled: bool)
    ensures GuardInv(Started(budget, videoEnabled))
  {
  }

  lemma GuardSuffices(out: seq<Sample>, budget: nat, videoEnabled: bool, steps: seq<Step>)
    requires EachMayDecode(out) && Run(Started(budget, videoEnabled), steps).videoOut == out
    ensures Decodable(Run(Started(budget, videoEnabled), steps).taken)
  {
    hide Run, Linked, Lost, Forced, LongCaps;
    var p := Run(Started(budget, videoEnabled), steps);
    LinkedTaken(budget, videoEnabled, steps);
    LinkedFromEncoders(p.taken, p);
    GuardAlways(budget, videoEnabled, steps);
    forall k | 0 <= k < |p.taken| && DeltaBuffer(p.taken[k])
      ensures 0 < p.taken[k].index <= |out| && !Lost(out[p.taken[k].index - 1])
    {
      assert p.taken[k] in p.taken && Unforced(p.taken[k], out) && Sendable(p.taken[k]);
      assert MayFollow(out, p.taken[k].index);
    }
    DecodableIff(p.taken, p.videoOut, p.audioOut);
  }

  lemma LinkedTaken(budget: nat, videoEnabled: bool, steps: seq<Step>)
    ensures var p := Run(Started(budget, videoEnabled), steps);
      Linked(p.taken, p.videoOut, p.audioOut) && AllSendable(p.taken)
  {
    hide Run, Linked;
    StartInv(budget, videoEnabled);
    InvAlways(Started(budget, videoEnabled), steps);
    var p := Run(Started(budget, videoEnabled), steps);
    LinkedPrefix(All(p), p.videoOut, p.audioOut, |p.taken|);
    assert All(p)[..|p.taken|] == p.taken;
  }

  // ---- A run in which media-net keeps up

  /** Everything so far has been written, new_sample is not under way, and only what must be is skipped. */
  ghost predicate Clean(p: Path) {
    && Inv(p) && p.queue == [] && p.phase == Idle && p.videoEnabled
    && |p.video.sentCaps| <= MAX_CAPS_BYTES && p.video.skipping == Forced(p.videoOut, |p.videoOut|)
    && p.writer.current == [] && !p.writer.broken && !p.writer.closing
  }

  /** Write out the one frame in the queue, if there is one. */
  lemma Flush(p0: Path, steps: seq<Step>, q: Path) returns (steps': seq<Step>, q': Path)
    requires Inv(p0) && q == Run(p0, steps) && Inv(q) && |q.queue| <= 1
    requires q.writer.current == [] && !q.writer.broken
    ensures q' == Run(p0, steps') && Inv(q') && q'.queue == [] && q'.taken == q.taken + q.queue
    ensures q' == q.(writer := q'.writer, taken := q'.taken, queue := [])
    ensures q'.writer.current == [] && !q'.writer.broken
    ensures q'.writer.closing == q.writer.closing && q'.writer.budget == q.writer.budget
  {
    hide Run, Linked, Mirrored, PhaseInv, CapsKnown;
    steps', q' := steps, q;
    if q.queue != [] {
      ReadyToTake(q);
      steps' := Deliver(p0, steps, q);
      q' := Run(p0, steps');
      InvAlways(p0, steps');
    }
  }

  lemma ReadyToTake(q: Path)
    requires Inv(q) && q.queue != [] && q.writer.current == [] && !q.writer.broken
    ensures Mirrored(q.writer, q.taken, q.queue) && W.CanTake(q.writer)
  {
    WaitingReady(q);
  }

  /** An empty queue has room for any record within the budget. */
  lemma RoomFor(p: Path, f: Frame)
    requires p.writer.queued == 0 && !p.writer.broken && !p.writer.closing
    requires Sendable(f) && |RecordBytes(RecordOf(f))| <= p.writer.budget
    ensures Accepts(p, f)
  {
    hide RecordBytes;
  }

  lemma NothingQueued(p: Path)
    requires Inv(p) && p.queue == []
    ensures p.writer.queued == 0
  {
    hide Linked, W.WireInv;
    assert Encoded(Records([])) == [];
  }

  /** One sample is handled, and what it caused is written at once. */
  lemma FeedOne(p0: Path, steps: seq<Step>, s: Sample) returns (steps': seq<Step>)
    requires Inv(p0) && Clean(Run(p0, steps)) && Run(p0, steps).writer.budget >= ROOM
    ensures var q, q' := Run(p0, steps), Run(p0, steps');
      && Clean(q') && q'.videoOut == q.videoOut + [s] && q.taken <= q'.taken
      && q'.writer.budget == q.writer.budget
      && (!Lost(s) && !LongCaps(s) && !(s.delta && q.video.skipping) ==> BufferFrame(Video, |q.videoOut|, s) in q'.taken)
  {
    var q := Run(p0, steps);
    if q.video.skipping && s.delta {
      steps' := FeedSkipped(p0, steps, s);
    } else if LongCaps(s) {
      steps' := FeedLong(p0, steps, s);
    } else {
      steps' := FeedSent(p0, steps, s);
    }
  }

  lemma FeedSkipped(p0: Path, steps: seq<Step>, s: Sample) returns (steps': seq<Step>)
    requires Inv(p0) && Clean(Run(p0, steps)) && Run(p0, steps).video.skipping && s.delta
    ensures var q, q' := Run(p0, steps), Run(p0, steps');
      Clean(q') && q' == q.(videoOut := q.videoOut + [s])
  {
    hide Run, Inv, RecordBytes, Accepts;
    var q := Run(p0, steps);
    steps' := steps + [ArriveStep(Video, s)];
    RunSnoc(p0, steps, ArriveStep(Video, s));
    InvAlways(p0, steps');
    ForcedGrows(q.videoOut, [s], |q.videoOut|);
  }

  lemma FeedLong(p0: Path, steps: seq<Step>, s: Sample) returns (steps': seq<Step>)
    requires Inv(p0) && Clean(Run(p0, steps)) && !(Run(p0, steps).video.skipping && s.delta) && LongCaps(s)
    ensures var q, q' := Run(p0, steps), Run(p0, steps');
      Clean(q') && q'.videoOut == q.videoOut + [s] && q'.taken == q.taken && q'.writer.budget == q.writer.budget
  {
    hide Run, Inv, RecordBytes;
    var q := Run(p0, steps);
    RunSnoc(p0, steps, ArriveStep(Video, s));
    RunSnoc(p0, steps + [ArriveStep(Video, s)], OverflowStep);
    steps' := steps + [ArriveStep(Video, s)] + [OverflowStep];
    assert Arrive(q, Video, s).phase == Overflowing;
    InvAlways(p0, steps');
  }

  /** The frame's caps are out, and its buffer is about to be pushed. */
  ghost predicate AtBuffer(p: Path, s: Sample) {
    && Inv(p) && p.queue == [] && p.videoEnabled && !p.video.skipping && p.video.sentCaps == s.caps
    && p.videoOut != [] && p.videoOut[|p.videoOut| - 1] == s && p.phase == Sending(Video, |p.videoOut| - 1)
    && p.writer.current == [] && !p.writer.broken && !p.writer.closing
  }

  lemma FeedSent(p0: Path, steps: seq<Step>, s: Sample) returns (steps': seq<Step>)
    requires Inv(p0) && Clean(Run(p0, steps)) && !(Run(p0, steps).video.skipping && s.delta) && !LongCaps(s)
    requires Run(p0, steps).writer.budget >= ROOM
    ensures var q, q' := Run(p0, steps), Run(p0, steps');
      && Clean(q') && q'.videoOut == q.videoOut + [s] && q.taken <= q'.taken
      && q'.writer.budget == q.writer.budget
      && (!Lost(s) ==> BufferFrame(Video, |q.videoOut|, s) in q'.taken)
  {
    hide Run, Inv, Lost, Forced;
    var q := Run(p0, steps);
    var steps1, q1 := FeedCaps(p0, steps, s);
    NotForced(q.videoOut, s);
    steps' := FeedBuffer(p0, steps1, s);
  }

  lemma FeedCaps(p0: Path, steps: seq<Step>, s: Sample) returns (steps': seq<Step>, q': Path)
    requires Inv(p0) && Clean(Run(p0, steps)) && !(Run(p0, steps).video.skipping && s.delta) && !LongCaps(s)
    requires Run(p0, steps).writer.budget >= ROOM
    ensures var q := Run(p0, steps);
      && q' == Run(p0, steps') && AtBuffer(q', s) && q'.videoOut == q.videoOut + [s] && q.taken <= q'.taken
      && q'.writer.budget == q.writer.budget
  {
    hide Run, Inv, RecordBytes, Accepts, Forced;
    var q := Run(p0, steps);
    RunSnoc(p0, steps, ArriveStep(Video, s));
    InvAlways(p0, steps + [ArriveStep(Video, s)]);
    NothingQueued(q);
    var caps := CapsFrame(Video, s.caps);
    CapsSize(caps);
    RoomFor(q.(videoOut := q.videoOut + [s]), caps);
    var q1 := Arrive(q, Video, s);
    assert q1.queue <= [caps] && q1.taken == q.taken;
    steps', q' := Flush(p0, steps + [ArriveStep(Video, s)], q1);
  }

  lemma FeedBuffer(p0: Path, steps: seq<Step>, s: Sample) returns (steps': seq<Step>)
    requires Inv(p0) && AtBuffer(Run(p0, steps), s) && Run(p0, steps).writer.budget >= ROOM && !LongCaps(s)
    requires !Forced(Run(p0, steps).videoOut, |Run(p0, steps).videoOut|)
    ensures var q, q' := Run(p0, steps), Run(p0, steps');
      && Clean(q') && q'.videoOut == q.videoOut && q.taken <= q'.taken && q'.writer.budget == q.writer.budget
      && (!Lost(s) ==> BufferFrame(Video, |q.videoOut| - 1, s) in q'.taken)
  {
    hide Run, Inv, RecordBytes, Accepts, Forced;
    var q := Run(p0, steps);
    var f := BufferFrame(Video, |q.videoOut| - 1, s);
    RunSnoc(p0, steps, SendStep);
    InvAlways(p0, steps + [SendStep]);
    if !Lost(s) {
      NothingQueued(q);
      BufferSize(f);
      RoomFor(q, f);
    }
    var q';
    steps', q' := Flush(p0, steps + [SendStep], Send(q));
    if !Lost(s) {
      assert q'.taken[|q'.taken| - 1] == f;
    }
  }

  /** A frame that is not skipped, with caps that can be sent, frees the one after it. */
  lemma NotForced(out: seq<Sample>, s: Sample)
    requires !LongCaps(s) && !(s.delta && Forced(out, |out|))
    ensures !Forced(out + [s], |out| + 1)
  {
    ForcedGrows(out, [s], |out|);
  }

  lemma CapsSize(f: Frame)
    requires f.CapsFrame? && Sendable(f)
    ensures |RecordBytes(RecordOf(f))| == HEADER_SIZE + |f.caps|
  {
  }

  lemma BufferSize(f: Frame)
    requires f.BufferFrame? && Sendable(f)
    ensures |RecordBytes(RecordOf(f))| == HEADER_SIZE + |f.sample.data|
  {
  }

  ghost predicate Delivered(out: seq<Sample>, taken: seq<Frame>) {
    forall i :: 0 <= i < |out| && MayFollow(out, i) ==> BufferFrame(Video, i, out[i]) in taken
  }

  lemma DeliveredMore(out: seq<Sample>, taken: seq<Frame>, s: Sample, taken': seq<Frame>)
    requires Delivered(out, taken) && taken <= taken'
    requires !Lost(s) && !LongCaps(s) && !(s.delta && Forced(out, |out|)) ==> BufferFrame(Video, |out|, s) in taken'
    ensures Delivered(out + [s], taken')
  {
    hide Lost, LongCaps, Forced;
    forall i | 0 <= i <= |out| && MayFollow(out + [s], i) ensures BufferFrame(Video, i, (out + [s])[i]) in taken' {
      ForcedGrows(out, [s], i);
      if i < |out| {
        assert MayFollow(out, i) && BufferFrame(Video, i, out[i]) in taken;
      }
    }
  }

  lemma SkipsIfForced(p: Path)
    requires Clean(p)
    ensures p.video.skipping == Forced(p.videoOut, |p.videoOut|)
  {
  }

  /** Any output can be written completely, but for the frames that are lost or bound to be skipped. */
  lemma {:induction false} Feed(out: seq<Sample>, budget: nat) returns (steps: seq<Step>)
    requires budget >= ROOM
    ensures var p := Run(Started(budget, true), steps);
      Clean(p) && p.videoOut == out && p.writer.budget == budget && Delivered(out, p.taken)
  {
    hide Run, Clean, Delivered, Lost, LongCaps, Forced, Inv;
    StartInv(budget, true);
    var p0 := Started(budget, true);
    if out == [] {
      steps := [];
      RunNothing(p0);
      StartsClean(budget);
    } else {
      var last := |out| - 1;
      assert out == out[..last] + [out[last]];
      var before := Feed(out[..last], budget);
      SkipsIfForced(Run(p0, before));
      steps := FeedOne(p0, before, out[last]);
      DeliveredMore(out[..last], Run(p0, before).taken, out[last], Run(p0, steps).taken);
    }
  }

  lemma StartsClean(budget: nat)
    ensures Clean(Started(budget, true)) && Delivered([], [])
  {
    StartInv(budget, true);
  }

  lemma GuardNeeded(out: seq<Sample>, i: nat, budget: nat) returns (steps: seq<Step>)
    requires budget >= ROOM
    requires i < |out| && MayFollow(out, i) && (i == 0 || Lost(out[i - 1]))
    ensures var p := Run(Started(budget, true), steps); p.videoOut == out && !Decodable(p.taken)
  {
    hide Run, Inv, Linked, Lost, Forced;
    steps := Feed(out, budget);
    var p := Run(Started(budget, true), steps);
    LinkedTaken(budget, true, steps);
    DecodableIff(p.taken, p.videoOut, p.audioOut);
    assert Delivered(out, p.taken);
    var f := BufferFrame(Video, i, out[i]);
    var k :| 0 <= k < |p.taken| && p.taken[k] == f;
    assert DeltaBuffer(p.taken[k]);
  }

  /**
   What the encoder puts out is decodable in every interleaving - any overflows, any moment of
   failure - if and only if each delta frame that can be sent, and that is not bound to be skipped,
   comes right after a frame that can be sent. This is so for every budget that has room for one
   record; it suffices for any budget.
   */
  lemma DecodesExactlyWhen(out: seq<Sample>, budget: nat)
    ensures EachMayDecode(out) ==> AlwaysDecodes(out, budget)
    ensures budget >= ROOM ==> (AlwaysDecodes(out, budget) <==> EachMayDecode(out))
  {
    hide Run, Decodable, Lost, MayFollow;
    if EachMayDecode(out) {
      forall videoEnabled, steps | Run(Started(budget, videoEnabled), steps).videoOut == out
        ensures Decodable(Run(Started(budget, videoEnabled), steps).taken)
      {
        GuardSuffices(out, budget, videoEnabled, steps);
      }
    } else if budget >= ROOM {
      var i :| 0 <= i < |out| && MayFollow(out, i) && !(i > 0 && !Lost(out[i - 1]));
      var steps := GuardNeeded(out, i, budget);
      assert Run(Started(budget, true), steps).videoOut == out;
    }
  }

  /**
   What media-net reads under that condition, at any moment of any interleaving: decodable video,
   through any number of overflows, at any point, even when the pipe breaks.
   */
  lemma AlwaysDecodable(budget: nat, videoEnabled: bool, steps: seq<Step>, n: nat)
    returns (frames: seq<Frame>)
    requires var p := Run(Started(budget, videoEnabled), steps);
      n <= |p.writer.wire| && EachMayDecode(p.videoOut)
    ensures var p := Run(Started(budget, videoEnabled), steps);
      && AllSendable(frames) && ParseFrames(p.writer.wire[..n]) == Parsed(Records(frames), true)
      && FromEncoders(frames, p) && Decodable(frames)
  {
    hide Run, ParseFrames, Linked, EachMayDecode, FromEncoders, AllSendable;
    frames := ReaderSeesFrames(budget, videoEnabled, steps, n);
    var p := Run(Started(budget, videoEnabled), steps);
    GuardSuffices(p.videoOut, budget, videoEnabled, steps);
    forall k | 0 <= k < |frames| ensures frames[k] == p.taken[k] && frames[..k] == p.taken[..k] {
    }
  }

  // ---- Caps that agree

  ghost predicate CapsAmong(p: Path, allowed: set<Text>) {
    (forall s :: s in p.videoOut ==> s.caps in allowed) && (forall s :: s in p.audioOut ==> s.caps in allowed)
  }

  /** Agreeing in every interleaving, behind a queue of this budget, in which the encoders use only these caps. */
  ghost predicate AlwaysAgrees(allowed: set<Text>, budget: nat) {
    forall videoEnabled, steps ::
      var p := Run(Started(budget, videoEnabled), steps);
      CapsAmong(p, allowed) ==> CapsAgree(p.taken)
  }

  lemma CapsSuffice(allowed: set<Text>, budget: nat, videoEnabled: bool, steps: seq<Step>)
    requires [] !in allowed && CapsAmong(Run(Started(budget, videoEnabled), steps), allowed)
    ensures CapsAgree(Run(Started(budget, videoEnabled), steps).taken)
  {
    hide Run, LastCaps, LastIndex;
    LinkedTaken(budget, videoEnabled, steps);
    var p := Run(Started(budget, videoEnabled), steps);
    forall k | 0 <= k < |p.taken| && p.taken[k].BufferFrame?
      ensures LastCaps(p.taken[..k], p.taken[k].stream) == Some(p.taken[k].sample.caps)
    {
      assert Fits(p.taken[..k], p.taken[k], Out(p, p.taken[k].stream));
    }
  }

  /**
   Each buffer follows its own caps in every interleaving if and only if no caps are empty, for
   every budget that has room for a record at all; with less, nothing is sent.
   */
  lemma CapsExactlyWhen(allowed: set<Text>, budget: nat)
    ensures [] !in allowed ==> AlwaysAgrees(allowed, budget)
    ensures budget >= HEADER_SIZE ==> (AlwaysAgrees(allowed, budget) <==> [] !in allowed)
  {
    hide Run, CapsAgree;
    if [] !in allowed {
      forall videoEnabled, steps | CapsAmong(Run(Started(budget, videoEnabled), steps), allowed)
        ensures CapsAgree(Run(Started(budget, videoEnabled), steps).taken)
      {
        CapsSuffice(allowed, budget, videoEnabled, steps);
      }
    } else if budget >= HEADER_SIZE {
      var s := Sample(false, [], true, [], None);
      var steps, frames := EmptyCaps(budget, Video, s);
      assert CapsAmong(Run(Started(budget, true), steps), allowed);
    }
  }
}
