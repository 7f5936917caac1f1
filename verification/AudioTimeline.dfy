/** AudioTimeline (audio-timeline.hpp): stamps from the count of samples, not from the clock. */
module AudioTimeline {

  const SECOND := 1_000_000_000 // nanoseconds
  const INT64_MAX := 0x7fff_ffff_ffff_ffff

  /** One chunk as it is read: the running time, its samples, and its length in nanoseconds. */
  datatype Chunk = Chunk(now: nat, frames: nat, duration: nat)

  datatype Stamp = Stamp(pts: int, duration: nat, discont: bool)

  datatype Timeline = Timeline(rate: nat, drift: nat, started: bool, origin: int, samples: nat, next: int)

  predicate Valid(t: Timeline) {
    t.rate > 0 && t.origin >= 0 && (t.started ==> t.next == TimeOf(t.origin, t.samples, t.rate))
  }

  /** The exact time of a sample, rounded down: the only place where a stamp comes from. */
  function TimeOf(origin: int, samples: nat, rate: nat): int
    requires rate > 0
  {
    origin + samples * SECOND / rate
  }

  function Abs(x: int): nat {
    if x < 0 then -x else x
  }

  /** The timeline has to be set again: it is new, or too far from the clock. */
  predicate SetsAgain(t: Timeline, c: Chunk) {
    !t.started || t.next - c.now > t.drift || c.now - t.next > t.drift
  }

  /** The chunk ended about now, so it started one chunk length ago. */
  function Restarted(t: Timeline, c: Chunk): Timeline {
    if !SetsAgain(t, c) then t
    else
      var start := if c.now > c.duration then c.now - c.duration else 0;
      t.(started := true, origin := start, samples := 0, next := start)
  }

  function StampOf(t: Timeline, c: Chunk): Stamp {
    Stamp(Restarted(t, c).next, c.duration, SetsAgain(t, c) && t.started)
  }

  function Advanced(t: Timeline, c: Chunk): (t': Timeline)
    requires Valid(t)
    ensures Valid(t') && t'.rate == t.rate && t'.drift == t.drift && t'.started
  {
    var t1 := Restarted(t, c);
    var samples := t1.samples + c.frames;
    t1.(samples := samples, next := TimeOf(t1.origin, samples, t1.rate))
  }

  function ByFrames(now: nat, frames: nat, rate: nat): Chunk
    requires rate > 0
  {
    Chunk(now, frames, frames * SECOND / rate)
  }

  function ByDuration(now: nat, duration: nat, rate: nat): Chunk {
    Chunk(now, duration * rate / SECOND, duration)
  }

  function Fresh(rate: nat, drift: nat): Timeline {
    Timeline(rate, drift, false, 0, 0, 0)
  }

  // ---- Division

  lemma FloorSum(a: nat, b: nat, d: nat)
    requires d > 0
    ensures a / d + b / d <= (a + b) / d <= a / d + b / d + 1
  {
    var q, r := (a + b) / d, (a + b) % d;
    var x, y := a / d + b / d, a % d + b % d;
    assert d * (a / d) + d * (b / d) == d * x by { Distribute(d, a / d, b / d); }
    assert d * q + r == d * x + y;
    Squeeze(d, q, x, r, y);
  }

  lemma Distribute(d: int, a: int, b: int)
    ensures d * (a + b) == d * a + d * b
  {
  }

  lemma Squeeze(d: int, q: int, x: int, r: int, y: int)
    requires d > 0 && d * q + r == d * x + y && 0 <= r < d && 0 <= y < 2 * d
    ensures x <= q <= x + 1
  {
    if q < x {
      MulOrder(d, q + 1, x);
      Distribute(d, q, 1);
      assert false;
    } else if q > x + 1 {
      MulOrder(d, x + 2, q);
      Distribute(d, x, 2);
      assert false;
    }
  }

  lemma MulOrder(d: int, a: int, b: int)
    requires d > 0 && a <= b
    ensures d * a <= d * b
  {
  }

  /** The time between two sample counts is the rounded length of what lies between, or 1 ns more. */
  lemma Between(origin: int, samples: nat, frames: nat, rate: nat)
    requires rate > 0
    ensures 0 <= frames * SECOND / rate
         <= TimeOf(origin, samples + frames, rate) - TimeOf(origin, samples, rate)
         <= frames * SECOND / rate + 1
  {
    FloorSum(samples * SECOND, frames * SECOND, rate);
    assert (samples + frames) * SECOND == samples * SECOND + frames * SECOND;
  }

  lemma TimeAtZero(origin: int, rate: nat)
    requires rate > 0
    ensures TimeOf(origin, 0, rate) == origin
  {
  }

  // ---- One step

  /** Every stamp is within the drift allowance, or the chunk's own length, of the clock. */
  lemma NearTheClock(t: Timeline, c: Chunk)
    requires Valid(t)
    ensures Abs(StampOf(t, c).pts - c.now) <= if SetsAgain(t, c) then c.duration else t.drift
    ensures StampOf(t, c).pts >= 0 || !SetsAgain(t, c)
  {
  }

  /** A chunk known by its samples starts when the one before it ended, or 1 ns later. */
  lemma FollowsOn(t: Timeline, now: nat, frames: nat, c: Chunk)
    requires Valid(t)
    requires var t' := Advanced(t, ByFrames(now, frames, t.rate)); !SetsAgain(t', c)
    ensures var first := ByFrames(now, frames, t.rate);
      var gap := StampOf(Advanced(t, first), c).pts - (StampOf(t, first).pts + first.duration);
      0 <= gap <= 1
  {
    var t1 := Restarted(t, ByFrames(now, frames, t.rate));
    Between(t1.origin, t1.samples, frames, t.rate);
  }

  /** Known by its samples or by its length, a chunk is the same exactly if it has whole samples. */
  lemma SameByDuration(now: nat, duration: nat, rate: nat)
    requires rate > 0
    ensures ByDuration(now, duration, rate) == ByFrames(now, duration * rate / SECOND, rate) <==> duration * rate % SECOND == 0
  {
    var frames := duration * rate / SECOND;
    if duration * rate % SECOND == 0 {
      ExactQuotient(rate * duration, rate, duration);
    } else {
      ShorterQuotient(frames * SECOND, rate, duration);
    }
  }

  lemma ShorterQuotient(a: nat, d: nat, q: nat)
    requires d > 0 && a < q * d
    ensures a / d < q
  {
    if a / d >= q {
      MulOrder(d, q, a / d);
      assert false;
    }
  }

  lemma ExactQuotient(a: nat, d: nat, q: nat)
    requires d > 0 && a == d * q
    ensures a / d == q
  {
    FloorSum(a, 0, d);
    var q', r := a / d, a % d;
    assert d * q' + r == d * q + 0;
    Squeeze(d, q', q, r, 0);
    Squeeze(d, q, q', 0, r);
  }

  // ---- Runs

  function Run(t: Timeline, chunks: seq<Chunk>): (t': Timeline)
    requires Valid(t)
    ensures Valid(t') && t'.rate == t.rate && t'.drift == t.drift
  {
    if chunks == [] then t else Advanced(Run(t, chunks[..|chunks| - 1]), chunks[|chunks| - 1])
  }

  function SampleCount(chunks: seq<Chunk>): nat {
    if chunks == [] then 0 else SampleCount(chunks[..|chunks| - 1]) + chunks[|chunks| - 1].frames
  }

  /** The stamp of chunk k of a run. */
  function StampAt(t: Timeline, chunks: seq<Chunk>, k: nat): Stamp
    requires Valid(t) && k < |chunks|
  {
    StampOf(Run(t, chunks[..k]), chunks[k])
  }

  /** The timeline was set for chunk `from`, and not again up to chunk k. */
  predicate Unbroken(t: Timeline, chunks: seq<Chunk>, from: nat, k: nat)
    requires Valid(t) && from <= k < |chunks|
  {
    SetsAgain(Run(t, chunks[..from]), chunks[from])
    && forall j :: from < j <= k ==> !SetsAgain(Run(t, chunks[..j]), chunks[j])
  }

  /**
   Stamps never wander: from one setting of the timeline to the next, each is the first one plus
   the exact length of all samples in between, rounded down once.
   */
  lemma {:induction false} NeverWanders(t: Timeline, chunks: seq<Chunk>, from: nat, k: nat)
    requires Valid(t) && from <= k < |chunks| && Unbroken(t, chunks, from, k)
    ensures StampAt(t, chunks, k).pts
         == TimeOf(StampAt(t, chunks, from).pts, SampleCount(chunks[from..k]), t.rate)
    ensures var after := Run(t, chunks[..k + 1]);
      after.started && after.origin == StampAt(t, chunks, from).pts && after.samples == SampleCount(chunks[from..k + 1])
    decreases k
  {
    hide TimeOf, Advanced, StampOf, SetsAgain, Run, SampleCount;
    TimeAtZero(StampAt(t, chunks, from).pts, t.rate);
    StepEffect(Run(t, chunks[..k]), chunks[k]);
    RunSnoc(t, chunks, k);
    CountSnoc(chunks, from, k);
    if from < k {
      NeverWanders(t, chunks, from, k - 1);
    }
  }

  lemma RunSnoc(t: Timeline, chunks: seq<Chunk>, k: nat)
    requires Valid(t) && k < |chunks|
    ensures Run(t, chunks[..k + 1]) == Advanced(Run(t, chunks[..k]), chunks[k])
  {
    assert chunks[..k + 1][..k] == chunks[..k];
  }

  lemma CountSnoc(chunks: seq<Chunk>, from: nat, k: nat)
    requires from <= k < |chunks|
    ensures SampleCount(chunks[from..k + 1]) == SampleCount(chunks[from..k]) + chunks[k].frames
    ensures SampleCount(chunks[from..from]) == 0
  {
    assert chunks[from..k + 1][..k - from] == chunks[from..k];
  }

  lemma StepEffect(t: Timeline, c: Chunk)
    requires Valid(t)
    ensures var t', stamp := Advanced(t, c), StampOf(t, c);
      && (SetsAgain(t, c) ==> t'.origin == stamp.pts && t'.samples == c.frames)
      && (!SetsAgain(t, c) ==> t'.origin == t.origin && t'.samples == t.samples + c.frames
                               && stamp.pts == TimeOf(t.origin, t.samples, t.rate))
  {
  }

  // ---- Jitter

  /** How much longer a chunk is said to be than its samples take. */
  function Excess(c: Chunk, rate: nat): int
    requires rate > 0
  {
    c.duration - c.frames * SECOND / rate
  }

  /**
   Every chunk's samples, twice the jitter, and what the first chunk's length is off by, fit the
   drift that is allowed. The lengths of the other chunks do not matter.
   */
  predicate Tolerates(chunks: seq<Chunk>, rate: nat, drift: nat, jitter: nat)
    requires rate > 0
  {
    forall k :: 0 <= k < |chunks| ==>
      chunks[k].frames * SECOND / rate + 1 + 2 * jitter + Abs(Excess(chunks[0], rate)) <= drift
  }

  /** Each chunk is read within `jitter` of the time its last sample would ideally arrive. */
  predicate Punctual(chunks: seq<Chunk>, start: int, rate: nat, jitter: nat)
    requires rate > 0
  {
    forall k :: 0 <= k < |chunks| ==>
      Abs(chunks[k].now - TimeOf(start, SampleCount(chunks[..k + 1]), rate)) <= jitter
  }

  /**
   However long the run, jitter alone never breaks the timeline: after the first chunk it is not
   set again, no discontinuity is flagged, and every stamp follows the sample count.
   */
  lemma {:induction false} JitterNeverBreaks(rate: nat, drift: nat, chunks: seq<Chunk>, start: int, jitter: nat)
    requires rate > 0 && Punctual(chunks, start, rate, jitter) && Tolerates(chunks, rate, drift, jitter)
    requires chunks != [] ==> chunks[0].now > chunks[0].duration
    ensures forall k :: 0 <= k < |chunks| ==>
              && !StampAt(Fresh(rate, drift), chunks, k).discont
              && StampAt(Fresh(rate, drift), chunks, k).pts
                 == TimeOf(chunks[0].now - chunks[0].duration, SampleCount(chunks[..k]), rate)
    ensures chunks != [] ==>
              var t := Run(Fresh(rate, drift), chunks);
              t.started && t.origin == chunks[0].now - chunks[0].duration && t.samples == SampleCount(chunks)
  {
    hide TimeOf, Punctual, Tolerates;
    if chunks == [] {
      return;
    }
    TimeAtZero(chunks[0].now - chunks[0].duration, rate);
    var last, unset := |chunks| - 1, Fresh(rate, drift);
    var before := chunks[..last];
    PunctualPrefix(chunks, start, rate, jitter);
    ToleratesPrefix(chunks, rate, drift, jitter);
    JitterNeverBreaks(rate, drift, before, start, jitter);
    forall k | 0 <= k < last ensures StampAt(unset, chunks, k) == StampAt(unset, before, k) && chunks[..k] == before[..k] {
      assert before[..k] == chunks[..k];
    }
    var t := Run(unset, before);
    if last > 0 {
      assert before[0] == chunks[0];
      InTime(t, chunks, start, jitter);
    } else {
      assert before == [];
    }
    assert StampAt(unset, chunks, last) == StampOf(t, chunks[last]);
  }

  lemma ToleratesPrefix(chunks: seq<Chunk>, rate: nat, drift: nat, jitter: nat)
    requires rate > 0 && chunks != [] && Tolerates(chunks, rate, drift, jitter)
    ensures Tolerates(chunks[..|chunks| - 1], rate, drift, jitter)
  {
    hide Excess;
    var before := chunks[..|chunks| - 1];
    forall k | 0 <= k < |before|
      ensures before[k].frames * SECOND / rate + 1 + 2 * jitter + Abs(Excess(before[0], rate)) <= drift
    {
      assert before[k] == chunks[k] && before[0] == chunks[0];
    }
  }

  lemma PunctualPrefix(chunks: seq<Chunk>, start: int, rate: nat, jitter: nat)
    requires rate > 0 && chunks != [] && Punctual(chunks, start, rate, jitter)
    ensures Punctual(chunks[..|chunks| - 1], start, rate, jitter)
  {
    var before := chunks[..|chunks| - 1];
    forall k | 0 <= k < |before|
      ensures Abs(before[k].now - TimeOf(start, SampleCount(before[..k + 1]), rate)) <= jitter
    {
      assert before[..k + 1] == chunks[..k + 1];
    }
  }

  /** The last chunk of a punctual run finds the timeline close enough to the clock. */
  lemma InTime(t: Timeline, chunks: seq<Chunk>, start: int, jitter: nat)
    requires Valid(t) && t.started && |chunks| > 1 && Punctual(chunks, start, t.rate, jitter)
    requires t.origin == chunks[0].now - chunks[0].duration && t.samples == SampleCount(chunks[..|chunks| - 1])
    requires Tolerates(chunks, t.rate, t.drift, jitter)
    ensures !SetsAgain(t, chunks[|chunks| - 1])
  {
    var last := |chunks| - 1;
    assert chunks[..0 + 1][..0] == [] && chunks[..last + 1] == chunks;
    assert SampleCount(chunks[..0 + 1]) == chunks[0].frames;
    Between(start, t.samples, chunks[last].frames, t.rate);
    Near(t, chunks[0], chunks[last], start, jitter) by {
      assert Abs(chunks[0].now - TimeOf(start, SampleCount(chunks[..0 + 1]), t.rate)) <= jitter;
      assert Abs(chunks[last].now - TimeOf(start, SampleCount(chunks[..last + 1]), t.rate)) <= jitter;
    }
  }

  lemma Near(t: Timeline, first: Chunk, c: Chunk, start: int, jitter: nat)
    requires Valid(t) && t.started && t.origin == first.now - first.duration
    requires Abs(first.now - TimeOf(start, first.frames, t.rate)) <= jitter
    requires Abs(c.now - TimeOf(start, t.samples + c.frames, t.rate)) <= jitter
    requires var step := TimeOf(start, t.samples + c.frames, t.rate) - TimeOf(start, t.samples, t.rate);
      0 <= step <= t.drift - 2 * jitter - Abs(Excess(first, t.rate))
    ensures !SetsAgain(t, c)
  {
  }

  /** At no more than one sample per nanosecond, each sample has a later time than the one before. */
  lemma TimeIncreases(origin: int, samples: nat, frames: nat, rate: nat)
    requires 0 < rate <= SECOND && frames >= 1
    ensures TimeOf(origin, samples, rate) < TimeOf(origin, samples + frames, rate)
  {
    Between(origin, samples, frames, rate);
    MulOrder(SECOND, 1, frames);
    AtLeastOne(frames * SECOND, rate);
  }

  /**
   In any run, a chunk with a sample in it is stamped before the next one, unless the timeline is
   set again in between.
   */
  lemma StampsIncrease(t: Timeline, chunks: seq<Chunk>, k: nat)
    requires Valid(t) && t.rate <= SECOND && k + 1 < |chunks| && chunks[k].frames >= 1
    requires !SetsAgain(Run(t, chunks[..k + 1]), chunks[k + 1])
    ensures StampAt(t, chunks, k).pts < StampAt(t, chunks, k + 1).pts
  {
    hide Run, Advanced, StampOf, SetsAgain;
    RunSnoc(t, chunks, k);
    NextIsLater(Run(t, chunks[..k]), chunks[k], chunks[k + 1]);
  }

  lemma NextIsLater(t: Timeline, c: Chunk, next: Chunk)
    requires Valid(t) && t.rate <= SECOND && c.frames >= 1 && !SetsAgain(Advanced(t, c), next)
    ensures StampOf(t, c).pts < StampOf(Advanced(t, c), next).pts
  {
    hide TimeOf, Advanced, StampOf, SetsAgain;
    var first := StampOf(t, c).pts;
    StepEffect(t, c);
    StepEffect(Advanced(t, c), next);
    TimeAtZero(first, t.rate);
    if SetsAgain(t, c) {
      TimeIncreases(first, 0, c.frames, t.rate);
    } else {
      TimeIncreases(t.origin, t.samples, c.frames, t.rate);
    }
  }

  /** ... so in a run of punctual chunks, each with a sample, all stamps increase. */
  lemma PunctualStampsIncrease(rate: nat, drift: nat, chunks: seq<Chunk>, start: int, jitter: nat, i: nat, j: nat)
    requires 0 < rate <= SECOND && Punctual(chunks, start, rate, jitter) && Tolerates(chunks, rate, drift, jitter)
    requires forall k :: 0 <= k < |chunks| ==> chunks[k].frames >= 1
    requires chunks != [] ==> chunks[0].now > chunks[0].duration
    requires i < j < |chunks|
    ensures StampAt(Fresh(rate, drift), chunks, i).pts < StampAt(Fresh(rate, drift), chunks, j).pts
    decreases j
  {
    hide TimeOf, Punctual, Tolerates, StampAt, SampleCount;
    JitterNeverBreaks(rate, drift, chunks, start, jitter);
    CountSnoc(chunks, 0, j - 1);
    assert chunks[0..j - 1] == chunks[..j - 1] && chunks[0..j] == chunks[..j];
    TimeIncreases(chunks[0].now - chunks[0].duration, SampleCount(chunks[..j - 1]), chunks[j - 1].frames, rate);
    if i < j - 1 {
      PunctualStampsIncrease(rate, drift, chunks, start, jitter, i, j - 1);
    }
  }

  lemma AtLeastOne(a: nat, d: nat)
    requires 0 < d <= a
    ensures a / d >= 1
  {
  }

  // ---- 64 bits

  /** The product `samples * 10^9` is exact in 64 bits up to 9223372036 samples, and no further. */
  lemma ProductFits(samples: nat)
    ensures samples * SECOND <= INT64_MAX <==> samples <= 9_223_372_036
  {
  }

  // ---- The class

  class AudioStamper {
    const rate: nat
    const drift: nat
    var started: bool
    var origin: int
    var samples: nat
    var next: int

    function State(): Timeline
      reads this
    {
      Timeline(rate, drift, started, origin, samples, next)
    }

    constructor (rate: nat := 48000, drift: nat := 200_000_000)
      requires rate > 0
      ensures State() == Fresh(rate, drift) && Valid(State())
    {
      this.rate, this.drift := rate, drift;
      started, origin, samples, next := false, 0, 0, 0;
    }

    /** The private advance. */
    method Advance(c: Chunk) returns (stamp: Stamp)
      requires Valid(State())
      modifies this
      ensures Valid(State()) && stamp == StampOf(old(State()), c) && State() == Advanced(old(State()), c)
    {
      var discont := false;
      if !started || next - c.now > drift || c.now - next > drift {
        next := if c.now > c.duration then c.now - c.duration else 0;
        discont := started;
        started := true;
        samples := 0;
        origin := next;
      }
      stamp := Stamp(next, c.duration, discont);
      samples := samples + c.frames;
      next := origin + samples * SECOND / rate;
    }

    method Next(now: nat, frames: nat) returns (stamp: Stamp)
      requires Valid(State())
      modifies this
      ensures stamp == StampOf(old(State()), ByFrames(now, frames, rate))
      ensures Valid(State()) && State() == Advanced(old(State()), ByFrames(now, frames, rate))
    {
      stamp := Advance(Chunk(now, frames, frames * SECOND / rate));
    }

    method NextDuration(now: nat, duration: nat) returns (stamp: Stamp)
      requires Valid(State())
      modifies this
      ensures stamp == StampOf(old(State()), ByDuration(now, duration, rate))
      ensures Valid(State()) && State() == Advanced(old(State()), ByDuration(now, duration, rate))
    {
      stamp := Advance(Chunk(now, duration * rate / SECOND, duration));
    }

    /** reset: the next chunk starts the timeline again, without a discontinuity. */
    method Reset()
      requires Valid(State())
      modifies this
      ensures Valid(State()) && State() == old(State()).(started := false)
    {
      started := false;
    }
  }
}
