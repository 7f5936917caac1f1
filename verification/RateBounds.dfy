/** How much input one viewer can cause to be posted, over any stretch of a run. */
module RateBounds {
  import opened Bytes
  import opened Permission
  import opened Worker
  import opened WorkerSteps
  import opened LeaseHistory

  predicate Counts(post: Post, serial: nat, from: int, to: int) {
    post.origin.Viewer? && post.origin.serial == serial && from <= post.origin.time <= to
  }

  /** The posts made for a viewer (lifts aside) whose rate was checked between two times. */
  function PostsBetween(posts: seq<Post>, serial: nat, from: int, to: int): nat {
    if posts == [] then 0
    else
      PostsBetween(posts[..|posts| - 1], serial, from, to)
      + if Counts(posts[|posts| - 1], serial, from, to) then 1 else 0
  }

  lemma PostsAppend(posts: seq<Post>, post: Post, serial: nat, from: int, to: int)
    ensures PostsBetween(posts + [post], serial, from, to)
         == PostsBetween(posts, serial, from, to) + if Counts(post, serial, from, to) then 1 else 0
  {
    assert (posts + [post])[..|posts|] == posts;
  }

  lemma {:induction false} LiftsDoNotCount(a: seq<Post>, b: seq<Post>, serial: nat, from: int, to: int)
    requires OnlyLifts(a, b)
    ensures PostsBetween(b, serial, from, to) == PostsBetween(a, serial, from, to)
    decreases |b|
  {
    if |b| > |a| {
      LiftsDoNotCount(a, b[..|b| - 1], serial, from, to);
    } else {
      assert a == b;
    }
  }

  function Bound(length: nat): nat {
    MAX_RATE * (length / SECOND + 2)
  }

  function Capped(count: int): int {
    if count < MAX_RATE then count else MAX_RATE
  }

  /** What the posts since `from` can be, given the peer's rate window and count. */
  predicate WithinQuota(n: int, window: int, count: int, from: int) {
    n <= if window < from then Capped(count) else MAX_RATE * ((window - from) / SECOND + 1) + Capped(count)
  }

  /** One message counted, at a time no earlier than the clock, and perhaps posted. */
  lemma CountedQuota(n: int, p: Peer, clock: int, now: int, from: int, to: int)
    requires from <= to && p.rateWindow <= clock <= now && 0 <= p.rateCount
    requires WithinQuota(n, p.rateWindow, p.rateCount, from) && (clock < from ==> n == 0) && n <= Bound(to - from)
    ensures var q := Counted(p, now);
      && 0 < q.rateCount && q.rateWindow <= now
      && WithinQuota(n, q.rateWindow, q.rateCount, from)
      && (q.rateCount <= MAX_RATE && from <= now ==> WithinQuota(n + 1, q.rateWindow, q.rateCount, from))
      && (q.rateCount <= MAX_RATE && from <= now <= to ==> n + 1 <= Bound(to - from))
  {
    hide Bound;
    var q := Counted(p, now);
    if now - p.rateWindow > SECOND && from <= p.rateWindow {
      LaterWindow(p.rateWindow - from, now - from);
    }
    if q.rateCount <= MAX_RATE && from <= now <= to {
      QuotaBound(n + 1, q.rateWindow, q.rateCount, from, to);
    }
  }

  /** A new window lets another thousand through, and starts at least a second after the last. */
  lemma LaterWindow(before: nat, after: nat)
    requires after - before > SECOND
    ensures after / SECOND >= before / SECOND + 1
  {
  }

  lemma QuotaBound(n: int, window: int, count: int, from: int, to: int)
    requires WithinQuota(n, window, count, from) && window <= to && from <= to
    ensures n <= Bound(to - from)
  {
    if from <= window {
      LaterOrSame(window - from, to - from);
    }
  }

  lemma LaterOrSame(before: nat, after: nat)
    requires before <= after
    ensures before / SECOND <= after / SECOND
  {
  }

  predicate Serials(w: State) {
    && (forall id :: id in w.peers ==> w.peers[id].serial < w.nextSerial)
    && (forall a, b :: a in w.peers && b in w.peers && a != b ==> w.peers[a].serial != w.peers[b].serial)
  }

  ghost predicate RateInv(w: State, clock: int, serial: nat, from: int, to: int)
    requires from <= to
  {
    var n := PostsBetween(w.posts, serial, from, to);
    && Serials(w) && 0 <= clock && n <= Bound(to - from)
    && (serial >= w.nextSerial || clock < from ==> n == 0)
    && forall id :: id in w.peers && w.peers[id].serial == serial ==>
         && w.peers[id].rateWindow <= clock && 0 <= w.peers[id].rateCount
         && WithinQuota(n, w.peers[id].rateWindow, w.peers[id].rateCount, from)
  }

  lemma QuietRate(w: State, w': State, clock: int, clock': int, serial: nat, from: int, to: int)
    requires from <= to && clock <= clock' && RateInv(w, clock, serial, from, to)
    requires OnlyLifts(w.posts, w'.posts) && SameViewers(w, w')
    ensures RateInv(w', clock', serial, from, to)
  {
    hide PostsBetween, WithinQuota;
    LiftsDoNotCount(w.posts, w'.posts, serial, from, to);
  }

  lemma GrowsRate(w: State, w': State, clock: int, serial: nat, from: int, to: int)
    requires from <= to && RateInv(w, clock, serial, from, to) && Grows(w, w')
    ensures RateInv(w', clock, serial, from, to)
  {
    forall a, b | a in w'.peers && b in w'.peers && a != b ensures w'.peers[a].serial != w'.peers[b].serial {
      assert a in w.peers ==> w'.peers[a].serial < w.nextSerial;
      assert b in w.peers ==> w'.peers[b].serial < w.nextSerial;
    }
  }

  lemma PerformRate(w: State, e: Event, ok: Oracle, clock: int, serial: nat, from: int, to: int)
    requires from <= to && RateInv(w, clock, serial, from, to) && Performs(w, e) && clock <= e.t1 <= e.t2
    ensures RateInv(Apply(w, e, ok), e.t2, serial, from, to)
  {
    hide Apply, Performs, PostsBetween, WithinQuota, OnlyLifts, Bound, Counted;
    assert e.InputEvent? && e.text.Act? && e.id in w.peers by { PerformsMeans(w, e); }
    PerformEffect(w, e, ok);
    CountedIsSame(w.peers[e.id], e.t1);
    var w', p := Apply(w, e, ok), w.peers[e.id];
    var n := PostsBetween(w.posts, serial, from, to);
    if p.serial == serial {
      CountedQuota(n, p, clock, e.t1, from, to);
    }
    if OnlyLifts(w.posts, w'.posts) {
      LiftsDoNotCount(w.posts, w'.posts, serial, from, to);
    } else {
      PostsAppend(w.posts, Post(e.text.input.value, ok(|w.posts|), Viewer(p.serial, e.id, e.t0, e.t1)), serial, from, to);
    }
  }

  lemma CountedIsSame(p: Peer, now: int)
    ensures Counted(p, now).serial == p.serial
  {
  }

  lemma PerformsMeans(w: State, e: Event)
    requires Performs(w, e)
    ensures e.InputEvent? && e.text.Act? && e.id in w.peers && !w.stopped
  {
  }

  /** The latest reading of the clock. */
  function Clock(events: seq<Event>): int {
    var times := [0] + AllTimes(events);
    times[|times| - 1]
  }

  lemma ClockAdvances(events: seq<Event>)
    requires WellTimed(events) && events != []
    ensures var last := |events| - 1;
      && WellTimed(events[..last]) && 0 <= Clock(events[..last]) <= Clock(events)
      && var times := Times(events[last]);
         Nondecreasing(times) && (times != [] ==> Clock(events) == times[|times| - 1])
         && forall k :: 0 <= k < |times| ==> Clock(events[..last]) <= times[k] <= Clock(events)
  {
    var before, times := [0] + AllTimes(events[..|events| - 1]), Times(events[|events| - 1]);
    assert [0] + AllTimes(events) == before + times;
    SplitNondecreasing(before, times);
    assert before[0] == 0;
  }

  lemma SplitNondecreasing(a: seq<int>, b: seq<int>)
    requires Nondecreasing(a + b) && a != []
    ensures Nondecreasing(a) && Nondecreasing(b)
    ensures a[0] <= a[|a| - 1]
    ensures forall k :: 0 <= k < |b| ==> a[|a| - 1] <= b[k] <= b[|b| - 1]
  {
    var all := a + b;
    forall i, j | 0 <= i < j < |a| ensures a[i] <= a[j] {
      assert all[i] <= all[j];
    }
    forall i, j | 0 <= i < j < |b| ensures b[i] <= b[j] {
      assert all[|a| + i] <= all[|a| + j];
    }
    forall k | 0 <= k < |b| ensures a[|a| - 1] <= b[k] {
      assert all[|a| - 1] <= all[|a| + k];
    }
  }

  lemma {:induction false} RateAlways(events: seq<Event>, ok: Oracle, serial: nat, from: int, to: int)
    requires WellTimed(events) && from <= to
    ensures RateInv(Run(events, ok), Clock(events), serial, from, to)
  {
    if events == [] {
      return;
    }
    var last := |events| - 1;
    ClockAdvances(events);
    RateAlways(events[..last], ok, serial, from, to);
    RateStep(Run(events[..last], ok), events[last], ok, Clock(events[..last]), Clock(events), serial, from, to);
  }

  lemma RateStep(w: State, e: Event, ok: Oracle, clock: int, clock': int, serial: nat, from: int, to: int)
    requires from <= to && RateInv(w, clock, serial, from, to) && clock <= clock'
    requires forall k :: 0 <= k < |Times(e)| ==> clock <= Times(e)[k] <= clock'
    requires Nondecreasing(Times(e)) && (Times(e) != [] ==> clock' == Times(e)[|Times(e)| - 1])
    ensures RateInv(Apply(w, e, ok), clock', serial, from, to)
  {
    hide Apply, RateInv, Performs;
    if Adds(e) {
      AddsGrow(w, e, ok);
      GrowsRate(w, Apply(w, e, ok), clock, serial, from, to);
      LaterClock(Apply(w, e, ok), clock, clock', serial, from, to);
    } else if Performs(w, e) {
      PerformsMeans(w, e);
      assert Times(e)[1] == e.t1 && Times(e)[2] == e.t2;
      PerformRate(w, e, ok, clock, serial, from, to);
    } else if Grants(e) && !w.stopped {
      GrantEffect(w, e, ok);
      QuietRate(w, Apply(w, e, ok), clock, clock', serial, from, to);
    } else {
      if Grants(e) {
        StoppedIsQuiet(w, e, ok);
      } else {
        OthersAreQuiet(w, e, ok);
      }
      QuietRate(w, Apply(w, e, ok), clock, clock', serial, from, to);
    }
  }

  lemma LaterClock(w: State, clock: int, clock': int, serial: nat, from: int, to: int)
    requires from <= to && clock <= clock' && RateInv(w, clock, serial, from, to)
    ensures RateInv(w, clock', serial, from, to)
  {
    QuietRate(w, w, clock, clock', serial, from, to);
  }

  lemma StoppedIsQuiet(w: State, e: Event, ok: Oracle)
    requires w.stopped
    ensures Quiet(w, Apply(w, e, ok))
  {
    QuietRelease(w, ok);
  }

  /**
   In any stretch of time, one viewer causes at most a thousand posts for each whole second of it,
   plus two thousand, however often it loses control and takes it back.
   */
  lemma RateIsBounded(events: seq<Event>, ok: Oracle, serial: nat, from: int, length: nat)
    requires WellTimed(events)
    ensures PostsBetween(Run(events, ok).posts, serial, from, from + length) <= 1000 * (length / 1_000_000 + 2)
  {
    RateAlways(events, ok, serial, from, from + length);
  }
}
