/** PacketWindow (transport-telemetry.hpp): traffic peaks over sliding windows of 1 and 10 ms. */
module PacketWindow {

  const LIMIT := 8192
  const SHORT := 1000   // microseconds
  const LONG := 10000

  /** A packet that passed: when, in microseconds, and its size. */
  datatype Packet = Packet(time: int, size: nat)

  predicate InOrder(packets: seq<Packet>) {
    forall i, j :: 0 <= i < j < |packets| ==> packets[i].time <= packets[j].time
  }

  function Sum(packets: seq<Packet>): nat {
    if packets == [] then 0 else packets[0].size + Sum(packets[1..])
  }

  /** How many of the packets were less than `width` old at a time. */
  function Recent(packets: seq<Packet>, now: int, width: int): (n: nat)
    ensures n <= |packets|
  {
    if packets == [] then 0
    else Recent(packets[..|packets| - 1], now, width)
         + if now - packets[|packets| - 1].time < width then 1 else 0
  }

  /** The packets of the window that ends with the last one: all that are less than `width` old. */
  function Window(packets: seq<Packet>, width: int): (window: seq<Packet>)
  {
    if packets == [] then []
    else packets[|packets| - Recent(packets, packets[|packets| - 1].time, width)..]
  }

  /** The last packets of a sequence, at most LIMIT of them. */
  function Newest(packets: seq<Packet>): (newest: seq<Packet>)
    ensures |newest| == if |packets| < LIMIT then |packets| else LIMIT
  {
    if |packets| <= LIMIT then packets else packets[|packets| - LIMIT..]
  }

  /** How many packets arrived when their 10 ms window held more than can be kept. */
  function Truncations(packets: seq<Packet>): nat {
    if packets == [] then 0
    else Truncations(packets[..|packets| - 1]) + if |Window(packets, LONG)| > LIMIT then 1 else 0
  }

  /** The largest window sum after any packet from number `since` on; 0 if there is none. */
  function Peak(packets: seq<Packet>, since: nat, width: int): nat {
    if |packets| <= since then 0
    else
      var before, sum := Peak(packets[..|packets| - 1], since, width), Sum(Newest(Window(packets, width)));
      if before < sum then sum else before
  }

  // ---- What the window is

  /** The packets in order, a time splits them: the older ones in front. */
  lemma {:induction false} RecentIsSuffix(packets: seq<Packet>, now: int, width: int)
    requires InOrder(packets)
    ensures forall i :: 0 <= i < |packets| ==> (now - packets[i].time < width <==> i >= |packets| - Recent(packets, now, width))
  {
    if packets != [] {
      var last := |packets| - 1;
      RecentIsSuffix(packets[..last], now, width);
      assert packets[..last] + [packets[last]] == packets;
    }
  }

  /** Exactly the packets less than `width` older than the last one, and the last one itself. */
  lemma WindowIsRecent(packets: seq<Packet>, width: int)
    requires InOrder(packets) && packets != [] && width > 0
    ensures var n := |Window(packets, width)|;
      && 1 <= n <= |packets| && Window(packets, width) == packets[|packets| - n..]
      && forall i :: 0 <= i < |packets| ==> (packets[|packets| - 1].time - packets[i].time < width <==> i >= |packets| - n)
  {
    RecentIsSuffix(packets, packets[|packets| - 1].time, width);
  }

  lemma {:induction false} SumAppend(packets: seq<Packet>, packet: Packet)
    ensures Sum(packets + [packet]) == Sum(packets) + packet.size
  {
    if packets == [] {
      assert packets + [packet] == [packet] && [packet][1..] == [];
    } else {
      SumAppend(packets[1..], packet);
      assert (packets + [packet])[1..] == packets[1..] + [packet];
    }
  }

  /** One of the two deques, with its sum. */
  datatype Deque = Deque(packets: seq<Packet>, sum: int)

  /** Drop from the front what is `width` old or more at a time. */
  function Fresh(packets: seq<Packet>, now: int, width: int): seq<Packet> {
    if packets == [] || now - packets[0].time < width then packets else Fresh(packets[1..], now, width)
  }

  lemma {:induction false} FreshIsRecent(packets: seq<Packet>, now: int, width: int)
    requires InOrder(packets)
    ensures Fresh(packets, now, width) == packets[|packets| - Recent(packets, now, width)..]
  {
    RecentIsSuffix(packets, now, width);
    if packets != [] && now - packets[0].time >= width {
      FreshIsRecent(packets[1..], now, width);
      RecentTail(packets, now, width);
      var n := Recent(packets, now, width);
      assert packets[|packets| - n..] == packets[1..][|packets| - 1 - n..];
    }
  }

  lemma {:induction false} RecentTail(packets: seq<Packet>, now: int, width: int)
    requires packets != [] && now - packets[0].time >= width
    ensures Recent(packets[1..], now, width) == Recent(packets, now, width)
  {
    var last := |packets| - 1;
    if last > 0 {
      RecentTail(packets[..last], now, width);
      assert packets[1..][..last - 1] == packets[..last][1..];
    } else {
      assert packets[1..] == [] && packets[..0] == [];
    }
  }

  lemma RecentAppend(packets: seq<Packet>, packet: Packet, now: int, width: int)
    ensures Recent(packets + [packet], now, width) == Recent(packets, now, width) + if now - packet.time < width then 1 else 0
  {
    assert (packets + [packet])[..|packets|] == packets;
  }

  lemma SuffixRecent(packets: seq<Packet>, k: nat, now: int, width: int)
    requires InOrder(packets) && k <= |packets|
    ensures var n, room := Recent(packets, now, width), |packets| - k;
      Recent(packets[k..], now, width) == if n < room then n else room
  {
    hide Recent;
    var kept, n := packets[k..], Recent(packets, now, width);
    RecentIsSuffix(packets, now, width);
    RecentIsSuffix(kept, now, width);
    var m := Recent(kept, now, width);
    var i, j := |kept| - m - 1, |kept| - n - 1;
    assert 0 <= i < |kept| ==> kept[i] == packets[k + i];
    assert 0 <= j < |kept| ==> kept[j] == packets[k + j];
  }

  /** Time passing only narrows a window. */
  lemma RecentShrinks(packets: seq<Packet>, before: int, now: int, width: int)
    requires before <= now
    ensures Recent(packets, now, width) <= Recent(packets, before, width)
  {
  }

  lemma SuffixInOrder(packets: seq<Packet>, k: nat)
    requires InOrder(packets) && k <= |packets|
    ensures InOrder(packets[k..])
  {
  }

  /** How much of a deque is still recent: all that there is room for. */
  lemma RecentOfKept(packets: seq<Packet>, kept: seq<Packet>, now: int, width: int)
    requires InOrder(packets) && (packets != [] ==> packets[|packets| - 1].time <= now)
    requires |kept| <= |packets| && kept == packets[|packets| - |kept|..]
    requires var w := if packets == [] then 0 else Recent(packets, packets[|packets| - 1].time, width);
      |kept| == if w < LIMIT then w else LIMIT
    ensures var n := Recent(packets, now, width);
      && InOrder(kept) && |kept| <= LIMIT && (n > |kept| ==> |kept| == LIMIT)
      && Recent(kept, now, width) == if n < |kept| then n else |kept|
  {
    hide Recent, InOrder;
    SuffixInOrder(packets, |packets| - |kept|);
    if packets != [] {
      RecentShrinks(packets, packets[|packets| - 1].time, now, width);
    }
    SuffixRecent(packets, |packets| - |kept|, now, width);
  }

  /** The deque before a packet that arrives now: dropping from the front keeps what is needed. */
  lemma NewestFresh(packets: seq<Packet>, now: int, width: int)
    requires InOrder(packets) && width > 0 && (packets != [] ==> packets[|packets| - 1].time <= now)
    ensures Fresh(Newest(Window(packets, width)), now, width) == Newest(packets[|packets| - Recent(packets, now, width)..])
  {
    hide Recent, Fresh, Newest, Window, InOrder;
    var kept := KeptIsSuffix(packets, width);
    RecentOfKept(packets, kept, now, width);
    FreshIsRecent(kept, now, width);
    NewestOfSuffix(packets, kept, Recent(packets, now, width));
  }

  lemma KeptIsSuffix(packets: seq<Packet>, width: int) returns (kept: seq<Packet>)
    ensures kept == Newest(Window(packets, width)) && |kept| <= |packets| && kept == packets[|packets| - |kept|..]
    ensures var w := if packets == [] then 0 else Recent(packets, packets[|packets| - 1].time, width);
      |kept| == if w < LIMIT then w else LIMIT
  {
    hide Recent;
    kept := Newest(Window(packets, width));
  }

  lemma NewestOfSuffix(packets: seq<Packet>, kept: seq<Packet>, n: nat)
    requires |kept| <= |packets| && kept == packets[|packets| - |kept|..] && n <= |packets|
    requires |kept| <= LIMIT && (n > |kept| ==> |kept| == LIMIT)
    ensures Newest(packets[|packets| - n..]) == kept[|kept| - (if n < |kept| then n else |kept|)..]
  {
  }

  /** After the packet: one more, the oldest giving way when the deque is full. */
  lemma NewestAppend(packets: seq<Packet>, packet: Packet, width: int)
    requires width > 0
    ensures var before := packets[|packets| - Recent(packets, packet.time, width)..];
      && Window(packets + [packet], width) == before + [packet]
      && Newest(before + [packet]) == (if |Newest(before)| == LIMIT then Newest(before)[1..] else Newest(before)) + [packet]
  {
    hide Recent, Newest, Window;
    WindowAppend(packets, packet, width);
    KeepNewest(packets[|packets| - Recent(packets, packet.time, width)..], packet);
  }

  lemma WindowAppend(packets: seq<Packet>, packet: Packet, width: int)
    requires width > 0
    ensures Window(packets + [packet], width) == packets[|packets| - Recent(packets, packet.time, width)..] + [packet]
  {
    hide Recent;
    RecentAppend(packets, packet, packet.time, width);
  }

  lemma KeepNewest(before: seq<Packet>, packet: Packet)
    ensures Newest(before + [packet]) == (if |Newest(before)| == LIMIT then Newest(before)[1..] else Newest(before)) + [packet]
  {
  }

  // ---- The class

  datatype Counts = Counts(
    recent: seq<Packet>, shortRecent: seq<Packet>, sum1: int, sum10: int, packets: nat, bytes: nat,
    peak1: int, peak10: int, truncated: nat)

  /** Everything is a function of what passed and when the counters were last merged. */
  ghost predicate Matches(c: Counts, history: seq<Packet>, since: nat) {
    && InOrder(history) && since <= |history|
    && c.recent == Newest(Window(history, LONG)) && c.sum10 == Sum(c.recent)
    && c.shortRecent == Newest(Window(history, SHORT)) && c.sum1 == Sum(c.shortRecent)
    && c.packets == |history| && c.bytes == Sum(history)
    && c.peak1 == Peak(history, since, SHORT) && c.peak10 == Peak(history, since, LONG)
    && c.truncated == Truncations(history)
  }

  class Counters {
    var recent: seq<Packet>
    var shortRecent: seq<Packet>
    var sum1: int
    var sum10: int
    var packets: nat
    var bytes: nat
    var peak1: int
    var peak10: int
    var truncated: nat
    ghost var history: seq<Packet>
    ghost var since: nat // how long the history was at the last merge

    ghost function State(): Counts
      reads this
    {
      Counts(recent, shortRecent, sum1, sum10, packets, bytes, peak1, peak10, truncated)
    }

    ghost predicate Valid()
      reads this
    {
      Matches(State(), history, since)
    }

    constructor ()
      ensures Valid() && history == [] && since == 0
    {
      recent, shortRecent, sum1, sum10 := [], [], 0, 0;
      packets, bytes, peak1, peak10, truncated := 0, 0, 0, 0, 0;
      history, since := [], 0;
    }

    /** add, at a time no earlier than the last. */
    method Add(size: nat, now: int)
      requires Valid() && (history != [] ==> history[|history| - 1].time <= now)
      modifies this
      ensures Valid() && history == old(history) + [Packet(now, size)] && since == old(since)
    {
      hide Matches, Window, Newest, Recent, Peak, Truncations, Sum, InOrder;
      ghost var before := State();
      var full := Slide(Packet(now, size));
      packets := packets + 1;
      bytes := bytes + size;
      peak1 := if peak1 < sum1 then sum1 else peak1;
      peak10 := if peak10 < sum10 then sum10 else peak10;
      Still(before, State(), history, Packet(now, size), since, full);
      history := history + [Packet(now, size)];
    }

    /** Both deques and their sums move on to a new packet. */
    method Slide(packet: Packet) returns (full: bool)
      requires Valid() && (history != [] ==> history[|history| - 1].time <= packet.time)
      modifies this`recent, this`shortRecent, this`sum1, this`sum10, this`truncated
      ensures recent == Newest(Window(history + [packet], LONG)) && sum10 == Sum(recent)
      ensures shortRecent == Newest(Window(history + [packet], SHORT)) && sum1 == Sum(shortRecent)
      ensures full <==> |Window(history + [packet], LONG)| > LIMIT
      ensures truncated == old(truncated) + if full then 1 else 0
    {
      hide Matches, Window, Newest, Recent, Peak, Truncations, Sum, InOrder;
      DequesOf(State(), history, since);
      var long;
      long, full := TakeIn(recent, sum10, packet, LONG, history);
      var short, _ := TakeIn(shortRecent, sum1, packet, SHORT, history);
      truncated := truncated + if full then 1 else 0;
      recent, sum10 := long.packets, long.sum;
      shortRecent, sum1 := short.packets, short.sum;
    }

    /** What `add` does to one deque and its sum: drop the old, make room, append. */
    method TakeIn(deque: seq<Packet>, sum: int, packet: Packet, width: int, ghost past: seq<Packet>)
      returns (taken: Deque, full: bool)
      requires InOrder(past) && width > 0 && (past != [] ==> past[|past| - 1].time <= packet.time)
      requires deque == Newest(Window(past, width)) && sum == Sum(deque)
      ensures taken.packets == Newest(Window(past + [packet], width)) && taken.sum == Sum(taken.packets)
      ensures full <==> |Window(past + [packet], width)| > LIMIT
    {
      hide Window, Recent, Newest, Sum, Fresh;
      taken := DropOld(deque, sum, packet.time, width);
      NewestFresh(past, packet.time, width);
      taken, full := MakeRoom(taken);
      SumAppend(taken.packets, packet);
      taken := Deque(taken.packets + [packet], taken.sum + packet.size);
      NewestAppend(past, packet, width);
      FullMeansMore(past, packet, width);
    }

    /** A full deque gives up its oldest packet. */
    method MakeRoom(deque: Deque) returns (rest: Deque, full: bool)
      requires deque.sum == Sum(deque.packets)
      ensures full <==> |deque.packets| == LIMIT
      ensures rest.packets == if full then deque.packets[1..] else deque.packets
      ensures rest.sum == Sum(rest.packets)
    {
      full := |deque.packets| == LIMIT;
      rest := if full then Deque(deque.packets[1..], deque.sum - deque.packets[0].size) else deque;
    }

    /** One of the two eviction loops. */
    method DropOld(deque: seq<Packet>, sum: int, now: int, width: int) returns (rest: Deque)
      requires sum == Sum(deque)
      ensures rest.packets == Fresh(deque, now, width) && rest.sum == Sum(rest.packets)
    {
      rest := Deque(deque, sum);
      while rest.packets != [] && now - rest.packets[0].time >= width
        invariant Fresh(rest.packets, now, width) == Fresh(deque, now, width) && rest.sum == Sum(rest.packets)
        decreases |rest.packets|
      {
        rest := Deque(rest.packets[1..], rest.sum - rest.packets[0].size);
      }
    }

    /** merge: report, and start the peaks again. */
    method Merge() returns (report: Report)
      requires Valid()
      modifies this`peak1, this`peak10, this`since
      ensures Valid() && since == |history|
      ensures report == Report(|history|, Sum(history), Peak(history, old(since), SHORT),
                               Peak(history, old(since), LONG), Truncations(history))
    {
      hide Window, Newest, Truncations, Sum, InOrder;
      report := Report(packets, bytes, peak1, peak10, truncated);
      peak1, peak10 := 0, 0;
      since := |history|;
    }
  }

  datatype Report = Report(packets: nat, bytes: nat, peak1: int, peak10: int, truncated: nat)

  lemma DequesOf(c: Counts, history: seq<Packet>, since: nat)
    requires Matches(c, history, since)
    ensures InOrder(history)
    ensures c.recent == Newest(Window(history, LONG)) && c.sum10 == Sum(c.recent)
    ensures c.shortRecent == Newest(Window(history, SHORT)) && c.sum1 == Sum(c.shortRecent)
  {
  }

  /** The new counters match the history with the packet. */
  lemma Still(c: Counts, c': Counts, past: seq<Packet>, packet: Packet, since: nat, full: bool)
    requires Matches(c, past, since) && (past != [] ==> past[|past| - 1].time <= packet.time)
    requires full <==> |Window(past + [packet], LONG)| > LIMIT
    requires c'.recent == Newest(Window(past + [packet], LONG)) && c'.sum10 == Sum(c'.recent)
    requires c'.shortRecent == Newest(Window(past + [packet], SHORT)) && c'.sum1 == Sum(c'.shortRecent)
    requires c'.packets == c.packets + 1 && c'.bytes == c.bytes + packet.size
    requires c'.peak1 == (if c.peak1 < c'.sum1 then c'.sum1 else c.peak1)
    requires c'.peak10 == (if c.peak10 < c'.sum10 then c'.sum10 else c.peak10)
    requires c'.truncated == c.truncated + if full then 1 else 0
    ensures Matches(c', past + [packet], since)
  {
    hide Window, Newest, Recent, Peak, Truncations, Sum, InOrder;
    OneMore(past, packet, since);
  }

  lemma OneMore(past: seq<Packet>, packet: Packet, since: nat)
    requires InOrder(past) && (past != [] ==> past[|past| - 1].time <= packet.time) && since <= |past|
    ensures var all := past + [packet];
      var short, long := Sum(Newest(Window(all, SHORT))), Sum(Newest(Window(all, LONG)));
      && InOrder(all) && Sum(all) == Sum(past) + packet.size
      && Truncations(all) == Truncations(past) + (if |Window(all, LONG)| > LIMIT then 1 else 0)
      && Peak(all, since, SHORT) == (if Peak(past, since, SHORT) < short then short else Peak(past, since, SHORT))
      && Peak(all, since, LONG) == (if Peak(past, since, LONG) < long then long else Peak(past, since, LONG))
  {
    hide Window, Newest, Peak, Truncations, Sum, InOrder;
    InOrderAppend(past, packet);
    SumAppend(past, packet);
    LastPacket(past, packet, since, SHORT);
    LastPacket(past, packet, since, LONG);
  }

  lemma InOrderAppend(past: seq<Packet>, packet: Packet)
    requires InOrder(past) && (past != [] ==> past[|past| - 1].time <= packet.time)
    ensures InOrder(past + [packet])
  {
  }

  lemma LastPacket(past: seq<Packet>, packet: Packet, since: nat, width: int)
    requires since <= |past|
    ensures var all := past + [packet];
      var sum := Sum(Newest(Window(all, width)));
      && Truncations(all) == Truncations(past) + (if |Window(all, LONG)| > LIMIT then 1 else 0)
      && Peak(all, since, width) == if Peak(past, since, width) < sum then sum else Peak(past, since, width)
  {
    assert (past + [packet])[..|past|] == past;
  }

  lemma FullMeansMore(past: seq<Packet>, packet: Packet, width: int)
    requires width > 0
    ensures |Newest(past[|past| - Recent(past, packet.time, width)..])| == LIMIT <==>
              |Window(past + [packet], width)| > LIMIT
  {
    WindowAppend(past, packet, width);
  }

  // ---- The results

  /** The 1 ms window is always the end of the 10 ms one. */
  lemma ShortWithinLong(packets: seq<Packet>)
    requires InOrder(packets) && packets != []
    ensures var long, short := Newest(Window(packets, LONG)), Newest(Window(packets, SHORT));
      |short| <= |long| && short == long[|long| - |short|..]
  {
    hide Window, Recent, InOrder;
    WindowIsRecent(packets, LONG);
    WindowIsRecent(packets, SHORT);
    var a, b := |Window(packets, LONG)|, |Window(packets, SHORT)|;
    assert packets[|packets| - 1].time - packets[|packets| - b].time < LONG;
    NewestWithin(packets, a, b);
  }

  lemma NewestWithin(packets: seq<Packet>, a: nat, b: nat)
    requires b <= a <= |packets|
    ensures var long, short := Newest(packets[|packets| - a..]), Newest(packets[|packets| - b..]);
      |short| <= |long| && short == long[|long| - |short|..]
  {
  }

  /** A packet leaves `truncated` alone exactly when the 10 ms sum after it is the whole window's. */
  lemma UntruncatedIsExact(packets: seq<Packet>)
    requires InOrder(packets) && packets != []
    ensures var last := packets[..|packets| - 1];
      && (Truncations(packets) == Truncations(last) <==> Newest(Window(packets, LONG)) == Window(packets, LONG))
      && (Truncations(packets) == Truncations(last) ==> Newest(Window(packets, SHORT)) == Window(packets, SHORT))
  {
    ShortWithinLong(packets);
    WindowIsRecent(packets, LONG);
    WindowIsRecent(packets, SHORT);
    var a, b := |Window(packets, LONG)|, |Window(packets, SHORT)|;
    assert packets[|packets| - b].time <= packets[|packets| - 1].time;
    assert b <= a;
  }

  /** The reported peak is reached by some packet since the last merge, and passed by none. */
  lemma {:induction false} PeakIsMaximum(packets: seq<Packet>, since: nat, width: int)
    ensures forall n :: since < n <= |packets| ==> Sum(Newest(Window(packets[..n], width))) <= Peak(packets, since, width)
    ensures since < |packets| ==>
              exists n :: since < n <= |packets| && Sum(Newest(Window(packets[..n], width))) == Peak(packets, since, width)
    decreases |packets|
  {
    hide Window, Newest, Sum;
    if since < |packets| {
      var last := |packets| - 1;
      PeakIsMaximum(packets[..last], since, width);
      assert packets[..|packets|] == packets;
      forall n | since < n <= |packets| ensures Sum(Newest(Window(packets[..n], width))) <= Peak(packets, since, width) {
        if n <= last {
          assert packets[..last][..n] == packets[..n];
        }
      }
      if Peak(packets, since, width) == Sum(Newest(Window(packets[..|packets|], width))) {
      } else {
        var n :| since < n <= last && Sum(Newest(Window(packets[..last][..n], width))) == Peak(packets[..last], since, width);
        assert packets[..last][..n] == packets[..n];
      }
    }
  }

  /** No sum that is kept can wrap around 64 bits while no packet has 2^51 bytes. */
  lemma {:induction false} SumsFit(packets: seq<Packet>)
    requires |packets| <= LIMIT && forall i :: 0 <= i < |packets| ==> packets[i].size < 0x8_0000_0000_0000
    ensures Sum(packets) <= |packets| * 0x7_ffff_ffff_ffff < 0x1_0000_0000_0000_0000
  {
    if packets != [] {
      SumsFit(packets[1..]);
    }
  }
}
