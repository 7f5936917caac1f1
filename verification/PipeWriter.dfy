/**
 QueuedWriter (net-pipes.hpp): a writer thread behind a bounded queue. Every section of it that
 runs under the mutex, and every write to the pipe, is one step; the steps of the threads that
 share the queue interleave in any order.
 */
module PipeWriter {
  import opened Bytes

  type Record = seq<byte>

  /** What became of an accepted record. */
  datatype Fate = Taken | Waiting | Dropped

  /**
   `current` is what the thread has still to write of the record it holds. The last four fields
   are history: every record `Push` accepted, what became of each, the records the thread took,
   and all bytes that went into the pipe.
   */
  datatype Writer = Writer(
    budget: nat, queue: seq<Record>, queued: int, closing: bool, broken: bool, current: seq<byte>,
    accepted: seq<Record>, fates: seq<Fate>, taken: seq<Record>, wire: seq<byte>)

  function Started(budget: nat): Writer {
    Writer(budget, [], 0, false, false, [], [], [], [], [])
  }

  predicate Accepts(w: Writer, record: Record) {
    !w.closing && !w.broken && w.queued + |record| <= w.budget
  }

  function Push(w: Writer, record: Record): Writer {
    if !Accepts(w, record) then w
    else w.(queue := w.queue + [record], queued := w.queued + |record|,
            accepted := w.accepted + [record], fates := w.fates + [Waiting])
  }

  function DropWaiting(fates: seq<Fate>): (dropped: seq<Fate>)
    ensures |dropped| == |fates|
  {
    seq(|fates|, i requires 0 <= i < |fates| => if fates[i] == Waiting then Dropped else fates[i])
  }

  function Clear(w: Writer): Writer {
    w.(queue := [], queued := 0, fates := DropWaiting(w.fates))
  }

  function Close(w: Writer): Writer {
    w.(closing := true)
  }

  /** The thread may take the front record when it holds none and has not stopped. */
  predicate CanTake(w: Writer) {
    !w.broken && w.current == [] && 1 <= |w.queue| <= |w.fates|
  }

  function Take(w: Writer): Writer {
    if !CanTake(w) then w
    else w.(queue := w.queue[1..], queued := w.queued - |w.queue[0]|, current := w.queue[0],
            taken := w.taken + [w.queue[0]], fates := w.fates[|w.fates| - |w.queue| := Taken])
  }

  /** write_some put n bytes into the pipe. */
  function Write(w: Writer, n: nat): Writer {
    if 1 <= n <= |w.current| then w.(wire := w.wire + w.current[..n], current := w.current[n..]) else w
  }

  /** write_some failed: the thread marks the writer broken, empties the queue and ends. */
  function Break(w: Writer): Writer {
    if w.current == [] then w else Clear(w).(broken := true, current := [])
  }

  datatype Step = PushStep(record: Record) | ClearStep | TakeStep | WriteStep(n: nat) | BreakStep | CloseStep

  function Apply(w: Writer, step: Step): Writer {
    match step
    case PushStep(record) => Push(w, record)
    case ClearStep => Clear(w)
    case TakeStep => Take(w)
    case WriteStep(n) => Write(w, n)
    case BreakStep => Break(w)
    case CloseStep => Close(w)
  }

  function Run(w: Writer, steps: seq<Step>): Writer {
    if steps == [] then w else Apply(Run(w, steps[..|steps| - 1]), steps[|steps| - 1])
  }

  function TotalSize(records: seq<Record>): nat {
    if records == [] then 0 else |records[0]| + TotalSize(records[1..])
  }

  lemma {:induction false} TotalSizeAppend(records: seq<Record>, record: Record)
    ensures TotalSize(records + [record]) == TotalSize(records) + |record|
  {
    if records == [] {
      assert records + [record] == [record];
      assert [record][1..] == [];
    } else {
      TotalSizeAppend(records[1..], record);
      assert (records + [record])[1..] == records[1..] + [record];
    }
  }

  /** The accepted records with a given fate, in the order they were pushed. */
  function WithFate(accepted: seq<Record>, fates: seq<Fate>, fate: Fate): seq<Record>
    requires |accepted| == |fates|
  {
    if accepted == [] then []
    else
      var last := |accepted| - 1;
      WithFate(accepted[..last], fates[..last], fate) + (if fates[last] == fate then [accepted[last]] else [])
  }

  /** Taken records first among those not dropped; the waiting ones come after all the others. */
  predicate WaitingLast(fates: seq<Fate>, n: nat) {
    n <= |fates|
    && forall i :: 0 <= i < |fates| ==> (fates[i] == Waiting <==> i >= |fates| - n)
  }

  /** The counters and what became of each accepted record agree with the queue. */
  ghost predicate CountsInv(w: Writer) {
    && w.queued == TotalSize(w.queue) <= w.budget
    && |w.accepted| == |w.fates| && WaitingLast(w.fates, |w.queue|)
    && w.queue == w.accepted[|w.accepted| - |w.queue|..]
    && w.taken == WithFate(w.accepted, w.fates, Taken)
  }

  /** The bytes in the pipe and those still in hand are the records taken. */
  ghost predicate WireInv(w: Writer) {
    && (w.broken ==> w.queue == [] && w.current == [] && CutShort(w.wire, w.taken))
    && (!w.broken ==> w.wire + w.current == Concat(w.taken))
    && (w.current != [] ==> w.taken != [] && |w.current| <= |w.taken[|w.taken| - 1]|)
  }

  ghost predicate Inv(w: Writer) {
    CountsInv(w) && WireInv(w)
  }

  /** Every record but the last is in the bytes whole; the last is missing at least one byte. */
  ghost predicate CutShort(bytes: seq<byte>, records: seq<Record>) {
    && records != []
    && Concat(records[..|records| - 1]) <= bytes < Concat(records)
  }

  lemma {:induction false} WithFateUnchanged(accepted: seq<Record>, a: seq<Fate>, b: seq<Fate>, fate: Fate)
    requires |accepted| == |a| == |b|
    requires forall i :: 0 <= i < |a| ==> (a[i] == fate <==> b[i] == fate)
    ensures WithFate(accepted, a, fate) == WithFate(accepted, b, fate)
  {
    if accepted != [] {
      var last := |accepted| - 1;
      WithFateUnchanged(accepted[..last], a[..last], b[..last], fate);
    }
  }

  /** Marking the first waiting record taken appends it to the taken ones. */
  lemma {:induction false} WithFateTake(accepted: seq<Record>, fates: seq<Fate>, n: nat)
    requires |accepted| == |fates| && 1 <= n && WaitingLast(fates, n)
    ensures WithFate(accepted, fates[|fates| - n := Taken], Taken)
         == WithFate(accepted, fates, Taken) + [accepted[|fates| - n]]
  {
    var last, p := |accepted| - 1, |fates| - n;
    var marked := fates[p := Taken];
    if p == last {
      assert marked[..last] == fates[..last];
    } else {
      WithFateTake(accepted[..last], fates[..last], n - 1);
      assert marked[..last] == fates[..last][p := Taken];
    }
  }

  lemma KeepPush(w: Writer, record: Record)
    requires Inv(w)
    ensures Inv(Push(w, record))
  {
    if Accepts(w, record) {
      TotalSizeAppend(w.queue, record);
      var w' := Push(w, record);
      assert w'.accepted[..|w.accepted|] == w.accepted && w'.fates[..|w.fates|] == w.fates;
    }
  }

  lemma KeepClear(w: Writer)
    requires Inv(w)
    ensures Inv(Clear(w))
  {
    WithFateUnchanged(w.accepted, w.fates, DropWaiting(w.fates), Taken);
  }

  lemma KeepTake(w: Writer)
    requires Inv(w)
    ensures Inv(Take(w))
  {
    if !w.broken && w.current == [] && w.queue != [] {
      TakeCounts(w);
      TakeBytes(w);
    }
  }

  lemma TakeCounts(w: Writer)
    requires CountsInv(w) && w.queue != []
    ensures CountsInv(Take(w))
  {
    hide WithFate;
    var p := |w.fates| - |w.queue|;
    assert w.accepted[p] == w.queue[0] && w.accepted[p + 1..] == w.queue[1..];
    WithFateTake(w.accepted, w.fates, |w.queue|);
  }

  lemma TakeBytes(w: Writer)
    requires CountsInv(w) && WireInv(w) && !w.broken && w.current == [] && w.queue != []
    ensures WireInv(Take(w))
  {
    ConcatAppend(w.taken, [w.queue[0]]);
    ConcatOne(w.queue[0]);
  }

  lemma KeepBreak(w: Writer)
    requires Inv(w)
    ensures Inv(Break(w))
  {
    if w.current != [] {
      KeepClear(w);
      var last := |w.taken| - 1;
      ConcatAppend(w.taken[..last], [w.taken[last]]);
      ConcatOne(w.taken[last]);
      assert w.taken == w.taken[..last] + [w.taken[last]];
      PrefixOfPrefix(Concat(w.taken[..last]), w.taken[last], w.wire, w.current);
    }
  }

  lemma PrefixOfPrefix(a: seq<byte>, b: seq<byte>, wire: seq<byte>, rest: seq<byte>)
    requires a + b == wire + rest && 0 < |rest| <= |b|
    ensures a <= wire < a + b
  {
    assert (wire + rest)[..|wire|] == wire;
    assert wire[..|a|] == (a + b)[..|a|] == a;
  }

  lemma KeepApply(w: Writer, step: Step)
    requires Inv(w)
    ensures Inv(Apply(w, step))
  {
    match step
    case PushStep(record) => KeepPush(w, record);
    case ClearStep => KeepClear(w);
    case TakeStep => KeepTake(w);
    case WriteStep(n) =>
      if 1 <= n <= |w.current| {
        assert w.current == w.current[..n] + w.current[n..];
        assert w.wire + w.current == w.wire + w.current[..n] + w.current[n..];
      }
    case BreakStep => KeepBreak(w);
    case CloseStep =>
  }

  lemma {:induction false} InvAlways(budget: nat, steps: seq<Step>)
    ensures Inv(Run(Started(budget), steps))
  {
    if steps != [] {
      InvAlways(budget, steps[..|steps| - 1]);
      KeepApply(Run(Started(budget), steps[..|steps| - 1]), steps[|steps| - 1]);
    }
  }

  /**
   Whatever the interleaving of pushes, clears, writes and a failure: the queue never exceeds its
   budget and `queued` is its exact size, and the pipe holds the records the thread took - the
   accepted ones in push order, less those dropped - whole, except that the record being written,
   or the one a failure interrupted, may be cut.
   */
  lemma PipeHoldsWholeRecords(budget: nat, steps: seq<Step>)
    ensures var w := Run(Started(budget), steps);
      && w.queued == TotalSize(w.queue) <= budget
      && |w.accepted| == |w.fates|
      && w.taken == WithFate(w.accepted, w.fates, Taken)
      && w.queue == WithFate(w.accepted, w.fates, Waiting)
      && (w.broken || w.current != [] ==> CutShort(w.wire, w.taken))
      && (!w.broken && w.current == [] ==> w.wire == Concat(w.taken))
  {
    var w := Run(Started(budget), steps);
    InvAlways(budget, steps);
    BudgetKept(budget, steps);
    WaitingIsQueue(w.accepted, w.fates, |w.queue|);
    if w.current != [] {
      KeepBreak(w);
    }
  }

  lemma {:induction false} BudgetKept(budget: nat, steps: seq<Step>)
    ensures Run(Started(budget), steps).budget == budget
  {
    if steps != [] {
      BudgetKept(budget, steps[..|steps| - 1]);
    }
  }

  lemma {:induction false} WaitingIsQueue(accepted: seq<Record>, fates: seq<Fate>, n: nat)
    requires |accepted| == |fates| && WaitingLast(fates, n)
    ensures WithFate(accepted, fates, Waiting) == accepted[|accepted| - n..]
  {
    if accepted != [] {
      var last, m := |accepted| - 1, if n > 0 then n - 1 else 0;
      assert WaitingLast(fates[..last], m);
      WaitingIsQueue(accepted[..last], fates[..last], m);
      assert accepted == accepted[..last] + [accepted[last]];
    }
  }

  lemma MoreWritten(wire0: seq<byte>, current0: seq<byte>, wire: seq<byte>, current: seq<byte>, n: nat)
    requires wire0 <= wire && wire + current == wire0 + current0 && n <= |current|
    ensures wire0 <= wire + current[..n]
    ensures wire + current[..n] + current[n..] == wire0 + current0
  {
    assert current == current[..n] + current[n..];
    assert wire + (current[..n] + current[n..]) == wire + current[..n] + current[n..];
  }

  /** Having written some of the record leaves everything else as it was. */
  lemma PartWay(w: Writer, wire: seq<byte>, current: seq<byte>)
    requires Inv(w) && !w.broken
    requires w.wire <= wire && wire + current == w.wire + w.current
    ensures Inv(w.(wire := wire, current := current))
  {
    assert |current| <= |w.current|;
  }

  lemma StoppedPartWay(w: Writer, wire: seq<byte>, current: seq<byte>)
    requires Inv(w) && !w.broken && current != []
    requires w.wire <= wire && wire + current == w.wire + w.current
    ensures Inv(Break(w).(wire := wire)) && w.current != []
    ensures wire < w.wire + w.current
  {
    PartWay(w, wire, current);
    KeepBreak(w.(wire := wire, current := current));
    assert (wire + current)[..|wire|] == wire;
    assert Break(w.(wire := wire, current := current)) == Break(w).(wire := wire);
  }

  /** The object of the source. Only the first five fields exist there; the rest is history. */
  class QueuedWriter {
    const budget: nat
    var queue: seq<Record>
    var queued: int
    var closing: bool
    var broken: bool
    var current: seq<byte>
    ghost var accepted: seq<Record>
    ghost var fates: seq<Fate>
    ghost var taken: seq<Record>
    ghost var wire: seq<byte>

    ghost function State(): Writer
      reads this
    {
      Writer(budget, queue, queued, closing, broken, current, accepted, fates, taken, wire)
    }

    constructor (budget: nat)
      ensures State() == Started(budget)
    {
      this.budget, queue, queued := budget, [], 0;
      closing, broken, current := false, false, [];
      accepted, fates, taken, wire := [], [], [], [];
    }

    method Push(record: Record) returns (ok: bool)
      modifies this
      ensures ok <==> Accepts(old(State()), record)
      ensures State() == Apply(old(State()), PushStep(record))
    {
      if closing || broken || queued + |record| > budget {
        return false;
      }
      queued := queued + |record|;
      queue := queue + [record];
      accepted, fates := accepted + [record], fates + [Waiting];
      return true;
    }

    method Clear()
      modifies this
      ensures State() == Apply(old(State()), ClearStep)
    {
      queue, queued := [], 0;
      fates := DropWaiting(fates);
    }

    method Close()
      modifies this
      ensures State() == Apply(old(State()), CloseStep)
    {
      closing := true;
    }

    /** The locked part of the thread's loop; false when the thread has nothing left to do. */
    method TakeFront() returns (took: bool)
      requires Inv(State()) && !broken && current == []
      modifies this
      ensures took <==> old(queue) != []
      ensures State() == Apply(old(State()), TakeStep)
    {
      if queue == [] {
        return false;
      }
      fates := fates[|fates| - |queue| := Taken];
      taken := taken + [queue[0]];
      current, queued, queue := queue[0], queued - |queue[0]|, queue[1..];
      return true;
    }

    /** write_some on the record in hand, and what the thread does if it fails (returns 0). */
    method WriteSome() returns (written: nat)
      requires current != []
      modifies this
      ensures written <= |old(current)|
      ensures written > 0 ==> State() == Apply(old(State()), WriteStep(written))
      ensures written == 0 ==> State() == Apply(old(State()), BreakStep)
    {
      written :| 0 <= written <= |current|;
      if written == 0 {
        broken, queue, queued := true, [], 0;
        current, fates := [], DropWaiting(fates);
      } else {
        wire, current := wire + current[..written], current[written..];
      }
    }

    /** write_all: any number of partial writes, until the record is out or a write fails. */
    method WriteAll() returns (ok: bool)
      requires Inv(State()) && !broken
      modifies this
      ensures Inv(State())
      ensures ok ==> State() == old(State()).(wire := old(wire) + old(current), current := [])
      ensures !ok ==> State() == Break(old(State())).(wire := wire) && broken
                      && old(wire) <= wire < old(wire) + old(current)
    {
      ghost var start := State();
      while current != []
        invariant State() == start.(wire := wire, current := current)
        invariant start.wire <= wire && wire + current == start.wire + start.current
        decreases |current|
      {
        ghost var wireBefore, currentBefore := wire, current;
        var written := WriteSome();
        if written == 0 {
          StoppedPartWay(start, wireBefore, currentBefore);
          return false;
        }
        MoreWritten(start.wire, start.current, wireBefore, currentBefore, written);
      }
      PartWay(start, wire, []);
      return true;
    }

    /**
     The thread's loop after `close`, when nobody else may push: it writes everything that was
     still queued, in order, unless the pipe breaks.
     */
    method Drain()
      requires Inv(State()) && closing && !broken
      modifies this
      ensures Inv(State()) && closing && queue == [] && current == []
      ensures !broken ==> wire == old(wire) + old(current) + Concat(old(queue))
      ensures broken ==> old(wire) <= wire < old(wire) + old(current) + Concat(old(queue))
    {
      hide Inv, Concat;
      ghost var total := wire + current + Concat(queue);
      var took := WriteAll();
      while took
        invariant Inv(State()) && closing && (took ==> !broken) && current == []
        invariant old(wire) <= wire
        invariant if broken then wire < total else wire + Concat(queue) == total
        invariant !took ==> queue == []
        decreases |queue|, took
      {
        ghost var front := State();
        took := WriteNext();
        if front.queue != [] {
          FrontOfQueue(old(wire), front.wire, front.queue, wire, total);
        }
      }
      if !broken {
        ConcatNothing();
      }
    }

    /**
     close, as the destructor calls it: no more pushes, and the thread is joined, so everything that
     was accepted and not dropped is in the pipe, unless it breaks.
     */
    method CloseAndJoin()
      requires Inv(State())
      modifies this
      ensures Inv(State()) && closing && queue == [] && current == []
      ensures !broken ==> wire == old(wire) + old(current) + Concat(old(queue))
      ensures old(wire) <= wire && (broken && !old(broken) ==> wire < old(wire) + old(current) + Concat(old(queue)))
    {
      hide CountsInv, Concat;
      KeepApply(State(), CloseStep);
      Close();
      if !broken {
        Drain();
      }
    }

    /** One turn of the loop: the front record is taken and written, if there is one. */
    method WriteNext() returns (took: bool)
      requires Inv(State()) && closing && !broken && current == []
      modifies this
      ensures Inv(State()) && closing && current == [] && (took <==> old(queue) != [] && !broken)
      ensures old(queue) == [] ==> State() == old(State())
      ensures took ==> queue == old(queue)[1..] && wire == old(wire) + old(queue)[0]
      ensures old(queue) != [] && !took ==> broken && queue == [] && old(wire) <= wire < old(wire) + old(queue)[0]
    {
      hide CountsInv, WireInv, WithFate;
      ghost var front := State();
      KeepTake(front);
      if queue != [] {
        FrontCanBeTaken(front);
      }
      took := TakeFront();
      if took {
        took := WriteAll();
      }
    }
  }

  lemma FrontCanBeTaken(w: Writer)
    requires Inv(w) && !w.broken && w.current == [] && w.queue != []
    ensures CanTake(w)
  {
  }

  /** Writing the front record, whole or in part, keeps to the bytes that were to be written. */
  lemma FrontOfQueue(start: seq<byte>, before: seq<byte>, queue: seq<Record>, wire: seq<byte>, total: seq<byte>)
    requires start <= before && queue != [] && before + Concat(queue) == total
    requires before <= wire <= before + queue[0]
    ensures start <= wire
    ensures wire == before + queue[0] ==> wire + Concat(queue[1..]) == total
    ensures wire < before + queue[0] ==> wire < total
  {
    assert before + queue[0] + Concat(queue[1..]) == before + (queue[0] + Concat(queue[1..]));
    assert wire[..|start|] == before[..|start|];
  }
}
