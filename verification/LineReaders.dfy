/**
 The two line splitters: read_lines (net-pipes.hpp), which gives up on a line that is too long,
 and readLines (ServerProcess.swift), which skips it. `chunks` are the successive reads.
 */
module LineReaders {
  import opened Bytes

  const NEWLINE: byte := 10
  const CHUNK := 8192
  const SWIFT_CHUNK := 65536
  const MAX_CONTROL_LINE := 262144
  const MAXIMUM_LINE := 8 * 1024 * 1024

  type Line = seq<byte>

  /** Text split at its newlines: the lines that end in one, and what is left after the last. */
  datatype Split = Split(lines: seq<Line>, tail: Line)

  function SplitLines(text: seq<byte>): Split {
    if text == [] then Split([], [])
    else
      var last, before := text[|text| - 1], SplitLines(text[..|text| - 1]);
      if last == NEWLINE then Split(before.lines + [before.tail], []) else before.(tail := before.tail + [last])
  }

  /** Reads of at least one byte, and of at most `size`. */
  predicate Reads(chunks: seq<seq<byte>>, size: nat) {
    forall i :: 0 <= i < |chunks| ==> 1 <= |chunks[i]| <= size
  }

  lemma SplitSnoc(text: seq<byte>, b: byte)
    ensures var before := SplitLines(text);
      SplitLines(text + [b]) == if b == NEWLINE then Split(before.lines + [before.tail], []) else before.(tail := before.tail + [b])
  {
    assert (text + [b])[..|text|] == text;
  }

  /** The lines again, each with its newline. */
  function Joined(lines: seq<Line>): seq<byte> {
    if lines == [] then [] else Joined(lines[..|lines| - 1]) + lines[|lines| - 1] + [NEWLINE]
  }

  /** Nothing is lost or moved: the lines with their newlines, and the tail, are the text. */
  lemma {:induction false} SplitMeaning(text: seq<byte>)
    ensures var split := SplitLines(text);
      && text == Joined(split.lines) + split.tail && NEWLINE !in split.tail
      && forall i :: 0 <= i < |split.lines| ==> NEWLINE !in split.lines[i]
  {
    if text != [] {
      var last, before := text[|text| - 1], SplitLines(text[..|text| - 1]);
      SplitMeaning(text[..|text| - 1]);
      assert text == text[..|text| - 1] + [last];
      if last == NEWLINE {
        assert (before.lines + [before.tail])[..|before.lines|] == before.lines;
        assert Joined(before.lines + [before.tail]) == Joined(before.lines) + before.tail + [NEWLINE];
      }
    }
  }

  /** More text completes the line that was being read, or makes it longer. */
  predicate Grew(s: Split, s': Split, more: seq<byte>) {
    && s.lines <= s'.lines
    && (|s'.lines| == |s.lines| ==> s'.tail == s.tail + more)
    && (|s'.lines| > |s.lines| ==> s.tail <= s'.lines[|s.lines|] && |s'.lines[|s.lines|]| < |s.tail| + |more|)
  }

  lemma GrewOne(s: Split, s': Split, more: seq<byte>, b: byte)
    requires Grew(s, s', more)
    ensures Grew(s, if b == NEWLINE then Split(s'.lines + [s'.tail], []) else s'.(tail := s'.tail + [b]), more + [b])
  {
    if |s'.lines| == |s.lines| {
      assert s'.tail + [b] == s.tail + (more + [b]);
    }
  }

  lemma {:induction false} SplitGrows(a: seq<byte>, b: seq<byte>)
    ensures Grew(SplitLines(a), SplitLines(a + b), b)
  {
    hide SplitLines;
    if b == [] {
      assert a + b == a && SplitLines(a).tail + b == SplitLines(a).tail;
    } else {
      hide Grew;
      var last := |b| - 1;
      SplitGrows(a, b[..last]);
      assert a + b == a + b[..last] + [b[last]];
      SplitSnoc(a + b[..last], b[last]);
      GrewOne(SplitLines(a), SplitLines(a + b[..last]), b[..last], b[last]);
      assert b == b[..last] + [b[last]];
    }
  }

  /** Some line, the unterminated tail counting as one, is longer than `size`. */
  predicate LongerThan(split: Split, size: nat) {
    |split.tail| > size || exists i :: 0 <= i < |split.lines| && |split.lines[i]| > size
  }

  /** After some read, what is left over is longer than the limit. */
  predicate GivesUp(chunks: seq<seq<byte>>, limit: nat) {
    exists n :: 0 < n <= |chunks| && |SplitLines(Concat(chunks[..n])).tail| > limit
  }

  /**
   read_lines. With every line within the limit all lines are delivered and the result is true;
   with one beyond the limit plus what one read can bring, it is false. In between it depends on
   how the bytes were read.
   */
  method ReadLines(chunks: seq<seq<byte>>, limit: nat := MAX_CONTROL_LINE) returns (delivered: seq<Line>, ok: bool)
    requires Reads(chunks, CHUNK)
    ensures delivered <= SplitLines(Concat(chunks)).lines
    ensures ok <==> !GivesUp(chunks, limit)
    ensures ok ==> delivered == SplitLines(Concat(chunks)).lines
    ensures !LongerThan(SplitLines(Concat(chunks)), limit) ==> ok
    ensures |SplitLines(Concat(chunks)).tail| > limit ==> !ok
    ensures (exists i :: 0 <= i < |SplitLines(Concat(chunks)).lines|
                         && |SplitLines(Concat(chunks)).lines[i]| >= limit + CHUNK) ==> !ok
    ensures forall i :: 0 <= i < |delivered| ==> |delivered[i]| < limit + CHUNK
  {
    delivered, ok := [], true;
    var buffered: seq<byte> := [];
    ghost var text: seq<byte> := [];
    for i := 0 to |chunks|
      invariant text == Concat(chunks[..i])
      invariant Split(delivered, buffered) == SplitLines(text)
      invariant |buffered| <= limit && !GivesUp(chunks[..i], limit)
      invariant forall k :: 0 <= k < |delivered| ==> |delivered[k]| < limit + CHUNK
    {
      ghost var before, old' := text, delivered;
      ReadNext(chunks, i);
      var lines;
      lines, buffered := SplitChunk(buffered, chunks[i], text);
      text := text + chunks[i];
      delivered := delivered + lines;
      SplitGrows(before, chunks[i]);
      NextGivesUp(chunks, i, limit);
      if |buffered| > limit {
        TooLong(chunks, i, limit);
        return delivered, false;
      }
    }
    assert chunks[..|chunks|] == chunks;
  }

  lemma ReadNext(chunks: seq<seq<byte>>, i: nat)
    requires i < |chunks|
    ensures Concat(chunks[..i + 1]) == Concat(chunks[..i]) + chunks[i]
  {
    assert chunks[..i + 1] == chunks[..i] + [chunks[i]];
    ConcatAppend(chunks[..i], [chunks[i]]);
    ConcatOne(chunks[i]);
  }

  lemma NextGivesUp(chunks: seq<seq<byte>>, i: nat, limit: nat)
    requires i < |chunks| && !GivesUp(chunks[..i], limit)
    ensures GivesUp(chunks[..i + 1], limit) <==> |SplitLines(Concat(chunks[..i + 1])).tail| > limit
    ensures GivesUp(chunks[..i + 1], limit) ==> GivesUp(chunks, limit)
  {
    hide SplitLines, Concat;
    forall n | 0 < n <= i ensures |SplitLines(Concat(chunks[..n])).tail| <= limit {
      assert chunks[..i][..n] == chunks[..n];
    }
    forall n | 0 < n <= i + 1 ensures chunks[..i + 1][..n] == chunks[..n] {
    }
    if GivesUp(chunks[..i + 1], limit) {
      var n :| 0 < n <= i + 1 && |SplitLines(Concat(chunks[..i + 1][..n])).tail| > limit;
      assert |SplitLines(Concat(chunks[..n])).tail| > limit;
    } else {
      assert |SplitLines(Concat(chunks[..i + 1][..i + 1])).tail| <= limit;
    }
  }

  /** When the reader gives up, some line really is longer than the limit. */
  lemma TooLong(chunks: seq<seq<byte>>, i: nat, limit: nat)
    requires i < |chunks| && |SplitLines(Concat(chunks[..i + 1])).tail| > limit
    ensures LongerThan(SplitLines(Concat(chunks)), limit)
    ensures SplitLines(Concat(chunks[..i + 1])).lines <= SplitLines(Concat(chunks)).lines
  {
    var text, rest := Concat(chunks[..i + 1]), Concat(chunks[i + 1..]);
    assert chunks == chunks[..i + 1] + chunks[i + 1..];
    ConcatAppend(chunks[..i + 1], chunks[i + 1..]);
    SplitGrows(text, rest);
    var n := |SplitLines(text).lines|;
    if |SplitLines(text + rest).lines| > n {
      assert |SplitLines(text + rest).lines[n]| > limit;
    }
  }

  /** The inner loop: the lines that a chunk completes, and what is left over. */
  method SplitChunk(buffered: seq<byte>, chunk: seq<byte>, ghost text: seq<byte>) returns (lines: seq<Line>, rest: Line)
    requires SplitLines(text).tail == buffered
    ensures SplitLines(text + chunk) == Split(SplitLines(text).lines + lines, rest)
    ensures forall k :: 0 <= k < |lines| ==> |lines[k]| < |buffered| + |chunk|
  {
    hide SplitLines;
    lines := [];
    var all := buffered + chunk;
    var start, at := 0, |buffered|; // what was left over has no newline
    ghost var base, seen := SplitLines(text).lines, text;
    assert all[start..at] == buffered && base + [] == base && text + all[|buffered|..at] == text;
    while at < |all|
      invariant 0 <= start <= at && |buffered| <= at <= |all|
      invariant seen == text + all[|buffered|..at]
      invariant SplitLines(seen) == Split(base + lines, all[start..at])
      invariant forall k :: 0 <= k < |lines| ==> |lines[k]| < |buffered| + |chunk|
    {
      SplitStep(seen, base, lines, all[start..at], all[at]);
      NextSlice(all, start, at);
      seen := Extend(text, all, |buffered|, at);
      if all[at] == NEWLINE {
        lines := lines + [all[start..at]];
        start := at + 1;
      }
      at := at + 1;
    }
    assert all[|buffered|..|all|] == chunk && all[start..|all|] == all[start..];
    rest := all[start..];
  }

  lemma SplitStep(seen: seq<byte>, base: seq<Line>, lines: seq<Line>, line: Line, b: byte)
    requires SplitLines(seen) == Split(base + lines, line)
    ensures SplitLines(seen + [b]) == if b == NEWLINE then Split(base + (lines + [line]), []) else Split(base + lines, line + [b])
  {
    SplitSnoc(seen, b);
    assert base + lines + [line] == base + (lines + [line]);
  }

  lemma NextSlice(all: seq<byte>, start: nat, at: nat)
    requires start <= at < |all|
    ensures all[start..at + 1] == all[start..at] + [all[at]]
  {
  }

  lemma Extend(text: seq<byte>, all: seq<byte>, from: nat, at: nat) returns (seen: seq<byte>)
    requires from <= at < |all|
    ensures seen == text + all[from..at] + [all[at]] == text + all[from..at + 1]
  {
    seen := text + all[from..at + 1];
    assert text + all[from..at] + [all[at]] == seen;
  }

  /**
   A line in between goes either way, by the reads alone: after reads of its first `limit` bytes,
   the rest comes with its newline or before it.
   */
  lemma InBetweenDepends(line: Line, limit: nat, first: seq<seq<byte>>)
    requires NEWLINE !in line && limit < |line| < limit + CHUNK
    requires Reads(first, CHUNK) && Concat(first) == line[..limit]
    ensures var one, two := first + [line[limit..] + [NEWLINE]], first + [line[limit..], [NEWLINE]];
      && Concat(one) == Concat(two) == line + [NEWLINE] && Reads(one, CHUNK) && Reads(two, CHUNK)
      && GivesUp(two, limit) && !GivesUp(one, limit)
  {
    hide SplitLines;
    var rest := line[limit..];
    var one, two := first + [rest + [NEWLINE]], first + [rest, [NEWLINE]];
    assert line == line[..limit] + rest;
    ConcatAppend(first, [rest + [NEWLINE]]);
    ConcatOne(rest + [NEWLINE]);
    ConcatAppend(first, [rest]);
    ConcatOne(rest);
    ConcatAppend(first + [rest], [[NEWLINE]]);
    ConcatOne([NEWLINE]);
    assert two == first + [rest] + [[NEWLINE]];
    assert two[..|first| + 1] == first + [rest];
    SplitPlain(line);
    SplitSnoc(line, NEWLINE);
    assert line[..limit] + (rest + [NEWLINE]) == line + [NEWLINE];
    assert Concat(one) == line + [NEWLINE];
    assert |SplitLines(Concat(two[..|first| + 1])).tail| > limit;
    forall n | 0 < n <= |one| ensures |SplitLines(Concat(one[..n])).tail| <= limit {
      if n == |one| {
        assert one[..n] == one;
        assert SplitLines(Concat(one[..n])).tail == [];
      } else {
        assert one[..n] == first[..n];
        assert first == first[..n] + first[n..];
        ConcatAppend(first[..n], first[n..]);
        PlainPrefix(Concat(first[..n]), Concat(first[n..]), line, limit);
        SplitPlain(Concat(first[..n]));
        assert SplitLines(Concat(one[..n])).tail == Concat(first[..n]);
      }
    }
  }

  lemma PlainPrefix(a: seq<byte>, b: seq<byte>, line: Line, limit: nat)
    requires limit <= |line| && a + b == line[..limit] && NEWLINE !in line
    ensures NEWLINE !in a && |a| <= limit
  {
    forall i | 0 <= i < |a| ensures a[i] == line[i] {
      assert (a + b)[i] == a[i];
    }
  }

  lemma {:induction false} SplitPlain(text: seq<byte>)
    requires NEWLINE !in text
    ensures SplitLines(text) == Split([], text)
  {
    if text != [] {
      SplitPlain(text[..|text| - 1]);
      assert text == text[..|text| - 1] + [text[|text| - 1]];
    }
  }

  // ---- readLines

  /** The lines with their flag set, in order. */
  function Kept(lines: seq<Line>, keep: seq<bool>): seq<Line>
    requires |keep| == |lines|
  {
    if lines == [] then []
    else
      var last := |lines| - 1;
      Kept(lines[..last], keep[..last]) + if keep[last] then [lines[last]] else []
  }

  lemma KeptSnoc(lines: seq<Line>, keep: seq<bool>, line: Line, k: bool)
    requires |keep| == |lines|
    ensures Kept(lines + [line], keep + [k]) == Kept(lines, keep) + if k then [line] else []
  {
    assert (lines + [line])[..|lines|] == lines && (keep + [k])[..|keep|] == keep;
  }

  /** Which lines a skipping reader may keep: all within the maximum, none beyond one more read. */
  predicate Keeps(lines: seq<Line>, keep: seq<bool>, maximum: nat) {
    |keep| == |lines|
    && forall i :: 0 <= i < |lines| ==> (|lines[i]| <= maximum ==> keep[i]) && (|lines[i]| >= maximum + SWIFT_CHUNK ==> !keep[i])
  }

  /** What has been delivered is the lines that are kept. */
  predicate Delivers(lines: seq<Line>, keep: seq<bool>, delivered: seq<Line>, maximum: nat) {
    Keeps(lines, keep, maximum) && delivered == Kept(lines, keep)
  }

  /** The text after the last newline, if it counts as a line. */
  function LastLine(tail: Line, maximum: nat): seq<Line> {
    if 0 < |tail| <= maximum then [tail] else []
  }

  /** The lines of a whole text, each in order and whole, except for some of the too long ones. */
  ghost predicate DeliversSplit(split: Split, delivered: seq<Line>, maximum: nat) {
    exists keep :: Keeps(split.lines, keep, maximum) && delivered == Kept(split.lines, keep) + LastLine(split.tail, maximum)
  }

  /** One more line, kept or not. */
  lemma LineDone(lines: seq<Line>, keep: seq<bool>, delivered: seq<Line>, line: Line, k: bool, maximum: nat)
    requires Delivers(lines, keep, delivered, maximum)
    requires (|line| <= maximum ==> k) && (|line| >= maximum + SWIFT_CHUNK ==> !k)
    ensures Delivers(lines + [line], keep + [k], if k then delivered + [line] else delivered, maximum)
  {
    KeptSnoc(lines, keep, line, k);
  }

  /** What the reader holds agrees with the text so far: `line` is the end of it without a newline. */
  predicate Holds(discarding: bool, pending: seq<byte>, held: seq<byte>, line: Line, maximum: nat) {
    (discarding ==> |line| > maximum && pending == []) && (!discarding ==> line == pending + held)
  }

  /**
   readLines: every line of at most `maximum` bytes is delivered whole and in order, whatever is
   around it and however it was read; the last line counts even without a newline, if not empty.
   */
  method ReadLinesSkipping(chunks: seq<seq<byte>>, maximum: nat := MAXIMUM_LINE) returns (delivered: seq<Line>)
    requires Reads(chunks, SWIFT_CHUNK)
    ensures DeliversSplit(SplitLines(Concat(chunks)), delivered, maximum)
  {
    hide SplitLines, Concat, Kept;
    delivered := [];
    ghost var keep: seq<bool> := [];
    var pending: seq<byte> := [];
    var discarding := false;
    NothingRead(chunks, maximum);
    for i := 0 to |chunks|
      invariant var split := SplitLines(Concat(chunks[..i]));
        && Delivers(split.lines, keep, delivered, maximum)
        && Holds(discarding, pending, [], split.tail, maximum) && |pending| <= maximum
    {
      ReadNext(chunks, i);
      ghost var text := Concat(chunks[..i]);
      assert pending + [] == pending;
      var start;
      start, pending, discarding, delivered, keep := ScanBuffer(chunks[i], maximum, pending, discarding, delivered, text, keep);
      if !discarding {
        pending := pending + chunks[i][start..];
      }
      if |pending| > maximum {
        pending := [];
        discarding := true;
      }
      assert pending + [] == pending;
    }
    assert chunks[..|chunks|] == chunks;
    assert pending + [] == pending;
    if pending != [] && !discarding {
      delivered := delivered + [pending];
    }
    ghost var split := SplitLines(Concat(chunks));
    assert Keeps(split.lines, keep, maximum) && delivered == Kept(split.lines, keep) + LastLine(split.tail, maximum);
  }

  lemma NothingRead(chunks: seq<seq<byte>>, maximum: nat)
    ensures SplitLines(Concat(chunks[..0])) == Split([], []) && Delivers([], [], [], maximum)
  {
    assert chunks[..0] == [];
  }

  /** The walk over one buffer, newline by newline. */
  method ScanBuffer(buffer: seq<byte>, maximum: nat, pending0: seq<byte>, discarding0: bool, delivered0: seq<Line>,
                    ghost text: seq<byte>, ghost keep0: seq<bool>)
    returns (start: nat, pending: seq<byte>, discarding: bool, delivered: seq<Line>, ghost keep: seq<bool>)
    requires |buffer| <= SWIFT_CHUNK && |pending0| <= maximum
    requires Delivers(SplitLines(text).lines, keep0, delivered0, maximum)
    requires Holds(discarding0, pending0, [], SplitLines(text).tail, maximum)
    ensures start <= |buffer| && |pending| <= maximum
    ensures var split := SplitLines(text + buffer);
      && Delivers(split.lines, keep, delivered, maximum)
      && Holds(discarding, pending, buffer[start..], split.tail, maximum)
  {
    hide SplitLines, Delivers;
    start, pending, discarding, delivered, keep := 0, pending0, discarding0, delivered0, keep0;
    assert text + buffer[..0] == text && buffer[0..0] == [];
    for index := 0 to |buffer|
      invariant 0 <= start <= index && |pending| <= maximum
      invariant var split := SplitLines(text + buffer[..index]);
        && Delivers(split.lines, keep, delivered, maximum)
        && Holds(discarding, pending, buffer[start..index], split.tail, maximum)
    {
      ghost var split := SplitLines(text + buffer[..index]);
      SplitSnoc(text + buffer[..index], buffer[index]);
      assert text + buffer[..index + 1] == text + buffer[..index] + [buffer[index]];
      if buffer[index] == NEWLINE {
        LineDone(split.lines, keep, delivered, split.tail, !discarding, maximum);
        keep := keep + [!discarding];
        if !discarding {
          pending := pending + buffer[start..index];
          delivered := delivered + [pending];
        }
        pending := [];
        discarding := false;
        start := index + 1;
      } else {
        assert buffer[start..index + 1] == buffer[start..index] + [buffer[index]];
        assert pending + buffer[start..index] + [buffer[index]] == pending + buffer[start..index + 1];
      }
    }
    assert buffer[..|buffer|] == buffer && buffer[start..|buffer|] == buffer[start..];
  }

  /** The kept lines are those with the numbers `from`, which rise and are all those with the flag. */
  ghost predicate Picks(kept: seq<Line>, lines: seq<Line>, keep: seq<bool>, from: seq<nat>)
    requires |keep| == |lines|
  {
    && |from| == |kept|
    && (forall i :: 0 <= i < |from| ==> from[i] < |lines| && keep[from[i]] && kept[i] == lines[from[i]])
    && (forall i, j :: 0 <= i < j < |from| ==> from[i] < from[j])
    && (forall n :: 0 <= n < |lines| && keep[n] ==> n in from)
  }

  lemma PicksMore(kept: seq<Line>, lines: seq<Line>, keep: seq<bool>, from: seq<nat>, line: Line, k: bool)
    requires |keep| == |lines| && Picks(kept, lines, keep, from)
    ensures k ==> Picks(kept + [line], lines + [line], keep + [k], from + [|lines|])
    ensures !k ==> Picks(kept, lines + [line], keep + [k], from)
  {
    var next := |lines|;
    assert next in from + [next] by { assert (from + [next])[|from|] == next; }
    forall n | n in from ensures n in from + [next] {
    }
  }

  /** Exactly the lines with their flag set are kept, each once and in order. */
  lemma {:induction false} KeptAre(lines: seq<Line>, keep: seq<bool>) returns (from: seq<nat>)
    requires |keep| == |lines|
    ensures Picks(Kept(lines, keep), lines, keep, from)
  {
    hide Picks;
    if lines == [] {
      from := [];
      NothingPicked(lines, keep);
    } else {
      var last := |lines| - 1;
      from := KeptAre(lines[..last], keep[..last]);
      PicksMore(Kept(lines[..last], keep[..last]), lines[..last], keep[..last], from, lines[last], keep[last]);
      assert lines == lines[..last] + [lines[last]] && keep == keep[..last] + [keep[last]];
      assert Kept(lines[..last], keep[..last]) + [] == Kept(lines[..last], keep[..last]);
      from := if keep[last] then from + [last] else from;
    }
  }

  lemma NothingPicked(lines: seq<Line>, keep: seq<bool>)
    requires lines == [] && keep == []
    ensures Picks(Kept(lines, keep), lines, keep, [])
  {
  }

  /** A line that is kept appears among the delivered ones after all earlier kept lines. */
  lemma {:induction false} KeptInOrder(lines: seq<Line>, keep: seq<bool>, i: nat)
    requires |keep| == |lines| && i < |lines| && keep[i]
    ensures Kept(lines[..i], keep[..i]) + [lines[i]] <= Kept(lines, keep)
    decreases |lines|
  {
    var last := |lines| - 1;
    if i < last {
      KeptInOrder(lines[..last], keep[..last], i);
      assert lines[..last][..i] == lines[..i] && keep[..last][..i] == keep[..i];
    }
  }
}
