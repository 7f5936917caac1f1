/**
 The blocking reads of net-pipes.hpp and the two record loops on top of them: read_frames
 (media-net.cpp) and read_input (media-worker.cpp).
 */
module PipeReaders {
  import opened Bytes
  import opened NetRecords

  /** The read end of a pipe. `bytes` is all that will still arrive before the pipe ends. */
  class Pipe {
    var bytes: seq<byte>

    constructor (content: seq<byte>)
      ensures bytes == content
    {
      bytes := content;
    }

    /** read_some: any positive count the operating system likes, or nothing at the end. */
    method ReadSome(size: nat) returns (chunk: seq<byte>)
      requires size > 0
      modifies this
      ensures |chunk| <= size && old(bytes) == chunk + bytes
      ensures chunk == [] ==> old(bytes) == []
    {
      if bytes == [] {
        return [];
      }
      var n :| 1 <= n <= size && n <= |bytes|;
      chunk, bytes := bytes[..n], bytes[n..];
    }
  }

  /** read_exact: fill the whole buffer, across however many short reads that takes. */
  method ReadExact(pipe: Pipe, data: array<byte>) returns (ok: bool)
    modifies pipe, data
    ensures ok <==> |old(pipe.bytes)| >= data.Length
    ensures ok ==> old(pipe.bytes) == data[..] + pipe.bytes
    ensures !ok ==> pipe.bytes == []
  {
    var done := 0;
    while done < data.Length
      invariant 0 <= done <= data.Length
      invariant old(pipe.bytes) == data[..done] + pipe.bytes
      decreases data.Length - done
    {
      var chunk := pipe.ReadSome(data.Length - done);
      if chunk == [] {
        return false;
      }
      var before := data[..done];
      forall i | 0 <= i < |chunk| {
        data[done + i] := chunk[i];
      }
      assert data[..done + |chunk|] == before + chunk;
      done := done + |chunk|;
    }
    assert data[..] == data[..done];
    return true;
  }

  /** The records with numbers to keep. */
  function Chosen<T>(records: seq<T>, keep: nat -> bool): (chosen: seq<T>) {
    if records == [] then []
    else
      var last := |records| - 1;
      Chosen(records[..last], keep) + if keep(last) then [records[last]] else []
  }

  lemma ChosenNothing<T>(records: seq<T>, keep: nat -> bool)
    requires records == []
    ensures Chosen(records, keep) == []
  {
  }

  lemma ChosenSnoc<T>(records: seq<T>, record: T, keep: nat -> bool)
    ensures Chosen(records + [record], keep) == Chosen(records, keep) + if keep(|records|) then [record] else []
  {
    assert (records + [record])[..|records|] == records;
  }

  lemma {:induction false} ChosenAll<T>(records: seq<T>, keep: nat -> bool)
    requires forall n :: 0 <= n < |records| ==> keep(n)
    ensures Chosen(records, keep) == records
  {
    if records != [] {
      ChosenAll(records[..|records| - 1], keep);
    }
  }

  /** The chosen records are those with the numbers `from`, which rise and are all those to keep. */
  ghost predicate Picks<T>(chosen: seq<T>, records: seq<T>, keep: nat -> bool, from: seq<nat>) {
    && |from| == |chosen|
    && (forall i :: 0 <= i < |from| ==> from[i] < |records| && keep(from[i]) && chosen[i] == records[from[i]])
    && (forall i, j :: 0 <= i < j < |from| ==> from[i] < from[j])
    && (forall n :: 0 <= n < |records| && keep(n) ==> n in from)
  }

  lemma PicksMore<T>(chosen: seq<T>, records: seq<T>, keep: nat -> bool, from: seq<nat>, r: T)
    requires Picks(chosen, records, keep, from)
    ensures keep(|records|) ==> Picks(chosen + [r], records + [r], keep, from + [|records|])
    ensures !keep(|records|) ==> Picks(chosen, records + [r], keep, from)
  {
    var next := |records|;
    assert |records| in from + [|records|] by { assert (from + [next])[|from|] == next; }
    forall n | n in from ensures n in from + [next] {
    }
  }

  /** Exactly the records to keep are chosen, each once and in order. */
  lemma {:induction false} ChosenAre<T>(records: seq<T>, keep: nat -> bool) returns (from: seq<nat>)
    ensures Picks(Chosen(records, keep), records, keep, from)
  {
    hide Picks;
    if records == [] {
      from := [];
      NothingPicked(records, keep);
    } else {
      var last := |records| - 1;
      from := ChosenAre(records[..last], keep);
      PicksMore(Chosen(records[..last], keep), records[..last], keep, from, records[last]);
      assert records == records[..last] + [records[last]];
      assert Chosen(records[..last], keep) + [] == Chosen(records[..last], keep);
      from := if keep(last) then from + [last] else from;
    }
  }

  lemma NothingPicked<T>(records: seq<T>, keep: nat -> bool)
    requires records == []
    ensures Picks(Chosen(records, keep), records, keep, [])
  {
  }

  /** Caps that the pipeline cannot take, for a stream that it has. */
  predicate Unexpected(r: FrameRecord, attached: bool, acceptable: FrameRecord -> bool) {
    attached && IsCaps(r.header.kind) && !acceptable(r)
  }

  /** How many records come before unexpected caps, if any do. */
  function Usable(records: seq<FrameRecord>, from: nat, attached: nat -> bool, acceptable: FrameRecord -> bool): (n: nat)
    requires from <= |records|
    ensures from <= n <= |records|
    ensures forall k :: from <= k < n ==> !Unexpected(records[k], attached(k), acceptable)
    ensures n < |records| ==> Unexpected(records[n], attached(n), acceptable)
    decreases |records| - from
  {
    if from == |records| || Unexpected(records[from], attached(from), acceptable) then from
    else Usable(records, from + 1, attached, acceptable)
  }

  ghost predicate NoneUnexpected(records: seq<FrameRecord>, attached: nat -> bool, acceptable: FrameRecord -> bool) {
    forall k :: 0 <= k < |records| ==> !Unexpected(records[k], attached(k), acceptable)
  }

  lemma NothingUnexpected(records: seq<FrameRecord>, attached: nat -> bool, acceptable: FrameRecord -> bool)
    requires records == []
    ensures NoneUnexpected(records, attached, acceptable)
  {
  }

  lemma OneMoreExpected(records: seq<FrameRecord>, record: FrameRecord, attached: nat -> bool, acceptable: FrameRecord -> bool)
    requires NoneUnexpected(records, attached, acceptable) && !Unexpected(record, attached(|records|), acceptable)
    ensures NoneUnexpected(records + [record], attached, acceptable)
  {
  }

  /** The reader stops behind these records: nothing follows them, or unexpected caps do. */
  lemma UsableIs(records: seq<FrameRecord>, rest: seq<FrameRecord>, attached: nat -> bool, acceptable: FrameRecord -> bool)
    requires NoneUnexpected(records, attached, acceptable)
    requires rest != [] ==> Unexpected(rest[0], attached(|records|), acceptable)
    ensures Usable(records + rest, 0, attached, acceptable) == |records| && (records + rest)[..|records|] == records
  {
    assert forall k :: 0 <= k < |records| ==> (records + rest)[k] == records[k];
    assert rest != [] ==> (records + rest)[|records|] == rest[0];
  }

  /** With every stream there and all caps as expected, every record is passed on. */
  lemma AllPassedOn(records: seq<FrameRecord>, attached: nat -> bool, acceptable: FrameRecord -> bool)
    requires forall n :: 0 <= n < |records| ==> attached(n)
    requires forall r :: r in records && IsCaps(r.header.kind) ==> acceptable(r)
    ensures Usable(records, 0, attached, acceptable) == |records| && Chosen(records, attached) == records
  {
    hide Usable;
    ChosenAll(records, attached);
  }

  /**
   read_frames: however the reads were cut, what it passes on are the records of its bytes up to
   the first malformed header or unexpected caps, but for those of a stream that the pipeline does
   not have; `ok` is false exactly when one of the two stopped it. The pipeline answers whether it
   has the stream of record number n and takes its caps.
   */
  method ReadFrames(pipe: Pipe, attached: nat -> bool, acceptable: FrameRecord -> bool)
    returns (records: seq<FrameRecord>, ok: bool)
    modifies pipe
    ensures var parsed := ParseFrames(old(pipe.bytes));
      var n := Usable(parsed.records, 0, attached, acceptable);
      records == Chosen(parsed.records[..n], attached) && (ok <==> parsed.ok && n == |parsed.records|)
  {
    hide ParseFrames, Chosen, Usable, NoneUnexpected;
    ghost var parsed, seen: seq<FrameRecord> := ParseFrames(pipe.bytes), [];
    ChosenNothing(seen, attached);
    assert NoneUnexpected(seen, attached, acceptable) by { NothingUnexpected(seen, attached, acceptable); }
    records, ok := [], true;
    var n := 0;
    while true
      invariant ok && n == |seen|
      invariant parsed == Parsed(seen + ParseFrames(pipe.bytes).records, ParseFrames(pipe.bytes).ok)
      invariant records == Chosen(seen, attached) && NoneUnexpected(seen, attached, acceptable)
      decreases |pipe.bytes|
    {
      var next := NextFrame(pipe);
      if !next.Whole? {
        ok := next.End?;
        UsableIs(seen, [], attached, acceptable);
        assert seen + [] == seen;
        return;
      }
      if attached(n) && IsCaps(next.record.header.kind) && !acceptable(next.record) {
        ok := false;
        UsableIs(seen, [next.record] + ParseFrames(pipe.bytes).records, attached, acceptable);
        return;
      }
      records := if attached(n) then records + [next.record] else records;
      ChosenSnoc(seen, next.record, attached);
      OneMoreExpected(seen, next.record, attached, acceptable);
      assert seen + ([next.record] + ParseFrames(pipe.bytes).records) == seen + [next.record] + ParseFrames(pipe.bytes).records;
      seen := seen + [next.record];
      n := n + 1;
    }
  }

  /** One turn of a reader: a whole record, the end of the pipe, or a malformed record. */
  datatype Next<T> = Whole(record: T) | End | Malformed

  /** The next record says what the bytes so far parse to. */
  ghost predicate Steps<T>(next: Next<T>, before: Parsed<T>, after: Parsed<T>) {
    match next
    case Whole(record) => before == Parsed([record] + after.records, after.ok)
    case End => before == Parsed([], true)
    case Malformed => before == Parsed([], false)
  }

  method NextFrame(pipe: Pipe) returns (next: Next<FrameRecord>)
    modifies pipe
    ensures Steps(next, ParseFrames(old(pipe.bytes)), ParseFrames(pipe.bytes))
    ensures next.Whole? ==> |pipe.bytes| < |old(pipe.bytes)|
  {
    hide FromLittleEndian, LittleEndian, DecodeHeader;
    var headerBytes := new byte[HEADER_SIZE];
    ghost var before := pipe.bytes;
    var whole := ReadExact(pipe, headerBytes);
    if !whole {
      return End;
    }
    assert before[..HEADER_SIZE] == headerBytes[..];
    ghost var afterHeader := pipe.bytes;
    assert before == headerBytes[..] + afterHeader;
    var header := DecodeHeader(headerBytes[..]);
    if header.None? {
      return Malformed;
    }
    var payload := new byte[header.value.length];
    whole := ReadExact(pipe, payload);
    if !whole {
      return End;
    }
    FrameStep(before, payload[..], pipe.bytes);
    next := Whole(FrameRecord(header.value, payload[..]));
  }

  lemma FrameStep(bytes: seq<byte>, payload: seq<byte>, rest: seq<byte>)
    requires |bytes| >= HEADER_SIZE && DecodeHeader(bytes[..HEADER_SIZE]).Some?
    requires DecodeHeader(bytes[..HEADER_SIZE]).value.length == |payload|
    requires bytes[HEADER_SIZE..] == payload + rest
    ensures ParseFrames(bytes)
         == Parsed([FrameRecord(DecodeHeader(bytes[..HEADER_SIZE]).value, payload)] + ParseFrames(rest).records,
                   ParseFrames(rest).ok)
  {
    hide DecodeHeader;
    assert bytes[HEADER_SIZE..HEADER_SIZE + |payload|] == bytes[HEADER_SIZE..][..|payload|] == payload;
    assert bytes[HEADER_SIZE + |payload|..] == bytes[HEADER_SIZE..][|payload|..] == rest;
  }

  /** The two strings of an input record, of the lengths its header gave. */
  method ReadStrings(pipe: Pipe, peerSize: nat, textSize: nat)
    returns (whole: bool, peer: seq<byte>, text: seq<byte>)
    modifies pipe
    ensures whole <==> |old(pipe.bytes)| >= peerSize + textSize
    ensures whole ==> |peer| == peerSize && |text| == textSize
    ensures whole ==> old(pipe.bytes) == peer + text + pipe.bytes
  {
    peer, text := [], [];
    var first := new byte[peerSize];
    whole := ReadExact(pipe, first);
    if whole {
      peer := first[..];
      var second := new byte[textSize];
      whole := ReadExact(pipe, second);
      text := second[..];
    }
  }

  const MAX_IN_FLIGHT := 256 * 8

  /** Another message may wait for the main loop. */
  function Admits(inFlight: nat -> nat): nat -> bool {
    (n: nat) => inFlight(n) + 1 <= MAX_IN_FLIGHT
  }

  /**
   read_input: likewise for the records from the untrusted media-net, but for those that arrive
   while too many messages still wait for the main loop; `inFlight` are those that do when record
   number n has been read.
   */
  method ReadInput(pipe: Pipe, inFlight: nat -> nat) returns (records: seq<InputRecord>, ok: bool)
    modifies pipe
    ensures var parsed := ParseInputs(old(pipe.bytes));
      records == Chosen(parsed.records, Admits(inFlight)) && ok == parsed.ok
  {
    hide ParseInputs, Chosen, Admits;
    ghost var parsed, seen: seq<InputRecord> := ParseInputs(pipe.bytes), [];
    ChosenNothing(seen, Admits(inFlight));
    records, ok := [], true;
    var n := 0;
    while true
      invariant ok && n == |seen|
      invariant parsed == Parsed(seen + ParseInputs(pipe.bytes).records, ParseInputs(pipe.bytes).ok)
      invariant records == Chosen(seen, Admits(inFlight))
      decreases |pipe.bytes|
    {
      var next := NextInput(pipe);
      if !next.Whole? {
        ok := next.End?;
        assert parsed == Parsed(seen, ok);
        return;
      }
      records := if Admits(inFlight)(n) then records + [next.record] else records;
      ChosenSnoc(seen, next.record, Admits(inFlight));
      seen := seen + [next.record];
      n := n + 1;
    }
  }

  method NextInput(pipe: Pipe) returns (next: Next<InputRecord>)
    modifies pipe
    ensures Steps(next, ParseInputs(old(pipe.bytes)), ParseInputs(pipe.bytes))
    ensures next.Whole? ==> |pipe.bytes| < |old(pipe.bytes)|
  {
    hide FromLittleEndian, LittleEndian, DecodeInputHeader, ValidPeerId;
    var header := new byte[4];
    ghost var before := pipe.bytes;
    var whole := ReadExact(pipe, header);
    if !whole {
      return End;
    }
    assert before[..4] == header[..];
    var sizes := DecodeInputHeader(header[..]);
    if sizes.None? {
      return Malformed;
    }
    var (peerSize, textSize) := sizes.value;
    ghost var afterHeader := pipe.bytes;
    var peer, text;
    whole, peer, text := ReadStrings(pipe, peerSize, textSize);
    if !whole {
      return End;
    }
    assert before == header[..] + afterHeader;
    InputStep(before, peer, text, pipe.bytes);
    next := if ValidPeerId(peer) then Whole(InputRecord(peer, text)) else Malformed;
  }
}
