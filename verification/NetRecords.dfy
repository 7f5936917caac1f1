/**
 The binary records between the media worker and media-net (net-records.hpp) and the loops that
 read them (read_frames in media-net.cpp, read_input in media-worker.cpp).
 */
module NetRecords {
  import opened Bytes

  const FRAME_MAGIC := 0x4d524656
  const HEADER_SIZE := 32
  const MAX_FRAME_BYTES := 16 * 1024 * 1024
  const MAX_CAPS_BYTES := 4096
  const MAX_PEER_ID := 64
  const MAX_INPUT_TEXT := 1024

  type uint32 = x: int | 0 <= x < 0x1_0000_0000
  type uint64 = x: int | 0 <= x < 0x1_0000_0000_0000_0000

  datatype FrameKind = VideoBuffer | AudioBuffer | VideoCaps | AudioCaps

  datatype FrameHeader = FrameHeader(kind: FrameKind, flags: byte, length: uint32, duration: uint64)

  function KindByte(kind: FrameKind): byte {
    match kind
    case VideoBuffer => 1
    case AudioBuffer => 2
    case VideoCaps => 3
    case AudioCaps => 4
  }

  predicate IsCaps(kind: FrameKind) {
    kind == VideoCaps || kind == AudioCaps
  }

  /** The headers a well-behaved worker sends. */
  predicate ValidHeader(h: FrameHeader) {
    h.flags <= 1
    && h.length <= (if IsCaps(h.kind) then MAX_CAPS_BYTES else MAX_FRAME_BYTES)
    && (IsCaps(h.kind) ==> h.flags == 0)
  }

  function HeaderBytes(h: FrameHeader): (bytes: seq<byte>)
    ensures |bytes| == HEADER_SIZE
  {
    LittleEndian(4, FRAME_MAGIC) + [KindByte(h.kind), h.flags, 0, 0] + LittleEndian(4, h.length)
    + [0, 0, 0, 0] + LittleEndian(8, h.duration) + [0, 0, 0, 0, 0, 0, 0, 0]
  }

  /** encode_frame: header bytes written in place over a zeroed record, then the payload. */
  method EncodeFrame(h: FrameHeader, payload: seq<byte>) returns (record: seq<byte>)
    requires |payload| >= h.length
    ensures record == HeaderBytes(h) + payload[..h.length]
  {
    hide LittleEndian, HeaderBytes;
    var out := new byte[HEADER_SIZE + h.length](_ => 0);
    FillHeader(out, h);
    var i := 0;
    while i < h.length
      invariant 0 <= i <= h.length
      invariant out[..32] == HeaderBytes(h) && out[32..32 + i] == payload[..i]
    {
      out[32 + i] := payload[i];
      i := i + 1;
    }
    assert out[..] == out[..32] + out[32..32 + h.length];
    record := out[..];
  }

  /** The header's members, each at its place in a zeroed record. */
  method FillHeader(out: array<byte>, h: FrameHeader)
    requires out.Length == HEADER_SIZE + h.length && forall i :: 0 <= i < out.Length ==> out[i] == 0
    modifies out
    ensures out[..HEADER_SIZE] == HeaderBytes(h)
  {
    hide LittleEndian, HeaderBytes;
    Put(out, 0, 4, FRAME_MAGIC);
    out[4] := KindByte(h.kind);
    out[5] := h.flags;
    ghost var start := out[..];
    assert start[0..4] == LittleEndian(4, FRAME_MAGIC);
    Put(out, 8, 4, h.length);
    assert out[0..4] == start[0..4];
    ghost var before := out[..];
    Put(out, 16, 8, h.duration);
    assert out[0..4] == before[0..4] && out[8..12] == before[8..12];
    HeaderLayout(out[..], h);
    assert out[..HEADER_SIZE] == out[..][..HEADER_SIZE];
  }

  lemma HeaderLayout(out: seq<byte>, h: FrameHeader)
    requires |out| == HEADER_SIZE + h.length
    requires out[0..4] == LittleEndian(4, FRAME_MAGIC)
    requires out[4] == KindByte(h.kind) && out[5] == h.flags && out[6] == out[7] == 0
    requires out[8..12] == LittleEndian(4, h.length)
    requires out[12] == out[13] == out[14] == out[15] == 0
    requires out[16..24] == LittleEndian(8, h.duration)
    requires forall i :: 24 <= i < 32 ==> out[i] == 0
    ensures out[..HEADER_SIZE] == HeaderBytes(h)
  {
    hide LittleEndian;
    var low := LittleEndian(4, FRAME_MAGIC) + [KindByte(h.kind), h.flags, 0, 0]
               + LittleEndian(4, h.length) + [0, 0, 0, 0];
    var high := LittleEndian(8, h.duration) + [0, 0, 0, 0, 0, 0, 0, 0];
    assert out[..16] == low by {
      assert out[..16] == out[0..4] + out[4..8] + out[8..12] + out[12..16];
    }
    assert out[16..32] == high by {
      assert out[16..32] == out[16..24] + out[24..32];
    }
    assert out[..HEADER_SIZE] == out[..16] + out[16..32];
    assert HeaderBytes(h) == low + high;
  }

  function DecodeHeader(b: seq<byte>): (result: Option<FrameHeader>)
    requires |b| == HEADER_SIZE
  {
    Widths();
    if FromLittleEndian(b[0..4]) != FRAME_MAGIC || b[6] != 0 || b[7] != 0
       || FromLittleEndian(b[12..16]) != 0 || FromLittleEndian(b[24..32]) != 0 then
      None
    else if b[4] < 1 || b[4] > 4 || b[5] > 1 then // (flags & ~flag_delta) != 0
      None
    else
      var kind := if b[4] == 1 then VideoBuffer else if b[4] == 2 then AudioBuffer
                  else if b[4] == 3 then VideoCaps else AudioCaps;
      var h := FrameHeader(kind, b[5], FromLittleEndian(b[8..12]), FromLittleEndian(b[16..24]));
      var limit := if IsCaps(kind) then MAX_CAPS_BYTES else MAX_FRAME_BYTES;
      if h.length > limit || (IsCaps(kind) && h.flags != 0) then None else Some(h)
  }

  lemma {:induction false} ZeroBytes(bytes: seq<byte>)
    ensures FromLittleEndian(bytes) == 0 <==> forall i :: 0 <= i < |bytes| ==> bytes[i] == 0
  {
    if bytes != [] {
      ZeroBytes(bytes[1..]);
      if FromLittleEndian(bytes) == 0 {
        forall i | 0 <= i < |bytes| ensures bytes[i] == 0 {
          if i > 0 {
            assert bytes[i] == bytes[1..][i - 1];
          }
        }
      }
    }
  }

  /** Decoding inverts encoding on every header the worker may send. */
  lemma DecodeInvertsEncode(h: FrameHeader)
    requires ValidHeader(h)
    ensures DecodeHeader(HeaderBytes(h)) == Some(h)
  {
    hide LittleEndian, FromLittleEndian, Range;
    Widths();
    var b := HeaderBytes(h);
    assert b[0..4] == LittleEndian(4, FRAME_MAGIC);
    WriteThenRead(4, FRAME_MAGIC);
    assert b[8..12] == LittleEndian(4, h.length);
    WriteThenRead(4, h.length);
    assert b[16..24] == LittleEndian(8, h.duration);
    WriteThenRead(8, h.duration);
    ZeroBytes(b[12..16]);
    ZeroBytes(b[24..32]);
  }

  /** ... and accepts nothing else: every accepted header is the encoding of a valid one. */
  lemma DecodeAcceptsOnlyEncodings(b: seq<byte>)
    requires |b| == HEADER_SIZE
    ensures DecodeHeader(b).Some? <==> exists h :: ValidHeader(h) && b == HeaderBytes(h)
    ensures DecodeHeader(b).Some? ==> b == HeaderBytes(DecodeHeader(b).value)
  {
    hide LittleEndian, FromLittleEndian, Range, DecodeHeader, HeaderBytes, ValidHeader;
    if DecodeHeader(b).Some? {
      AcceptedIsEncoding(b);
    }
    forall h | ValidHeader(h) && b == HeaderBytes(h) ensures DecodeHeader(b).Some? {
      DecodeInvertsEncode(h);
    }
  }

  lemma AcceptedIsEncoding(b: seq<byte>)
    requires |b| == HEADER_SIZE && DecodeHeader(b).Some?
    ensures ValidHeader(DecodeHeader(b).value) && b == HeaderBytes(DecodeHeader(b).value)
  {
    hide LittleEndian, FromLittleEndian, Range;
    ReadThenWrite(b[0..4]);
    ReadThenWrite(b[8..12]);
    ReadThenWrite(b[16..24]);
    ZeroBytes(b[12..16]);
    ZeroBytes(b[24..32]);
    assert b[12] == b[12..16][0] && b[13] == b[12..16][1] && b[14] == b[12..16][2] && b[15] == b[12..16][3];
    forall i | 24 <= i < 32 ensures b[i] == 0 {
      assert b[i] == b[24..32][i - 24];
    }
    var h := DecodeHeader(b).value;
    HeaderLayout(b + seq(h.length, _ => 0), h);
  }

  // ---- Streams of frame records

  datatype FrameRecord = FrameRecord(header: FrameHeader, payload: seq<byte>)

  predicate ValidRecord(r: FrameRecord) {
    ValidHeader(r.header) && |r.payload| == r.header.length
  }

  function RecordBytes(r: FrameRecord): seq<byte> {
    HeaderBytes(r.header) + r.payload
  }

  function Encoded(records: seq<FrameRecord>): (parts: seq<seq<byte>>)
    ensures |parts| == |records|
    ensures forall i :: 0 <= i < |parts| ==> parts[i] == RecordBytes(records[i])
  {
    seq(|records|, i requires 0 <= i < |records| => RecordBytes(records[i]))
  }

  function StreamBytes(records: seq<FrameRecord>): seq<byte> {
    Concat(Encoded(records))
  }

  /** What a reader makes of all the bytes it gets; `ok` is false at a malformed header. */
  datatype Parsed<T> = Parsed(records: seq<T>, ok: bool)

  function ParseFrames(bytes: seq<byte>): Parsed<FrameRecord>
    decreases |bytes|
  {
    if |bytes| < HEADER_SIZE then Parsed([], true)
    else
      match DecodeHeader(bytes[..HEADER_SIZE])
      case None => Parsed([], false)
      case Some(h) =>
        if |bytes| < HEADER_SIZE + h.length then Parsed([], true)
        else
          var rest := ParseFrames(bytes[HEADER_SIZE + h.length..]);
          Parsed([FrameRecord(h, bytes[HEADER_SIZE..HEADER_SIZE + h.length])] + rest.records, rest.ok)
  }

  /** A whole record in front is parsed as itself, whatever follows. */
  lemma ParseOne(r: FrameRecord, rest: seq<byte>)
    requires ValidRecord(r)
    ensures ParseFrames(RecordBytes(r) + rest)
         == Parsed([r] + ParseFrames(rest).records, ParseFrames(rest).ok)
  {
    hide LittleEndian, FromLittleEndian, HeaderBytes, DecodeHeader;
    var bytes := RecordBytes(r) + rest;
    assert bytes[..HEADER_SIZE] == HeaderBytes(r.header);
    DecodeInvertsEncode(r.header);
    assert bytes[HEADER_SIZE..HEADER_SIZE + r.header.length] == r.payload;
    assert bytes[HEADER_SIZE + r.header.length..] == rest;
  }

  /** A record cut short anywhere is neither delivered nor mistaken for a malformed one. */
  lemma ParseCut(r: FrameRecord, n: nat)
    requires ValidRecord(r) && n < |RecordBytes(r)|
    ensures ParseFrames(RecordBytes(r)[..n]) == Parsed([], true)
  {
    hide LittleEndian, FromLittleEndian, HeaderBytes, DecodeHeader;
    var bytes := RecordBytes(r)[..n];
    if n >= HEADER_SIZE {
      assert bytes[..HEADER_SIZE] == HeaderBytes(r.header);
      DecodeInvertsEncode(r.header);
    }
  }

  /** How many of the parts lie wholly within the first n bytes of their concatenation. */
  function WholeParts(parts: seq<seq<byte>>, n: nat): (k: nat)
    ensures k <= |parts|
    ensures n >= |Concat(parts)| ==> k == |parts|
  {
    if parts == [] || n < |parts[0]| then 0 else 1 + WholeParts(parts[1..], n - |parts[0]|)
  }

  /**
   Parsing any prefix of the bytes of valid records returns exactly the records that lie wholly
   inside the prefix: all of them when the prefix is everything.
   */
  lemma {:induction false} ParsePrefix(records: seq<FrameRecord>, n: nat)
    requires forall i :: 0 <= i < |records| ==> ValidRecord(records[i])
    requires n <= |StreamBytes(records)|
    ensures ParseFrames(StreamBytes(records)[..n])
         == Parsed(records[..WholeParts(Encoded(records), n)], true)
  {
    hide LittleEndian, FromLittleEndian, RecordBytes, DecodeHeader;
    if records == [] {
      assert Encoded(records) == [];
    } else {
      var k := WholeParts(Encoded(records), n);
      var bytes := PrefixSplit(records, n);
      if k == 0 {
        ParseCut(records[0], n);
      } else {
        ParsePrefix(records[1..], |bytes|);
        ParseOne(records[0], bytes);
        ConsPrefix(records, k - 1);
      }
    }
  }

  lemma ConsPrefix<T>(s: seq<T>, k: nat)
    requires s != [] && k < |s|
    ensures [s[0]] + s[1..][..k] == s[..k + 1]
  {
  }

  /** The bytes of a prefix after its first record, if it holds that record whole. */
  lemma PrefixSplit(records: seq<FrameRecord>, n: nat) returns (rest: seq<byte>)
    requires records != [] && n <= |StreamBytes(records)|
    ensures WholeParts(Encoded(records), n) == 0 ==>
              n < |RecordBytes(records[0])| && StreamBytes(records)[..n] == RecordBytes(records[0])[..n]
    ensures WholeParts(Encoded(records), n) > 0 ==>
              |rest| <= |StreamBytes(records[1..])| && rest == StreamBytes(records[1..])[..|rest|]
              && StreamBytes(records)[..n] == RecordBytes(records[0]) + rest
              && WholeParts(Encoded(records), n) == 1 + WholeParts(Encoded(records[1..]), |rest|)
  {
    hide RecordBytes;
    var parts := Encoded(records);
    ConcatPrefix(parts, n);
    assert parts[1..] == Encoded(records[1..]);
    rest := if n < |parts[0]| then [] else Concat(parts[1..])[..n - |parts[0]|];
  }

  // ---- Input records: peer id and text lengths, then both strings

  datatype InputRecord = InputRecord(peer: seq<byte>, text: seq<byte>)

  predicate PeerIdByte(c: byte) {
    0x61 <= c <= 0x7a || 0x41 <= c <= 0x5a || 0x30 <= c <= 0x39 || c == 0x2d
  }

  predicate ValidPeerId(id: seq<byte>) {
    1 <= |id| <= MAX_PEER_ID && forall i :: 0 <= i < |id| ==> PeerIdByte(id[i])
  }

  predicate ValidInput(r: InputRecord) {
    ValidPeerId(r.peer) && 1 <= |r.text| <= MAX_INPUT_TEXT
  }

  /** encode_input. The cast of each length to two bytes drops anything above 16 bits. */
  function InputBytes(r: InputRecord): seq<byte> {
    LittleEndian(2, |r.peer|) + LittleEndian(2, |r.text|) + r.peer + r.text
  }

  /** decode_input_header: the two lengths, or nothing when either is out of bounds. */
  function DecodeInputHeader(b: seq<byte>): Option<(nat, nat)>
    requires |b| == 4
  {
    var peer, text := FromLittleEndian(b[0..2]), FromLittleEndian(b[2..4]);
    if peer == 0 || peer > MAX_PEER_ID || text == 0 || text > MAX_INPUT_TEXT then None
    else Some((peer, text))
  }

  function ParseInputs(bytes: seq<byte>): Parsed<InputRecord>
    decreases |bytes|
  {
    if |bytes| < 4 then Parsed([], true)
    else
      match DecodeInputHeader(bytes[..4])
      case None => Parsed([], false)
      case Some(sizes) =>
        var (peer, text) := sizes;
        if |bytes| < 4 + peer + text then Parsed([], true)
        else if !ValidPeerId(bytes[4..4 + peer]) then Parsed([], false)
        else
          var rest := ParseInputs(bytes[4 + peer + text..]);
          Parsed([InputRecord(bytes[4..4 + peer], bytes[4 + peer..4 + peer + text])] + rest.records, rest.ok)
  }

  function InputStream(records: seq<InputRecord>): seq<byte> {
    if records == [] then [] else InputBytes(records[0]) + InputStream(records[1..])
  }

  /** One step of the reader, once the header is known to announce these two strings. */
  lemma InputStep(bytes: seq<byte>, peer: seq<byte>, text: seq<byte>, rest: seq<byte>)
    requires |bytes| >= 4 && DecodeInputHeader(bytes[..4]) == Some((|peer|, |text|))
    requires bytes[4..] == peer + text + rest
    ensures !ValidPeerId(peer) ==> ParseInputs(bytes) == Parsed([], false)
    ensures ValidPeerId(peer) ==>
              ParseInputs(bytes) == Parsed([InputRecord(peer, text)] + ParseInputs(rest).records, ParseInputs(rest).ok)
  {
    hide FromLittleEndian, DecodeInputHeader, ValidPeerId;
    assert bytes[4..4 + |peer|] == bytes[4..][..|peer|] == peer;
    assert bytes[4 + |peer|..4 + |peer| + |text|] == bytes[4..][|peer|..|peer| + |text|] == text;
    assert bytes[4 + |peer| + |text|..] == bytes[4..][|peer| + |text|..] == rest;
  }

  lemma InputHeader(r: InputRecord)
    requires ValidInput(r)
    ensures DecodeInputHeader(InputBytes(r)[..4]) == Some((|r.peer|, |r.text|))
  {
    hide LittleEndian, FromLittleEndian, Range;
    var header := InputBytes(r)[..4];
    Widths();
    assert header[0..2] == LittleEndian(2, |r.peer|);
    WriteThenRead(2, |r.peer|);
    assert header[2..4] == LittleEndian(2, |r.text|);
    WriteThenRead(2, |r.text|);
  }

  /** The worker reads back exactly the input records media-net sent. */
  lemma {:induction false} ParseInputStream(records: seq<InputRecord>)
    requires forall i :: 0 <= i < |records| ==> ValidInput(records[i])
    ensures ParseInputs(InputStream(records)) == Parsed(records, true)
  {
    hide LittleEndian, FromLittleEndian;
    if records != [] {
      var r, rest := records[0], InputStream(records[1..]);
      ParseInputStream(records[1..]);
      FirstInputIs(r, rest);
    }
  }

  lemma FirstInputIs(r: InputRecord, rest: seq<byte>)
    requires ValidInput(r)
    ensures ParseInputs(InputBytes(r) + rest) == Parsed([r] + ParseInputs(rest).records, ParseInputs(rest).ok)
  {
    hide LittleEndian, FromLittleEndian, DecodeInputHeader;
    var bytes := InputBytes(r) + rest;
    InputHeader(r);
    assert bytes[..4] == InputBytes(r)[..4];
    assert bytes[4..] == r.peer + r.text + rest;
    InputStep(bytes, r.peer, r.text, rest);
  }

  /** Whatever bytes arrive, only valid records get past the reader, and they are on the wire. */
  lemma {:induction false} ParsedInputsAreValid(bytes: seq<byte>)
    ensures forall r :: r in ParseInputs(bytes).records ==> ValidInput(r)
    ensures InputStream(ParseInputs(bytes).records) <= bytes
    decreases |bytes|
  {
    if ParseInputs(bytes).records != [] {
      var r, rest := FirstInput(bytes);
      ParsedInputsAreValid(rest);
      assert ParseInputs(bytes).records[1..] == ParseInputs(rest).records;
    }
  }

  lemma FirstInput(bytes: seq<byte>) returns (r: InputRecord, rest: seq<byte>)
    requires ParseInputs(bytes).records != []
    ensures ValidInput(r) && bytes == InputBytes(r) + rest && |rest| < |bytes|
    ensures ParseInputs(bytes).records == [r] + ParseInputs(rest).records
  {
    hide LittleEndian, FromLittleEndian;
    var (peer, text) := DecodeInputHeader(bytes[..4]).value;
    r := InputRecord(bytes[4..4 + peer], bytes[4 + peer..4 + peer + text]);
    rest := bytes[4 + peer + text..];
    assert bytes[4..] == r.peer + r.text + rest;
    InputStep(bytes, r.peer, r.text, rest);
    ReadThenWrite(bytes[..4][0..2]);
    ReadThenWrite(bytes[..4][2..4]);
    assert bytes[..4] == bytes[..4][0..2] + bytes[..4][2..4];
  }
}
