/** Bytes and the little-endian integers of net-records.hpp. */
module Bytes {

  type byte = x: int | 0 <= x < 256

  datatype Option<+T> = None | Some(value: T)

  /** 256 to the power n: one more than the largest unsigned integer of n bytes. */
  function Range(n: nat): (r: nat)
    ensures r >= 1
  {
    if n == 0 then 1 else 256 * Range(n - 1)
  }

  lemma Widths()
    ensures Range(2) == 0x1_0000
    ensures Range(4) == 0x1_0000_0000
    ensures Range(8) == 0x1_0000_0000_0000_0000
  {
    assert Range(3) == 256 * Range(2);
    assert Range(5) == 256 * Range(4);
    assert Range(6) == 256 * Range(5);
    assert Range(7) == 256 * Range(6);
  }

  /** The n low bytes of a value, least significant first. */
  function LittleEndian(n: nat, value: nat): (bytes: seq<byte>)
    ensures |bytes| == n
  {
    if n == 0 then [] else [value % 256] + LittleEndian(n - 1, value / 256)
  }

  function FromLittleEndian(bytes: seq<byte>): (value: nat)
    ensures value < Range(|bytes|)
  {
    if bytes == [] then 0 else bytes[0] + 256 * FromLittleEndian(bytes[1..])
  }

  /** Reading back what was written loses nothing while the value fits the width. */
  lemma {:induction false} WriteThenRead(n: nat, value: nat)
    requires value < Range(n)
    ensures FromLittleEndian(LittleEndian(n, value)) == value
  {
    if n > 0 {
      WriteThenRead(n - 1, value / 256);
      assert LittleEndian(n, value)[1..] == LittleEndian(n - 1, value / 256);
    }
  }

  lemma {:induction false} ReadThenWrite(bytes: seq<byte>)
    ensures LittleEndian(|bytes|, FromLittleEndian(bytes)) == bytes
  {
    if bytes != [] {
      ReadThenWrite(bytes[1..]);
      var rest := FromLittleEndian(bytes[1..]);
      assert (bytes[0] + 256 * rest) % 256 == bytes[0];
      assert (bytes[0] + 256 * rest) / 256 == rest;
    }
  }

  /** Byte i of a value is the value shifted right by 8 * i, cut to eight bits. */
  lemma {:induction false} LittleEndianAt(n: nat, value: nat, i: nat)
    requires i < n
    ensures LittleEndian(n, value)[i] == (value / Range(i)) % 256
  {
    if i > 0 {
      LittleEndianAt(n - 1, value / 256, i - 1);
      DivideTwice(value, Range(i - 1));
    }
  }

  /** Shifting right twice is shifting right once, by the product. */
  lemma DivideTwice(value: nat, divisor: nat)
    requires divisor >= 1
    ensures (value / 256) / divisor == value / (256 * divisor)
  {
    var a, r := value / 256, value % 256;
    QuotientIs(value, 256 * divisor, a / divisor, 256 * (a % divisor) + r) by {
      var q, s := a / divisor, a % divisor;
      assert a == divisor * q + s;
      assert 256 * (divisor * q) == (256 * divisor) * q;
    }
  }

  lemma QuotientIs(value: int, divisor: int, q: int, r: int)
    requires divisor > 0 && value == divisor * q + r && 0 <= r < divisor
    ensures value / divisor == q
  {
    var q', r' := value / divisor, value % divisor;
    NoMultipleBetween(divisor, q - q', r' - r) by {
      assert divisor * (q - q') == divisor * q - divisor * q';
    }
  }

  lemma NoMultipleBetween(divisor: int, k: int, gap: int)
    requires divisor > 0 && divisor * k == gap && -divisor < gap < divisor
    ensures k == 0
  {
    if k >= 1 {
      MultipleAtLeast(divisor, k);
      assert false;
    } else if k <= -1 {
      MultipleAtLeast(divisor, -k);
      assert false;
    }
  }

  lemma MultipleAtLeast(divisor: int, k: int)
    requires divisor > 0 && k >= 1
    ensures divisor * k >= divisor
  {
  }

  /** put32 (n == 4) and put64 (n == 8): fill n bytes of a buffer in place. */
  method Put(out: array<byte>, at: nat, n: nat, value: nat)
    requires at + n <= out.Length
    modifies out
    ensures out[at..at + n] == LittleEndian(n, value)
    ensures forall k :: 0 <= k < out.Length && !(at <= k < at + n) ==> out[k] == old(out[k])
  {
    var i := 0;
    while i < n
      invariant 0 <= i <= n
      invariant forall k :: 0 <= k < out.Length && !(at <= k < at + n) ==> out[k] == old(out[k])
      invariant out[at..at + i] == LittleEndian(n, value)[..i]
    {
      LittleEndianAt(n, value, i);
      out[at + i] := (value / Range(i)) % 256; // value >> (8 * i), cut to a byte
      assert out[at..at + i + 1] == out[at..at + i] + [LittleEndian(n, value)[i]];
      i := i + 1;
    }
  }

  /** get32 (n == 4) and get64 (n == 8): shift the bytes in, most significant first. */
  method Get(bytes: seq<byte>, at: nat, n: nat) returns (value: nat)
    requires at + n <= |bytes|
    ensures value == FromLittleEndian(bytes[at..at + n])
  {
    value := 0;
    var i := n;
    while i > 0
      invariant 0 <= i <= n
      invariant value == FromLittleEndian(bytes[at + i..at + n])
    {
      i := i - 1;
      assert bytes[at + i..at + n][1..] == bytes[at + i + 1..at + n];
      value := value * 256 + bytes[at + i];
    }
  }

  // ---- Byte strings written one after another

  function Concat(parts: seq<seq<byte>>): (bytes: seq<byte>)
  {
    if parts == [] then [] else parts[0] + Concat(parts[1..])
  }

  lemma ConcatFirst(parts: seq<seq<byte>>)
    requires parts != []
    ensures Concat(parts) == parts[0] + Concat(parts[1..])
  {
  }

  lemma ConcatNothing()
    ensures Concat([]) == []
  {
  }

  lemma {:induction false} ConcatAppend(a: seq<seq<byte>>, b: seq<seq<byte>>)
    ensures Concat(a + b) == Concat(a) + Concat(b)
  {
    hide Concat;
    if a == [] {
      assert a + b == b;
      ConcatNothing();
    } else {
      ConcatAppend(a[1..], b);
      ConcatFirst(a);
      ConcatFirst(a + b);
      assert (a + b)[1..] == a[1..] + b;
      assert a[0] + Concat(a[1..]) + Concat(b) == a[0] + (Concat(a[1..]) + Concat(b));
    }
  }

  lemma ConcatOne(part: seq<byte>)
    ensures Concat([part]) == part
  {
    assert Concat([part][1..]) == [];
  }

  /** A prefix of a concatenation ends inside the first part, or contains it whole. */
  lemma ConcatPrefix(parts: seq<seq<byte>>, n: nat)
    requires parts != [] && n <= |Concat(parts)|
    ensures n < |parts[0]| ==> Concat(parts)[..n] == parts[0][..n]
    ensures n >= |parts[0]| ==> Concat(parts)[..n] == parts[0] + Concat(parts[1..])[..n - |parts[0]|]
  {
  }
}
