/** Machine integers and their little-endian wire images (the writeUint and
    readUint helpers of fix_queue.cpp). */
module Wire {
  import opened Crc16

  datatype Option<+T> = None | Some(value: T)

  const TWO_TO_THE_32: int := 0x1_0000_0000

  type uint32 = x: int | 0 <= x < 0x1_0000_0000
  type uint16 = x: int | 0 <= x < 0x1_0000
  type int32 = x: int | -0x8000_0000 <= x < 0x8000_0000
  type uint8 = x: int | 0 <= x < 0x100
  type int8 = x: int | -0x80 <= x < 0x80

  /** What a uint32 variable holds after being assigned `x`. */
  function Wrap(x: int): uint32 {
    x % 0x1_0000_0000
  }

  /** The byte whose value is n. */
  function ByteOf(n: int): (b: bv8)
    requires 0 <= n < 0x100
    ensures b as int == n
  {
    if n == 0 then 0 else Successor(ByteOf(n - 1)); ByteOf(n - 1) + 1
  }

  lemma Successor(b: bv8)
    ensures b < 255 ==> (b + 1) as int == b as int + 1
  {
  }

  function Uint32Bytes(v: uint32): (s: Bytes)
    ensures |s| == 4
  {
    [ByteOf(v % 0x100), ByteOf(v / 0x100 % 0x100), ByteOf(v / 0x1_0000 % 0x100), ByteOf(v / 0x100_0000)]
  }

  function ReadUint32(s: Bytes, at: nat): uint32
    requires at + 4 <= |s|
  {
    (s[at] as int) + 0x100 * (s[at + 1] as int) + 0x1_0000 * (s[at + 2] as int) + 0x100_0000 * (s[at + 3] as int)
  }

  /** n bytes read as a number, the lowest first. */
  function LittleEndian(s: Bytes, at: nat, n: nat): int
    requires at + n <= |s|
    decreases n
  {
    if n == 0 then 0 else s[at] as int + 0x100 * LittleEndian(s, at + 1, n - 1)
  }

  lemma ReadsLittleEndian(s: Bytes, at: nat)
    ensures at + 4 <= |s| ==> ReadUint32(s, at) == LittleEndian(s, at, 4)
    ensures at + 2 <= |s| ==> ReadShort(s, at) == LittleEndian(s, at, 2)
  {
    if at + 4 <= |s| {
      assert LittleEndian(s, at + 3, 1) == s[at + 3] as int;
      assert LittleEndian(s, at + 2, 2) == s[at + 2] as int + 0x100 * LittleEndian(s, at + 3, 1);
      assert LittleEndian(s, at + 1, 3) == s[at + 1] as int + 0x100 * LittleEndian(s, at + 2, 2);
    }
    if at + 2 <= |s| {
      assert LittleEndian(s, at + 1, 1) == s[at + 1] as int;
    }
  }

  function ToUnsigned(v: int32): uint32 {
    if v < 0 then v + 0x1_0000_0000 else v
  }

  function ToSigned(v: uint32): int32 {
    if v >= 0x8000_0000 then v - 0x1_0000_0000 else v
  }

  lemma Uint32RoundTrip(v: uint32, s: Bytes, at: nat)
    requires at + 4 <= |s| && s[at..at + 4] == Uint32Bytes(v)
    ensures ReadUint32(s, at) == v
  {
    var w := s[at..at + 4];
    assert s[at] == w[0] && s[at + 1] == w[1] && s[at + 2] == w[2] && s[at + 3] == w[3];
    Digits(v);
  }

  lemma Digits(v: uint32)
    ensures v == v % 0x100 + 0x100 * (v / 0x100 % 0x100) + 0x1_0000 * (v / 0x1_0000 % 0x100) + 0x100_0000 * (v / 0x100_0000)
  {
    var a, b, c := v / 0x100, v / 0x1_0000, v / 0x100_0000;
    assert v == v % 0x100 + 0x100 * a;
    assert a == a % 0x100 + 0x100 * b;
    assert b == b % 0x100 + 0x100 * c;
  }

  lemma SliceWithin(s: Bytes, lo: nat, hi: nat, a: nat, b: nat)
    requires lo <= hi <= |s| && a <= b <= hi - lo
    ensures s[lo..hi][a..b] == s[lo + a..lo + b]
  {
    var inner := s[lo..hi];
    forall k | 0 <= k < b - a ensures inner[a..b][k] == s[lo + a..lo + b][k] {
      assert inner[a..b][k] == inner[a + k];
      assert inner[a + k] == s[lo + (a + k)];
    }
  }

  function ShortBytes(v: uint16): (s: Bytes)
    ensures |s| == 2
  {
    [ByteOf(v % 0x100), ByteOf(v / 0x100)]
  }

  function ReadShort(s: Bytes, at: nat): uint16
    requires at + 2 <= |s|
  {
    (s[at] as int) + 0x100 * (s[at + 1] as int)
  }

  lemma ShortRoundTrip(v: uint16, s: Bytes, at: nat)
    requires at + 2 <= |s| && s[at..at + 2] == ShortBytes(v)
    ensures ReadShort(s, at) == v
  {
    var w := s[at..at + 2];
    assert s[at] == w[0] && s[at + 1] == w[1];
  }

  function TinyByte(v: int8): bv8 {
    ByteOf(if v < 0 then v + 0x100 else v)
  }

  function ReadTiny(b: bv8): int8 {
    if b as int >= 0x80 then b as int - 0x100 else b as int
  }

  lemma TinyRoundTrip(v: int8)
    ensures ReadTiny(TinyByte(v)) == v
  {
  }

  method WriteUint32(buf: array<bv8>, at: nat, v: uint32)
    requires at + 4 <= buf.Length
    modifies buf
    ensures forall k :: 0 <= k < buf.Length && !(at <= k < at + 4) ==> buf[k] == old(buf[k])
    ensures buf[at..at + 4] == Uint32Bytes(v)
  {
    buf[at] := ByteOf(v % 0x100);
    buf[at + 1] := ByteOf(v / 0x100 % 0x100);
    buf[at + 2] := ByteOf(v / 0x1_0000 % 0x100);
    buf[at + 3] := ByteOf(v / 0x100_0000);
  }

  method WriteShort(buf: array<bv8>, at: nat, v: uint16)
    requires at + 2 <= buf.Length
    modifies buf
    ensures forall k :: 0 <= k < buf.Length && !(at <= k < at + 2) ==> buf[k] == old(buf[k])
    ensures buf[at..at + 2] == ShortBytes(v)
  {
    buf[at] := ByteOf(v % 0x100);
    buf[at + 1] := ByteOf(v / 0x100);
  }

  method WriteUint16(buf: array<bv8>, at: nat, v: bv16)
    requires at + 2 <= buf.Length
    modifies buf
    ensures forall k :: 0 <= k < buf.Length && !(at <= k < at + 2) ==> buf[k] == old(buf[k])
    ensures buf[at..at + 2] == Uint16Bytes(v)
  {
    buf[at] := (v & 0xFF) as bv8;
    buf[at + 1] := (v >> 8) as bv8;
  }

  lemma ModuloSmall(x: nat, m: nat)
    requires x < m
    ensures x % m == x
  {
  }

  lemma WrapSmall(x: nat)
    requires x < TWO_TO_THE_32
    ensures Wrap(x) == x
  {
  }

  lemma ModuloSelf(m: nat)
    requires m > 0
    ensures m % m == 0
  {
  }

  lemma UnwrapIncrement(x: uint32)
    ensures Wrap(Wrap(x + 1) - 1) == x
  {
    if x + 1 < TWO_TO_THE_32 {
      ModuloSmall(x + 1, TWO_TO_THE_32);
      ModuloSmall(x, TWO_TO_THE_32);
    } else {
      assert Wrap(x + 1) == 0;
    }
  }

  /** Subtracting two wrapped readings is subtracting the readings, wrapped. */
  lemma WrapSub(a: int, b: int)
    ensures Wrap(Wrap(a) - Wrap(b)) == Wrap(a - b)
  {
    var q, r := a / TWO_TO_THE_32, b / TWO_TO_THE_32;
    assert a == q * TWO_TO_THE_32 + Wrap(a) && b == r * TWO_TO_THE_32 + Wrap(b);
    WrapShift(Wrap(a) - Wrap(b), q - r);
  }

  lemma {:induction false} WrapShift(x: int, k: int)
    ensures Wrap(x + k * TWO_TO_THE_32) == Wrap(x)
    decreases if k < 0 then -k else k
  {
    if k > 0 {
      WrapShift(x, k - 1);
      assert Wrap(x + (k - 1) * TWO_TO_THE_32 + TWO_TO_THE_32) == Wrap(x + (k - 1) * TWO_TO_THE_32);
    } else if k < 0 {
      WrapShift(x, k + 1);
      assert Wrap(x + (k + 1) * TWO_TO_THE_32 - TWO_TO_THE_32) == Wrap(x + (k + 1) * TWO_TO_THE_32);
    }
  }

  lemma QuotientBetween(x: nat, m: nat, low: nat, high: nat)
    requires m > 0 && low * m <= x <= high * m
    ensures low <= x / m <= high
  {
    var q := x / m;
    assert q * m <= x < (q + 1) * m;
    if q < low {
      MulMonotone(q + 1, low, m);
    }
    if q > high {
      MulMonotone(high + 1, q, m);
    }
  }

  lemma MulMonotone(a: nat, b: nat, m: nat)
    requires a <= b
    ensures a * m <= b * m
  {
  }
}
