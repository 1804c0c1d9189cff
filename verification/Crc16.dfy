/** CRC-16/MODBUS over byte strings (fix_queue.cpp), on real 16-bit vectors
    (MODBUS over Serial Line Specification V1.02, section 6.2.2).  `Crc` is the
    specification, `Calculate` the loop that computes it.  The point of the
    module is error detection: two byte strings of one length that differ only
    inside a window of two adjacent bytes never share a CRC. */
module Crc16 {

  type Bytes = seq<bv8>

  function BitStep(crc: bv16): bv16 {
    if crc & 1 == 1 then (crc >> 1) ^ 0xA001 else crc >> 1
  }

  function Steps(crc: bv16, n: nat): bv16 {
    if n == 0 then crc else BitStep(Steps(crc, n - 1))
  }

  function Absorb(crc: bv16, b: bv8): bv16 {
    Steps(crc ^ (b as bv16), 8)
  }

  function Crc(s: Bytes): bv16 {
    if s == [] then 0xFFFF else Absorb(Crc(s[..|s| - 1]), s[|s| - 1])
  }

  method Calculate(data: array<bv8>, length: nat) returns (crc: bv16)
    requires length <= data.Length
    ensures crc == Crc(data[..length])
  {
    crc := 0xFFFF;
    for i := 0 to length
      invariant crc == Crc(data[..i])
    {
      assert data[..i + 1][..i] == data[..i];
      crc := crc ^ (data[i] as bv16);
      ghost var mixed := crc;
      for bit := 0 to 8
        invariant crc == Steps(mixed, bit)
      {
        crc := BitStep(crc);
      }
    }
  }

  function EightSteps(crc: bv16): bv16 {
    BitStep(BitStep(BitStep(BitStep(BitStep(BitStep(BitStep(BitStep(crc))))))))
  }

  lemma StepTwice(crc: bv16, n: nat)
    ensures Steps(crc, n + 2) == BitStep(BitStep(Steps(crc, n)))
  {
  }

  lemma AbsorbSteps(crc: bv16, b: bv8)
    ensures Absorb(crc, b) == EightSteps(crc ^ (b as bv16))
  {
    hide BitStep;
    var x := crc ^ (b as bv16);
    StepTwice(x, 0);
    StepTwice(x, 2);
    StepTwice(x, 4);
    StepTwice(x, 6);
    assert Steps(x, 0) == x;
  }

  lemma Extends(s: Bytes, crc: bv16, b: bv8, d: bv16)
    requires Crc(s) == crc && EightSteps(crc ^ (b as bv16)) == d
    ensures Crc(s + [b]) == d
  {
    hide Absorb;
    hide EightSteps;
    AbsorbSteps(crc, b);
    assert (s + [b])[..|s|] == s;
  }

  /** The check value of CRC-16/MODBUS: of the nine digits in ASCII.  It fixes the
      polynomial, the initial value and the order of the bits. */
  lemma CheckValue()
    ensures Crc([0x31, 0x32, 0x33, 0x34, 0x35, 0x36, 0x37, 0x38, 0x39]) == 0x4B37
  {
    var s: Bytes := [];
    assert Crc(s) == 0xFFFF;
    hide Crc;
    Extends(s, 0xFFFF, 0x31, 0x947E);
    s := s + [0x31];
    Extends(s, 0x947E, 0x32, 0xF595);
    s := s + [0x32];
    Extends(s, 0xF595, 0x33, 0x7A75);
    s := s + [0x33];
    Extends(s, 0x7A75, 0x34, 0x30BA);
    s := s + [0x34];
    Extends(s, 0x30BA, 0x35, 0xA471);
    s := s + [0x35];
    Extends(s, 0xA471, 0x36, 0x32E4);
    s := s + [0x36];
    Extends(s, 0x32E4, 0x37, 0x9D73);
    s := s + [0x37];
    Extends(s, 0x9D73, 0x38, 0x37DD);
    s := s + [0x38];
    Extends(s, 0x37DD, 0x39, 0x4B37);
    s := s + [0x39];
    assert s == [0x31, 0x32, 0x33, 0x34, 0x35, 0x36, 0x37, 0x38, 0x39];
  }

  lemma BitStepInjective(c: bv16, d: bv16)
    requires BitStep(c) == BitStep(d)
    ensures c == d
  {
  }

  lemma {:induction false} StepsInjective(c: bv16, d: bv16, n: nat)
    requires Steps(c, n) == Steps(d, n)
    ensures c == d
  {
    if n > 0 {
      BitStepInjective(Steps(c, n - 1), Steps(d, n - 1));
      StepsInjective(c, d, n - 1);
    }
  }

  predicate XorOf(z: bv16, x: bv16, y: bv16) {
    z == x ^ y
  }

  lemma BitStepLinear(z: bv16, x: bv16, y: bv16)
    requires XorOf(z, x, y)
    ensures XorOf(BitStep(z), BitStep(x), BitStep(y))
  {
    if x & 1 == 1 {
      if y & 1 == 1 { } else { }
    } else {
      if y & 1 == 1 { } else { }
    }
  }

  lemma {:induction false} StepsLinear(z: bv16, x: bv16, y: bv16, n: nat)
    requires XorOf(z, x, y)
    ensures XorOf(Steps(z, n), Steps(x, n), Steps(y, n))
  {
    hide BitStep;
    hide XorOf;
    if n > 0 {
      StepsLinear(z, x, y, n - 1);
      BitStepLinear(Steps(z, n - 1), Steps(x, n - 1), Steps(y, n - 1));
    }
  }

  /** A low-byte difference always spreads into the high byte after eight steps. */
  lemma LowByteSpreads(d: bv16)
    requires 0 < d < 256
    ensures Steps(d, 8) >> 8 != 0
  {
    var d1 := BitStep(d);
    var d2 := BitStep(d1);
    var d3 := BitStep(d2);
    var d4 := BitStep(d3);
    var d5 := BitStep(d4);
    var d6 := BitStep(d5);
    var d7 := BitStep(d6);
    assert BitStep(d7) >> 8 != 0;
    assert d1 == Steps(d, 1);
    assert d2 == Steps(d, 2);
    assert d3 == Steps(d, 3);
    assert d4 == Steps(d, 4);
    assert d5 == Steps(d, 5);
    assert d6 == Steps(d, 6);
    assert d7 == Steps(d, 7);
  }

  /** For a fixed state the step is injective in the byte, for a fixed byte it
      is injective in the state. */
  lemma AbsorbInjective(c: bv16, d: bv16, b: bv8, e: bv8)
    requires c == d || b == e
    requires Absorb(c, b) == Absorb(d, e)
    ensures c == d && b == e
  {
    hide Steps;
    StepsInjective(c ^ (b as bv16), d ^ (e as bv16), 8);
    XorCancels(c, d, b, e);
  }

  lemma XorCancels(c: bv16, d: bv16, b: bv8, e: bv8)
    requires c == d || b == e
    requires c ^ (b as bv16) == d ^ (e as bv16)
    ensures c == d && b == e
  {
  }

  /** Two different bytes absorbed from one state give states whose high bytes
      differ, so no later single byte can repair the difference. */
  lemma AbsorbedDifference(c: bv16, b: bv8, e: bv8)
    requires b != e
    ensures (Absorb(c, b) ^ Absorb(c, e)) >> 8 != 0
  {
    hide Steps;
    var x, y := c ^ (b as bv16), c ^ (e as bv16);
    MixedDifference(c, b, e);
    StepsSpread(x ^ y, x, y);
  }

  lemma StepsSpread(d: bv16, x: bv16, y: bv16)
    requires XorOf(d, x, y) && 0 < d < 256
    ensures (Steps(x, 8) ^ Steps(y, 8)) >> 8 != 0
  {
    hide Steps;
    LowByteSpreads(d);
    StepsLinear(d, x, y, 8);
  }

  lemma MixedDifference(c: bv16, b: bv8, e: bv8)
    requires b != e
    ensures 0 < (c ^ (b as bv16)) ^ (c ^ (e as bv16)) < 256
  {
  }

  /** The two strings have one length and agree everywhere but at i and i + 1. */
  ghost predicate AgreeOutsidePair(s: Bytes, t: Bytes, i: nat) {
    |s| == |t| && forall k :: 0 <= k < |s| && k != i && k != i + 1 ==> s[k] == t[k]
  }

  lemma {:induction false} EqualCrcNearby(s: Bytes, t: Bytes, i: nat)
    requires AgreeOutsidePair(s, t, i) && Crc(s) == Crc(t)
    ensures s == t
  {
    hide Absorb;
    if |s| > 0 {
      var n := |s| - 1;
      assert s == s[..n] + [s[n]] && t == t[..n] + [t[n]];
      if n == i + 1 && s[i] != t[i] {
        assert s[..n][..i] == t[..n][..i] == s[..i];
        TwoAbsorbed(Crc(s[..i]), s[i], t[i], s[n], t[n]);
        assert false;
      } else if n == i + 1 || n == i {
        assert s[..n] == t[..n];
        AbsorbInjective(Crc(s[..n]), Crc(t[..n]), s[n], t[n]);
      } else {
        AbsorbInjective(Crc(s[..n]), Crc(t[..n]), s[n], t[n]);
        EqualCrcNearby(s[..n], t[..n], i);
      }
    }
  }

  lemma TwoAbsorbed(c: bv16, b: bv8, e: bv8, b': bv8, e': bv8)
    requires b != e
    ensures Absorb(Absorb(c, b), b') != Absorb(Absorb(c, e), e')
  {
    hide Steps;
    AbsorbedDifference(c, b, e);
    if Absorb(Absorb(c, b), b') == Absorb(Absorb(c, e), e') {
      StepsInjective(Absorb(c, b) ^ (b' as bv16), Absorb(c, e) ^ (e' as bv16), 8);
      HighBytesAgree(Absorb(c, b), Absorb(c, e), b', e');
      assert false;
    }
  }

  lemma HighBytesAgree(x: bv16, y: bv16, b: bv8, e: bv8)
    requires x ^ (b as bv16) == y ^ (e as bv16)
    ensures (x ^ y) >> 8 == 0
  {
  }

  /** The two bytes at `n`, low byte first, hold the CRC of the first n. */
  predicate Framed(s: Bytes, n: nat) {
    |s| >= n + 2 && ReadUint16(s, n) == Crc(s[..n])
  }

  function ReadUint16(s: Bytes, at: nat): bv16
    requires at + 2 <= |s|
  {
    (s[at] as bv16) | ((s[at + 1] as bv16) << 8)
  }

  function Uint16Bytes(v: bv16): Bytes {
    [(v & 0xFF) as bv8, (v >> 8) as bv8]
  }

  lemma Uint16RoundTrip(v: bv16)
    ensures ReadUint16(Uint16Bytes(v), 0) == v
  {
  }

  lemma Uint16At(s: Bytes, at: nat, v: bv16)
    requires at + 2 <= |s| && s[at..at + 2] == Uint16Bytes(v)
    ensures ReadUint16(s, at) == v
  {
    var w := s[at..at + 2];
    assert s[at] == w[0] && s[at + 1] == w[1];
    Uint16RoundTrip(v);
  }

  /** Burst detection: no change confined to two adjacent bytes, whether of the
      covered data, of the stored CRC, or one of each, leaves a framed string
      framed. */
  lemma FramedNearby(s: Bytes, t: Bytes, n: nat, i: nat)
    requires Framed(s, n) && Framed(t, n) && AgreeOutsidePair(s, t, i) && i < n + 1
    ensures s == t
  {
    hide Absorb;
    hide ReadUint16;
    var p, q := s[..n], t[..n];
    assert AgreeOutsidePair(p, q, i);
    if i + 1 < n {
      assert ReadUint16(s, n) == ReadUint16(t, n) by { SameStored(s, t, n); }
      EqualCrcNearby(p, q, i);
      assert forall k :: 0 <= k < n ==> s[k] == p[k] && t[k] == q[k];
    } else {
      if i + 1 == n && s[i] != t[i] {
        assert p[..i] == q[..i];
        AbsorbedDifference(Crc(p[..i]), s[i], t[i]);
        StoredHighByte(s, t, n);
        assert false;
      }
      assert p == q;
      SameRead(s, t, n);
      assert forall k :: 0 <= k < n ==> s[k] == p[k] && t[k] == q[k];
    }
  }

  lemma SameStored(s: Bytes, t: Bytes, n: nat)
    requires n + 2 <= |s| == |t| && s[n] == t[n] && s[n + 1] == t[n + 1]
    ensures ReadUint16(s, n) == ReadUint16(t, n)
  {
  }

  lemma SameRead(s: Bytes, t: Bytes, n: nat)
    requires n + 2 <= |s| == |t| && ReadUint16(s, n) == ReadUint16(t, n)
    ensures s[n] == t[n] && s[n + 1] == t[n + 1]
  {
    var a, b, c, d := s[n] as bv16, s[n + 1] as bv16, t[n] as bv16, t[n + 1] as bv16;
    assert (a | (b << 8)) & 0xFF == a && (c | (d << 8)) & 0xFF == c;
    assert (a | (b << 8)) >> 8 == b && (c | (d << 8)) >> 8 == d;
  }

  lemma StoredHighByte(s: Bytes, t: Bytes, n: nat)
    requires n + 2 <= |s| == |t| && s[n + 1] == t[n + 1]
    ensures (ReadUint16(s, n) ^ ReadUint16(t, n)) >> 8 == 0
  {
  }
}
