/** Ring metadata: its 32-byte image, the choice between the two stored copies
    and the ring arithmetic (fix_queue.h, fix_queue.cpp). */
module FixQueue {
  import opened Crc16
  import opened Wire

  const FIX_QUEUE_META_WIRE_SIZE: nat := 32

  datatype FixQueueMeta = FixQueueMeta(
    generation: uint32,
    capacity: uint32,
    head: uint32,
    tail: uint32,
    count: uint32,
    next_seq: uint32,
    lost_count: uint32,
    crc: bv16)

  function FixQueueMetaFresh(capacity: uint32): FixQueueMeta {
    FixQueueMeta(0, capacity, 0, 0, 0, 1, 0, 0)
  }

  /** What encode demands.  Decode demands a next_seq other than 0 as well. */
  predicate Structural(m: FixQueueMeta) {
    m.capacity != 0 && m.head < m.capacity && m.tail < m.capacity && m.count <= m.capacity
  }

  function IndexPart(m: FixQueueMeta): (s: Bytes)
    ensures |s| == 16
  {
    Uint32Bytes(m.generation) + Uint32Bytes(m.capacity) + Uint32Bytes(m.head) + Uint32Bytes(m.tail)
  }

  function CounterPart(m: FixQueueMeta): (s: Bytes)
    ensures |s| == 12
  {
    Uint32Bytes(m.count) + Uint32Bytes(m.next_seq) + Uint32Bytes(m.lost_count)
  }

  function CoveredMeta(m: FixQueueMeta): (s: Bytes)
    ensures |s| == 28
  {
    IndexPart(m) + CounterPart(m)
  }

  function MetaImage(m: FixQueueMeta): (s: Bytes)
    ensures |s| == FIX_QUEUE_META_WIRE_SIZE
  {
    CoveredMeta(m) + Uint16Bytes(Crc(CoveredMeta(m))) + [0, 0]
  }

  function MetaFields(s: Bytes): FixQueueMeta
    requires |s| >= FIX_QUEUE_META_WIRE_SIZE
  {
    FixQueueMeta(ReadUint32(s, 0), ReadUint32(s, 4), ReadUint32(s, 8), ReadUint32(s, 12),
                 ReadUint32(s, 16), ReadUint32(s, 20), ReadUint32(s, 24), ReadUint16(s, 28))
  }

  function DecodeMeta(s: Bytes): Option<FixQueueMeta> {
    if |s| < FIX_QUEUE_META_WIRE_SIZE || ReadUint16(s, 28) != Crc(s[..28]) then None
    else
      var m := MetaFields(s);
      if Structural(m) && m.next_seq != 0 then Some(m) else None
  }

  /** The meta as decode returns it: the crc field holds the stored CRC. */
  function Sealed(m: FixQueueMeta): FixQueueMeta {
    m.(crc := Crc(CoveredMeta(m)))
  }

  method WriteIndices(buf: array<bv8>, meta: FixQueueMeta)
    requires buf.Length >= FIX_QUEUE_META_WIRE_SIZE
    modifies buf
    ensures buf[..16] == IndexPart(meta)
    ensures forall k :: 16 <= k < buf.Length ==> buf[k] == old(buf[k])
  {
    hide Uint32Bytes;
    WriteUint32(buf, 0, meta.generation);
    WriteUint32(buf, 4, meta.capacity);
    WriteUint32(buf, 8, meta.head);
    WriteUint32(buf, 12, meta.tail);
    assert buf[0..4] == Uint32Bytes(meta.generation);
    assert buf[4..8] == Uint32Bytes(meta.capacity);
    assert buf[8..12] == Uint32Bytes(meta.head);
    assert buf[12..16] == Uint32Bytes(meta.tail);
    assert buf[..16] == buf[0..4] + buf[4..8] + buf[8..12] + buf[12..16];
  }

  lemma ThreeWords(s: Bytes)
    requires |s| >= 28
    ensures s[16..28] == s[16..20] + s[20..24] + s[24..28]
  {
  }

  method WriteCounters(buf: array<bv8>, meta: FixQueueMeta)
    requires buf.Length >= FIX_QUEUE_META_WIRE_SIZE
    modifies buf
    ensures buf[..16] == old(buf[..16])
    ensures buf[16..28] == CounterPart(meta)
    ensures forall k :: 28 <= k < buf.Length ==> buf[k] == old(buf[k])
  {
    hide Uint32Bytes;
    WriteUint32(buf, 16, meta.count);
    WriteUint32(buf, 20, meta.next_seq);
    WriteUint32(buf, 24, meta.lost_count);
    assert buf[16..20] == Uint32Bytes(meta.count);
    assert buf[20..24] == Uint32Bytes(meta.next_seq);
    assert buf[24..28] == Uint32Bytes(meta.lost_count);
    ThreeWords(buf[..]);
    assert buf[16..28] == buf[..][16..28];
  }

  method FixQueueMetaEncode(meta: FixQueueMeta, buf: array?<bv8>, length: nat) returns (ok: bool)
    requires buf != null ==> length <= buf.Length
    modifies buf
    ensures ok <==> buf != null && length >= FIX_QUEUE_META_WIRE_SIZE && Structural(meta)
    ensures ok ==> buf[..32] == MetaImage(meta) && buf[32..] == old(buf[32..])
    ensures !ok && buf != null ==> buf[..] == old(buf[..])
  {
    hide Crc;
    hide IndexPart;
    hide CounterPart;
    hide Uint16Bytes;
    if buf == null || length < FIX_QUEUE_META_WIRE_SIZE || meta.capacity == 0
       || meta.head >= meta.capacity || meta.tail >= meta.capacity || meta.count > meta.capacity {
      return false;
    }
    forall k | 0 <= k < FIX_QUEUE_META_WIRE_SIZE {
      buf[k] := 0;
    }
    WriteIndices(buf, meta);
    WriteCounters(buf, meta);
    assert buf[..28] == buf[..16] + buf[16..28];
    var crc := Calculate(buf, 28);
    ghost var covered := buf[..28];
    WriteUint16(buf, 28, crc);
    assert buf[..28] == covered;
    assert buf[..32] == buf[..28] + buf[28..30] + [0, 0];
    return true;
  }

  method FixQueueMetaDecode(buf: array?<bv8>, length: nat) returns (meta: Option<FixQueueMeta>)
    requires buf != null ==> length <= buf.Length
    ensures meta == if buf == null then None else DecodeMeta(buf[..length])
  {
    hide Crc;
    hide ReadUint32;
    if buf == null || length < FIX_QUEUE_META_WIRE_SIZE {
      return None;
    }
    var wire := buf[..length];
    var crc := Calculate(buf, 28);
    assert wire[..28] == buf[..28];
    if ReadUint16(wire, 28) != crc {
      return None;
    }
    var m := MetaFields(wire);
    if m.capacity == 0 || m.head >= m.capacity || m.tail >= m.capacity || m.count > m.capacity {
      return None;
    }
    if m.next_seq == 0 {
      return None;
    }
    return Some(m);
  }

  /** The surviving copy: the higher generation, A on a tie. */
  function FixQueueMetaPick(a: Option<FixQueueMeta>, b: Option<FixQueueMeta>): Option<FixQueueMeta> {
    if a.Some? && b.Some? then
      if b.value.generation > a.value.generation then b else a
    else if a.Some? then a
    else b
  }

  predicate FixQueueIsFull(m: FixQueueMeta) {
    m.count >= m.capacity
  }

  function FixQueueAdvance(index: uint32, capacity: uint32): uint32 {
    if capacity == 0 then 0 else Wrap(index + 1) % capacity
  }

  /** The step back that a rollback takes. */
  function StepBack(index: uint32, capacity: uint32): uint32 {
    if index == 0 then Wrap(capacity - 1) else index - 1
  }

  lemma MetaFramed(m: FixQueueMeta)
    ensures MetaImage(m)[..28] == CoveredMeta(m)
    ensures Framed(MetaImage(m), 28) && ReadUint16(MetaImage(m), 28) == Crc(CoveredMeta(m))
  {
    hide Crc;
    hide Uint16Bytes;
    hide CoveredMeta;
    var s := MetaImage(m);
    assert s[..28] == CoveredMeta(m);
    assert s[28..30] == Uint16Bytes(Crc(CoveredMeta(m)));
    Uint16At(s, 28, Crc(CoveredMeta(m)));
  }

  lemma CoveredSlices(m: FixQueueMeta)
    ensures CoveredMeta(m)[0..4] == Uint32Bytes(m.generation)
    ensures CoveredMeta(m)[4..8] == Uint32Bytes(m.capacity)
    ensures CoveredMeta(m)[8..12] == Uint32Bytes(m.head)
    ensures CoveredMeta(m)[12..16] == Uint32Bytes(m.tail)
    ensures CoveredMeta(m)[16..20] == Uint32Bytes(m.count)
    ensures CoveredMeta(m)[20..24] == Uint32Bytes(m.next_seq)
    ensures CoveredMeta(m)[24..28] == Uint32Bytes(m.lost_count)
  {
    hide Uint32Bytes;
  }

  lemma ImageFields(m: FixQueueMeta)
    ensures MetaFields(MetaImage(m)) == Sealed(m)
  {
    hide Crc;
    hide ReadUint16;
    hide ReadUint32;
    hide Uint32Bytes;
    hide CoveredMeta;
    hide MetaImage;
    var s := MetaImage(m);
    MetaFramed(m);
    CoveredSlices(m);
    assert s[0..28] == s[..28];
    SliceWithin(s, 0, 28, 0, 4);
    SliceWithin(s, 0, 28, 4, 8);
    SliceWithin(s, 0, 28, 8, 12);
    SliceWithin(s, 0, 28, 12, 16);
    SliceWithin(s, 0, 28, 16, 20);
    SliceWithin(s, 0, 28, 20, 24);
    SliceWithin(s, 0, 28, 24, 28);
    Uint32RoundTrip(m.generation, s, 0);
    Uint32RoundTrip(m.capacity, s, 4);
    Uint32RoundTrip(m.head, s, 8);
    Uint32RoundTrip(m.tail, s, 12);
    Uint32RoundTrip(m.count, s, 16);
    Uint32RoundTrip(m.next_seq, s, 20);
    Uint32RoundTrip(m.lost_count, s, 24);
  }

  /** Where the image keeps what: the stored format, byte by byte. */
  lemma MetaLayout(m: FixQueueMeta)
    ensures var s := MetaImage(m);
      && LittleEndian(s, 0, 4) == m.generation && LittleEndian(s, 4, 4) == m.capacity
      && LittleEndian(s, 8, 4) == m.head && LittleEndian(s, 12, 4) == m.tail && LittleEndian(s, 16, 4) == m.count
      && LittleEndian(s, 20, 4) == m.next_seq && LittleEndian(s, 24, 4) == m.lost_count
      && s[28] == (Crc(s[..28]) & 0xFF) as bv8 && s[29] == (Crc(s[..28]) >> 8) as bv8 && s[30..] == [0, 0]
  {
    hide Crc;
    hide LittleEndian;
    hide ReadUint32;
    hide ReadUint16;
    hide CoveredMeta;
    var s := MetaImage(m);
    ImageFields(m);
    assert s[..28] == CoveredMeta(m);
    ReadsLittleEndian(s, 0);
    ReadsLittleEndian(s, 4);
    ReadsLittleEndian(s, 8);
    ReadsLittleEndian(s, 12);
    ReadsLittleEndian(s, 16);
    ReadsLittleEndian(s, 20);
    ReadsLittleEndian(s, 24);
  }

  /** Which bytes decode: the CRC fits, the indices lie in the ring, and the next
      id is not 0. */
  lemma DecodableIff(s: Bytes)
    ensures DecodeMeta(s).Some? <==>
      (|s| >= 32 && ReadUint16(s, 28) == Crc(s[..28]) &&
       var capacity := LittleEndian(s, 4, 4);
       LittleEndian(s, 8, 4) < capacity && LittleEndian(s, 12, 4) < capacity && LittleEndian(s, 16, 4) <= capacity
       && LittleEndian(s, 20, 4) != 0)
  {
    hide Crc;
    hide LittleEndian;
    hide ReadUint32;
    hide ReadUint16;
    if |s| >= 32 {
      ReadsLittleEndian(s, 4);
      ReadsLittleEndian(s, 8);
      ReadsLittleEndian(s, 12);
      ReadsLittleEndian(s, 16);
      ReadsLittleEndian(s, 20);
    }
  }

  /** An encodable meta survives the round trip exactly when next_seq is not 0:
      encode accepts next_seq == 0, decode does not. */
  lemma MetaRoundTrip(m: FixQueueMeta)
    requires Structural(m)
    ensures DecodeMeta(MetaImage(m)) == if m.next_seq != 0 then Some(Sealed(m)) else None
  {
    hide Crc;
    hide ReadUint16;
    hide CoveredMeta;
    hide MetaImage;
    hide MetaFields;
    MetaFramed(m);
    ImageFields(m);
  }

  /** A stored meta changed inside two adjacent bytes of its first 30 never
      decodes. */
  lemma MetaCorruptionDetected(m: FixQueueMeta, t: Bytes, i: nat)
    requires AgreeOutsidePair(MetaImage(m), t, i) && t != MetaImage(m) && i < 29
    ensures DecodeMeta(t) == None
  {
    hide Crc;
    hide ReadUint16;
    hide MetaImage;
    hide MetaFields;
    MetaFramed(m);
    if DecodeMeta(t).Some? {
      FramedNearby(MetaImage(m), t, 28, i);
      assert false;
    }
  }

  /** Bytes 30 and 31 are padding: no change of them alone is ever noticed. */
  lemma MetaPaddingUnchecked(s: Bytes, t: Bytes)
    requires |s| == |t| == FIX_QUEUE_META_WIRE_SIZE && s[..30] == t[..30]
    ensures DecodeMeta(s) == DecodeMeta(t)
  {
    hide Crc;
    hide ReadUint16;
    hide ReadUint32;
    hide Structural;
    assert forall k :: 0 <= k < 30 ==> s[k] == s[..30][k] == t[k];
    assert s[..28] == t[..28];
    SameMetaReads(s, t);
  }

  lemma SameMetaReads(s: Bytes, t: Bytes)
    requires |s| == |t| == FIX_QUEUE_META_WIRE_SIZE
    requires forall k :: 0 <= k < 30 ==> s[k] == t[k]
    ensures forall at :: 0 <= at <= 24 ==> ReadUint32(s, at) == ReadUint32(t, at)
    ensures ReadUint16(s, 28) == ReadUint16(t, 28)
  {
  }

  lemma TornMetaUnreadable(wire: Bytes, k: nat)
    requires k <= |wire| && k < FIX_QUEUE_META_WIRE_SIZE
    ensures DecodeMeta(wire[..k]) == None
  {
  }
}
