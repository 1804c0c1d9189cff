/** The 64-byte flash image of one fix (fix_record.h, fix_queue.cpp). */
module FixRecordCodec {
  import opened Crc16
  import opened Wire

  const FIX_RECORD_VERSION: bv8 := 1
  const FIX_TIMESTAMP_LENGTH: nat := 21
  const FIX_RECORD_WIRE_SIZE: nat := 64

  type Timestamp = s: Bytes | |s| == 21 witness seq(21, _ => 0)

  datatype FixRecord = FixRecord(
    sequence_id: uint32,
    boot_id: uint32,
    recorded_at: Timestamp,
    latitude_e6: int32,
    longitude_e6: int32,
    altitude_cm: int32,
    speed_mmps: int32,
    accuracy_cm: int32,
    satellites_used: uint16,
    battery_mv: uint16,
    signal_strength: int8,
    valid_fields: bv8)

  predicate Terminated(t: Timestamp) {
    t[20] == 0
  }

  // The covered bytes, in three parts: 0..30, 30..50 and 50..62.
  function HeadPart(r: FixRecord): (s: Bytes)
    ensures |s| == 30
  {
    [FIX_RECORD_VERSION] + Uint32Bytes(r.sequence_id) + Uint32Bytes(r.boot_id) + r.recorded_at
  }

  function MiddlePart(r: FixRecord): (s: Bytes)
    ensures |s| == 20
  {
    Uint32Bytes(ToUnsigned(r.latitude_e6)) + Uint32Bytes(ToUnsigned(r.longitude_e6))
    + Uint32Bytes(ToUnsigned(r.altitude_cm)) + Uint32Bytes(ToUnsigned(r.speed_mmps))
    + Uint32Bytes(ToUnsigned(r.accuracy_cm))
  }

  function TailPart(r: FixRecord): (s: Bytes)
    ensures |s| == 12
  {
    ShortBytes(r.satellites_used) + ShortBytes(r.battery_mv)
    + [TinyByte(r.signal_strength), r.valid_fields, 0, 0, 0, 0, 0, 0]
  }

  function Covered(r: FixRecord): (s: Bytes)
    ensures |s| == 62
  {
    HeadPart(r) + MiddlePart(r) + TailPart(r)
  }

  function RecordImage(r: FixRecord): (s: Bytes)
    ensures |s| == FIX_RECORD_WIRE_SIZE
  {
    Covered(r) + Uint16Bytes(Crc(Covered(r)))
  }

  function Fields(s: Bytes): FixRecord
    requires |s| >= FIX_RECORD_WIRE_SIZE
  {
    FixRecord(
      ReadUint32(s, 1), ReadUint32(s, 5), s[9..30],
      ToSigned(ReadUint32(s, 30)), ToSigned(ReadUint32(s, 34)), ToSigned(ReadUint32(s, 38)),
      ToSigned(ReadUint32(s, 42)), ToSigned(ReadUint32(s, 46)),
      ReadShort(s, 50), ReadShort(s, 52), ReadTiny(s[54]), s[55])
  }

  function DecodeRecord(s: Bytes): Option<FixRecord> {
    if |s| < FIX_RECORD_WIRE_SIZE || s[0] != FIX_RECORD_VERSION
       || ReadUint16(s, 62) != Crc(s[..62]) || !Terminated(s[9..30])
    then None else Some(Fields(s))
  }

  // Frame of the three writers: bytes outside [lo, hi) keep their values.
  twostate predicate OnlyWrote(buffer: array<bv8>, lo: nat, hi: nat)
    reads buffer
  {
    forall k :: 0 <= k < buffer.Length && !(lo <= k < hi) ==> buffer[k] == old(buffer[k])
  }

  method WriteHead(buffer: array<bv8>, record: FixRecord)
    requires buffer.Length >= FIX_RECORD_WIRE_SIZE
    modifies buffer
    ensures buffer[..30] == HeadPart(record)
    ensures OnlyWrote(buffer, 0, 30)
  {
    hide Uint32Bytes;
    buffer[0] := FIX_RECORD_VERSION;
    WriteUint32(buffer, 1, record.sequence_id);
    WriteUint32(buffer, 5, record.boot_id);
    forall k | 0 <= k < FIX_TIMESTAMP_LENGTH {
      buffer[9 + k] := record.recorded_at[k];
    }
    assert buffer[1..5] == Uint32Bytes(record.sequence_id);
    assert buffer[5..9] == Uint32Bytes(record.boot_id);
    assert buffer[9..30] == record.recorded_at;
    assert buffer[..30] == [buffer[0]] + buffer[1..5] + buffer[5..9] + buffer[9..30];
  }

  method WriteMiddle(buffer: array<bv8>, record: FixRecord)
    requires buffer.Length >= FIX_RECORD_WIRE_SIZE
    modifies buffer
    ensures buffer[30..50] == MiddlePart(record)
    ensures OnlyWrote(buffer, 30, 50)
  {
    hide Uint32Bytes;
    hide ToUnsigned;
    WriteUint32(buffer, 30, ToUnsigned(record.latitude_e6));
    WriteUint32(buffer, 34, ToUnsigned(record.longitude_e6));
    WriteUint32(buffer, 38, ToUnsigned(record.altitude_cm));
    WriteUint32(buffer, 42, ToUnsigned(record.speed_mmps));
    WriteUint32(buffer, 46, ToUnsigned(record.accuracy_cm));
    assert buffer[30..34] == Uint32Bytes(ToUnsigned(record.latitude_e6));
    assert buffer[34..38] == Uint32Bytes(ToUnsigned(record.longitude_e6));
    assert buffer[38..42] == Uint32Bytes(ToUnsigned(record.altitude_cm));
    assert buffer[42..46] == Uint32Bytes(ToUnsigned(record.speed_mmps));
    assert buffer[30..50] == buffer[30..34] + buffer[34..38] + buffer[38..42] + buffer[42..46] + buffer[46..50];
  }

  method WriteTail(buffer: array<bv8>, record: FixRecord)
    requires buffer.Length >= FIX_RECORD_WIRE_SIZE
    requires forall k :: 50 <= k < 62 ==> buffer[k] == 0
    modifies buffer
    ensures buffer[50..62] == TailPart(record)
    ensures OnlyWrote(buffer, 50, 62)
  {
    hide ShortBytes;
    hide TinyByte;
    WriteShort(buffer, 50, record.satellites_used);
    WriteShort(buffer, 52, record.battery_mv);
    buffer[54] := TinyByte(record.signal_strength);
    buffer[55] := record.valid_fields;
    assert buffer[50..52] == ShortBytes(record.satellites_used);
    assert buffer[52..54] == ShortBytes(record.battery_mv);
    assert buffer[50..62] == buffer[50..52] + buffer[52..54] + [buffer[54], buffer[55], 0, 0, 0, 0, 0, 0];
  }

  method FixRecordEncode(record: FixRecord, buffer: array?<bv8>, length: nat) returns (ok: bool)
    requires buffer != null ==> length <= buffer.Length
    modifies buffer
    ensures ok <==> buffer != null && length >= FIX_RECORD_WIRE_SIZE && Terminated(record.recorded_at)
    ensures ok ==> buffer[..64] == RecordImage(record) && buffer[64..] == old(buffer[64..])
    ensures !ok && buffer != null ==> buffer[..] == old(buffer[..])
  {
    hide Crc;
    hide HeadPart;
    hide MiddlePart;
    hide TailPart;
    if buffer == null || length < FIX_RECORD_WIRE_SIZE || record.recorded_at[FIX_TIMESTAMP_LENGTH - 1] != 0 {
      return false;
    }
    forall k | 0 <= k < FIX_RECORD_WIRE_SIZE {
      buffer[k] := 0;
    }
    WriteHead(buffer, record);
    WriteMiddle(buffer, record);
    WriteTail(buffer, record);
    assert buffer[..30] == HeadPart(record);
    assert buffer[30..50] == MiddlePart(record);
    assert buffer[..62] == buffer[..30] + buffer[30..50] + buffer[50..62];
    var crc := Calculate(buffer, FIX_RECORD_WIRE_SIZE - 2);
    ghost var covered := buffer[..62];
    WriteUint16(buffer, FIX_RECORD_WIRE_SIZE - 2, crc);
    assert buffer[..62] == covered;
    assert buffer[..62] == Covered(record);
    assert buffer[..64] == buffer[..62] + buffer[62..64];
    return true;
  }

  lemma FieldsPrefix(s: Bytes)
    requires |s| >= FIX_RECORD_WIRE_SIZE
    ensures DecodeRecord(s) == DecodeRecord(s[..64])
  {
    hide Crc;
    hide ReadTiny;
    hide ToSigned;
    hide ReadUint32;
    hide ReadShort;
    hide ReadUint16;
    var w := s[..64];
    assert w[..62] == s[..62];
    assert w[9..30] == s[9..30];
    SameReads(s, w);
  }

  lemma SameReads(s: Bytes, w: Bytes)
    requires |s| >= FIX_RECORD_WIRE_SIZE && w == s[..64]
    ensures forall at :: 0 <= at <= 60 ==> ReadUint32(w, at) == ReadUint32(s, at)
    ensures forall at :: 0 <= at <= 62 ==> ReadShort(w, at) == ReadShort(s, at)
    ensures ReadUint16(w, 62) == ReadUint16(s, 62)
  {
  }

  method FixRecordDecode(buffer: array?<bv8>, length: nat) returns (record: Option<FixRecord>)
    requires buffer != null ==> length <= buffer.Length
    ensures record == if buffer == null then None else DecodeRecord(buffer[..length])
  {
    hide Crc;
    hide Fields;
    if buffer == null || length < FIX_RECORD_WIRE_SIZE || buffer[0] != FIX_RECORD_VERSION {
      return None;
    }
    FieldsPrefix(buffer[..length]);
    assert buffer[..length][..64] == buffer[..64];
    var crc := Calculate(buffer, FIX_RECORD_WIRE_SIZE - 2);
    var wire := buffer[..FIX_RECORD_WIRE_SIZE];
    assert wire[..62] == buffer[..62];
    if ReadUint16(wire, FIX_RECORD_WIRE_SIZE - 2) != crc {
      return None;
    }
    if wire[9 + FIX_TIMESTAMP_LENGTH - 1] != 0 {
      return None;
    }
    return Some(Fields(wire));
  }

  lemma HeadFields(r: FixRecord, s: Bytes)
    requires |s| >= 62 && s[..30] == HeadPart(r)
    ensures s[0] == FIX_RECORD_VERSION && s[9..30] == r.recorded_at
    ensures ReadUint32(s, 1) == r.sequence_id && ReadUint32(s, 5) == r.boot_id
  {
    hide ReadUint32;
    hide Uint32Bytes;
    var h := s[..30];
    assert s[1..5] == h[1..5] == Uint32Bytes(r.sequence_id);
    assert s[5..9] == h[5..9] == Uint32Bytes(r.boot_id);
    assert s[9..30] == h[9..30];
    Uint32RoundTrip(r.sequence_id, s, 1);
    Uint32RoundTrip(r.boot_id, s, 5);
  }

  lemma MiddleSlices(r: FixRecord)
    ensures MiddlePart(r)[0..4] == Uint32Bytes(ToUnsigned(r.latitude_e6))
    ensures MiddlePart(r)[4..8] == Uint32Bytes(ToUnsigned(r.longitude_e6))
    ensures MiddlePart(r)[8..12] == Uint32Bytes(ToUnsigned(r.altitude_cm))
    ensures MiddlePart(r)[12..16] == Uint32Bytes(ToUnsigned(r.speed_mmps))
    ensures MiddlePart(r)[16..20] == Uint32Bytes(ToUnsigned(r.accuracy_cm))
  {
    hide Uint32Bytes;
    hide ToUnsigned;
  }

  lemma MiddleFields(r: FixRecord, s: Bytes)
    requires |s| >= 62 && s[30..50] == MiddlePart(r)
    ensures ToSigned(ReadUint32(s, 30)) == r.latitude_e6 && ToSigned(ReadUint32(s, 34)) == r.longitude_e6
    ensures ToSigned(ReadUint32(s, 38)) == r.altitude_cm && ToSigned(ReadUint32(s, 42)) == r.speed_mmps
    ensures ToSigned(ReadUint32(s, 46)) == r.accuracy_cm
  {
    hide ReadUint32;
    hide Uint32Bytes;
    hide MiddlePart;
    var m := s[30..50];
    MiddleSlices(r);
    SliceWithin(s, 30, 50, 0, 4);
    SliceWithin(s, 30, 50, 4, 8);
    SliceWithin(s, 30, 50, 8, 12);
    SliceWithin(s, 30, 50, 12, 16);
    SliceWithin(s, 30, 50, 16, 20);
    Uint32RoundTrip(ToUnsigned(r.latitude_e6), s, 30);
    Uint32RoundTrip(ToUnsigned(r.longitude_e6), s, 34);
    Uint32RoundTrip(ToUnsigned(r.altitude_cm), s, 38);
    Uint32RoundTrip(ToUnsigned(r.speed_mmps), s, 42);
    Uint32RoundTrip(ToUnsigned(r.accuracy_cm), s, 46);
  }

  lemma TailFields(r: FixRecord, s: Bytes)
    requires |s| >= 62 && s[50..62] == TailPart(r)
    ensures ReadShort(s, 50) == r.satellites_used && ReadShort(s, 52) == r.battery_mv
    ensures ReadTiny(s[54]) == r.signal_strength && s[55] == r.valid_fields
  {
    hide ReadShort;
    hide ShortBytes;
    var t := s[50..62];
    SliceWithin(s, 50, 62, 0, 2);
    SliceWithin(s, 50, 62, 2, 4);
    assert s[54] == t[4] && s[55] == t[5];
    ShortRoundTrip(r.satellites_used, s, 50);
    ShortRoundTrip(r.battery_mv, s, 52);
    TinyRoundTrip(r.signal_strength);
  }

  lemma RecordFramed(r: FixRecord)
    ensures RecordImage(r)[..62] == Covered(r) && Framed(RecordImage(r), 62)
  {
    hide Crc;
    hide Uint16Bytes;
    hide Covered;
    var s := RecordImage(r);
    assert s[..62] == Covered(r);
    assert s[62..64] == Uint16Bytes(Crc(Covered(r)));
    Uint16At(s, 62, Crc(Covered(r)));
  }

  /** Where the image keeps what, and how: the stored format, byte by byte. */
  lemma RecordLayout(r: FixRecord)
    ensures var s := RecordImage(r);
      && s[0] == 1 && LittleEndian(s, 1, 4) == r.sequence_id && LittleEndian(s, 5, 4) == r.boot_id
      && s[9..30] == r.recorded_at
      && LittleEndian(s, 30, 4) == r.latitude_e6 % 0x1_0000_0000 && LittleEndian(s, 34, 4) == r.longitude_e6 % 0x1_0000_0000
      && LittleEndian(s, 38, 4) == r.altitude_cm % 0x1_0000_0000 && LittleEndian(s, 42, 4) == r.speed_mmps % 0x1_0000_0000
      && LittleEndian(s, 46, 4) == r.accuracy_cm % 0x1_0000_0000
      && LittleEndian(s, 50, 2) == r.satellites_used && LittleEndian(s, 52, 2) == r.battery_mv
      && s[54] as int == r.signal_strength % 0x100 && s[55] == r.valid_fields && s[56..62] == [0, 0, 0, 0, 0, 0]
      && s[62] == (Crc(s[..62]) & 0xFF) as bv8 && s[63] == (Crc(s[..62]) >> 8) as bv8
  {
    hide Crc;
    hide LittleEndian;
    hide ReadUint32;
    hide ReadShort;
    hide ReadTiny;
    hide HeadPart;
    hide MiddlePart;
    hide TailPart;
    var s := RecordImage(r);
    assert s[..62] == Covered(r);
    assert s[..30] == HeadPart(r) && s[30..50] == MiddlePart(r) && s[50..62] == TailPart(r);
    HeadFields(r, s);
    MiddleNumbers(r, s);
    TailFields(r, s);
    TailBytes(r, s);
    ReadsLittleEndian(s, 1);
    ReadsLittleEndian(s, 5);
    ReadsLittleEndian(s, 50);
    ReadsLittleEndian(s, 52);
  }

  lemma MiddleNumbers(r: FixRecord, s: Bytes)
    requires |s| >= 62 && s[30..50] == MiddlePart(r)
    ensures LittleEndian(s, 30, 4) == r.latitude_e6 % 0x1_0000_0000 && LittleEndian(s, 34, 4) == r.longitude_e6 % 0x1_0000_0000
    ensures LittleEndian(s, 38, 4) == r.altitude_cm % 0x1_0000_0000 && LittleEndian(s, 42, 4) == r.speed_mmps % 0x1_0000_0000
    ensures LittleEndian(s, 46, 4) == r.accuracy_cm % 0x1_0000_0000
  {
    hide LittleEndian;
    hide ReadUint32;
    MiddleFields(r, s);
    TwosComplement(s, 30, r.latitude_e6);
    TwosComplement(s, 34, r.longitude_e6);
    TwosComplement(s, 38, r.altitude_cm);
    TwosComplement(s, 42, r.speed_mmps);
    TwosComplement(s, 46, r.accuracy_cm);
  }

  lemma TwosComplement(s: Bytes, at: nat, v: int32)
    requires at + 4 <= |s| && ToSigned(ReadUint32(s, at)) == v
    ensures LittleEndian(s, at, 4) == v % 0x1_0000_0000
  {
    hide LittleEndian;
    hide ReadUint32;
    ReadsLittleEndian(s, at);
  }

  lemma TailBytes(r: FixRecord, s: Bytes)
    requires |s| >= 62 && s[50..62] == TailPart(r)
    ensures s[54] as int == r.signal_strength % 0x100 && s[56..62] == [0, 0, 0, 0, 0, 0]
  {
    var t := s[50..62];
    assert s[54] == t[4];
    assert s[56..62] == t[6..12];
  }

  /** A record survives encoding and decoding exactly when its timestamp is
      NUL-terminated. */
  lemma RecordRoundTrip(r: FixRecord)
    ensures DecodeRecord(RecordImage(r)) == if Terminated(r.recorded_at) then Some(r) else None
  {
    hide Crc;
    hide ReadUint16;
    hide ReadUint32;
    hide ReadShort;
    hide ReadTiny;
    hide ToSigned;
    hide RecordImage;
    hide HeadPart;
    hide MiddlePart;
    hide TailPart;
    var s := RecordImage(r);
    RecordFramed(r);
    var c := s[..62];
    assert s[..30] == c[..30] == HeadPart(r);
    assert s[30..50] == c[30..50] == MiddlePart(r);
    assert s[50..62] == c[50..62] == TailPart(r);
    HeadFields(r, s);
    MiddleFields(r, s);
    TailFields(r, s);
  }

  /** Two different slots that differ only within two adjacent bytes do not both
      decode. */
  lemma NearbyUndecodable(s: Bytes, t: Bytes, i: nat)
    requires |s| == FIX_RECORD_WIRE_SIZE && AgreeOutsidePair(s, t, i) && t != s && DecodeRecord(s).Some?
    ensures DecodeRecord(t) == None
  {
    hide Crc;
    hide ReadUint16;
    hide Fields;
    if DecodeRecord(t).Some? {
      FramedNearby(s, t, 62, if i < 62 then i else 62);
      assert false;
    }
  }

  /** Every change of a stored record that stays within two adjacent bytes is
      noticed: the changed image does not decode. */
  lemma RecordCorruptionDetected(r: FixRecord, t: Bytes, i: nat)
    requires AgreeOutsidePair(RecordImage(r), t, i) && t != RecordImage(r)
    ensures DecodeRecord(t) == None
  {
    hide Crc;
    hide ReadUint16;
    hide RecordImage;
    RecordFramed(r);
    if DecodeRecord(t).Some? {
      FramedNearby(RecordImage(r), t, 62, if i < 62 then i else 62);
      assert false;
    }
  }
}
