/** The conversion between the device's floating-point payload and the scaled
    integers of a stored record (location_payload.h, location_payload.cpp), over
    the reals. */
module LocationPayload {
  import opened Wire
  import opened FixRecordCodec

  datatype LocationPayload = LocationPayload(
    recorded_at: Timestamp,
    latitude: real,
    longitude: real,
    altitude: real,
    speed_mps: real,
    accuracy_m: real,
    satellites_used: uint16,
    battery_voltage: real,
    signal_strength: int8,
    sequence_id: uint32)

  const FIX_FIELD_ALTITUDE: bv8 := 1
  const FIX_FIELD_SPEED: bv8 := 2
  const FIX_FIELD_ACCURACY: bv8 := 4
  const FIX_FIELD_SATELLITES: bv8 := 8
  const FIX_FIELD_BATTERY: bv8 := 16
  const FIX_FIELD_SIGNAL: bv8 := 32

  /** Nearest integer, halves away from zero. */
  function Llround(x: real): int {
    if x >= 0.0 then (x + 0.5).Floor else -((0.5 - x).Floor)
  }

  lemma LlroundNear(x: real)
    ensures -0.5 <= Llround(x) as real - x <= 0.5
  {
  }

  lemma LlroundInteger(n: int)
    ensures Llround(n as real) == n
  {
  }

  predicate FitsInt32(n: int) {
    -0x8000_0000 <= n < 0x8000_0000
  }

  /** The casts to int32 are defined: each scaled value is in range. */
  predicate Representable(p: LocationPayload) {
    FitsInt32(Llround(p.altitude * 100.0)) && FitsInt32(Llround(p.speed_mps * 1000.0)) && FitsInt32(Llround(p.accuracy_m * 100.0))
  }

  predicate InRange(p: LocationPayload) {
    Terminated(p.recorded_at) && -90.0 <= p.latitude <= 90.0 && -180.0 <= p.longitude <= 180.0
  }

  function BatteryMv(v: real): uint16 {
    if v > 0.0 && v * 1000.0 <= 65535.0 then Llround(v * 1000.0) else 0
  }

  function Flag(set_: bool, flag: bv8): bv8 {
    if set_ then flag else 0
  }

  predicate Has(fields: bv8, flag: bv8) {
    fields & flag != 0
  }

  function Flags(altitude: bool, speed: bool, accuracy: bool, satellites: bool, battery: bool, signal: bool): bv8 {
    Flag(altitude, FIX_FIELD_ALTITUDE) | Flag(speed, FIX_FIELD_SPEED) | Flag(accuracy, FIX_FIELD_ACCURACY)
    | Flag(satellites, FIX_FIELD_SATELLITES) | Flag(battery, FIX_FIELD_BATTERY) | Flag(signal, FIX_FIELD_SIGNAL)
  }

  function ValidFields(p: LocationPayload): bv8 {
    Flags(p.altitude != 0.0, p.speed_mps > 0.0, p.accuracy_m > 0.0, p.satellites_used > 0,
          BatteryMv(p.battery_voltage) > 0, 0 <= p.signal_strength <= 31)
  }

  function ToRecord(p: LocationPayload, sequenceId: uint32, bootId: uint32): FixRecord
    requires InRange(p) && Representable(p)
  {
    FixRecord(
      sequenceId, bootId, p.recorded_at,
      Llround(p.latitude * 1000000.0), Llround(p.longitude * 1000000.0),
      if p.altitude != 0.0 then Llround(p.altitude * 100.0) else 0,
      if p.speed_mps > 0.0 then Llround(p.speed_mps * 1000.0) else 0,
      if p.accuracy_m > 0.0 then Llround(p.accuracy_m * 100.0) else 0,
      p.satellites_used,
      BatteryMv(p.battery_voltage),
      if 0 <= p.signal_strength <= 31 then p.signal_strength else 0,
      ValidFields(p))
  }

  function FromRecord(r: FixRecord): LocationPayload {
    LocationPayload(
      r.recorded_at,
      r.latitude_e6 as real / 1000000.0,
      r.longitude_e6 as real / 1000000.0,
      if Has(r.valid_fields, FIX_FIELD_ALTITUDE) then r.altitude_cm as real / 100.0 else 0.0,
      if Has(r.valid_fields, FIX_FIELD_SPEED) then r.speed_mmps as real / 1000.0 else 0.0,
      if Has(r.valid_fields, FIX_FIELD_ACCURACY) then r.accuracy_cm as real / 100.0 else 0.0,
      if Has(r.valid_fields, FIX_FIELD_SATELLITES) then r.satellites_used else 0,
      if Has(r.valid_fields, FIX_FIELD_BATTERY) then r.battery_mv as real / 1000.0 else 0.0,
      if Has(r.valid_fields, FIX_FIELD_SIGNAL) then r.signal_strength else -1,
      r.sequence_id)
  }

  lemma CoordinatesFit(p: LocationPayload)
    requires Representable(p)
    ensures InRange(p) ==> FitsInt32(Llround(p.latitude * 1000000.0)) && FitsInt32(Llround(p.longitude * 1000000.0))
    ensures BatteryMv(p.battery_voltage) as int
         == if p.battery_voltage > 0.0 && p.battery_voltage * 1000.0 <= 65535.0 then Llround(p.battery_voltage * 1000.0) else 0
  {
  }

  /** Refuses an unterminated timestamp or coordinates outside WGS84. */
  method LocationPayloadToFixRecord(p: LocationPayload, sequenceId: uint32, bootId: uint32) returns (out: Option<FixRecord>)
    requires Representable(p)
    ensures out == if InRange(p) then Some(ToRecord(p, sequenceId, bootId)) else None
  {
    CoordinatesFit(p);
    hide Llround;
    if p.recorded_at[FIX_TIMESTAMP_LENGTH - 1] != 0 || p.latitude < -90.0 || p.latitude > 90.0
       || p.longitude < -180.0 || p.longitude > 180.0 {
      return None;
    }
    var r := FixRecord(sequenceId, bootId, p.recorded_at, 0, 0, 0, 0, 0, 0, 0, 0, 0);
    r := r.(latitude_e6 := Llround(p.latitude * 1000000.0));
    r := r.(longitude_e6 := Llround(p.longitude * 1000000.0));
    var valid: bv8 := 0;
    if p.altitude != 0.0 {
      r := r.(altitude_cm := Llround(p.altitude * 100.0));
      valid := valid | FIX_FIELD_ALTITUDE;
    }
    if p.speed_mps > 0.0 {
      r := r.(speed_mmps := Llround(p.speed_mps * 1000.0));
      valid := valid | FIX_FIELD_SPEED;
    }
    if p.accuracy_m > 0.0 {
      r := r.(accuracy_cm := Llround(p.accuracy_m * 100.0));
      valid := valid | FIX_FIELD_ACCURACY;
    }
    if p.satellites_used > 0 {
      r := r.(satellites_used := p.satellites_used);
      valid := valid | FIX_FIELD_SATELLITES;
    }
    if p.battery_voltage > 0.0 {
      var mv := p.battery_voltage * 1000.0;
      r := r.(battery_mv := if mv >= 0.0 && mv <= 65535.0 then Llround(mv) else 0);
      if r.battery_mv > 0 {
        valid := valid | FIX_FIELD_BATTERY;
      }
    }
    if 0 <= p.signal_strength <= 31 {
      r := r.(signal_strength := p.signal_strength);
      valid := valid | FIX_FIELD_SIGNAL;
    }
    r := r.(valid_fields := valid);
    return Some(r);
  }

  lemma FlagsReadBack(a: bool, b: bool, c: bool, d: bool, e: bool, f: bool)
    ensures var fields := Flags(a, b, c, d, e, f);
      && Has(fields, FIX_FIELD_ALTITUDE) == a && Has(fields, FIX_FIELD_SPEED) == b && Has(fields, FIX_FIELD_ACCURACY) == c
      && Has(fields, FIX_FIELD_SATELLITES) == d && Has(fields, FIX_FIELD_BATTERY) == e && Has(fields, FIX_FIELD_SIGNAL) == f
  {
  }

  /** The payload a stored record gives back, field by field: optional fields
      that count as unknown come back as unknown, the others rounded. */
  function Rounded(p: LocationPayload, sequenceId: uint32): LocationPayload {
    LocationPayload(
      p.recorded_at,
      Llround(p.latitude * 1000000.0) as real / 1000000.0,
      Llround(p.longitude * 1000000.0) as real / 1000000.0,
      Llround(p.altitude * 100.0) as real / 100.0,
      if p.speed_mps > 0.0 then Llround(p.speed_mps * 1000.0) as real / 1000.0 else 0.0,
      if p.accuracy_m > 0.0 then Llround(p.accuracy_m * 100.0) as real / 100.0 else 0.0,
      p.satellites_used,
      BatteryMv(p.battery_voltage) as real / 1000.0,
      if 0 <= p.signal_strength <= 31 then p.signal_strength else -1,
      sequenceId)
  }

  lemma StoredIsRounded(p: LocationPayload, sequenceId: uint32, bootId: uint32)
    requires InRange(p) && Representable(p)
    ensures FromRecord(ToRecord(p, sequenceId, bootId)) == Rounded(p, sequenceId)
  {
    hide Llround;
    hide BatteryMv;
    hide ValidFields;
    hide Has;
    hide Representable;
    LlroundInteger(0);
    FieldsReadBack(p);
    if p.altitude == 0.0 {
      assert Llround(p.altitude * 100.0) == 0;
    }
  }

  lemma FieldsReadBack(p: LocationPayload)
    ensures var fields := ValidFields(p);
      && Has(fields, FIX_FIELD_ALTITUDE) == (p.altitude != 0.0) && Has(fields, FIX_FIELD_SPEED) == (p.speed_mps > 0.0)
      && Has(fields, FIX_FIELD_ACCURACY) == (p.accuracy_m > 0.0) && Has(fields, FIX_FIELD_SATELLITES) == (p.satellites_used > 0)
      && Has(fields, FIX_FIELD_BATTERY) == (BatteryMv(p.battery_voltage) > 0)
      && Has(fields, FIX_FIELD_SIGNAL) == (0 <= p.signal_strength <= 31)
  {
    hide BatteryMv;
    hide Flags;
    hide Has;
    FlagsReadBack(p.altitude != 0.0, p.speed_mps > 0.0, p.accuracy_m > 0.0, p.satellites_used > 0,
                  BatteryMv(p.battery_voltage) > 0, 0 <= p.signal_strength <= 31);
  }

  lemma ScaleBack(n: int, x: real)
    requires x == n as real
    ensures Llround(x) == n
  {
    LlroundInteger(n);
  }

  /** Once stored and read back, a payload is a fixed point: storing it again
      changes nothing. */
  lemma PayloadIdempotent(p: LocationPayload, sequenceId: uint32, bootId: uint32)
    requires InRange(p) && Representable(p)
    ensures var once := FromRecord(ToRecord(p, sequenceId, bootId));
      && InRange(once) && Representable(once)
      && FromRecord(ToRecord(once, sequenceId, bootId)) == once
  {
    var once := Rounded(p, sequenceId);
    StoredIsRounded(p, sequenceId, bootId);
    RoundedInRange(p, sequenceId);
    StoredIsRounded(once, sequenceId, bootId);
    RoundedTwice(p, sequenceId);
  }

  lemma RoundedInRange(p: LocationPayload, sequenceId: uint32)
    requires InRange(p) && Representable(p)
    ensures InRange(Rounded(p, sequenceId)) && Representable(Rounded(p, sequenceId))
  {
    var once := Rounded(p, sequenceId);
    LlroundNear(p.latitude * 1000000.0);
    LlroundNear(p.longitude * 1000000.0);
    hide Llround;
    LlroundInteger(0);
    ScaleBack(Llround(p.altitude * 100.0), once.altitude * 100.0);
    ScaleBack(if p.speed_mps > 0.0 then Llround(p.speed_mps * 1000.0) else 0, once.speed_mps * 1000.0);
    ScaleBack(if p.accuracy_m > 0.0 then Llround(p.accuracy_m * 100.0) else 0, once.accuracy_m * 100.0);
  }

  lemma RoundedTwice(p: LocationPayload, sequenceId: uint32)
    requires InRange(p) && Representable(p)
    ensures Rounded(Rounded(p, sequenceId), sequenceId) == Rounded(p, sequenceId)
  {
    var once := Rounded(p, sequenceId);
    BatteryTwice(p.battery_voltage);
    hide Llround;
    hide BatteryMv;
    ScaleBack(Llround(p.latitude * 1000000.0), once.latitude * 1000000.0);
    ScaleBack(Llround(p.longitude * 1000000.0), once.longitude * 1000000.0);
    ScaleBack(Llround(p.altitude * 100.0), once.altitude * 100.0);
    ScaleBack(if p.speed_mps > 0.0 then Llround(p.speed_mps * 1000.0) else 0, once.speed_mps * 1000.0);
    ScaleBack(if p.accuracy_m > 0.0 then Llround(p.accuracy_m * 100.0) else 0, once.accuracy_m * 100.0);
    LlroundPositive(p.speed_mps * 1000.0);
    LlroundPositive(p.accuracy_m * 100.0);
  }

  lemma LlroundPositive(x: real)
    ensures x > 0.0 ==> Llround(x) >= 0
  {
  }

  lemma BatteryTwice(v: real)
    ensures BatteryMv(BatteryMv(v) as real / 1000.0) == BatteryMv(v)
  {
    var mv := BatteryMv(v);
    ScaleBack(mv, mv as real / 1000.0 * 1000.0);
  }

  predicate OffBy(x: real, y: real, tolerance: real) {
    -tolerance <= x - y <= tolerance
  }

  /** What is stored is off by at most half a unit of each scale; satellites and
      signal are exact. */
  lemma RoundingError(p: LocationPayload, sequenceId: uint32, bootId: uint32)
    requires InRange(p) && Representable(p)
    ensures var once := FromRecord(ToRecord(p, sequenceId, bootId));
      && OffBy(once.latitude, p.latitude, 0.0000005) && OffBy(once.longitude, p.longitude, 0.0000005)
      && OffBy(once.altitude, p.altitude, 0.005)
      && OffBy(once.speed_mps, if p.speed_mps > 0.0 then p.speed_mps else 0.0, 0.0005)
      && OffBy(once.accuracy_m, if p.accuracy_m > 0.0 then p.accuracy_m else 0.0, 0.005)
      && (0.0 <= p.battery_voltage <= 65.535 ==> OffBy(once.battery_voltage, p.battery_voltage, 0.0005))
      && once.satellites_used == p.satellites_used
      && once.signal_strength == (if 0 <= p.signal_strength <= 31 then p.signal_strength else -1)
      && once.sequence_id == sequenceId && once.recorded_at == p.recorded_at
  {
    StoredIsRounded(p, sequenceId, bootId);
    LlroundNear(p.latitude * 1000000.0);
    LlroundNear(p.longitude * 1000000.0);
    LlroundNear(p.altitude * 100.0);
    LlroundNear(p.speed_mps * 1000.0);
    LlroundNear(p.accuracy_m * 100.0);
    LlroundNear(p.battery_voltage * 1000.0);
    hide Llround;
    hide ToRecord;
    hide FromRecord;
  }

  /** The units of the stored record: degrees in millionths, metres in hundredths,
      speed and voltage in thousandths, each to the nearest; and one bit for each
      optional field that is known. */
  lemma StoredUnits(p: LocationPayload, sequenceId: uint32, bootId: uint32)
    requires InRange(p) && Representable(p)
    ensures var r := ToRecord(p, sequenceId, bootId);
      && r.sequence_id == sequenceId && r.boot_id == bootId && r.recorded_at == p.recorded_at
      && OffBy(r.latitude_e6 as real, p.latitude * 1000000.0, 0.5) && OffBy(r.longitude_e6 as real, p.longitude * 1000000.0, 0.5)
      && OffBy(r.altitude_cm as real, p.altitude * 100.0, 0.5)
      && (p.speed_mps > 0.0 ==> OffBy(r.speed_mmps as real, p.speed_mps * 1000.0, 0.5))
      && (p.accuracy_m > 0.0 ==> OffBy(r.accuracy_cm as real, p.accuracy_m * 100.0, 0.5))
      && (if 0.0 < p.battery_voltage <= 65.535 then OffBy(r.battery_mv as real, p.battery_voltage * 1000.0, 0.5) else r.battery_mv == 0)
      && (r.valid_fields & 1 != 0 <==> p.altitude != 0.0) && (r.valid_fields & 2 != 0 <==> p.speed_mps > 0.0)
      && (r.valid_fields & 4 != 0 <==> p.accuracy_m > 0.0) && (r.valid_fields & 8 != 0 <==> p.satellites_used > 0)
      && (r.valid_fields & 16 != 0 <==> r.battery_mv > 0) && (r.valid_fields & 32 != 0 <==> 0 <= p.signal_strength <= 31)
  {
    hide ValidFields;
    LlroundNear(p.latitude * 1000000.0);
    LlroundNear(p.longitude * 1000000.0);
    LlroundNear(p.altitude * 100.0);
    LlroundNear(p.speed_mps * 1000.0);
    LlroundNear(p.accuracy_m * 100.0);
    LlroundNear(p.battery_voltage * 1000.0);
    hide Llround;
    FieldsReadBack(p);
  }

  /** Halves are rounded away from zero. */
  lemma HalvesAway(n: nat)
    ensures Llround(n as real + 0.5) == n + 1 && Llround(-(n as real + 0.5)) == -(n + 1)
  {
  }
}
