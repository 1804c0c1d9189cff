/** What the operations of the persistent fix store do to flash and RAM
    (persistent_fix_store.cpp), as functions of the old state and of how each
    file write went.  A write that stops after k bytes leaves the same image as
    a power cut at that moment, so the images a power cut can leave behind are
    exactly the flash results over every write outcome. */
module FixStore {
  import opened Crc16
  import opened Wire
  import opened FixRecordCodec
  import opened FixQueue

  datatype MetaSlot = SlotA | SlotB

  function Other(s: MetaSlot): MetaSlot {
    if s == SlotA then SlotB else SlotA
  }

  type SlotImage = s: Bytes | |s| <= 64

  /** The three files.  The data file is kept by the byte offset of each slot;
      an offset it does not hold lies beyond the end of the file, and so does
      every byte of a missing meta file. */
  datatype Flash = Flash(data: map<nat, SlotImage>, a: Bytes, b: Bytes) {
    function Slot(offset: nat): SlotImage {
      if offset in data then data[offset] else []
    }

    function Meta(s: MetaSlot): Option<FixQueueMeta> {
      DecodeMeta(if s == SlotA then a else b)
    }

    /** The meta a reboot picks. */
    function Stored(): Option<FixQueueMeta> {
      FixQueueMetaPick(Meta(SlotA), Meta(SlotB))
    }

    /** The slot that did not win, by the rule begin() applies. */
    function Spare(): MetaSlot {
      var aOk, bOk := Meta(SlotA), Meta(SlotB);
      var winner :=
        if aOk.Some? && bOk.Some? then (if bOk.value.generation > aOk.value.generation then SlotB else SlotA)
        else if aOk.Some? then SlotA
        else SlotB;
      Other(winner)
    }
  }

  datatype Ram = Ram(meta: FixQueueMeta, nextSlot: MetaSlot, queueCapacity: uint32, ready: bool)

  /** How writing one file went: it could not be opened or positioned, or the
      first `bytes` bytes arrived. */
  datatype WriteOutcome = NotOpened | Wrote(bytes: nat)

  predicate Complete(io: WriteOutcome, wire: Bytes) {
    io.Wrote? && io.bytes >= |wire|
  }

  function Arrived(io: WriteOutcome, wire: Bytes): Bytes
    requires io.Wrote?
  {
    if io.bytes >= |wire| then wire else wire[..io.bytes]
  }

  /** A meta file is truncated when opened, then filled from the front. */
  function WriteMeta(f: Flash, s: MetaSlot, wire: Bytes, io: WriteOutcome): Flash {
    if io.NotOpened? then f
    else if s == SlotA then f.(a := Arrived(io, wire))
    else f.(b := Arrived(io, wire))
  }

  /** Bytes written over the front of what was there. */
  function Overlay(over: SlotImage, under: SlotImage): (s: SlotImage)
    ensures |s| <= 64
  {
    if |over| < |under| then over + under[|over|..] else over
  }

  /** A data slot is overwritten in place from the front. */
  function WriteSlot(f: Flash, offset: nat, wire: Bytes, io: WriteOutcome): Flash
    requires |wire| == FIX_RECORD_WIRE_SIZE
  {
    if io.NotOpened? then f else f.(data := f.data[offset := Overlay(Arrived(io, wire), f.Slot(offset))])
  }

  /** slot * FIX_RECORD_WIRE_SIZE in 32 bits. */
  function Offset(slot: uint32): nat {
    Wrap(slot * 64)
  }

  datatype CommitResult = CommitResult(ok: bool, flash: Flash, ram: Ram)

  function Commit(f: Flash, r: Ram, io: WriteOutcome): CommitResult {
    var m := r.meta.(generation := Wrap(r.meta.generation + 1));
    if !Structural(m) then CommitResult(false, f, r)
    else
      var wire := MetaImage(m);
      var f' := WriteMeta(f, r.nextSlot, wire, io);
      if Complete(io, wire) then CommitResult(true, f', r.(meta := m, nextSlot := Other(r.nextSlot)))
      else CommitResult(false, f', r)
  }

  function Reset(f: Flash, r: Ram, io: WriteOutcome): CommitResult {
    Commit(f, r.(meta := FixQueueMetaFresh(r.queueCapacity), nextSlot := SlotA), io)
  }

  datatype PushIo = PushIo(data: WriteOutcome, meta: WriteOutcome)
  datatype PushResult = PushResult(ok: bool, record: FixRecord, flash: Flash, ram: Ram)

  function Numbered(record: FixRecord, m: FixQueueMeta): FixRecord {
    if record.sequence_id == 0 then record.(sequence_id := m.next_seq) else record
  }

  /** The meta that publishes one more record under `id`. */
  function Published(m: FixQueueMeta, id: uint32): FixQueueMeta {
    var full := FixQueueIsFull(m);
    m.(tail := if full then FixQueueAdvance(m.tail, m.capacity) else m.tail,
       lost_count := if full then Wrap(m.lost_count + 1) else m.lost_count,
       count := if full then m.count else Wrap(m.count + 1),
       head := FixQueueAdvance(m.head, m.capacity),
       next_seq := if id >= m.next_seq then Wrap(id + 1) else m.next_seq)
  }

  /** What a failed commit undoes: everything but next_seq. */
  function RolledBack(m: FixQueueMeta, wasFull: bool): FixQueueMeta {
    m.(tail := if wasFull then StepBack(m.tail, m.capacity) else m.tail,
       lost_count := if wasFull then Wrap(m.lost_count - 1) else m.lost_count,
       count := if wasFull then m.count else Wrap(m.count - 1),
       head := StepBack(m.head, m.capacity))
  }

  function Push(f: Flash, r: Ram, record: FixRecord, io: PushIo): PushResult {
    if !r.ready then PushResult(false, record, f, r)
    else
      var rec := Numbered(record, r.meta);
      if !Terminated(rec.recorded_at) then PushResult(false, rec, f, r)
      else
        var wire := RecordImage(rec);
        var f1 := WriteSlot(f, Offset(r.meta.head), wire, io.data);
        if !Complete(io.data, wire) then PushResult(false, rec, f1, r)
        else
          var c := Commit(f1, r.(meta := Published(r.meta, rec.sequence_id)), io.meta);
          if c.ok then PushResult(true, rec, c.flash, c.ram)
          else PushResult(false, rec, c.flash, c.ram.(meta := RolledBack(c.ram.meta, FixQueueIsFull(r.meta))))
  }

  function AdvanceBy(index: uint32, n: nat, capacity: uint32): uint32 {
    if n == 0 then index else FixQueueAdvance(AdvanceBy(index, n - 1, capacity), capacity)
  }

  function StepBackBy(index: uint32, n: nat, capacity: uint32): uint32 {
    if n == 0 then index else StepBack(StepBackBy(index, n - 1, capacity), capacity)
  }

  datatype AckResult = AckResult(removed: nat, flash: Flash, ram: Ram)

  function AckFront(f: Flash, r: Ram, n: nat, io: WriteOutcome): AckResult {
    if !r.ready || n == 0 then AckResult(0, f, r)
    else
      var k := if n > r.meta.count then r.meta.count else n;
      var m := r.meta.(tail := AdvanceBy(r.meta.tail, k, r.meta.capacity), count := r.meta.count - k);
      var c := Commit(f, r.(meta := m), io);
      if c.ok then AckResult(k, c.flash, c.ram)
      else
        var back := c.ram.meta.(tail := StepBackBy(c.ram.meta.tail, k, c.ram.meta.capacity),
                                count := Wrap(c.ram.meta.count + k));
        AckResult(0, c.flash, c.ram.(meta := back))
  }

  /** Reading up to `limit` slots from idx: None when a full slot does not
      decode; the scan stops early after `readable` slots or at a short one. */
  function Scan(f: Flash, idx: uint32, capacity: uint32, limit: nat, readable: nat): Option<seq<FixRecord>>
    decreases limit
  {
    if limit == 0 || readable == 0 || |f.Slot(Offset(idx))| < FIX_RECORD_WIRE_SIZE then Some([])
    else
      match DecodeRecord(f.Slot(Offset(idx)))
      case None => None
      case Some(rec) =>
        match Scan(f, FixQueueAdvance(idx, capacity), capacity, limit - 1, readable - 1)
        case None => None
        case Some(rest) => Some([rec] + rest)
  }

  datatype PeekResult = PeekResult(records: seq<FixRecord>, flash: Flash, ram: Ram)

  function Peek(f: Flash, r: Ram, max: nat, readable: nat, resetIo: WriteOutcome): PeekResult {
    if !r.ready || max == 0 || r.meta.count == 0 then PeekResult([], f, r)
    else
      match Scan(f, r.meta.tail, r.meta.capacity, if r.meta.count < max then r.meta.count else max, readable)
      case Some(records) => PeekResult(records, f, r)
      case None =>
        var c := Reset(f, r, resetIo);
        PeekResult([], c.flash, c.ram)
  }

  /** The outcomes begin() depends on: mounting, the first commit or reset, the
      data file, whether the front slot can be read, and a second reset. */
  datatype BootIo = BootIo(mounted: bool, first: WriteOutcome, dataFile: bool, readable: nat, second: WriteOutcome)

  /** The meta begin() starts from: the stored one, or a fresh one that has to be
      committed first. */
  function Choose(f: Flash, r: Ram, io: WriteOutcome): CommitResult {
    if f.Stored().Some? && f.Stored().value.capacity == r.queueCapacity
    then CommitResult(true, f, r.(meta := f.Stored().value, nextSlot := f.Spare()))
    else Reset(f, r, io)
  }

  /** A front record that cannot be read drops the queue. */
  function Probe(f: Flash, r: Ram, readable: nat, io: WriteOutcome): CommitResult {
    if r.meta.count == 0 then CommitResult(true, f, r)
    else
      var p := Peek(f, r, 1, readable, io);
      if p.records == [] && p.ram.meta.count > 0 then Reset(p.flash, p.ram, io)
      else CommitResult(true, p.flash, p.ram)
  }

  function Begin(f: Flash, r: Ram, capacity: uint32, io: BootIo): CommitResult {
    if capacity == 0 then CommitResult(false, f, r.(ready := false))
    else
      var r0 := r.(ready := false, queueCapacity := capacity);
      if !io.mounted then CommitResult(false, f, r0)
      else
        var c := Choose(f, r0, io.first);
        if !c.ok || !io.dataFile then CommitResult(false, c.flash, c.ram)
        else Probe(c.flash, c.ram.(ready := true), io.readable, io.second)
  }
}
