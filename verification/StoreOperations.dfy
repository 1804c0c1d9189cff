/** The ring on flash refines a bounded drop-oldest FIFO: push, ackFront, peek
    and begin in terms of the queue a reboot would find. */
module StoreOperations {
  import opened Crc16
  import opened Wire
  import opened FixRecordCodec
  import opened FixQueue
  import opened FixStore
  import opened StoreInvariant

  lemma OffsetInjective(s: uint32, t: uint32)
    requires s < MAX_CAPACITY && t < MAX_CAPACITY
    ensures Offset(s) == Offset(t) ==> s == t
  {
    ModuloSmall(s * 64, TWO_TO_THE_32);
    ModuloSmall(t * 64, TWO_TO_THE_32);
  }

  /** Writing the head slot of a ring that is not full touches no live slot,
      however much of the record arrives. */
  lemma HeadWriteInvisible(f: Flash, m: FixQueueMeta, wire: Bytes, io: WriteOutcome)
    requires |wire| == FIX_RECORD_WIRE_SIZE
    requires Ring(m) && m.capacity <= MAX_CAPACITY && m.count < m.capacity && Live(f, m)
    ensures var f1 := WriteSlot(f, Offset(m.head), wire, io);
      f1.a == f.a && f1.b == f.b && Live(f1, m) && Contents(f1, m) == Contents(f, m)
  {
    hide DecodeRecord;
    var f1 := WriteSlot(f, Offset(m.head), wire, io);
    forall i | 0 <= i < m.count
      ensures LiveSlot(f1, m, i) == LiveSlot(f, m, i)
    {
      OffsetInjective(At(m.tail, i, m.capacity), m.head);
    }
  }

  /** Once the record is in the head slot, the published meta shows it last,
      dropping the first record when the ring was full. */
  lemma PublishedContents(f: Flash, m: FixQueueMeta, rec: FixRecord, io: WriteOutcome, m': FixQueueMeta)
    requires Ring(m) && m.capacity <= MAX_CAPACITY && Live(f, m)
    requires Terminated(rec.recorded_at) && Complete(io, RecordImage(rec))
    requires m' == Published(m, rec.sequence_id).(generation := m'.generation, crc := m'.crc)
    ensures var f1 := WriteSlot(f, Offset(m.head), RecordImage(rec), io);
      && f1.a == f.a && f1.b == f.b
      && Ring(m') && Live(f1, m')
      && Contents(f1, m') == (if FixQueueIsFull(m) then Contents(f, m)[1..] else Contents(f, m)) + [rec]
      && (m'.lost_count == if FixQueueIsFull(m) then Wrap(m.lost_count + 1) else m.lost_count)
  {
    hide DecodeRecord;
    hide RecordImage;
    var f1 := WriteSlot(f, Offset(m.head), RecordImage(rec), io);
    RecordRoundTrip(rec);
    PublishedIndices(m, rec.sequence_id);
    PublishedSlots(f, f1, m, m');
    assert f1.Slot(Offset(m.head)) == RecordImage(rec);
  }

  lemma PublishedSlots(f: Flash, f1: Flash, m: FixQueueMeta, m': FixQueueMeta)
    requires Ring(m) && Ring(m') && m'.capacity == m.capacity <= MAX_CAPACITY && Live(f, m)
    requires if FixQueueIsFull(m) then m'.count == m.count && m'.tail == At(m.tail, 1, m.capacity)
             else m'.count == m.count + 1 && m'.tail == m.tail
    requires forall offset :: offset != Offset(m.head) ==> f1.Slot(offset) == f.Slot(offset)
    requires DecodeRecord(f1.Slot(Offset(m.head))).Some?
    ensures Live(f1, m')
    ensures Contents(f1, m') == (if FixQueueIsFull(m) then Contents(f, m)[1..] else Contents(f, m))
                                + [DecodeRecord(f1.Slot(Offset(m.head))).value]
  {
    hide DecodeRecord;
    var shift := if FixQueueIsFull(m) then 1 else 0;
    forall i | 0 <= i < m'.count
      ensures LiveSlot(f1, m', i) == if i + shift < m.count then LiveSlot(f, m, i + shift) else f1.Slot(Offset(m.head))
    {
      assert At(m'.tail, i, m'.capacity) == At(m.tail, i + shift, m.capacity);
      if i + shift < m.count {
        OffsetInjective(At(m.tail, i + shift, m.capacity), m.head);
      }
    }
  }

  lemma PublishedIndices(m: FixQueueMeta, id: uint32)
    requires Ring(m)
    ensures var m' := Published(m, id);
      && Ring(m') && m'.capacity == m.capacity && m'.generation == m.generation
      && (if FixQueueIsFull(m) then m'.count == m.count && m'.tail == At(m.tail, 1, m.capacity)
          else m'.count == m.count + 1 && m'.tail == m.tail)
  {
    hide FixQueueAdvance;
    AdvanceWithin(m.tail, m.capacity);
    AdvanceWithin(m.head, m.capacity);
    if m.count < m.capacity {
      ModuloSmall(m.count + 1, TWO_TO_THE_32);
    }
  }

  lemma RollbackRestores(m: FixQueueMeta, id: uint32)
    requires Ring(m)
    ensures RolledBack(Published(m, id), FixQueueIsFull(m)) == m.(next_seq := Published(m, id).next_seq)
  {
    hide FixQueueAdvance;
    StepBackUndoesAdvance(m.tail, m.capacity);
    StepBackUndoesAdvance(m.head, m.capacity);
    UnwrapIncrement(m.lost_count);
    if m.count < m.capacity {
      UnwrapIncrement(m.count);
    }
  }

  // ---- push ----

  /** The push outcomes that a full ring survives: the data write never began,
      or both writes completed.  A ring with room survives every outcome. */
  predicate Harmless(m: FixQueueMeta, io: PushIo) {
    !FixQueueIsFull(m) || io.data.NotOpened? || Landed(io)
  }

  predicate Landed(io: PushIo) {
    io.data.Wrote? && io.data.bytes >= FIX_RECORD_WIRE_SIZE && io.meta.Wrote? && io.meta.bytes >= FIX_QUEUE_META_WIRE_SIZE
  }

  /** A push whose writes complete shows the record last. */
  lemma PushLands(f: Flash, r: Ram, capacity: uint32, record: FixRecord, io: PushIo)
    requires InSync(f, r, capacity) && Landed(io) && Terminated(record.recorded_at)
    requires r.meta.generation < 0xFFFF_FFFF && Published(r.meta, Numbered(record, r.meta).sequence_id).next_seq != 0
    ensures var p := Push(f, r, record, io);
      && p.ok && p.record == Numbered(record, r.meta) && InSync(p.flash, p.ram, capacity)
      && Queue(p.flash) == (if FixQueueIsFull(r.meta) then Queue(f)[1..] else Queue(f)) + [p.record]
      && p.ram.meta == Published(r.meta, p.record.sequence_id).(generation := r.meta.generation + 1)
      && p.flash.Stored() == Some(Sealed(p.ram.meta))
  {
    hide DecodeMeta;
    hide RecordImage;
    hide DecodeRecord;
    hide MetaImage;
    hide CoveredMeta;
    hide FixQueueAdvance;
    hide Wrap;
    var rec := Numbered(record, r.meta);
    var f1 := WriteSlot(f, Offset(r.meta.head), RecordImage(rec), io.data);
    SameRing(f, r.meta, f.Stored().value);
    PublishedIndices(r.meta, rec.sequence_id);
    CommitInstalls(f1, r.(meta := Published(r.meta, rec.sequence_id)), io.meta);
    var p := Push(f, r, record, io);
    PublishedContents(f, r.meta, rec, io.data, Sealed(p.ram.meta));
    SameData(f1, p.flash, Sealed(p.ram.meta));
  }

  lemma PublishedSeqGrows(m: FixQueueMeta, id: uint32)
    requires Published(m, id).next_seq != 0
    ensures Published(m, id).next_seq >= m.next_seq
  {
    if id < 0xFFFF_FFFF {
      ModuloSmall(id + 1, TWO_TO_THE_32);
    }
  }

  /** A push into a ring with room whose writes do not both complete is
      invisible. */
  lemma PushMisses(f: Flash, r: Ram, capacity: uint32, record: FixRecord, io: PushIo)
    requires InSync(f, r, capacity) && !Landed(io) && io.data.Wrote? && Terminated(record.recorded_at)
    requires !FixQueueIsFull(r.meta) && Published(r.meta, Numbered(record, r.meta).sequence_id).next_seq != 0
    ensures var p := Push(f, r, record, io);
      && !p.ok && p.record == Numbered(record, r.meta) && InSync(p.flash, p.ram, capacity)
      && Queue(p.flash) == Queue(f) && p.flash.Stored() == f.Stored()
      && p.ram == r.(meta := r.meta.(next_seq := p.ram.meta.next_seq))
      && p.ram.meta.next_seq in {r.meta.next_seq, Published(r.meta, p.record.sequence_id).next_seq}
  {
    hide DecodeMeta;
    hide RecordImage;
    hide DecodeRecord;
    hide MetaImage;
    hide CoveredMeta;
    hide FixQueueAdvance;
    hide Wrap;
    var rec := Numbered(record, r.meta);
    var f1 := WriteSlot(f, Offset(r.meta.head), RecordImage(rec), io.data);
    SameRing(f, r.meta, f.Stored().value);
    HeadWriteInvisible(f, f.Stored().value, RecordImage(rec), io.data);
    assert InSync(f1, r, capacity);
    if io.data.bytes >= FIX_RECORD_WIRE_SIZE {
      PublishedIndices(r.meta, rec.sequence_id);
      PublishedSeqGrows(r.meta, rec.sequence_id);
      CommitTorn(f1, r.(meta := Published(r.meta, rec.sequence_id)), io.meta);
      RollbackRestores(r.meta, rec.sequence_id);
      SameData(f1, Push(f, r, record, io).flash, f.Stored().value);
    }
  }

  /** Whatever the writes do, the flash left by push holds the queue from before
      or the queue from after, and it is the one from after exactly when push
      returns true; so a power cut at any moment of push is one of the two.
      A push that returns false leaves RAM as it was but for next_seq. */
  lemma PushAtomic(f: Flash, r: Ram, capacity: uint32, record: FixRecord, io: PushIo)
    requires InSync(f, r, capacity) && Harmless(r.meta, io)
    requires r.meta.generation < 0xFFFF_FFFF && Published(r.meta, Numbered(record, r.meta).sequence_id).next_seq != 0
    ensures var p := Push(f, r, record, io);
      && InSync(p.flash, p.ram, capacity)
      && p.record == Numbered(record, r.meta)
      && (p.ok <==> Terminated(record.recorded_at) && Landed(io))
      && (p.ok ==>
            && Queue(p.flash) == (if FixQueueIsFull(r.meta) then Queue(f)[1..] else Queue(f)) + [p.record]
            && p.ram.meta == Published(r.meta, p.record.sequence_id).(generation := r.meta.generation + 1)
            && p.flash.Stored() == Some(Sealed(p.ram.meta)))
      && (!p.ok ==>
            && Queue(p.flash) == Queue(f) && p.flash.Stored() == f.Stored()
            && p.ram == r.(meta := r.meta.(next_seq := p.ram.meta.next_seq))
            && p.ram.meta.next_seq in {r.meta.next_seq, Published(r.meta, p.record.sequence_id).next_seq})
  {
    hide DecodeMeta;
    hide DecodeRecord;
    hide CoveredMeta;
    if Terminated(record.recorded_at) && io.data.Wrote? {
      hide Push;
      hide Published;
      if Landed(io) {
        PushLands(f, r, capacity, record, io);
      } else {
        PushMisses(f, r, capacity, record, io);
      }
    } else {
      PushRefused(f, r, record, io);
    }
  }

  lemma PushRefused(f: Flash, r: Ram, record: FixRecord, io: PushIo)
    requires r.ready && (!Terminated(record.recorded_at) || io.data.NotOpened?)
    ensures Push(f, r, record, io) == PushResult(false, Numbered(record, r.meta), f, r)
  {
    hide RecordImage;
    hide Commit;
  }

  lemma SameData(f: Flash, g: Flash, m: FixQueueMeta)
    requires f.data == g.data && Structural(m) && Live(f, m)
    ensures Live(g, m) && Contents(g, m) == Contents(f, m)
  {
    hide DecodeRecord;
    assert forall i :: 0 <= i < m.count ==> LiveSlot(g, m, i) == LiveSlot(f, m, i);
  }

  /** Contents read only the geometry of the meta. */
  lemma SameRing(f: Flash, m: FixQueueMeta, n: FixQueueMeta)
    requires Ring(n) && Live(f, n) && m == n.(crc := m.crc, next_seq := m.next_seq)
    ensures Ring(m) && Live(f, m) && Contents(f, m) == Contents(f, n)
  {
    hide DecodeRecord;
    assert forall i :: 0 <= i < m.count ==> LiveSlot(f, m, i) == LiveSlot(f, n, i);
  }

  /** What a reboot could tell apart: the queue and the loss counter. */
  function Visible(f: Flash): Option<(seq<FixRecord>, uint32)> {
    if f.Stored().Some? && Structural(f.Stored().value) && Live(f, f.Stored().value)
    then Some((Queue(f), f.Stored().value.lost_count))
    else None
  }

  /** What the front slot of a full ring holds after a data write. */
  function FrontAfter(f: Flash, r: Ram, record: FixRecord, io: WriteOutcome): Bytes
    requires io.Wrote?
  {
    Overlay(Arrived(io, RecordImage(Numbered(record, r.meta))), f.Slot(Offset(r.meta.head)))
  }

  /** Writing over the front slot of a full ring: the queue is readable exactly
      if that slot still decodes, and then it starts with what it decodes to. */
  lemma FrontReplaced(f: Flash, f1: Flash, m: FixQueueMeta)
    requires Ring(m) && m.count == m.capacity <= MAX_CAPACITY && Live(f, m)
    requires forall offset :: offset != Offset(m.tail) ==> f1.Slot(offset) == f.Slot(offset)
    ensures Live(f1, m) <==> DecodeRecord(f1.Slot(Offset(m.tail))).Some?
    ensures Live(f1, m) ==> Contents(f1, m) == [DecodeRecord(f1.Slot(Offset(m.tail))).value] + Contents(f, m)[1..]
  {
    hide DecodeRecord;
    forall i | 1 <= i < m.count
      ensures LiveSlot(f1, m, i) == LiveSlot(f, m, i)
    {
      OffsetInjective(At(m.tail, i, m.capacity), m.tail);
    }
    assert LiveSlot(f1, m, 0) == f1.Slot(Offset(m.tail));
  }

  /** On a full ring the data write goes over the oldest live record.  A push that
      does not complete after that, wherever it stops, leaves a reboot with what
      the front slot then decodes to in the place of the oldest, uncounted; and
      with no readable queue at all if it does not decode. */
  lemma FullRingOverwrite(f: Flash, r: Ram, capacity: uint32, record: FixRecord, io: PushIo)
    requires InSync(f, r, capacity) && FixQueueIsFull(r.meta) && Terminated(record.recorded_at)
    requires io.data.Wrote? && !Landed(io)
    ensures var p, front := Push(f, r, record, io), DecodeRecord(FrontAfter(f, r, record, io.data));
      && !p.ok && p.record == Numbered(record, r.meta)
      && p.flash.Stored() == f.Stored() && p.flash.Slot(Offset(r.meta.tail)) == FrontAfter(f, r, record, io.data)
      && Visible(p.flash)
         == if front == None then None else Some(([front.value] + Queue(f)[1..], f.Stored().value.lost_count))
    ensures io.data.bytes >= FIX_RECORD_WIRE_SIZE ==>
      DecodeRecord(FrontAfter(f, r, record, io.data)) == Some(Numbered(record, r.meta))
  {
    hide DecodeMeta;
    hide RecordImage;
    hide DecodeRecord;
    hide MetaImage;
    var rec := Numbered(record, r.meta);
    var f1 := WriteSlot(f, Offset(r.meta.head), RecordImage(rec), io.data);
    var stored := f.Stored().value;
    RecordRoundTrip(rec);
    FrontReplaced(f, f1, stored);
    if io.data.bytes >= FIX_RECORD_WIRE_SIZE {
      CommitTorn(f1, r.(meta := Published(r.meta, rec.sequence_id)), io.meta);
      if Live(f1, stored) {
        SameData(f1, Push(f, r, record, io).flash, stored);
      }
    }
  }

  /** The first byte at which two images of a slot differ. */
  function FirstDifference(s: Bytes, t: Bytes): (k: nat)
    requires |s| == |t| && s != t
    ensures k < |s| && s[k] != t[k] && s[..k] == t[..k]
  {
    if s[0] != t[0] then 0 else 1 + FirstDifference(s[1..], t[1..])
  }

  /** How many bytes of a push into a full ring leave its front undecodable: up
      to the first that differs from what was there. */
  function FatalCut(f: Flash, r: Ram, record: FixRecord): nat
    requires var wire, slot := RecordImage(Numbered(record, r.meta)), f.Slot(Offset(r.meta.head)); |slot| == |wire| && slot != wire
  {
    FirstDifference(RecordImage(Numbered(record, r.meta)), f.Slot(Offset(r.meta.head))) + 1
  }

  lemma TornFrontUndecodable(wire: Bytes, slot: SlotImage)
    requires |wire| == |slot| == FIX_RECORD_WIRE_SIZE && wire != slot && DecodeRecord(slot).Some?
    ensures var k := FirstDifference(wire, slot) + 1;
      DecodeRecord(Overlay(Arrived(Wrote(k), wire), slot)) == None
  {
    hide DecodeRecord;
    var d := FirstDifference(wire, slot);
    var torn := Overlay(Arrived(Wrote(d + 1), wire), slot);
    forall k | 0 <= k < |slot| && k != d
      ensures torn[k] == slot[k]
    {
      if k < d {
        assert wire[..d][k] == slot[..d][k];
      }
    }
    assert torn[d] == wire[d];
    NearbyUndecodable(slot, torn, d);
  }

  /** Every push of a new record into a full ring has a moment at which a power
      cut costs the whole queue: what a reboot finds does not decode. */
  lemma FullRingFatal(f: Flash, r: Ram, capacity: uint32, record: FixRecord)
    requires InSync(f, r, capacity) && FixQueueIsFull(r.meta) && Terminated(record.recorded_at)
    requires Numbered(record, r.meta) != Queue(f)[0]
    ensures var wire, slot := RecordImage(Numbered(record, r.meta)), f.Slot(Offset(r.meta.head)); |slot| == |wire| && slot != wire
    ensures var p := Push(f, r, record, PushIo(Wrote(FatalCut(f, r, record)), NotOpened));
      && !p.ok && Visible(p.flash) == None && p.flash.Stored() == f.Stored()
      && DecodeRecord(p.flash.Slot(Offset(r.meta.tail))) == None
  {
    hide DecodeMeta;
    hide RecordImage;
    hide DecodeRecord;
    hide Push;
    hide Visible;
    hide FirstDifference;
    var wire, slot := RecordImage(Numbered(record, r.meta)), f.Slot(Offset(r.meta.head));
    var stored := f.Stored().value;
    assert LiveSlot(f, stored, 0) == slot;
    DecodableIsWhole(slot);
    RecordRoundTrip(Numbered(record, r.meta));
    TornFrontUndecodable(wire, slot);
    FullRingOverwrite(f, r, capacity, record, PushIo(Wrote(FatalCut(f, r, record)), NotOpened));
  }

  /** This outcome of push shows neither the state before nor the state after. */
  predicate TearsPush(f: Flash, r: Ram, record: FixRecord, io: PushIo) {
    var seen := Visible(Push(f, r, record, io).flash);
    seen != Visible(f) && seen != Visible(Push(f, r, record, PushIo(Wrote(64), Wrote(32))).flash)
  }

  lemma RoomNeverTears(f: Flash, r: Ram, capacity: uint32, record: FixRecord, io: PushIo)
    requires InSync(f, r, capacity) && Terminated(record.recorded_at) && !FixQueueIsFull(r.meta)
    requires r.meta.generation < 0xFFFF_FFFF && Published(r.meta, Numbered(record, r.meta).sequence_id).next_seq != 0
    ensures !TearsPush(f, r, record, io)
  {
    hide Visible;
    hide Push;
    hide Numbered;
    hide Published;
    hide DecodeMeta;
    hide DecodeRecord;
    hide CoveredMeta;
    var all := PushIo(Wrote(64), Wrote(32));
    SoundVisible(f, capacity);
    PushAtomic(f, r, capacity, record, all);
    SoundVisible(Push(f, r, record, all).flash, capacity);
    PushAtomic(f, r, capacity, record, io);
    SoundVisible(Push(f, r, record, io).flash, capacity);
  }

  lemma FullLossCounted(f: Flash, r: Ram, capacity: uint32, record: FixRecord, io: PushIo)
    requires InSync(f, r, capacity) && Terminated(record.recorded_at) && FixQueueIsFull(r.meta) && Landed(io)
    requires r.meta.generation < 0xFFFF_FFFF && Published(r.meta, Numbered(record, r.meta).sequence_id).next_seq != 0
    ensures var after := Visible(Push(f, r, record, io).flash);
      after.Some? && after.value.1 == Wrap(r.meta.lost_count + 1) != r.meta.lost_count
  {
    hide Push;
    hide DecodeRecord;
    hide DecodeMeta;
    hide Visible;
    hide CoveredMeta;
    PushAtomic(f, r, capacity, record, io);
    SoundVisible(Push(f, r, record, io).flash, capacity);
    PublishedCounts(r.meta, Numbered(record, r.meta).sequence_id);
  }

  lemma FullTears(f: Flash, r: Ram, capacity: uint32, record: FixRecord)
    requires InSync(f, r, capacity) && Terminated(record.recorded_at) && FixQueueIsFull(r.meta)
    requires r.meta.generation < 0xFFFF_FFFF && Published(r.meta, Numbered(record, r.meta).sequence_id).next_seq != 0
    requires Numbered(record, r.meta) !in Queue(f)
    ensures TearsPush(f, r, record, PushIo(Wrote(64), NotOpened))
  {
    hide Visible;
    hide Push;
    hide Numbered;
    hide Published;
    hide DecodeRecord;
    hide DecodeMeta;
    hide Live;
    var all, io := PushIo(Wrote(64), Wrote(32)), PushIo(Wrote(64), NotOpened);
    var before, after, torn := Visible(f), Visible(Push(f, r, record, all).flash), Visible(Push(f, r, record, io).flash);
    assert before.Some? && before.value.0 == Queue(f) && before.value.1 == r.meta.lost_count by {
      SoundVisible(f, capacity);
    }
    assert after.Some? && after.value.1 != r.meta.lost_count by {
      FullLossCounted(f, r, capacity, record, all);
    }
    assert torn == Some(([Numbered(record, r.meta)] + Queue(f)[1..], r.meta.lost_count)) by {
      FullRingOverwrite(f, r, capacity, record, io);
    }
    assert torn.value.0[0] != Queue(f)[0];
  }

  /** Push of a new record is atomic under every write outcome exactly when the
      ring has room. */
  lemma PushAtomicIffRoom(f: Flash, r: Ram, capacity: uint32, record: FixRecord)
    requires InSync(f, r, capacity) && Terminated(record.recorded_at)
    requires r.meta.generation < 0xFFFF_FFFF && Published(r.meta, Numbered(record, r.meta).sequence_id).next_seq != 0
    requires Numbered(record, r.meta) !in Queue(f)
    ensures !FixQueueIsFull(r.meta) <==> forall io :: !TearsPush(f, r, record, io)
  {
    hide TearsPush;
    hide InSync;
    if FixQueueIsFull(r.meta) {
      FullTears(f, r, capacity, record);
    } else {
      forall io ensures !TearsPush(f, r, record, io) {
        RoomNeverTears(f, r, capacity, record, io);
      }
    }
  }

  lemma SoundVisible(f: Flash, capacity: uint32)
    requires Sound(f, capacity)
    ensures Visible(f) == Some((Queue(f), f.Stored().value.lost_count))
  {
  }

  lemma PublishedCounts(m: FixQueueMeta, id: uint32)
    requires FixQueueIsFull(m)
    ensures Published(m, id).lost_count == Wrap(m.lost_count + 1) != m.lost_count
  {
    if m.lost_count + 1 < TWO_TO_THE_32 {
      ModuloSmall(m.lost_count + 1, TWO_TO_THE_32);
    }
  }

  /** A push that returned true is published, for a reboot, exactly when its id
      leaves a non-zero next_seq: encode accepts the wrapped counter, decode does
      not.  Otherwise a reboot finds the queue from before, with the record in the
      place of the oldest if the ring was full. */
  lemma PushDurableIff(f: Flash, r: Ram, capacity: uint32, record: FixRecord, io: PushIo)
    requires InSync(f, r, capacity) && r.meta.generation < 0xFFFF_FFFF
    requires Terminated(record.recorded_at) && Landed(io)
    ensures var p, full := Push(f, r, record, io), FixQueueIsFull(r.meta);
      && p.ok
      && p.record == record.(sequence_id := if record.sequence_id == 0 then r.meta.next_seq else record.sequence_id)
      && Sound(p.flash, capacity)
      && (p.flash.Stored() == f.Stored() <==> p.record.sequence_id == 0xFFFF_FFFF)
      && Queue(p.flash)
         == if p.record.sequence_id != 0xFFFF_FFFF then (if full then Queue(f)[1..] else Queue(f)) + [p.record]
            else if full then [p.record] + Queue(f)[1..]
            else Queue(f)
  {
    hide DecodeMeta;
    hide DecodeRecord;
    var rec := Numbered(record, r.meta);
    if rec.sequence_id != 0xFFFF_FFFF {
      hide Push;
      ModuloSmall(rec.sequence_id + 1, TWO_TO_THE_32);
      PushLands(f, r, capacity, record, io);
    } else {
      PushUnpublished(f, r, capacity, record, io);
    }
  }

  lemma PushUnpublished(f: Flash, r: Ram, capacity: uint32, record: FixRecord, io: PushIo)
    requires InSync(f, r, capacity) && r.meta.generation < 0xFFFF_FFFF
    requires Terminated(record.recorded_at) && Landed(io) && Numbered(record, r.meta).sequence_id == 0xFFFF_FFFF
    ensures var p, full := Push(f, r, record, io), FixQueueIsFull(r.meta);
      && p.ok && p.record == Numbered(record, r.meta)
      && Sound(p.flash, capacity) && p.flash.Stored() == f.Stored()
      && Queue(p.flash) == if full then [p.record] + Queue(f)[1..] else Queue(f)
  {
    hide DecodeMeta;
    hide RecordImage;
    hide DecodeRecord;
    hide MetaImage;
    hide CoveredMeta;
    hide FixQueueAdvance;
    var rec := Numbered(record, r.meta);
    var f1, stored := WriteSlot(f, Offset(r.meta.head), RecordImage(rec), io.data), f.Stored().value;
    PublishedIndices(r.meta, rec.sequence_id);
    SameRing(f, r.meta, stored);
    ModuloSmall(r.meta.generation + 1, TWO_TO_THE_32);
    var p := Push(f, r, record, io);
    MetaRoundTrip(p.ram.meta);
    if FixQueueIsFull(r.meta) {
      RecordRoundTrip(rec);
      FrontReplaced(f, f1, stored);
    } else {
      HeadWriteInvisible(f, stored, RecordImage(rec), io.data);
    }
    SameData(f1, p.flash, stored);
  }

  // ---- ackFront ----

  /** ackFront drops min(n, count) records from the front when its commit
      completes and is invisible, in RAM and on flash, when it does not. */
  lemma AckAtomic(f: Flash, r: Ram, capacity: uint32, n: nat, io: WriteOutcome)
    requires InSync(f, r, capacity) && r.meta.generation < 0xFFFF_FFFF
    ensures var k := if n > |Queue(f)| then |Queue(f)| else n;
      var a := AckFront(f, r, n, io);
      var done := n > 0 && io.Wrote? && io.bytes >= FIX_QUEUE_META_WIRE_SIZE;
      && InSync(a.flash, a.ram, capacity)
      && a.removed == (if done then k else 0)
      && Queue(a.flash) == Queue(f)[a.removed..]
      && a.ram.meta.next_seq == r.meta.next_seq && a.ram.meta.lost_count == r.meta.lost_count
      && (done ==> a.flash.Stored() == Some(Sealed(a.ram.meta)) && a.ram.meta.generation == r.meta.generation + 1)
      && (!done ==> a.flash.Stored() == f.Stored() && a.ram == r)
  {
    if n > 0 {
      if io.Wrote? && io.bytes >= FIX_QUEUE_META_WIRE_SIZE {
        AckDone(f, r, capacity, n, io);
      } else {
        AckUndone(f, r, capacity, n, io);
      }
    }
  }

  lemma AckDone(f: Flash, r: Ram, capacity: uint32, n: nat, io: WriteOutcome)
    requires InSync(f, r, capacity) && r.meta.generation < 0xFFFF_FFFF
    requires n > 0 && io.Wrote? && io.bytes >= FIX_QUEUE_META_WIRE_SIZE
    ensures var k := if n > |Queue(f)| then |Queue(f)| else n;
      var a := AckFront(f, r, n, io);
      && InSync(a.flash, a.ram, capacity)
      && a.removed == k
      && Queue(a.flash) == Queue(f)[k..]
      && a.ram.meta == r.meta.(tail := a.ram.meta.tail, count := r.meta.count - k, generation := r.meta.generation + 1)
      && a.flash.Stored() == Some(Sealed(a.ram.meta))
  {
    hide DecodeMeta;
    hide DecodeRecord;
    hide MetaImage;
    hide CoveredMeta;
    hide AdvanceBy;
    var k := if n > r.meta.count then r.meta.count else n;
    var stored := f.Stored().value;
    AdvanceByAt(r.meta.tail, k, capacity);
    StoredNonZero(f);
    var m := r.meta.(tail := AdvanceBy(r.meta.tail, k, capacity), count := r.meta.count - k);
    CommitInstalls(f, r.(meta := m), io);
    var a := AckFront(f, r, n, io);
    DroppedContents(f, a.flash, stored, Sealed(a.ram.meta), k);
  }

  lemma StoredNonZero(f: Flash)
    ensures f.Stored().Some? ==> f.Stored().value.next_seq != 0
  {
  }

  lemma DroppedContents(f: Flash, g: Flash, m: FixQueueMeta, m': FixQueueMeta, k: nat)
    requires f.data == g.data && Ring(m) && Live(f, m) && k <= m.count
    requires m'.capacity == m.capacity && m'.head == m.head && m'.count == m.count - k && m'.tail == At(m.tail, k, m.capacity)
    requires m'.tail < m'.capacity
    ensures Ring(m') && Live(g, m') && Contents(g, m') == Contents(f, m)[k..]
  {
    hide DecodeRecord;
    assert forall i :: 0 <= i < m'.count ==> LiveSlot(g, m', i) == LiveSlot(f, m, i + k);
  }

  lemma AckUndone(f: Flash, r: Ram, capacity: uint32, n: nat, io: WriteOutcome)
    requires InSync(f, r, capacity) && n > 0
    requires io.Wrote? ==> io.bytes < FIX_QUEUE_META_WIRE_SIZE
    ensures var a := AckFront(f, r, n, io);
      && InSync(a.flash, a.ram, capacity)
      && a.removed == 0 && a.ram == r && a.flash.Stored() == f.Stored() && Queue(a.flash) == Queue(f)
  {
    hide DecodeMeta;
    hide DecodeRecord;
    hide MetaImage;
    hide AdvanceBy;
    hide StepBackBy;
    var k := if n > r.meta.count then r.meta.count else n;
    AdvanceByAt(r.meta.tail, k, capacity);
    StepBackByAt(r.meta.tail, k, k, capacity);
    ModuloSmall(r.meta.count, TWO_TO_THE_32);
    CommitTorn(f, r.(meta := r.meta.(tail := AdvanceBy(r.meta.tail, k, capacity), count := r.meta.count - k)), io);
    SameData(f, AckFront(f, r, n, io).flash, f.Stored().value);
  }

  // ---- peek and begin ----

  lemma {:induction false} ScanLive(f: Flash, m: FixQueueMeta, i: nat, limit: nat, readable: nat)
    requires Ring(m) && Live(f, m) && i + limit <= m.count
    ensures Scan(f, At(m.tail, i, m.capacity), m.capacity, limit, readable)
         == Some(Contents(f, m)[i..][..if limit < readable then limit else readable])
    decreases limit
  {
    hide DecodeRecord;
    hide FixQueueAdvance;
    if limit > 0 && readable > 0 {
      DecodableIsWhole(LiveSlot(f, m, i));
      AdvanceAt(m.tail, i, m.capacity);
      ScanLive(f, m, i + 1, limit - 1, readable - 1);
      var n := if limit < readable then limit else readable;
      assert Contents(f, m)[i..][..n] == [Contents(f, m)[i]] + Contents(f, m)[i + 1..][..n - 1];
    }
  }

  lemma DecodableIsWhole(s: Bytes)
    ensures DecodeRecord(s).Some? ==> |s| >= FIX_RECORD_WIRE_SIZE
  {
  }

  /** peek returns the first records of the queue, as many as were asked for,
      are there and could be read, and changes nothing. */
  lemma PeekPrefix(f: Flash, r: Ram, capacity: uint32, max: nat, readable: nat, resetIo: WriteOutcome)
    requires InSync(f, r, capacity)
    ensures var n := if max < |Queue(f)| then max else |Queue(f)|;
      Peek(f, r, max, readable, resetIo) == PeekResult(Queue(f)[..if n < readable then n else readable], f, r)
  {
    hide DecodeMeta;
    hide DecodeRecord;
    var stored := f.Stored().value;
    SameRing(f, r.meta, stored);
    if max > 0 && r.meta.count > 0 {
      ScanLive(f, r.meta, 0, if r.meta.count < max then r.meta.count else max, readable);
      assert Contents(f, r.meta)[0..] == Contents(f, r.meta);
    }
  }

  /** A reboot on sound flash finds the stored queue, leaves flash alone and
      names the losing slot for the next commit. */
  lemma BeginRecovers(f: Flash, r: Ram, capacity: uint32, io: BootIo)
    requires Sound(f, capacity) && io.mounted && io.dataFile && io.readable > 0
    ensures var b := Begin(f, r, capacity, io);
      b.ok && b.flash == f && InSync(f, b.ram, capacity) && b.ram.meta == f.Stored().value
  {
    hide DecodeMeta;
    hide DecodeRecord;
    var r1 := Ram(f.Stored().value, f.Spare(), capacity, true);
    if r1.meta.count > 0 {
      PeekPrefix(f, r1, capacity, 1, io.readable, io.second);
    }
  }

  /** A non-empty queue survives begin() exactly when its front slot can be read
      and decodes.  Otherwise, even if the data is intact, the store is reset and
      the fixes that were waiting are not counted as lost; and the reboot after
      that finds the reset only if slot B holds nothing newer. */
  lemma BeginKeepsIff(f: Flash, r: Ram, capacity: uint32, io: BootIo)
    requires f.Stored().Some? && f.Stored().value.capacity == capacity && f.Stored().value.count > 0
    requires io.mounted && io.dataFile && io.second.Wrote? && io.second.bytes >= FIX_QUEUE_META_WIRE_SIZE
    ensures var b, stored := Begin(f, r, capacity, io), f.Stored().value;
      var kept := io.readable > 0 && DecodeRecord(f.Slot(Offset(stored.tail))).Some?;
      && b.ok && b.ram.queueCapacity == capacity && b.ram.ready
      && (b.ram.meta == stored <==> kept)
      && (kept ==> b.flash == f)
      && (!kept ==>
            && b == ResetDone(f, capacity)
            && b.flash.Stored()
               == if f.Meta(SlotB) == None || f.Meta(SlotB).value.generation <= 1 then Some(Sealed(b.ram.meta)) else f.Meta(SlotB))
  {
    hide DecodeMeta;
    hide DecodeRecord;
    hide Reset;
    hide MetaImage;
    hide CoveredMeta;
    hide FixQueueAdvance;
    var r1 := Ram(f.Stored().value, f.Spare(), capacity, true);
    DecodableIsWhole(f.Slot(Offset(r1.meta.tail)));
    StoredHasRoom(f);
    ResetRecoveredIff(f, r1, io.second);
    ResetForgets(f, r1, capacity, io.second);
  }

  lemma StoredHasRoom(f: Flash)
    ensures f.Stored().Some? ==> Structural(f.Stored().value)
  {
  }

  /** What a completed reset leaves, whatever RAM held. */
  function ResetDone(f: Flash, capacity: uint32): CommitResult
    requires capacity > 0
  {
    var m := FixQueueMetaFresh(capacity).(generation := 1);
    CommitResult(true, f.(a := MetaImage(m)), Ram(m, SlotB, capacity, true))
  }

  lemma ResetForgets(f: Flash, r: Ram, capacity: uint32, io: WriteOutcome)
    requires r.queueCapacity == capacity > 0 && r.ready && io.Wrote? && io.bytes >= FIX_QUEUE_META_WIRE_SIZE
    ensures Reset(f, r, io) == ResetDone(f, capacity)
  {
    hide MetaImage;
    ModuloSmall(1, TWO_TO_THE_32);
  }

  /** A running store does the same when peek meets a front slot that does not
      decode. */
  lemma PeekResets(f: Flash, r: Ram, capacity: uint32, max: nat, readable: nat, io: WriteOutcome)
    requires r.ready && r.queueCapacity == capacity > 0 && r.meta.count > 0 && max > 0 && readable > 0
    requires |f.Slot(Offset(r.meta.tail))| == FIX_RECORD_WIRE_SIZE && DecodeRecord(f.Slot(Offset(r.meta.tail))) == None
    requires io.Wrote? && io.bytes >= FIX_QUEUE_META_WIRE_SIZE
    ensures Peek(f, r, max, readable, io) == PeekResult([], ResetDone(f, capacity).flash, ResetDone(f, capacity).ram)
  {
    hide DecodeRecord;
    hide Reset;
    ResetForgets(f, r, capacity, io);
  }

  /** The first push after a reset reuses id 1: it starts a new, one-element queue
      that every later reboot finds. */
  lemma PushAfterReset(f: Flash, capacity: uint32, record: FixRecord, io: PushIo)
    requires 0 < capacity <= MAX_CAPACITY && record.sequence_id == 0 && Terminated(record.recorded_at) && Landed(io)
    ensures var c := ResetDone(f, capacity);
      var p := Push(c.flash, c.ram, record, io);
      && p.ok && p.record == record.(sequence_id := 1)
      && InSync(p.flash, p.ram, capacity) && Queue(p.flash) == [p.record]
      && p.ram.meta.next_seq == 2 && p.ram.meta.generation == 2 && p.ram.meta.lost_count == 0
      && p.flash.Stored() == Some(Sealed(p.ram.meta))
  {
    hide DecodeMeta;
    hide RecordImage;
    hide DecodeRecord;
    hide MetaImage;
    hide CoveredMeta;
    hide FixQueueAdvance;
    var c := ResetDone(f, capacity);
    var rec := record.(sequence_id := 1);
    ModuloSmall(1, TWO_TO_THE_32);
    ModuloSmall(2, TWO_TO_THE_32);
    AdvanceWithin(0, capacity);
    MetaRoundTrip(c.ram.meta);
    MetaRoundTrip(Published(c.ram.meta, 1).(generation := 2));
    RecordRoundTrip(rec);
    var p := Push(c.flash, c.ram, record, io);
    assert LiveSlot(p.flash, Sealed(p.ram.meta), 0) == RecordImage(rec);
    assert Queue(p.flash) == [rec];
  }

  /** A reboot that finds no decodable meta starts an empty queue with ids from
      1, once its first commit completes; until then there is still none. */
  lemma BeginFresh(f: Flash, r: Ram, capacity: uint32, io: BootIo)
    requires f.Stored() == None && 0 < capacity <= MAX_CAPACITY && io.mounted
    ensures var b := Begin(f, r, capacity, io);
      if io.first.Wrote? && io.first.bytes >= FIX_QUEUE_META_WIRE_SIZE then
        && Sound(b.flash, capacity) && Queue(b.flash) == []
        && b.flash.Stored().value.next_seq == 1 && b.flash.Stored().value.generation == 1
        && b.flash.Stored().value.lost_count == 0
        && (b.ok <==> io.dataFile)
        && (b.ok ==> InSync(b.flash, b.ram, capacity) && b.ram.meta.next_seq == 1 && b.ram.meta.generation == 1)
      else
        !b.ok && b.flash.Stored() == None
  {
    hide DecodeMeta;
    hide MetaImage;
    hide CoveredMeta;
    var m := FixQueueMetaFresh(capacity).(generation := 1);
    ModuloSmall(1, TWO_TO_THE_32);
    MetaRoundTrip(m);
    if io.first.Wrote? && io.first.bytes < FIX_QUEUE_META_WIRE_SIZE {
      TornMetaUnreadable(MetaImage(m), io.first.bytes);
    }
  }

  // ---- reset ----

  /** A completed reset is what the next reboot recovers exactly when slot B is
      unreadable or holds generation at most 1: reset restarts the generation
      at 1 in slot A without touching B, and what B holds wins otherwise. */
  lemma ResetRecoveredIff(f: Flash, r: Ram, io: WriteOutcome)
    requires r.queueCapacity != 0 && io.Wrote? && io.bytes >= FIX_QUEUE_META_WIRE_SIZE
    ensures var c := Reset(f, r, io);
      && c.ok && c.ram.meta == FixQueueMetaFresh(r.queueCapacity).(generation := 1)
      && (c.flash.Stored() == Some(Sealed(c.ram.meta))
          <==> f.Meta(SlotB) == None || f.Meta(SlotB).value.generation <= 1)
      && (f.Meta(SlotB).Some? && f.Meta(SlotB).value.generation > 1 ==> c.flash.Stored() == f.Meta(SlotB))
  {
    hide DecodeMeta;
    hide MetaImage;
    hide CoveredMeta;
    var m := FixQueueMetaFresh(r.queueCapacity).(generation := 1);
    ModuloSmall(1, TWO_TO_THE_32);
    MetaRoundTrip(m);
  }

  // ---- What a scan reads, on any flash ----

  /** The i-th slot from idx on. */
  function SlotFrom(f: Flash, idx: uint32, capacity: uint32, i: nat): SlotImage {
    f.Slot(Offset(AdvanceBy(idx, i, capacity)))
  }

  lemma {:induction false} AdvanceFirst(idx: uint32, i: nat, capacity: uint32)
    ensures AdvanceBy(FixQueueAdvance(idx, capacity), i, capacity) == AdvanceBy(idx, i + 1, capacity)
  {
    hide FixQueueAdvance;
    if i > 0 {
      AdvanceFirst(idx, i - 1, capacity);
    } else {
      assert AdvanceBy(idx, 0, capacity) == idx;
    }
  }

  /** The records are those of the first n slots, and the scan ended there for its
      limit, for want of readable bytes, or at a short slot. */
  predicate ScannedAll(f: Flash, idx: uint32, capacity: uint32, limit: nat, readable: nat, q: seq<FixRecord>) {
    && |q| <= limit && |q| <= readable
    && (forall i :: 0 <= i < |q| ==> DecodeRecord(SlotFrom(f, idx, capacity, i)) == Some(q[i]))
    && (|q| < limit && |q| < readable ==> |SlotFrom(f, idx, capacity, |q|)| < 64)
  }

  /** The first slots decode, and then comes a whole one that does not. */
  predicate ScanBreaks(f: Flash, idx: uint32, capacity: uint32, limit: nat, readable: nat, k: nat) {
    && k < limit && k < readable
    && (forall i :: 0 <= i < k ==> DecodeRecord(SlotFrom(f, idx, capacity, i)).Some?)
    && |SlotFrom(f, idx, capacity, k)| == 64 && DecodeRecord(SlotFrom(f, idx, capacity, k)) == None
  }

  lemma {:induction false} ScanMeans(f: Flash, idx: uint32, capacity: uint32, limit: nat, readable: nat)
    ensures match Scan(f, idx, capacity, limit, readable)
      case Some(q) => ScannedAll(f, idx, capacity, limit, readable, q)
      case None => exists k :: ScanBreaks(f, idx, capacity, limit, readable, k)
    decreases limit
  {
    hide DecodeRecord;
    hide FixQueueAdvance;
    hide Offset;
    assert SlotFrom(f, idx, capacity, 0) == f.Slot(Offset(idx));
    if limit > 0 && readable > 0 && |f.Slot(Offset(idx))| == 64 {
      var first := DecodeRecord(f.Slot(Offset(idx)));
      if first == None {
        assert ScanBreaks(f, idx, capacity, limit, readable, 0);
      } else {
        var next := FixQueueAdvance(idx, capacity);
        ScanMeans(f, next, capacity, limit - 1, readable - 1);
        forall i: nat
          ensures SlotFrom(f, next, capacity, i) == SlotFrom(f, idx, capacity, i + 1)
        {
          AdvanceFirst(idx, i, capacity);
        }
        var rest := Scan(f, next, capacity, limit - 1, readable - 1);
        if rest.None? {
          var k :| ScanBreaks(f, next, capacity, limit - 1, readable - 1, k);
          BreaksLater(f, idx, capacity, limit, readable, k);
        } else {
          ScansLater(f, idx, capacity, limit, readable, first.value, rest.value);
        }
      }
    }
  }

  lemma BreaksLater(f: Flash, idx: uint32, capacity: uint32, limit: nat, readable: nat, k: nat)
    requires limit > 0 && readable > 0 && DecodeRecord(SlotFrom(f, idx, capacity, 0)).Some?
    requires ScanBreaks(f, FixQueueAdvance(idx, capacity), capacity, limit - 1, readable - 1, k)
    requires forall i: nat :: SlotFrom(f, FixQueueAdvance(idx, capacity), capacity, i) == SlotFrom(f, idx, capacity, i + 1)
    ensures ScanBreaks(f, idx, capacity, limit, readable, k + 1)
  {
    hide DecodeRecord;
    hide SlotFrom;
    forall i | 0 <= i < k + 1
      ensures DecodeRecord(SlotFrom(f, idx, capacity, i)).Some?
    {
      if i > 0 {
        assert SlotFrom(f, idx, capacity, i - 1 + 1) == SlotFrom(f, FixQueueAdvance(idx, capacity), capacity, i - 1);
      }
    }
  }

  lemma ScansLater(f: Flash, idx: uint32, capacity: uint32, limit: nat, readable: nat, first: FixRecord, rest: seq<FixRecord>)
    requires limit > 0 && readable > 0 && DecodeRecord(SlotFrom(f, idx, capacity, 0)) == Some(first)
    requires ScannedAll(f, FixQueueAdvance(idx, capacity), capacity, limit - 1, readable - 1, rest)
    requires forall i: nat :: SlotFrom(f, FixQueueAdvance(idx, capacity), capacity, i) == SlotFrom(f, idx, capacity, i + 1)
    ensures ScannedAll(f, idx, capacity, limit, readable, [first] + rest)
  {
    hide DecodeRecord;
    hide SlotFrom;
    var q := [first] + rest;
    forall i | 0 <= i < |q|
      ensures DecodeRecord(SlotFrom(f, idx, capacity, i)) == Some(q[i])
    {
      if i > 0 {
        assert SlotFrom(f, idx, capacity, i - 1 + 1) == SlotFrom(f, FixQueueAdvance(idx, capacity), capacity, i - 1);
      }
    }
  }

  /** On any flash a peek of a store in use reads whole, decodable slots from the
      tail on and changes nothing, unless a whole slot that it comes to does not
      decode: then it returns nothing and resets the store. */
  lemma PeekMeans(f: Flash, r: Ram, max: nat, readable: nat, io: WriteOutcome)
    requires r.ready && max > 0 && r.meta.count > 0
    ensures var p := Peek(f, r, max, readable, io);
      var limit := if r.meta.count < max then r.meta.count else max;
      if exists k :: ScanBreaks(f, r.meta.tail, r.meta.capacity, limit, readable, k) then
        p.records == [] && p.flash == Reset(f, r, io).flash && p.ram == Reset(f, r, io).ram
      else
        p.flash == f && p.ram == r && ScannedAll(f, r.meta.tail, r.meta.capacity, limit, readable, p.records)
  {
    hide DecodeRecord;
    hide SlotFrom;
    hide Scan;
    hide Reset;
    var limit := if r.meta.count < max then r.meta.count else max;
    ScanMeans(f, r.meta.tail, r.meta.capacity, limit, readable);
    if k :| ScanBreaks(f, r.meta.tail, r.meta.capacity, limit, readable, k) {
      BreakExcludes(f, r.meta.tail, r.meta.capacity, limit, readable, k);
    }
  }

  /** A scan cannot both break and read all it came to. */
  lemma BreakExcludes(f: Flash, idx: uint32, capacity: uint32, limit: nat, readable: nat, k: nat)
    requires ScanBreaks(f, idx, capacity, limit, readable, k)
    ensures Scan(f, idx, capacity, limit, readable).None?
  {
    hide SlotFrom;
    hide DecodeRecord;
    hide Scan;
    ScanMeans(f, idx, capacity, limit, readable);
    var scanned := Scan(f, idx, capacity, limit, readable);
    if scanned.Some? {
      var q := scanned.value;
      if |q| < k {
        assert DecodeRecord(SlotFrom(f, idx, capacity, |q|)).Some?;
        DecodableIsWhole(SlotFrom(f, idx, capacity, |q|));
      }
    }
  }

  // ---- What an unusable store does ----

  /** A store that has not begun does nothing. */
  lemma NotReadyNothing(f: Flash, r: Ram, record: FixRecord, pushIo: PushIo, n: nat, readable: nat, io: WriteOutcome)
    requires !r.ready
    ensures var p := Push(f, r, record, pushIo); !p.ok && p.flash == f && p.ram == r
    ensures AckFront(f, r, n, io) == AckResult(0, f, r) && Peek(f, r, n, readable, io) == PeekResult([], f, r)
  {
  }

  /** Without a capacity or a mounted file system begin changes nothing and leaves
      the store unusable; a queue of another capacity it drops. */
  lemma BeginRefuses(f: Flash, r: Ram, capacity: uint32, io: BootIo)
    ensures var b := Begin(f, r, capacity, io);
      && (b.ok ==> b.ram.ready && capacity > 0 && io.mounted && io.dataFile)
      && (capacity == 0 || !io.mounted ==> !b.ok && b.flash == f && !b.ram.ready)
      && (capacity > 0 && io.mounted && f.Stored().Some? && f.Stored().value.capacity != capacity
          && io.first.Wrote? && io.first.bytes >= FIX_QUEUE_META_WIRE_SIZE ==>
            && b.flash == ResetDone(f, capacity).flash && (b.ok <==> io.dataFile)
            && b.ram.meta == FixQueueMetaFresh(capacity).(generation := 1))
  {
    hide DecodeMeta;
    hide MetaImage;
    hide Scan;
    ModuloSmall(1, TWO_TO_THE_32);
  }

  /** A write that stops leaves the new bytes in front and the old ones behind. */
  lemma OverlayBytes(f: Flash, offset: nat, wire: Bytes, io: WriteOutcome, k: nat)
    requires |wire| == FIX_RECORD_WIRE_SIZE && io.Wrote?
    ensures var before, after := f.Slot(offset), WriteSlot(f, offset, wire, io).Slot(offset);
      && |after| == (if io.bytes >= 64 then 64 else if io.bytes < |before| then |before| else io.bytes)
      && (k < |after| ==> after[k] == if k < io.bytes then wire[k] else before[k])
  {
  }
}
