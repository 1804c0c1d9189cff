/** The store itself (persistent_fix_store.h, persistent_fix_store.cpp): an
    object over three files, updated in place.  Each method is proved to do what
    the functions of FixStore say, and every flash image it passes through is
    recorded in `cuts`, the places where the power may fail. */
module PersistentFixStore {
  import opened Crc16
  import opened Wire
  import opened FixRecordCodec
  import opened FixQueue
  import S = FixStore

  /** c is what a power cut while this meta file is written may leave. */
  ghost predicate MetaCut(f: S.Flash, slot: S.MetaSlot, wire: Bytes, c: S.Flash) {
    exists k: nat :: c == S.WriteMeta(f, slot, wire, S.Wrote(k))
  }

  ghost predicate SlotCut(f: S.Flash, offset: nat, wire: Bytes, c: S.Flash)
    requires |wire| == FIX_RECORD_WIRE_SIZE
  {
    exists k: nat :: c == S.WriteSlot(f, offset, wire, S.Wrote(k))
  }

  /** The files on flash.  Writes arrive byte by byte. */
  class LittleFs {
    var data: map<nat, S.SlotImage>
    var a: Bytes
    var b: Bytes
    ghost var cuts: set<S.Flash>

    constructor ()
      ensures Image() == S.Flash(map[], [], []) && cuts == {Image()}
    {
      data, a, b := map[], [], [];
      cuts := {S.Flash(map[], [], [])};
    }

    function Image(): S.Flash
      reads this
    {
      S.Flash(data, a, b)
    }

    method SetMeta(slot: S.MetaSlot, bytes: Bytes)
      modifies this
      ensures Image() == if slot == S.SlotA then old(Image()).(a := bytes) else old(Image()).(b := bytes)
      ensures cuts == old(cuts)
    {
      if slot == S.SlotA { a := bytes; } else { b := bytes; }
    }

    method WriteMetaFile(slot: S.MetaSlot, wire: Bytes, io: S.WriteOutcome) returns (ok: bool)
      modifies this
      ensures ok == S.Complete(io, wire)
      ensures Image() == S.WriteMeta(old(Image()), slot, wire, io)
      ensures old(cuts) <= cuts
      ensures forall c :: c in cuts - old(cuts) ==> MetaCut(old(Image()), slot, wire, c)
    {
      if io.NotOpened? {
        return false;
      }
      var n := if io.bytes < |wire| then io.bytes else |wire|;
      ghost var before := Image();
      SetMeta(slot, []);
      assert Image() == S.WriteMeta(before, slot, wire, S.Wrote(0));
      cuts := cuts + {Image()};
      for i := 0 to n
        invariant Image() == S.WriteMeta(before, slot, wire, S.Wrote(i))
        invariant old(cuts) <= cuts
        invariant forall c :: c in cuts - old(cuts) ==> MetaCut(before, slot, wire, c)
      {
        SetMeta(slot, (if slot == S.SlotA then a else b) + [wire[i]]);
        assert wire[..i + 1] == wire[..i] + [wire[i]];
        assert Image() == S.WriteMeta(before, slot, wire, S.Wrote(i + 1));
        assert MetaCut(before, slot, wire, Image());
        cuts := cuts + {Image()};
      }
      return n == |wire|;
    }

    method WriteDataSlot(offset: nat, wire: Bytes, io: S.WriteOutcome) returns (ok: bool)
      requires |wire| == FIX_RECORD_WIRE_SIZE
      modifies this
      ensures ok == S.Complete(io, wire)
      ensures Image() == S.WriteSlot(old(Image()), offset, wire, io)
      ensures old(cuts) <= cuts
      ensures forall c :: c in cuts - old(cuts) ==> SlotCut(old(Image()), offset, wire, c)
    {
      if io.NotOpened? {
        return false;
      }
      var n := if io.bytes < |wire| then io.bytes else |wire|;
      ghost var before := Image();
      var was := Slot(offset);
      data := data[offset := was];
      assert S.Overlay([], was) == was && wire[..0] == [];
      assert Image() == S.WriteSlot(before, offset, wire, S.Wrote(0));
      for i := 0 to n
        invariant Image() == S.WriteSlot(before, offset, wire, S.Wrote(i)) && before.Slot(offset) == was
        invariant old(cuts) <= cuts
        invariant forall c :: c in cuts - old(cuts) ==> SlotCut(before, offset, wire, c)
      {
        hide S.Overlay;
        assert wire[..|wire|] == wire;
        data := data[offset := S.Overlay(wire[..i + 1], was)];
        assert data == before.data[offset := data[offset]];
        assert Image() == S.WriteSlot(before, offset, wire, S.Wrote(i + 1));
        assert SlotCut(before, offset, wire, Image());
        cuts := cuts + {Image()};
      }
      return n == |wire|;
    }

    function Slot(offset: nat): S.SlotImage
      reads this
    {
      if offset in data then data[offset] else []
    }
  }

  // What a power cut during an operation may leave on flash.

  ghost predicate CommitCut(f: S.Flash, r: S.Ram, c: S.Flash) {
    exists io :: c == S.Commit(f, r, io).flash
  }

  ghost predicate PushCut(f: S.Flash, r: S.Ram, record: FixRecord, c: S.Flash) {
    exists io :: c == S.Push(f, r, record, io).flash
  }

  ghost predicate AckCut(f: S.Flash, r: S.Ram, n: nat, c: S.Flash) {
    exists io :: c == S.AckFront(f, r, n, io).flash
  }

  ghost predicate ResetCut(f: S.Flash, r: S.Ram, c: S.Flash) {
    exists io :: c == S.Reset(f, r, io).flash
  }

  ghost predicate PeekCut(f: S.Flash, r: S.Ram, max: nat, readable: nat, c: S.Flash) {
    exists io :: c == S.Peek(f, r, max, readable, io).flash
  }

  ghost predicate ChooseCut(f: S.Flash, r: S.Ram, c: S.Flash) {
    exists io :: c == S.Choose(f, r, io).flash
  }

  ghost predicate ProbeCut(f: S.Flash, r: S.Ram, readable: nat, c: S.Flash) {
    exists io :: c == S.Probe(f, r, readable, io).flash
  }

  ghost predicate BeginCut(f: S.Flash, r: S.Ram, capacity: uint32, c: S.Flash) {
    exists io :: c == S.Begin(f, r, capacity, io).flash
  }

  lemma CommitCutIsResetCut(f: S.Flash, r: S.Ram, c: S.Flash)
    requires CommitCut(f, r.(meta := FixQueueMetaFresh(r.queueCapacity), nextSlot := S.SlotA), c)
    ensures ResetCut(f, r, c)
  {
    hide S.Commit;
    var io :| c == S.Commit(f, r.(meta := FixQueueMetaFresh(r.queueCapacity), nextSlot := S.SlotA), io).flash;
    assert c == S.Reset(f, r, io).flash;
  }

  lemma ResetCutIsPeekCut(f: S.Flash, r: S.Ram, max: nat, readable: nat, c: S.Flash)
    requires r.ready && max > 0 && r.meta.count > 0 && ResetCut(f, r, c)
    requires S.Scan(f, r.meta.tail, r.meta.capacity, if r.meta.count < max then r.meta.count else max, readable) == None
    ensures PeekCut(f, r, max, readable, c)
  {
    hide S.Reset;
    hide S.Scan;
    var io :| c == S.Reset(f, r, io).flash;
    assert c == S.Peek(f, r, max, readable, io).flash;
  }

  lemma ResetCutIsChooseCut(f: S.Flash, r: S.Ram, c: S.Flash)
    requires f.Stored() == None || f.Stored().value.capacity != r.queueCapacity
    requires ResetCut(f, r, c)
    ensures ChooseCut(f, r, c)
  {
    hide S.Reset;
    hide DecodeMeta;
    var io :| c == S.Reset(f, r, io).flash;
    assert c == S.Choose(f, r, io).flash;
  }

  /** A cut while the probe resets, in peek or after it. */
  lemma CutIsProbeCut(f: S.Flash, r: S.Ram, readable: nat, c: S.Flash)
    requires r.ready && r.meta.count > 0
    requires
      || PeekCut(f, r, 1, readable, c)
      || (S.Scan(f, r.meta.tail, r.meta.capacity, 1, readable) == Some([]) && ResetCut(f, r, c))
    ensures ProbeCut(f, r, readable, c)
  {
    hide S.Commit;
    hide S.Scan;
    if io :| c == S.Peek(f, r, 1, readable, io).flash {
      var p := S.Peek(f, r, 1, readable, io);
      if p.records == [] && p.ram.meta.count > 0 {
        EmptyScan(f, r, readable, io);
        UnopenedReset(f, r);
        assert c == S.Probe(f, r, readable, S.NotOpened).flash;
      } else {
        assert c == S.Probe(f, r, readable, io).flash;
      }
    } else {
      var io :| c == S.Reset(f, r, io).flash;
      assert c == S.Probe(f, r, readable, io).flash;
    }
  }

  lemma UnopenedReset(f: S.Flash, r: S.Ram)
    ensures S.Reset(f, r, S.NotOpened).flash == f
  {
    hide MetaImage;
  }

  /** A cut while begin() commits a first meta, or while it probes. */
  lemma CutIsBeginCut(f: S.Flash, r: S.Ram, capacity: uint32, io: S.BootIo, c: S.Flash)
    requires capacity > 0 && io.mounted
    requires var r0 := r.(ready := false, queueCapacity := capacity);
      var chosen := S.Choose(f, r0, io.first);
      || ChooseCut(f, r0, c)
      || (chosen.ok && io.dataFile && ProbeCut(chosen.flash, chosen.ram.(ready := true), io.readable, c))
    ensures BeginCut(f, r, capacity, c)
  {
    hide S.Choose;
    hide S.Probe;
    var r0 := r.(ready := false, queueCapacity := capacity);
    var chosen := S.Choose(f, r0, io.first);
    if first :| c == S.Choose(f, r0, first).flash {
      assert c == S.Begin(f, r, capacity, S.BootIo(true, first, false, 0, S.NotOpened)).flash;
    } else {
      var second :| c == S.Probe(chosen.flash, chosen.ram.(ready := true), io.readable, second).flash;
      assert c == S.Begin(f, r, capacity, io.(second := second)).flash;
    }
  }

  lemma MetaCutIsCommitCut(f: S.Flash, r: S.Ram, c: S.Flash)
    requires var m := r.meta.(generation := Wrap(r.meta.generation + 1));
      Structural(m) && MetaCut(f, r.nextSlot, MetaImage(m), c)
    ensures CommitCut(f, r, c)
  {
    hide MetaImage;
    var m := r.meta.(generation := Wrap(r.meta.generation + 1));
    var k: nat :| c == S.WriteMeta(f, r.nextSlot, MetaImage(m), S.Wrote(k));
    assert c == S.Commit(f, r, S.Wrote(k)).flash;
  }

  lemma SlotCutIsPushCut(f: S.Flash, r: S.Ram, record: FixRecord, c: S.Flash)
    requires r.ready && Terminated(record.recorded_at)
    requires SlotCut(f, S.Offset(r.meta.head), RecordImage(S.Numbered(record, r.meta)), c)
    ensures PushCut(f, r, record, c)
  {
    hide RecordImage;
    var wire := RecordImage(S.Numbered(record, r.meta));
    var k: nat :| c == S.WriteSlot(f, S.Offset(r.meta.head), wire, S.Wrote(k));
    assert c == S.Push(f, r, record, S.PushIo(S.Wrote(k), S.NotOpened)).flash;
  }

  lemma CommitCutIsPushCut(f: S.Flash, r: S.Ram, record: FixRecord, c: S.Flash, data: S.WriteOutcome)
    requires r.ready && Terminated(record.recorded_at) && S.Complete(data, RecordImage(S.Numbered(record, r.meta)))
    requires var rec := S.Numbered(record, r.meta);
      CommitCut(S.WriteSlot(f, S.Offset(r.meta.head), RecordImage(rec), data),
                r.(meta := S.Published(r.meta, rec.sequence_id)), c)
    ensures PushCut(f, r, record, c)
  {
    hide RecordImage;
    hide S.Commit;
    var rec := S.Numbered(record, r.meta);
    var f1 := S.WriteSlot(f, S.Offset(r.meta.head), RecordImage(rec), data);
    var io :| c == S.Commit(f1, r.(meta := S.Published(r.meta, rec.sequence_id)), io).flash;
    assert c == S.Push(f, r, record, S.PushIo(data, io)).flash;
  }

  lemma CommitCutIsAckCut(f: S.Flash, r: S.Ram, n: nat, c: S.Flash)
    requires r.ready && n > 0
    requires var k := if n > r.meta.count then r.meta.count else n;
      CommitCut(f, r.(meta := r.meta.(tail := S.AdvanceBy(r.meta.tail, k, r.meta.capacity), count := r.meta.count - k)), c)
    ensures AckCut(f, r, n, c)
  {
    hide S.Commit;
    var k := if n > r.meta.count then r.meta.count else n;
    var r' := r.(meta := r.meta.(tail := S.AdvanceBy(r.meta.tail, k, r.meta.capacity), count := r.meta.count - k));
    var io :| c == S.Commit(f, r', io).flash;
    assert c == S.AckFront(f, r, n, io).flash;
  }

  // The wire buffers the store's methods keep on their stacks.

  method MetaWire(meta: FixQueueMeta) returns (ok: bool, wire: Bytes)
    ensures ok == Structural(meta)
    ensures ok ==> wire == MetaImage(meta)
  {
    hide MetaImage;
    var buffer := new bv8[FIX_QUEUE_META_WIRE_SIZE];
    ok := FixQueueMetaEncode(meta, buffer, buffer.Length);
    wire := buffer[..];
    assert wire == buffer[..32];
  }

  method RecordWire(record: FixRecord) returns (ok: bool, wire: Bytes)
    ensures ok == Terminated(record.recorded_at)
    ensures ok ==> wire == RecordImage(record)
  {
    hide RecordImage;
    var buffer := new bv8[FIX_RECORD_WIRE_SIZE];
    ok := FixRecordEncode(record, buffer, buffer.Length);
    wire := buffer[..];
    assert wire == buffer[..64];
  }

  method SlotRecord(bytes: Bytes) returns (record: Option<FixRecord>)
    requires |bytes| == FIX_RECORD_WIRE_SIZE
    ensures record == DecodeRecord(bytes)
  {
    hide DecodeRecord;
    var buffer := new bv8[FIX_RECORD_WIRE_SIZE](k requires 0 <= k < |bytes| => bytes[k]);
    assert buffer[..64] == bytes;
    record := FixRecordDecode(buffer, buffer.Length);
  }

  function Prefixed(front: seq<FixRecord>, rest: Option<seq<FixRecord>>): Option<seq<FixRecord>> {
    if rest == None then None else Some(front + rest.value)
  }

  lemma ScanStops(f: S.Flash, idx: uint32, capacity: uint32, limit: nat, readable: nat, front: seq<FixRecord>)
    requires limit == 0 || readable == 0 || |f.Slot(S.Offset(idx))| < FIX_RECORD_WIRE_SIZE
    ensures Prefixed(front, S.Scan(f, idx, capacity, limit, readable)) == Some(front)
  {
    assert front + [] == front;
  }

  lemma ScanStep(f: S.Flash, idx: uint32, capacity: uint32, limit: nat, readable: nat, front: seq<FixRecord>)
    requires limit > 0 && readable > 0 && |f.Slot(S.Offset(idx))| == FIX_RECORD_WIRE_SIZE
    ensures Prefixed(front, S.Scan(f, idx, capacity, limit, readable))
         == match DecodeRecord(f.Slot(S.Offset(idx)))
            case None => None
            case Some(rec) =>
              Prefixed(front + [rec], S.Scan(f, FixQueueAdvance(idx, capacity), capacity, limit - 1, readable - 1))
  {
    hide DecodeRecord;
    hide FixQueueAdvance;
    var rest := S.Scan(f, FixQueueAdvance(idx, capacity), capacity, limit - 1, readable - 1);
    if DecodeRecord(f.Slot(S.Offset(idx))).Some? && rest.Some? {
      var rec := DecodeRecord(f.Slot(S.Offset(idx))).value;
      assert front + ([rec] + rest.value) == front + [rec] + rest.value;
    }
  }

  lemma PrefixedNone(s: Option<seq<FixRecord>>)
    ensures Prefixed([], s) == s
  {
    assert s.Some? ==> [] + s.value == s.value;
  }

  /** A reset does not depend on the meta it throws away. */
  lemma SameReset(f: S.Flash, r: S.Ram, r': S.Ram, c: S.Flash)
    requires r' == r.(meta := r'.meta) && ResetCut(f, r', c)
    ensures ResetCut(f, r, c)
  {
    hide S.Commit;
    var io :| c == S.Reset(f, r', io).flash;
    assert S.Reset(f, r, io) == S.Reset(f, r', io);
  }

  /** A probe that returned nothing and dropped nothing found nothing to read. */
  lemma EmptyScan(f: S.Flash, r: S.Ram, readable: nat, io: S.WriteOutcome)
    requires r.ready && r.meta.count > 0
    requires var p := S.Peek(f, r, 1, readable, io); p.records == [] && p.ram.meta.count > 0
    ensures S.Scan(f, r.meta.tail, r.meta.capacity, 1, readable) == Some([])
    ensures S.Peek(f, r, 1, readable, io) == S.PeekResult([], f, r)
  {
    hide S.Scan;
    hide MetaImage;
  }

  class PersistentFixStore {
    const fs: LittleFs
    var meta: FixQueueMeta
    var nextSlot: S.MetaSlot
    var queueCapacity: uint32
    var readyState: bool

    constructor (fs: LittleFs)
      ensures this.fs == fs && !readyState
    {
      this.fs := fs;
      meta := FixQueueMeta(0, 0, 0, 0, 0, 0, 0, 0);
      nextSlot, queueCapacity, readyState := S.SlotA, 0, false;
    }

    function Ram(): S.Ram
      reads this
    {
      S.Ram(meta, nextSlot, queueCapacity, readyState)
    }

    method CommitMeta(io: S.WriteOutcome) returns (ok: bool)
      modifies this, fs
      ensures S.CommitResult(ok, fs.Image(), Ram()) == S.Commit(old(fs.Image()), old(Ram()), io)
      ensures old(fs.cuts) <= fs.cuts
      ensures forall c :: c in fs.cuts - old(fs.cuts) ==> CommitCut(old(fs.Image()), old(Ram()), c)
    {
      hide MetaImage;
      hide MetaCut;
      hide CommitCut;
      meta := meta.(generation := Wrap(meta.generation + 1));
      var encoded, wire := MetaWire(meta);
      if !encoded {
        UnwrapIncrement(old(meta.generation));
        meta := meta.(generation := Wrap(meta.generation - 1));
        return false;
      }
      ghost var f, r := fs.Image(), old(Ram());
      var written := fs.WriteMetaFile(nextSlot, wire, io);
      forall c | c in fs.cuts - old(fs.cuts)
        ensures CommitCut(f, r, c)
      {
        MetaCutIsCommitCut(f, r, c);
      }
      if !written {
        UnwrapIncrement(old(meta.generation));
        meta := meta.(generation := Wrap(meta.generation - 1));
        return false;
      }
      nextSlot := S.Other(nextSlot);
      return true;
    }

    method Reset(io: S.WriteOutcome) returns (ok: bool)
      modifies this, fs
      ensures S.CommitResult(ok, fs.Image(), Ram()) == S.Reset(old(fs.Image()), old(Ram()), io)
      ensures old(fs.cuts) <= fs.cuts
      ensures forall c :: c in fs.cuts - old(fs.cuts) ==> ResetCut(old(fs.Image()), old(Ram()), c)
    {
      hide S.Commit;
      hide CommitCut;
      hide ResetCut;
      ghost var f, r := fs.Image(), Ram();
      meta := FixQueueMetaFresh(queueCapacity);
      nextSlot := S.SlotA;
      ok := CommitMeta(io);
      forall c | c in fs.cuts - old(fs.cuts)
        ensures ResetCut(f, r, c)
      {
        CommitCutIsResetCut(f, r, c);
      }
    }

    /** The record comes back as the caller's record does: with its number. */
    method Push(record: FixRecord, io: S.PushIo) returns (ok: bool, pushed: FixRecord)
      modifies this, fs
      ensures S.PushResult(ok, pushed, fs.Image(), Ram()) == S.Push(old(fs.Image()), old(Ram()), record, io)
      ensures old(fs.cuts) <= fs.cuts
      ensures forall c :: c in fs.cuts - old(fs.cuts) ==> PushCut(old(fs.Image()), old(Ram()), record, c)
    {
      hide RecordImage;
      hide S.Commit;
      hide S.WriteSlot;
      hide SlotCut;
      hide CommitCut;
      hide PushCut;
      hide FixQueueAdvance;
      hide StepBack;
      hide Wrap;
      pushed := record;
      if !readyState {
        return false, pushed;
      }
      if pushed.sequence_id == 0 {
        pushed := pushed.(sequence_id := meta.next_seq);
      }
      var encoded, wire := RecordWire(pushed);
      if !encoded {
        return false, pushed;
      }
      ghost var f, r := fs.Image(), Ram();
      var slot := meta.head;
      var written := fs.WriteDataSlot(S.Offset(slot), wire, io.data);
      forall c | c in fs.cuts - old(fs.cuts)
        ensures PushCut(f, r, record, c)
      {
        SlotCutIsPushCut(f, r, record, c);
      }
      if !written {
        return false, pushed;
      }

      ghost var f1, cuts1 := fs.Image(), fs.cuts;
      var wasFull := FixQueueIsFull(meta);
      if wasFull {
        meta := meta.(tail := FixQueueAdvance(meta.tail, meta.capacity));
        meta := meta.(lost_count := Wrap(meta.lost_count + 1));
      } else {
        meta := meta.(count := Wrap(meta.count + 1));
      }
      meta := meta.(head := FixQueueAdvance(meta.head, meta.capacity));
      if pushed.sequence_id >= meta.next_seq {
        meta := meta.(next_seq := Wrap(pushed.sequence_id + 1));
      }
      assert meta == S.Published(r.meta, pushed.sequence_id);
      var committed := CommitMeta(io.meta);
      forall c | c in fs.cuts - cuts1
        ensures PushCut(f, r, record, c)
      {
        CommitCutIsPushCut(f, r, record, c, io.data);
      }
      if !committed {
        if wasFull {
          meta := meta.(tail := StepBack(meta.tail, meta.capacity));
          meta := meta.(lost_count := Wrap(meta.lost_count - 1));
        } else {
          meta := meta.(count := Wrap(meta.count - 1));
        }
        meta := meta.(head := StepBack(meta.head, meta.capacity));
        return false, pushed;
      }
      return true, pushed;
    }

    method AckFront(n: nat, io: S.WriteOutcome) returns (removed: nat)
      modifies this, fs
      ensures S.AckResult(removed, fs.Image(), Ram()) == S.AckFront(old(fs.Image()), old(Ram()), n, io)
      ensures old(fs.cuts) <= fs.cuts
      ensures forall c :: c in fs.cuts - old(fs.cuts) ==> AckCut(old(fs.Image()), old(Ram()), n, c)
    {
      hide S.Commit;
      hide CommitCut;
      hide AckCut;
      hide FixQueueAdvance;
      hide StepBack;
      hide Wrap;
      if !readyState || n == 0 {
        return 0;
      }
      var count := if n > meta.count then meta.count else n;
      ghost var f, r := fs.Image(), Ram();
      for i := 0 to count
        invariant meta == r.meta.(tail := S.AdvanceBy(r.meta.tail, i, r.meta.capacity))
        invariant Ram() == r.(meta := meta) && fs.Image() == f && fs.cuts == old(fs.cuts)
      {
        meta := meta.(tail := FixQueueAdvance(meta.tail, meta.capacity));
      }
      meta := meta.(count := meta.count - count);
      ghost var m := meta;
      var committed := CommitMeta(io);
      forall c | c in fs.cuts - old(fs.cuts)
        ensures AckCut(f, r, n, c)
      {
        CommitCutIsAckCut(f, r, n, c);
      }
      if !committed {
        ghost var t, g, cuts := Ram(), fs.Image(), fs.cuts;
        for i := 0 to count
          invariant meta == t.meta.(tail := S.StepBackBy(t.meta.tail, i, t.meta.capacity))
          invariant Ram() == t.(meta := meta) && fs.Image() == g && fs.cuts == cuts
        {
          meta := meta.(tail := StepBack(meta.tail, meta.capacity));
        }
        meta := meta.(count := Wrap(meta.count + count));
        return 0;
      }
      return count;
    }

    /** The read loop: fills out[..n], or stops at a full slot that does not decode. */
    method ReadSlots(out: array<FixRecord>, limit: nat, readable: nat) returns (n: nat, intact: bool)
      requires limit <= out.Length
      modifies out
      ensures n <= limit
      ensures S.Scan(fs.Image(), meta.tail, meta.capacity, limit, readable) == if intact then Some(out[..n]) else None
    {
      hide DecodeRecord;
      ghost var f, capacity := fs.Image(), meta.capacity;
      var idx := meta.tail;
      n := 0;
      PrefixedNone(S.Scan(f, idx, capacity, limit, readable));
      while n < limit
        invariant n <= limit && n <= readable
        invariant S.Scan(f, meta.tail, capacity, limit, readable)
               == Prefixed(out[..n], S.Scan(f, idx, capacity, limit - n, readable - n))
      {
        hide S.Scan;
        hide Prefixed;
        var bytes := fs.Slot(S.Offset(idx));
        if n >= readable || |bytes| != FIX_RECORD_WIRE_SIZE {
          break;
        }
        ScanStep(f, idx, capacity, limit - n, readable - n, out[..n]);
        var decoded := SlotRecord(bytes);
        if decoded == None {
          return n, false;
        }
        ghost var before := out[..n];
        out[n] := decoded.value;
        assert out[..n + 1] == before + [decoded.value];
        n := n + 1;
        idx := FixQueueAdvance(idx, meta.capacity);
      }
      ScanStops(f, idx, capacity, limit - n, readable - n, out[..n]);
      return n, true;
    }

    /** Fills out[..n].  A full slot that does not decode drops the queue. */
    method Peek(out: array?<FixRecord>, max: nat, readable: nat, resetIo: S.WriteOutcome) returns (n: nat)
      requires out != null ==> max <= out.Length
      modifies this, fs, out
      ensures out == null ==> n == 0 && fs.Image() == old(fs.Image()) && Ram() == old(Ram()) && fs.cuts == old(fs.cuts)
      ensures out != null ==> n <= max
      ensures out != null ==>
        S.PeekResult(out[..n], fs.Image(), Ram()) == S.Peek(old(fs.Image()), old(Ram()), max, readable, resetIo)
      ensures old(fs.cuts) <= fs.cuts
      ensures forall c :: c in fs.cuts - old(fs.cuts) ==> PeekCut(old(fs.Image()), old(Ram()), max, readable, c)
    {
      hide S.Scan;
      hide S.Reset;
      hide ResetCut;
      hide PeekCut;
      if !readyState || out == null || max == 0 || meta.count == 0 {
        return 0;
      }
      ghost var f, r := fs.Image(), Ram();
      var intact;
      n, intact := ReadSlots(out, if meta.count < max then meta.count else max, readable);
      if !intact {
        var _ := Reset(resetIo);
        forall c | c in fs.cuts - old(fs.cuts)
          ensures PeekCut(f, r, max, readable, c)
        {
          ResetCutIsPeekCut(f, r, max, readable, c);
        }
        return 0;
      }
    }

    /** The first half of begin(): the meta to start from. */
    method ChooseMeta(io: S.WriteOutcome) returns (ok: bool)
      modifies this, fs
      ensures S.CommitResult(ok, fs.Image(), Ram()) == S.Choose(old(fs.Image()), old(Ram()), io)
      ensures old(fs.cuts) <= fs.cuts
      ensures forall c :: c in fs.cuts - old(fs.cuts) ==> ChooseCut(old(fs.Image()), old(Ram()), c)
    {
      hide DecodeMeta;
      hide S.Commit;
      hide CommitCut;
      hide ResetCut;
      hide ChooseCut;
      ghost var f, r := fs.Image(), Ram();
      var a, b := DecodeMeta(fs.a), DecodeMeta(fs.b);
      var picked := FixQueueMetaPick(a, b);
      ok := true;
      if picked == None {
        meta := FixQueueMetaFresh(queueCapacity);
        nextSlot := S.SlotA;
        ok := CommitMeta(io);
        forall c | c in fs.cuts - old(fs.cuts)
          ensures ChooseCut(f, r, c)
        {
          CommitCutIsResetCut(f, r, c);
          ResetCutIsChooseCut(f, r, c);
        }
      } else {
        meta := picked.value;
        if meta.capacity != queueCapacity {
          ok := Reset(io);
          forall c | c in fs.cuts - old(fs.cuts)
            ensures ChooseCut(f, r, c)
          {
            SameReset(f, r, r.(meta := picked.value), c);
            ResetCutIsChooseCut(f, r, c);
          }
        } else {
          var winner :=
            if a.Some? && b.Some? then (if b.value.generation > a.value.generation then S.SlotB else S.SlotA)
            else if a.Some? then S.SlotA
            else S.SlotB;
          nextSlot := S.Other(winner);
        }
      }
    }

    /** The second half of begin(): drop a front record that cannot be read. */
    method ProbeFront(readable: nat, io: S.WriteOutcome) returns (ok: bool)
      requires readyState
      modifies this, fs
      ensures S.CommitResult(ok, fs.Image(), Ram()) == S.Probe(old(fs.Image()), old(Ram()), readable, io)
      ensures old(fs.cuts) <= fs.cuts
      ensures forall c :: c in fs.cuts - old(fs.cuts) ==> ProbeCut(old(fs.Image()), old(Ram()), readable, c)
    {
      hide S.Scan;
      hide S.Commit;
      hide ResetCut;
      hide PeekCut;
      hide ProbeCut;
      if meta.count == 0 {
        return true;
      }
      ghost var f, r := fs.Image(), Ram();
      var probe := new FixRecord[1](_ => NoRecord());
      var n := Peek(probe, 1, readable, io);
      forall c | c in fs.cuts - old(fs.cuts)
        ensures ProbeCut(f, r, readable, c)
      {
        CutIsProbeCut(f, r, readable, c);
      }
      if n == 0 && meta.count > 0 {
        EmptyScan(f, r, readable, io);
        ghost var before := fs.cuts;
        ok := Reset(io);
        forall c | c in fs.cuts - before
          ensures ProbeCut(f, r, readable, c)
        {
          CutIsProbeCut(f, r, readable, c);
        }
        return;
      }
      return true;
    }

    method Begin(capacity: uint32, io: S.BootIo) returns (ok: bool)
      modifies this, fs
      ensures S.CommitResult(ok, fs.Image(), Ram()) == S.Begin(old(fs.Image()), old(Ram()), capacity, io)
      ensures old(fs.cuts) <= fs.cuts
      ensures forall c :: c in fs.cuts - old(fs.cuts) ==> BeginCut(old(fs.Image()), old(Ram()), capacity, c)
    {
      hide S.Choose;
      hide S.Probe;
      hide ChooseCut;
      hide ProbeCut;
      hide BeginCut;
      ghost var f, r := fs.Image(), Ram();
      readyState := false;
      if capacity == 0 {
        return false;
      }
      queueCapacity := capacity;
      if !io.mounted {
        return false;
      }
      var chosen := ChooseMeta(io.first);
      forall c | c in fs.cuts - old(fs.cuts)
        ensures BeginCut(f, r, capacity, c)
      {
        CutIsBeginCut(f, r, capacity, io, c);
      }
      if !chosen {
        return false;
      }
      if !io.dataFile {
        return false;
      }
      readyState := true;
      ghost var before := fs.cuts;
      ok := ProbeFront(io.readable, io.second);
      forall c | c in fs.cuts - before
        ensures BeginCut(f, r, capacity, c)
      {
        CutIsBeginCut(f, r, capacity, io, c);
      }
    }

    static function NoRecord(): FixRecord {
      FixRecord(0, 0, seq(21, _ => 0), 0, 0, 0, 0, 0, 0, 0, 0, 0)
    }
  }
}
