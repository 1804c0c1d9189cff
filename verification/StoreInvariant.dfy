/** What flash must look like for a reboot to find the queue again, and that
    every store operation keeps it so, wherever the power is cut. */
module StoreInvariant {
  import opened Crc16
  import opened Wire
  import opened FixRecordCodec
  import opened FixQueue
  import opened FixStore

  // ---- The ring as a sequence ----

  function At(tail: uint32, i: nat, capacity: uint32): uint32
    requires tail < capacity && i <= capacity
  {
    if tail + i < capacity then tail + i else tail + i - capacity
  }

  lemma AdvanceWithin(p: uint32, capacity: uint32)
    requires p < capacity
    ensures FixQueueAdvance(p, capacity) == if p + 1 == capacity then 0 else p + 1
  {
    hide Wrap;
    assert Wrap(p + 1) == p + 1 by { WrapSmall(p + 1); }
    if p + 1 < capacity {
      ModuloSmall(p + 1, capacity);
    } else {
      ModuloSelf(capacity);
    }
  }

  lemma AdvanceAt(tail: uint32, i: nat, capacity: uint32)
    requires tail < capacity && i < capacity
    ensures FixQueueAdvance(At(tail, i, capacity), capacity) == At(tail, i + 1, capacity)
  {
    hide FixQueueAdvance;
    AdvanceWithin(At(tail, i, capacity), capacity);
  }

  lemma StepBackUndoesAdvance(p: uint32, capacity: uint32)
    requires p < capacity
    ensures StepBack(FixQueueAdvance(p, capacity), capacity) == p
  {
    hide FixQueueAdvance;
    AdvanceWithin(p, capacity);
    ModuloSmall(capacity - 1, TWO_TO_THE_32);
  }

  lemma {:induction false} AdvanceByAt(tail: uint32, n: nat, capacity: uint32)
    requires tail < capacity && n <= capacity
    ensures AdvanceBy(tail, n, capacity) == At(tail, n, capacity)
  {
    if n > 0 {
      AdvanceByAt(tail, n - 1, capacity);
      AdvanceAt(tail, n - 1, capacity);
    }
  }

  lemma {:induction false} StepBackByAt(tail: uint32, n: nat, k: nat, capacity: uint32)
    requires tail < capacity && k <= n <= capacity
    ensures StepBackBy(At(tail, n, capacity), k, capacity) == At(tail, n - k, capacity)
  {
    if k > 0 {
      StepBackByAt(tail, n, k - 1, capacity);
      AdvanceAt(tail, n - k, capacity);
      StepBackUndoesAdvance(At(tail, n - k, capacity), capacity);
    }
  }

  predicate Ring(m: FixQueueMeta) {
    Structural(m) && m.head == At(m.tail, m.count, m.capacity)
  }

  function LiveSlot(f: Flash, m: FixQueueMeta, i: nat): Bytes
    requires Structural(m) && i <= m.capacity
  {
    f.Slot(Offset(At(m.tail, i, m.capacity)))
  }

  predicate Live(f: Flash, m: FixQueueMeta)
    requires Structural(m)
  {
    forall i :: 0 <= i < m.count ==> DecodeRecord(LiveSlot(f, m, i)).Some?
  }

  function Contents(f: Flash, m: FixQueueMeta): (q: seq<FixRecord>)
    requires Structural(m) && Live(f, m)
    ensures |q| == m.count
  {
    seq(m.count, i requires 0 <= i < m.count => DecodeRecord(LiveSlot(f, m, i)).value)
  }

  // ---- The two meta copies ----

  /** One copy decodes, and if both do, their generations differ. */
  predicate Settled(f: Flash) {
    f.Stored().Some?
    && (f.Meta(SlotA).Some? && f.Meta(SlotB).Some?
        ==> f.Meta(SlotA).value.generation != f.Meta(SlotB).value.generation)
  }

  /** begin() and the pick agree even on equal generations: the copy that a reboot
      picked is never the one it overwrites next. */
  lemma SpareIsLoser(f: Flash)
    requires f.Stored().Some?
    ensures f.Meta(Other(f.Spare())) == f.Stored()
  {
    hide DecodeMeta;
  }

  const MAX_CAPACITY: uint32 := 0x400_0000

  predicate Sound(f: Flash, capacity: uint32) {
    && 0 < capacity <= MAX_CAPACITY
    && Settled(f)
    && f.Stored().value.capacity == capacity
    && Ring(f.Stored().value)
    && Live(f, f.Stored().value)
  }

  /** The queue a reboot would find. */
  function Queue(f: Flash): seq<FixRecord>
    requires f.Stored().Some? && Structural(f.Stored().value) && Live(f, f.Stored().value)
  {
    Contents(f, f.Stored().value)
  }

  /** RAM holds the stored meta; only next_seq may have run ahead, by failed
      commits. */
  predicate Agrees(m: FixQueueMeta, stored: FixQueueMeta) {
    m == stored.(crc := m.crc, next_seq := m.next_seq) && m.next_seq >= stored.next_seq
  }

  predicate InSync(f: Flash, r: Ram, capacity: uint32) {
    Sound(f, capacity) && r.ready && r.queueCapacity == capacity && r.nextSlot == f.Spare()
    && Agrees(r.meta, f.Stored().value)
  }

  /** A complete commit makes the slot it wrote the winner and leaves the other
      one, older, as the next to be written. */
  lemma CommitInstalls(f: Flash, r: Ram, io: WriteOutcome)
    requires Settled(f) && r.nextSlot == f.Spare()
    requires r.meta.generation == f.Stored().value.generation < 0xFFFF_FFFF
    requires Structural(r.meta) && r.meta.next_seq != 0
    requires io.Wrote? && io.bytes >= FIX_QUEUE_META_WIRE_SIZE
    ensures var c := Commit(f, r, io);
      && c.ok && c.flash.data == f.data
      && c.ram == r.(meta := r.meta.(generation := r.meta.generation + 1), nextSlot := Other(r.nextSlot))
      && Settled(c.flash) && c.flash.Stored() == Some(Sealed(c.ram.meta)) && c.flash.Spare() == c.ram.nextSlot
  {
    hide DecodeMeta;
    hide MetaImage;
    hide CoveredMeta;
    hide Crc;
    var m := r.meta.(generation := r.meta.generation + 1);
    MetaRoundTrip(m);
  }

  /** A complete commit is what the next reboot picks exactly when the generation
      does not wrap: after 2^32 - 1 the new copy counts as the oldest. */
  lemma CommitInstalledIff(f: Flash, r: Ram, io: WriteOutcome)
    requires Settled(f) && r.nextSlot == f.Spare() && r.meta.generation == f.Stored().value.generation
    requires Structural(r.meta) && r.meta.next_seq != 0
    requires io.Wrote? && io.bytes >= FIX_QUEUE_META_WIRE_SIZE
    ensures var c := Commit(f, r, io);
      && c.ok
      && (c.flash.Stored() == Some(Sealed(c.ram.meta)) <==> r.meta.generation < 0xFFFF_FFFF)
      && (r.meta.generation == 0xFFFF_FFFF ==> c.flash.Stored() == f.Stored())
  {
    hide DecodeMeta;
    hide MetaImage;
    hide CoveredMeta;
    hide Crc;
    if r.meta.generation < 0xFFFF_FFFF {
      CommitInstalls(f, r, io);
    } else {
      ModuloSelf(TWO_TO_THE_32);
      MetaRoundTrip(r.meta.(generation := 0));
    }
  }

  /** A commit that stops early, anywhere, changes nothing a reboot can see. */
  lemma CommitTorn(f: Flash, r: Ram, io: WriteOutcome)
    requires Settled(f) && r.nextSlot == f.Spare()
    requires io.Wrote? ==> io.bytes < FIX_QUEUE_META_WIRE_SIZE
    ensures var c := Commit(f, r, io);
      && !c.ok && c.ram == r && c.flash.data == f.data
      && Settled(c.flash) && c.flash.Stored() == f.Stored() && c.flash.Spare() == f.Spare()
  {
    hide DecodeMeta;
    hide MetaImage;
    var m := r.meta.(generation := Wrap(r.meta.generation + 1));
    if Structural(m) && io.Wrote? {
      TornMetaUnreadable(MetaImage(m), io.bytes);
    }
  }
}
