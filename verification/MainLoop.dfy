/** The queue's part of the main loop (main.cpp): enqueueing an accepted fix and
    draining the queue over the link. */
module MainLoop {
  import opened Sequences
  import opened Wire
  import opened FixRecordCodec
  import FixQueue
  import LP = LocationPayload
  import S = FixStore
  import opened StoreInvariant
  import opened StoreOperations
  import opened Transport
  import PS = PersistentFixStore
  import Sampling

  const UPLOAD_BATCH_MIN_ITEMS: nat := 20
  const UPLOAD_FLUSH_MS_MOVING: uint32 := 30000
  const UPLOAD_FLUSH_MS_STATIONARY: uint32 := 60000

  /** The queue of a store in sync with its flash. */
  function Held(f: S.Flash, r: S.Ram, capacity: uint32): (q: seq<FixRecord>)
    requires InSync(f, r, capacity)
    ensures |q| == r.meta.count
  {
    Queue(f)
  }

  /** What pushing an unnumbered record does to the queue. */
  lemma PushHeld(f: S.Flash, r: S.Ram, capacity: uint32, record: FixRecord, io: S.PushIo)
    requires InSync(f, r, capacity) && Harmless(r.meta, io) && record.sequence_id == 0
    requires r.meta.generation < 0xFFFF_FFFF && r.meta.next_seq < 0xFFFF_FFFF
    ensures var p := S.Push(f, r, record, io);
      && InSync(p.flash, p.ram, capacity)
      && (p.ok <==> Terminated(record.recorded_at) && Landed(io))
      && Held(p.flash, p.ram, capacity)
         == if !p.ok then Held(f, r, capacity)
            else (if r.meta.count == capacity then Held(f, r, capacity)[1..] else Held(f, r, capacity))
                 + [record.(sequence_id := r.meta.next_seq)]
  {
    hide S.Push;
    hide DecodeRecord;
    hide FixQueue.DecodeMeta;
    ModuloSmall(r.meta.next_seq + 1, TWO_TO_THE_32);
    PushAtomic(f, r, capacity, record, io);
  }

  lemma Unnumbered(fix: LP.LocationPayload, sequenceId: uint32, bootId: uint32)
    requires LP.Representable(fix) && LP.InRange(fix)
    ensures var record := LP.ToRecord(fix, 0, bootId);
      && record.sequence_id == 0 && Terminated(record.recorded_at)
      && record.(sequence_id := sequenceId) == LP.ToRecord(fix, sequenceId, bootId)
  {
    hide LP.ValidFields;
    hide LP.Llround;
  }

  /** Scale and push, before any network attempt. */
  method Enqueue(store: PS.PersistentFixStore, fix: LP.LocationPayload, bootId: uint32, io: S.PushIo, ghost capacity: uint32)
    returns (ok: bool)
    requires LP.Representable(fix)
    requires InSync(store.fs.Image(), store.Ram(), capacity) && Harmless(store.meta, io)
    requires store.meta.generation < 0xFFFF_FFFF && store.meta.next_seq < 0xFFFF_FFFF
    modifies store, store.fs
    ensures InSync(store.fs.Image(), store.Ram(), capacity)
    ensures ok <==> LP.InRange(fix) && Landed(io)
    ensures !ok ==> Held(store.fs.Image(), store.Ram(), capacity) == old(Held(store.fs.Image(), store.Ram(), capacity))
    ensures ok ==>
      var q := old(Held(store.fs.Image(), store.Ram(), capacity));
      Held(store.fs.Image(), store.Ram(), capacity)
        == (if old(store.meta.count) == capacity then q[1..] else q) + [LP.ToRecord(fix, old(store.meta.next_seq), bootId)]
  {
    hide S.Push;
    hide InSync;
    hide Held;
    hide LP.Representable;
    hide LP.ToRecord;
    hide LP.InRange;
    var record := LP.LocationPayloadToFixRecord(fix, 0, bootId);
    if record == None {
      return false;
    }
    Unnumbered(fix, store.meta.next_seq, bootId);
    PushHeld(store.fs.Image(), store.Ram(), capacity, record.value, io);
    var pushed;
    ok, pushed := store.Push(record.value, io);
  }

  /** How many records a drain takes. */
  function BatchSize(count: nat, readable: nat): (n: nat)
    ensures n <= 20 && n <= count && n <= readable && n in {20, count, readable}
  {
    var wanted := if BATCH_MAX_ITEMS < count then BATCH_MAX_ITEMS else count;
    if wanted < readable then wanted else readable
  }

  lemma PeekHeld(f: S.Flash, r: S.Ram, capacity: uint32, readable: nat, resetIo: S.WriteOutcome)
    requires InSync(f, r, capacity)
    ensures S.Peek(f, r, BATCH_MAX_ITEMS, readable, resetIo)
      == S.PeekResult(Held(f, r, capacity)[..BatchSize(r.meta.count, readable)], f, r)
  {
    hide S.Peek;
    hide DecodeRecord;
    hide FixQueue.DecodeMeta;
    PeekPrefix(f, r, capacity, BATCH_MAX_ITEMS, readable, resetIo);
  }

  lemma AckHeld(f: S.Flash, r: S.Ram, capacity: uint32, n: nat, io: S.WriteOutcome)
    requires InSync(f, r, capacity) && r.meta.generation < 0xFFFF_FFFF && n <= r.meta.count
    ensures var a := S.AckFront(f, r, n, io);
      && InSync(a.flash, a.ram, capacity)
      && a.removed == (if io.Wrote? && io.bytes >= FixQueue.FIX_QUEUE_META_WIRE_SIZE then n else 0)
      && Held(a.flash, a.ram, capacity) == Held(f, r, capacity)[a.removed..]
  {
    hide S.AckFront;
    hide DecodeRecord;
    hide FixQueue.DecodeMeta;
    AckAtomic(f, r, capacity, n, io);
  }

  /** Peek the next batch into the static buffer. */
  method NextBatch(store: PS.PersistentFixStore, batch: array<FixRecord>, readable: nat, resetIo: S.WriteOutcome, ghost capacity: uint32)
    returns (toSend: nat)
    requires InSync(store.fs.Image(), store.Ram(), capacity) && batch.Length == BATCH_MAX_ITEMS
    modifies store, store.fs, batch
    ensures store.fs.Image() == old(store.fs.Image()) && store.Ram() == old(store.Ram())
    ensures toSend == BatchSize(store.meta.count, readable)
    ensures batch[..toSend] == Held(store.fs.Image(), store.Ram(), capacity)[..toSend]
  {
    hide S.Peek;
    hide InSync;
    hide Held;
    PeekHeld(store.fs.Image(), store.Ram(), capacity, readable, resetIo);
    ghost var next := Held(store.fs.Image(), store.Ram(), capacity)[..BatchSize(store.meta.count, readable)];
    toSend := store.Peek(batch, BATCH_MAX_ITEMS, readable, resetIo);
    assert batch[..toSend] == next && |batch[..toSend]| == |next|;
  }

  /** Post a batch, and report whether every record of it was confirmed. */
  method Upload(batch: array<FixRecord>, toSend: nat, link: Link, urlOk: bool, fits: Body -> bool)
    returns (result: TransportResult)
    requires 0 < toSend <= batch.Length == BATCH_MAX_ITEMS
    modifies link
    ensures old(link.log) <= link.log
    ensures !urlOk ==> result == CONFIG_ERROR && link.log == old(link.log)
    ensures urlOk ==> Disciplined(fits, Chunks(batch[..toSend]), link.log[|old(link.log)|..], result)
    ensures result == SENT <==> urlOk && Flatten(Confirmed(link.log[|old(link.log)|..])) == batch[..toSend]
  {
    hide Disciplined;
    hide Chunks;
    hide Confirmed;
    result := TransportPostBatch(batch, toSend, link, urlOk, fits);
    ghost var rs, log := batch[..toSend], link.log[|old(link.log)|..];
    if urlOk {
      SentMeansAllConfirmed(fits, Chunks(rs), log, result);
      FlattenChunks(rs);
      ConfirmedAllOrLess(rs, Confirmed(log));
    }
  }

  /** Chunks are never empty, so fewer of them hold fewer records. */
  lemma ConfirmedAllOrLess(rs: seq<FixRecord>, confirmed: seq<Body>)
    requires confirmed <= Chunks(rs)
    ensures Flatten(confirmed) == rs <==> confirmed == Chunks(rs)
  {
    hide Chunks;
    FlattenChunks(rs);
    assert Chunks(rs)[..|confirmed|] == confirmed;
    FlattenShorter(Chunks(rs), |confirmed|);
  }

  lemma {:induction false} FlattenShorter(bodies: seq<Body>, n: nat)
    requires n <= |bodies| && forall c :: c in bodies ==> |c| > 0
    ensures |Flatten(bodies[..n])| <= |Flatten(bodies)|
    ensures n < |bodies| ==> |Flatten(bodies[..n])| < |Flatten(bodies)|
  {
    if n > 0 {
      FlattenShorter(bodies[1..], n - 1);
      assert bodies[..n][1..] == bodies[1..][..n - 1];
    } else if bodies != [] {
      assert bodies[0] in bodies;
    }
  }

  /** One drain: gate, peek, post, and acknowledge only if every chunk got its
      201.  Whatever leaves the queue was confirmed, record for record. */
  method Drain(store: PS.PersistentFixStore, link: Link, now: uint32, queueReady: bool, cellularReady: bool,
               lastOpenMs: uint32, hasOpened: bool, motion: Sampling.MotionState, gpsOff: bool, urlOk: bool,
               fits: Body -> bool, readable: nat, resetIo: S.WriteOutcome, ackIo: S.WriteOutcome, ghost capacity: uint32)
    returns (result: Option<TransportResult>, acked: nat, radioOn: bool)
    requires InSync(store.fs.Image(), store.Ram(), capacity) && store.meta.generation < 0xFFFF_FFFF
    modifies store, store.fs, link
    ensures InSync(store.fs.Image(), store.Ram(), capacity)
    ensures radioOn <==>
      queueReady && cellularReady && old(store.meta.count) > 0
      && Sampling.RadioDue(now, old(store.meta.count), lastOpenMs, hasOpened, motion, 20, 30000, 60000)
    ensures !radioOn ==> result == None
    ensures result == None ==> acked == 0 && link.log == old(link.log)
    ensures old(link.log) <= link.log && acked <= |old(Held(store.fs.Image(), store.Ram(), capacity))|
    ensures Held(store.fs.Image(), store.Ram(), capacity) == old(Held(store.fs.Image(), store.Ram(), capacity))[acked..]
    ensures result.Some? <==> radioOn && gpsOff && readable > 0
    ensures result.Some? && !urlOk ==> result == Some(CONFIG_ERROR) && link.log == old(link.log)
    ensures result.Some? && urlOk ==>
      Disciplined(fits, Chunks(old(Held(store.fs.Image(), store.Ram(), capacity))[..BatchSize(old(store.meta.count), readable)]),
                  link.log[|old(link.log)|..], result.value)
    ensures acked
      == if result == Some(SENT) && ackIo.Wrote? && ackIo.bytes >= FixQueue.FIX_QUEUE_META_WIRE_SIZE
         then BatchSize(old(store.meta.count), readable) else 0
    ensures result == Some(SENT) ==>
      Flatten(Confirmed(link.log[|old(link.log)|..]))
        == old(Held(store.fs.Image(), store.Ram(), capacity))[..BatchSize(old(store.meta.count), readable)]
    ensures acked > 0 ==>
      Flatten(Confirmed(link.log[|old(link.log)|..])) == old(Held(store.fs.Image(), store.Ram(), capacity))[..acked]
    ensures forall fix :: fix in old(Held(store.fs.Image(), store.Ram(), capacity))[..acked] ==>
      Delivered(link.log[|old(link.log)|..], fix)
  {
    hide S.Peek;
    hide S.AckFront;
    hide InSync;
    hide Held;
    hide Confirmed;
    hide Disciplined;
    hide Chunks;
    hide Sampling.RadioDue;
    hide Delivered;
    ghost var f, r := store.fs.Image(), store.Ram();
    ghost var q := Held(f, r, capacity);
    assert q[0..] == q;
    if !queueReady || !cellularReady || store.meta.count == 0 {
      return None, 0, false;
    }
    if !Sampling.RadioDue(now, store.meta.count, lastOpenMs, hasOpened, motion, UPLOAD_BATCH_MIN_ITEMS,
                          UPLOAD_FLUSH_MS_MOVING, UPLOAD_FLUSH_MS_STATIONARY) {
      return None, 0, false;
    }
    var batch := new FixRecord[BATCH_MAX_ITEMS](_ => PS.PersistentFixStore.NoRecord());
    var toSend := NextBatch(store, batch, readable, resetIo, capacity);
    if toSend == 0 || !gpsOff {
      return None, 0, true;
    }
    var outcome := Upload(batch, toSend, link, urlOk, fits);
    if outcome != SENT {
      return Some(outcome), 0, true;
    }
    AckHeld(f, r, capacity, toSend, ackIo);
    forall fix | fix in q[..toSend]
      ensures Delivered(link.log[|old(link.log)|..], fix)
    {
      ConfirmedDelivered(link.log[|old(link.log)|..], fix);
    }
    acked := store.AckFront(toSend, ackIo);
    return Some(SENT), acked, true;
  }
}
