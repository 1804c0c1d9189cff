/** The delivery protocol from end to end, as a machine: one device with its
    flash ring, a link that may lose, delay and repeat requests, and a backend
    that commits or aborts.  Each action carries the outcome of everything the
    program does not control.  Power may fail in the middle of any flash write:
    that is the action with a torn outcome and `cut`. */
module Delivery {
  import opened Wire
  import opened FixRecordCodec
  import opened FixQueue
  import opened FixStore
  import opened StoreInvariant
  import opened StoreOperations
  import opened Ingest
  import opened Transport
  import LP = LocationPayload

  /** The device's identity, its ring size, the instant a timestamp names, and the
      ids under which the backend may know it from before: none for a new device. */
  datatype Env = Env(device: Device, capacity: uint32, instant: Timestamp -> Instant, held: set<int>)

  type Request = seq<Location>

  /** The peeked prefix, and how many of its records have been confirmed. */
  datatype Drain = Drain(batch: seq<FixRecord>, done: nat)

  datatype World = World(
    flash: Flash,
    ram: Option<Ram>,
    drain: Option<Drain>,
    server: Tables,
    refused: set<int>,
    inFlight: set<Request>,
    answered: set<Request>,
    // History: records by id once a reboot could see them, the ids whose push
    // returned true, the ids pushed out of a full ring, and the instants at which
    // the device's rows may stem from other than these records.
    seen: map<int, FixRecord>,
    promised: set<int>,
    dropped: set<int>,
    foreign: set<Instant>)

  datatype Action =
    | Boot(bootIo: BootIo)
    | Enqueue(record: FixRecord, pushIo: PushIo, cut: bool)
    | StartDrain(max: nat, readable: nat)
    | Post(request: Request)
    | Serve(request: Request, reported: bool)
    | OtherTraffic(items: seq<Location>, single: Location)
    | Confirm(request: Request)
    | GiveUp
    | Acknowledge(io: WriteOutcome, cut: bool)
    | PowerCut

  // The chunk of the drain that is being posted.
  function Chunk(d: Drain): seq<FixRecord>
    requires d.done <= |d.batch|
  {
    d.batch[d.done..d.done + ChunkSize(|d.batch| - d.done)]
  }

  /** The reading a record is sent as: unknown fields are left out, and an unknown
      battery voltage or signal strength may be filled with a live one. */
  predicate Reports(r: FixRecord, t: Telemetry) {
    var p := LP.FromRecord(r);
    && t.latitude == p.latitude && t.longitude == p.longitude
    && t.altitude == (if p.altitude != 0.0 then Some(p.altitude) else None)
    && t.speed == (if p.speed_mps > 0.0 then Some(p.speed_mps) else None)
    && t.accuracy == (if p.accuracy_m > 0.0 then Some(p.accuracy_m) else None)
    && (LP.Has(r.valid_fields, LP.FIX_FIELD_BATTERY) && p.battery_voltage > 0.0 ==> t.batteryVoltage == Some(p.battery_voltage))
    && (LP.Has(r.valid_fields, LP.FIX_FIELD_SIGNAL) && 0 <= p.signal_strength <= 31 ==> t.signalStrength == Some(p.signal_strength))
  }

  /** A request made from these records, in order. */
  predicate Carries(env: Env, q: Request, records: seq<FixRecord>) {
    |q| == |records|
    && forall i :: 0 <= i < |q| ==>
         q[i].device == env.device && q[i].sequenceId == records[i].sequence_id
         && q[i].recordedAt == env.instant(records[i].recorded_at) && Reports(records[i], q[i].fix)
  }

  /** The ids a 201 reports as permanently rejected: their first item is invalid. */
  function Refused(q: Request): set<int> {
    set i | 0 <= i < |q| && FirstOfId(q, i) && ValidateLocation(q[i]).Some? :: q[i].sequenceId
  }

  predicate Enabled(env: Env, w: World, a: Action) {
    match a
    case Boot(io) => w.ram.None? && io.readable > 0
    case Enqueue(record, io, cut) =>
      w.ram.Some? && w.drain.None? && record.sequence_id == 0 && Harmless(w.ram.value.meta, io)
    case StartDrain(max, readable) => w.ram.Some? && w.drain.None? && max <= BATCH_MAX_ITEMS
    case Post(q) =>
      w.drain.Some? && w.drain.value.done < |w.drain.value.batch| && Carries(env, q, Chunk(w.drain.value))
    case Serve(q, reported) => q in w.inFlight && forall l :: l in Accepted(q) ==> Storable(l)
    case OtherTraffic(items, single) => forall l :: l in items ==> l.device != env.device
    case Confirm(q) =>
      q in w.answered && w.drain.Some? && w.drain.value.done < |w.drain.value.batch| && Carries(env, q, Chunk(w.drain.value))
    case GiveUp => w.drain.Some?
    case Acknowledge(io, cut) => w.ram.Some? && w.drain.Some? && w.drain.value.done == |w.drain.value.batch|
    case PowerCut => true
  }

  const COLD: Ram := Ram(FixQueueMeta(0, 0, 0, 0, 0, 0, 0, 0), SlotA, 0, false)

  function DoBoot(env: Env, w: World, io: BootIo): World {
    var b := Begin(w.flash, COLD, env.capacity, io);
    w.(flash := b.flash, ram := if b.ok then Some(b.ram) else None)
  }

  function DoEnqueue(w: World, record: FixRecord, io: PushIo, cut: bool): World
    requires w.ram.Some?
  {
    var r := w.ram.value;
    var p := Push(w.flash, r, record, io);
    var front := Peek(w.flash, r, 1, 1, NotOpened).records;
    w.(flash := p.flash,
       ram := if cut then None else Some(p.ram),
       seen := if p.ok then w.seen[p.record.sequence_id := p.record] else w.seen,
       promised := if p.ok && !cut then w.promised + {p.record.sequence_id} else w.promised,
       dropped := if p.ok && FixQueueIsFull(r.meta) && front != [] then w.dropped + {front[0].sequence_id} else w.dropped)
  }

  function DoAcknowledge(w: World, io: WriteOutcome, cut: bool): World
    requires w.ram.Some? && w.drain.Some?
  {
    var a := AckFront(w.flash, w.ram.value, |w.drain.value.batch|, io);
    w.(flash := a.flash, ram := if cut then None else Some(a.ram), drain := None)
  }

  function DoServe(w: World, q: Request, reported: bool): World {
    w.(server := InsertAll(w.server, Accepted(q)),
       refused := if reported then w.refused + Refused(q) else w.refused,
       answered := if reported then w.answered + {q} else w.answered)
  }

  /** Batches of other devices, and a single location of any. */
  function DoOther(env: Env, w: World, items: seq<Location>, single: Location): World {
    w.(server := InsertRow(InsertAll(w.server, items), single),
       foreign := if single.device == env.device then w.foreign + {single.recordedAt} else w.foreign)
  }

  function Do(env: Env, w: World, a: Action): World
    requires Enabled(env, w, a)
  {
    match a
    case Boot(io) => DoBoot(env, w, io)
    case Enqueue(record, io, cut) => DoEnqueue(w, record, io, cut)
    case StartDrain(max, readable) =>
      var p := Peek(w.flash, w.ram.value, max, readable, NotOpened);
      w.(flash := p.flash, ram := Some(p.ram), drain := if p.records == [] then None else Some(Drain(p.records, 0)))
    case Post(q) => w.(inFlight := w.inFlight + {q})
    case Serve(q, reported) => DoServe(w, q, reported)
    case OtherTraffic(items, single) => DoOther(env, w, items, single)
    case Confirm(q) => w.(drain := Some(w.drain.value.(done := w.drain.value.done + |q|)))
    case GiveUp => w.(drain := None)
    case Acknowledge(io, cut) => DoAcknowledge(w, io, cut)
    case PowerCut => w.(ram := None, drain := None)
  }

  /** A new device: no meta on flash yet, power off, nothing sent.  The backend
      may hold anything for other devices. */
  predicate Init(env: Env, w: World) {
    && 0 < env.capacity <= MAX_CAPACITY
    && w.flash.Stored() == None && w.ram == None && w.drain == None
    && env.held == {}
    && Grounded(w.server) && (forall k :: k in w.server.keys ==> k.0 != env.device)
    && (forall p :: p in w.server.rows && p.0 == env.device ==> p.1 in w.foreign)
    && w.refused == {} && w.inFlight == {} && w.answered == {}
    && w.seen == map[] && w.promised == {} && w.dropped == {}
  }

  /** The world after a run, or None if some action of it was not enabled. */
  function After(env: Env, w: World, run: seq<Action>): Option<World> {
    if run == [] then Some(w)
    else
      match After(env, w, run[..|run| - 1])
      case None => None
      case Some(v) => if Enabled(env, v, run[|run| - 1]) then Some(Do(env, v, run[|run| - 1])) else None
  }

  lemma Next(env: Env, w: World, run: seq<Action>, a: Action)
    requires After(env, w, run).Some? && Enabled(env, After(env, w, run).value, a)
    ensures After(env, w, run + [a]) == Some(Do(env, After(env, w, run).value, a))
  {
    hide Do;
    hide Enabled;
    assert (run + [a])[..|run|] == run;
  }

  // ---- What a reboot would see, and how the device actions change it ----

  datatype View = View(queue: seq<FixRecord>, next: int, lost: int, generation: int)

  function Look(f: Flash, capacity: uint32): Option<View> {
    if Sound(f, capacity)
    then Some(View(Queue(f), f.Stored().value.next_seq, f.Stored().value.lost_count, f.Stored().value.generation))
    else None
  }

  /** Before the first commit nothing decodes; afterwards flash is sound. */
  predicate FlashOk(f: Flash, capacity: uint32) {
    0 < capacity <= MAX_CAPACITY && (f.Stored() == None || Sound(f, capacity))
  }

  lemma BootView(f: Flash, capacity: uint32, io: BootIo)
    requires FlashOk(f, capacity) && io.readable > 0
    ensures var b := Begin(f, COLD, capacity, io);
      && FlashOk(b.flash, capacity)
      && (Look(b.flash, capacity) == Look(f, capacity)
          || (Look(f, capacity) == None && Look(b.flash, capacity) == Some(View([], 1, 0, 1))))
      && (b.ok ==> InSync(b.flash, b.ram, capacity) && Look(b.flash, capacity).Some? && b.ram.meta.next_seq == Look(b.flash, capacity).value.next)
  {
    hide DecodeMeta;
    hide DecodeRecord;
    hide Peek;
    hide Commit;
    if f.Stored() == None {
      if io.mounted {
        BeginFresh(f, COLD, capacity, io);
      }
    } else if io.mounted && io.dataFile {
      BeginRecovers(f, COLD, capacity, io);
    }
  }

  lemma EnqueueView(f: Flash, r: Ram, capacity: uint32, record: FixRecord, io: PushIo)
    requires InSync(f, r, capacity) && Harmless(r.meta, io) && record.sequence_id == 0
    requires r.meta.generation < 0xFFFF_FFFF && r.meta.next_seq < 0xFFFF_FFFF && r.meta.lost_count < 0xFFFF_FFFF
    ensures Look(f, capacity).Some?
    ensures var p, v := Push(f, r, record, io), Look(f, capacity).value;
      && InSync(p.flash, p.ram, capacity) && r.meta.next_seq >= v.next > 0
      && p.ram.meta.next_seq in {r.meta.next_seq, r.meta.next_seq + 1}
      && p.record == record.(sequence_id := r.meta.next_seq)
      && (FixQueueIsFull(r.meta) <==> |v.queue| == capacity)
      && (if p.ok then
            Look(p.flash, capacity) == Some(
              if |v.queue| == capacity
              then View(v.queue[1..] + [p.record], r.meta.next_seq + 1, v.lost + 1, v.generation + 1)
              else View(v.queue + [p.record], r.meta.next_seq + 1, v.lost, v.generation + 1))
          else Look(p.flash, capacity) == Look(f, capacity))
  {
    hide DecodeMeta;
    hide DecodeRecord;
    hide Push;
    hide CoveredMeta;
    StoredNonZero(f);
    ModuloSmall(r.meta.next_seq + 1, TWO_TO_THE_32);
    ModuloSmall(r.meta.lost_count + 1, TWO_TO_THE_32);
    PushAtomic(f, r, capacity, record, io);
  }

  lemma AckView(f: Flash, r: Ram, capacity: uint32, n: nat, io: WriteOutcome)
    requires InSync(f, r, capacity) && r.meta.generation < 0xFFFF_FFFF
    ensures Look(f, capacity).Some?
    ensures var a, v := AckFront(f, r, n, io), Look(f, capacity).value;
      && InSync(a.flash, a.ram, capacity) && a.ram.meta.next_seq == r.meta.next_seq >= v.next
      && (Look(a.flash, capacity) == Some(v)
          || Look(a.flash, capacity) ==
               Some(View(v.queue[if n > |v.queue| then |v.queue| else n..], r.meta.next_seq, v.lost, v.generation + 1)))
  {
    hide DecodeMeta;
    hide DecodeRecord;
    hide AckFront;
    hide CoveredMeta;
    AckAtomic(f, r, capacity, n, io);
    var v := Look(f, capacity).value;
    assert v.queue[0..] == v.queue;
  }

  /** The acknowledgement whose write completes. */
  lemma AckLanded(f: Flash, r: Ram, capacity: uint32, n: nat)
    requires InSync(f, r, capacity) && r.meta.generation < 0xFFFF_FFFF && n > 0
    ensures Look(f, capacity).Some?
    ensures var a, q := AckFront(f, r, n, Wrote(32)), Look(f, capacity).value.queue;
      Look(a.flash, capacity).Some? && Look(a.flash, capacity).value.queue == q[if n > |q| then |q| else n..]
  {
    hide DecodeMeta;
    hide DecodeRecord;
    hide AckFront;
    hide CoveredMeta;
    AckAtomic(f, r, capacity, n, Wrote(32));
  }

  lemma PeekView(f: Flash, r: Ram, capacity: uint32, max: nat, readable: nat)
    requires InSync(f, r, capacity)
    ensures Look(f, capacity).Some?
    ensures var p, q := Peek(f, r, max, readable, NotOpened), Look(f, capacity).value.queue;
      && p.flash == f && p.ram == r && p.records <= q
      && (max > 0 && readable > 0 && q != [] ==> p.records != [])
  {
    hide DecodeMeta;
    hide DecodeRecord;
    hide Peek;
    PeekPrefix(f, r, capacity, max, readable, NotOpened);
  }

  // ---- The invariant ----

  function ViewOf(env: Env, w: World): Option<View> {
    Look(w.flash, env.capacity)
  }

  /** RAM, when powered, is in step with flash; counters grow by at most one per
      action; a drain works on a prefix of the queue. */
  predicate DeviceOk(env: Env, w: World, steps: nat) {
    && FlashOk(w.flash, env.capacity)
    && (w.ram.Some? ==> InSync(w.flash, w.ram.value, env.capacity) && w.ram.value.meta.next_seq <= steps + 1)
    && (ViewOf(env, w).Some? ==>
          var v := ViewOf(env, w).value; v.generation <= steps && v.lost <= steps && v.next <= steps + 1)
    && (w.drain.Some? ==>
          && w.ram.Some? && ViewOf(env, w).Some?
          && w.drain.value.batch <= ViewOf(env, w).value.queue
          && w.drain.value.done <= |w.drain.value.batch|)
  }

  predicate Ordered(q: seq<FixRecord>) {
    forall i, j :: 0 <= i < j < |q| ==> q[i].sequence_id < q[j].sequence_id
  }

  predicate Queued(q: seq<FixRecord>, id: int) {
    exists i :: 0 <= i < |q| && q[i].sequence_id == id
  }

  /** Ids in the queue increase and lie, with every id ever seen, below the
      stored next_seq; an id names one record; the dropped ones are counted. */
  predicate IdsOk(v: View, seen: map<int, FixRecord>, dropped: set<int>) {
    && Ordered(v.queue)
    && (forall i :: 0 <= i < |v.queue| ==> v.queue[i].sequence_id in seen && seen[v.queue[i].sequence_id] == v.queue[i])
    && (forall id :: id in seen ==> 0 < id < v.next && seen[id].sequence_id == id)
    && (forall id :: id in dropped ==> id in seen && !Queued(v.queue, id))
    && |dropped| == v.lost
  }

  predicate HistoryOk(env: Env, w: World) {
    && w.promised <= w.seen.Keys
    && match ViewOf(env, w)
       case Some(v) => IdsOk(v, w.seen, w.dropped)
       case None => w.seen == map[] && w.dropped == {}
  }

  /** This item is one of the records seen, as that record is sent. */
  predicate Own(env: Env, seen: map<int, FixRecord>, l: Location) {
    l.sequenceId in seen && l.recordedAt == env.instant(seen[l.sequenceId].recorded_at) && Reports(seen[l.sequenceId], l.fix)
  }

  /** What may reach the tables: items of other devices, the device's own, and
      those it sent in an earlier life. */
  predicate Legitimate(env: Env, seen: map<int, FixRecord>, foreign: set<Instant>, l: Location) {
    l.device != env.device || Own(env, seen, l) || (l.sequenceId in env.held && l.recordedAt in foreign)
  }

  /** No id comes twice in the request. */
  predicate OneEach(q: Request) {
    forall i, j :: 0 <= i < j < |q| ==> q[i].sequenceId != q[j].sequenceId
  }

  predicate LinkOk(env: Env, w: World) {
    && (forall q, l :: q in w.inFlight && l in q ==> l.device == env.device && Legitimate(env, w.seen, w.foreign, l))
    && (forall q :: q in w.inFlight ==> OneEach(q))
    && w.answered <= w.inFlight
  }

  /** The backend has dealt with this id for good. */
  predicate Disposed(env: Env, server: Tables, refused: set<int>, id: int) {
    (exists k :: k in server.keys && k == (env.device, id)) || id in refused
  }

  /** The device's keys name records seen, at their instants, unless held. */
  predicate KeysOk(env: Env, server: Tables, seen: map<int, FixRecord>) {
    forall k :: k in server.keys && k.0 == env.device ==>
      k.1 in env.held || (k.1 in seen && server.keys[k] == env.instant(seen[k.1].recorded_at))
  }

  /** This reading is that of a record seen with this instant. */
  predicate ReadingOf(env: Env, seen: map<int, FixRecord>, at: Instant, t: Telemetry) {
    exists id :: id in seen && env.instant(seen[id].recorded_at) == at && Reports(seen[id], t)
  }

  /** The device's rows hold readings of records seen, unless foreign. */
  predicate RowsOk(env: Env, server: Tables, seen: map<int, FixRecord>, foreign: set<Instant>) {
    forall p :: p in server.rows && p.0 == env.device ==> p.1 in foreign || ReadingOf(env, seen, p.1, server.rows[p])
  }

  predicate ServerOk(env: Env, w: World) {
    && Grounded(w.server) && KeysOk(env, w.server, w.seen) && RowsOk(env, w.server, w.seen, w.foreign)
    && (forall q, l :: q in w.answered && l in q ==> Disposed(env, w.server, w.refused, l.sequenceId))
  }

  /** An answered request carried this fix. */
  predicate Vouched(env: Env, answered: set<Request>, r: FixRecord) {
    exists q, l :: q in answered && l in q
      && l.device == env.device && l.sequenceId == r.sequence_id && l.recordedAt == env.instant(r.recorded_at)
  }

  /** What was confirmed is vouched for, and so is everything that left the queue
      without being dropped. */
  predicate AccountsOk(env: Env, w: World) {
    && (w.drain.Some? && w.drain.value.done <= |w.drain.value.batch| ==>
          forall i :: 0 <= i < w.drain.value.done ==> Vouched(env, w.answered, w.drain.value.batch[i]))
    && (ViewOf(env, w).Some? ==>
          forall id :: id in w.seen ==>
            Queued(ViewOf(env, w).value.queue, id) || id in w.dropped || Vouched(env, w.answered, w.seen[id]))
  }

  /** What is vouched for has been dealt with. */
  lemma VouchedDisposed(env: Env, w: World, r: FixRecord)
    requires ServerOk(env, w) && Vouched(env, w.answered, r)
    ensures Disposed(env, w.server, w.refused, r.sequence_id)
  {
    hide Disposed;
    hide KeysOk;
    hide RowsOk;
  }

  predicate Invariant(env: Env, w: World, steps: nat) {
    DeviceOk(env, w, steps) && HistoryOk(env, w) && LinkOk(env, w) && ServerOk(env, w) && AccountsOk(env, w)
  }

  // Parts of the invariant that an action leaves alone.

  predicate SeenWithin(w: World, w': World) {
    forall id :: id in w.seen ==> id in w'.seen && w'.seen[id] == w.seen[id]
  }

  lemma LinkFrame(env: Env, w: World, w': World)
    requires LinkOk(env, w) && SeenWithin(w, w') && w.foreign <= w'.foreign
    requires w'.inFlight == w.inFlight && w'.answered == w.answered
    ensures LinkOk(env, w')
  {
    hide Reports;
  }

  lemma ServerFrame(env: Env, w: World, w': World)
    requires ServerOk(env, w) && SeenWithin(w, w') && w.foreign <= w'.foreign
    requires w'.server == w.server && w'.refused == w.refused && w'.answered == w.answered
    ensures ServerOk(env, w')
  {
    hide Disposed;
    hide Reports;
    forall p | p in w.server.rows && p.0 == env.device && p.1 !in w'.foreign
      ensures ReadingOf(env, w'.seen, p.1, w.server.rows[p])
    {
      var id :| id in w.seen && env.instant(w.seen[id].recorded_at) == p.1 && Reports(w.seen[id], w.server.rows[p]);
      assert w'.seen[id] == w.seen[id];
    }
  }

  lemma BootKeeps(env: Env, w: World, a: Action, steps: nat)
    requires Invariant(env, w, steps) && a.Boot? && Enabled(env, w, a)
    ensures Invariant(env, Do(env, w, a), steps + 1)
  {
    hide Look;
    hide Begin;
    hide InSync;
    hide FlashOk;
    hide LinkOk;
    hide ServerOk;
    hide Disposed;
    BootView(w.flash, env.capacity, a.bootIo);
    LinkFrame(env, w, Do(env, w, a));
    ServerFrame(env, w, Do(env, w, a));
  }

  lemma StartDrainKeeps(env: Env, w: World, a: Action, steps: nat)
    requires Invariant(env, w, steps) && a.StartDrain? && Enabled(env, w, a)
    ensures Invariant(env, Do(env, w, a), steps)
  {
    hide Look;
    hide Peek;
    hide InSync;
    PeekView(w.flash, w.ram.value, env.capacity, a.max, a.readable);
  }

  lemma EnqueueKeeps(env: Env, w: World, record: FixRecord, io: PushIo, cut: bool, steps: nat)
    requires Invariant(env, w, steps) && w.ram.Some? && w.drain.None? && steps < MAX_STEPS
    requires record.sequence_id == 0 && Harmless(w.ram.value.meta, io)
    ensures Invariant(env, DoEnqueue(w, record, io, cut), steps + 1)
  {
    hide Look;
    hide Push;
    hide Peek;
    hide Harmless;
    hide IdsOk;
    hide InSync;
    hide FlashOk;
    hide LinkOk;
    hide ServerOk;
    hide AccountsOk;
    var r, w' := w.ram.value, DoEnqueue(w, record, io, cut);
    StillFlashOk(w.flash, r, env.capacity);
    CountersFit(w.flash, r, env.capacity, steps);
    EnqueueView(w.flash, r, env.capacity, record, io);
    PeekView(w.flash, r, env.capacity, 1, 1);
    var p, v := Push(w.flash, r, record, io), ViewOf(env, w).value;
    StillFlashOk(p.flash, p.ram, env.capacity);
    if p.ok {
      var front := Peek(w.flash, r, 1, 1, NotOpened).records;
      if |v.queue| == env.capacity {
        assert front[0] == v.queue[0];
      }
      AppendIds(v, w.seen, w.dropped, p.record, env.capacity, ViewOf(env, w').value);
      AppendKeepsAccounts(env, w, p.record, ViewOf(env, w').value, w');
    } else {
      SameAccounts(env, w, w');
    }
    LinkFrame(env, w, w');
    ServerFrame(env, w, w');
  }

  lemma SameAccounts(env: Env, w: World, w': World)
    requires AccountsOk(env, w) && ViewOf(env, w') == ViewOf(env, w) && w'.drain in {w.drain, None}
    requires w'.answered == w.answered && w'.seen == w.seen && w'.dropped == w.dropped
    ensures AccountsOk(env, w')
  {
    hide Look;
    hide Vouched;
  }

  lemma StillFlashOk(f: Flash, r: Ram, capacity: uint32)
    requires InSync(f, r, capacity)
    ensures FlashOk(f, capacity) && Look(f, capacity).Some?
  {
  }

  lemma CountersFit(f: Flash, r: Ram, capacity: uint32, steps: nat)
    requires InSync(f, r, capacity) && Look(f, capacity).Some? && steps < MAX_STEPS
    requires Look(f, capacity).value.generation <= steps && Look(f, capacity).value.lost <= steps && r.meta.next_seq <= steps + 1
    ensures r.meta.generation < 0xFFFF_FFFF && r.meta.next_seq < 0xFFFF_FFFF && r.meta.lost_count < 0xFFFF_FFFF
  {
    hide DecodeMeta;
    hide DecodeRecord;
  }

  /** Appending a record with a fresh id, and dropping the front if full, keeps
      the order of ids and the count of the dropped. */
  lemma AppendIds(v: View, seen: map<int, FixRecord>, dropped: set<int>, rec: FixRecord, capacity: nat, v': View)
    requires IdsOk(v, seen, dropped) && 0 < v.next <= rec.sequence_id < v'.next && capacity > 0
    requires v'.queue == (if |v.queue| == capacity then v.queue[1..] else v.queue) + [rec]
    requires v'.lost == v.lost + if |v.queue| == capacity then 1 else 0
    ensures IdsOk(v', seen[rec.sequence_id := rec],
                  dropped + if |v.queue| == capacity then {v.queue[0].sequence_id} else {})
    ensures rec.sequence_id !in seen
  {
    if |v.queue| == capacity {
      var w := View(v.queue[1..], v.next, v.lost + 1, v.generation);
      DropFront(v, seen, dropped, w);
      AppendLast(w, seen, dropped + {v.queue[0].sequence_id}, rec, v');
    } else {
      assert dropped + {} == dropped;
      AppendLast(v, seen, dropped, rec, v');
    }
  }

  lemma DropFront(v: View, seen: map<int, FixRecord>, dropped: set<int>, v': View)
    requires IdsOk(v, seen, dropped) && v.queue != []
    requires v'.queue == v.queue[1..] && v'.next == v.next && v'.lost == v.lost + 1
    ensures IdsOk(v', seen, dropped + {v.queue[0].sequence_id})
  {
    var q, q' := v.queue, v'.queue;
    assert forall i :: 0 <= i < |q'| ==> q'[i] == q[i + 1];
    assert Queued(q, q[0].sequence_id);
    assert q[0].sequence_id !in dropped;
  }

  lemma AppendLast(v: View, seen: map<int, FixRecord>, dropped: set<int>, rec: FixRecord, v': View)
    requires IdsOk(v, seen, dropped) && 0 < v.next <= rec.sequence_id < v'.next
    requires v'.queue == v.queue + [rec] && v'.lost == v.lost
    ensures IdsOk(v', seen[rec.sequence_id := rec], dropped) && rec.sequence_id !in seen
  {
    var q, q' := v.queue, v'.queue;
    assert forall i :: 0 <= i < |q| ==> q'[i] == q[i];
    assert forall id :: Queued(q', id) ==> Queued(q, id) || id == rec.sequence_id;
  }

  lemma AppendKeepsAccounts(env: Env, w: World, rec: FixRecord, v': View, w': World)
    requires ViewOf(env, w).Some? && AccountsOk(env, w)
    requires ViewOf(env, w') == Some(v') && w'.answered == w.answered && w'.drain == w.drain == None
    requires var q, full := ViewOf(env, w).value.queue, |ViewOf(env, w).value.queue| == env.capacity;
      && (full ==> q != []) && rec.sequence_id !in w.seen
      && v'.queue == (if full then q[1..] else q) + [rec]
      && w'.seen == w.seen[rec.sequence_id := rec]
      && w'.dropped == w.dropped + if full then {q[0].sequence_id} else {}
    ensures AccountsOk(env, w')
  {
    hide Look;
    hide Vouched;
    var q, q' := ViewOf(env, w).value.queue, v'.queue;
    var shift := if |q| == env.capacity then 1 else 0;
    forall id | id in w'.seen
      ensures Queued(q', id) || id in w'.dropped || Vouched(env, w'.answered, w'.seen[id])
    {
      if id == rec.sequence_id {
        assert q'[|q'| - 1].sequence_id == id;
      } else if Queued(q, id) {
        var i :| 0 <= i < |q| && q[i].sequence_id == id;
        if i >= shift {
          assert q'[i - shift] == q[i];
        }
      }
    }
  }

  lemma AcknowledgeKeeps(env: Env, w: World, io: WriteOutcome, cut: bool, steps: nat)
    requires Invariant(env, w, steps) && w.drain.Some? && w.drain.value.done == |w.drain.value.batch| && steps < MAX_STEPS
    ensures Invariant(env, DoAcknowledge(w, io, cut), steps + 1)
  {
    hide Look;
    hide AckFront;
    hide IdsOk;
    hide InSync;
    hide FlashOk;
    hide LinkOk;
    hide ServerOk;
    hide AccountsOk;
    var r, k, w' := w.ram.value, |w.drain.value.batch|, DoAcknowledge(w, io, cut);
    CountersFit(w.flash, r, env.capacity, steps);
    AckView(w.flash, r, env.capacity, k, io);
    StillFlashOk(w'.flash, AckFront(w.flash, r, k, io).ram, env.capacity);
    var v, v' := ViewOf(env, w).value, ViewOf(env, w').value;
    if v' != v {
      DropIds(v, w.seen, w.dropped, k, v');
      DropKeepsAccounts(env, w, k, w');
    } else {
      SameAccounts(env, w, w');
    }
    LinkFrame(env, w, w');
    ServerFrame(env, w, w');
  }

  lemma DropIds(v: View, seen: map<int, FixRecord>, dropped: set<int>, k: nat, v': View)
    requires IdsOk(v, seen, dropped) && k <= |v.queue| && v'.queue == v.queue[k..] && v'.next >= v.next && v'.lost == v.lost
    ensures IdsOk(v', seen, dropped)
  {
    assert forall i :: 0 <= i < |v'.queue| ==> v'.queue[i] == v.queue[i + k];
  }

  lemma DropKeepsAccounts(env: Env, w: World, k: nat, w': World)
    requires HistoryOk(env, w) && ViewOf(env, w).Some? && AccountsOk(env, w) && w.drain.Some?
    requires w.drain.value.done == |w.drain.value.batch| == k && w.drain.value.batch <= ViewOf(env, w).value.queue
    requires ViewOf(env, w').Some? && ViewOf(env, w').value.queue == ViewOf(env, w).value.queue[k..]
    requires w'.answered == w.answered && w'.drain == None && w'.seen == w.seen && w'.dropped == w.dropped
    ensures AccountsOk(env, w')
  {
    hide Look;
    hide Vouched;
    hide IdsOk;
    var q, q' := ViewOf(env, w).value.queue, ViewOf(env, w').value.queue;
    forall id | id in w'.seen
      ensures Queued(q', id) || id in w'.dropped || Vouched(env, w'.answered, w'.seen[id])
    {
      if Queued(q, id) {
        var i :| 0 <= i < |q| && q[i].sequence_id == id;
        if i < k {
          QueueSeen(ViewOf(env, w).value, w.seen, w.dropped, i);
          assert w.drain.value.batch[i] == q[i];
        } else {
          assert q'[i - k] == q[i];
        }
      }
    }
  }

  lemma PostKeeps(env: Env, w: World, a: Action, steps: nat)
    requires Invariant(env, w, steps) && a.Post? && Enabled(env, w, a)
    ensures Invariant(env, Do(env, w, a), steps)
  {
    hide Look;
    hide InSync;
    hide FlashOk;
    hide Disposed;
    hide IdsOk;
    hide AccountsOk;
    var d, v, w' := w.drain.value, ViewOf(env, w).value, w.(inFlight := w.inFlight + {a.request});
    hide LinkOk;
    RequestJoinsLink(env, w, v, d, a.request, w');
    SameAccounts(env, w, w');
    ServerFrame(env, w, w');
  }

  lemma RequestJoinsLink(env: Env, w: World, v: View, d: Drain, q: Request, w': World)
    requires LinkOk(env, w) && IdsOk(v, w.seen, w.dropped) && d.batch <= v.queue && d.done <= |d.batch|
    requires Carries(env, q, Chunk(d)) && w' == w.(inFlight := w.inFlight + {q})
    ensures LinkOk(env, w')
  {
    hide IdsOk;
    hide Reports;
    hide OneEach;
    ChunkOnce(env, w, v, d, q);
    forall l | l in q
      ensures l.device == env.device && Own(env, w.seen, l)
    {
      var i :| 0 <= i < |q| && q[i] == l;
      assert Chunk(d)[i] == d.batch[d.done + i] == v.queue[d.done + i];
      QueueSeen(v, w.seen, w.dropped, d.done + i);
    }
  }

  lemma ChunkOnce(env: Env, w: World, v: View, d: Drain, q: Request)
    requires IdsOk(v, w.seen, w.dropped) && d.batch <= v.queue && d.done <= |d.batch| && Carries(env, q, Chunk(d))
    ensures OneEach(q)
  {
    hide Reports;
    assert forall i :: 0 <= i < |q| ==> Chunk(d)[i] == v.queue[d.done + i];
  }

  lemma QueueSeen(v: View, seen: map<int, FixRecord>, dropped: set<int>, i: nat)
    requires IdsOk(v, seen, dropped) && i < |v.queue|
    ensures v.queue[i].sequence_id in seen && seen[v.queue[i].sequence_id] == v.queue[i]
  {
  }

  /** After a reported commit every item of the request is settled: its first
      occurrence was inserted, or was refused. */
  lemma RequestDisposed(env: Env, w: World, q: Request, l: Location)
    requires l in q && forall l :: l in q ==> l.device == env.device
    ensures Disposed(env, InsertAll(w.server, Accepted(q)), w.refused + Refused(q), l.sequenceId)
  {
    var n :| 0 <= n < |q| && q[n] == l;
    var i := FirstWithId(q, n);
    if ValidateLocation(q[i]).Some? {
      assert q[i].sequenceId in Refused(q);
    } else {
      var at := AcceptedPositions(q);
      assert i in at;
      var k :| 0 <= k < |at| && at[k] == i;
      assert q[i] in q;
      InsertAllKeys(w.server, Accepted(q), (env.device, l.sequenceId));
      assert KeyOf(Accepted(q)[k]) == (env.device, l.sequenceId);
    }
  }

  lemma {:induction false} FirstWithId(q: Request, n: nat) returns (i: nat)
    requires n < |q|
    ensures i <= n && q[i].sequenceId == q[n].sequenceId && FirstOfId(q, i)
  {
    i := n;
    if j :| 0 <= j < n && q[j].sequenceId == q[n].sequenceId {
      i := FirstWithId(q, j);
    }
  }

  lemma AcceptedFrom(q: Request, l: Location)
    requires l in Accepted(q)
    ensures l in q
  {
    var at := AcceptedPositions(q);
    var k :| 0 <= k < |Accepted(q)| && Accepted(q)[k] == l;
    assert q[at[k]] == l;
  }

  lemma DisposedGrows(env: Env, t: Tables, refused: set<int>, t': Tables, refused': set<int>, id: int)
    requires Disposed(env, t, refused, id) && t.keys.Keys <= t'.keys.Keys && refused <= refused'
    ensures Disposed(env, t', refused', id)
  {
  }

  lemma LinkGrows(env: Env, w: World, w': World)
    requires LinkOk(env, w) && w'.seen == w.seen && w.foreign <= w'.foreign
    requires w'.inFlight == w.inFlight && w'.answered <= w.inFlight
    ensures LinkOk(env, w')
  {
    hide Reports;
  }

  /** The server side grows, everything else stays. */
  lemma ServerGrows(env: Env, w: World, w': World, steps: nat)
    requires Invariant(env, w, steps)
    requires w' == w.(server := w'.server, refused := w'.refused, answered := w'.answered, foreign := w'.foreign)
    requires w.foreign <= w'.foreign
    requires w.answered <= w'.answered <= w.inFlight && ServerOk(env, w')
    ensures Invariant(env, w', steps)
  {
    hide Look;
    hide InSync;
    hide ServerOk;
    hide LinkOk;
    hide Vouched;
    LinkGrows(env, w, w');
    forall r | Vouched(env, w.answered, r)
      ensures Vouched(env, w'.answered, r)
    {
      VouchedGrows(env, w.answered, w'.answered, r);
    }
  }

  lemma VouchedGrows(env: Env, answered: set<Request>, answered': set<Request>, r: FixRecord)
    requires Vouched(env, answered, r) && answered <= answered'
    ensures Vouched(env, answered', r)
  {
  }

  /** Inserting legitimate items keeps the device's keys in order. */
  lemma LegitimateKeys(env: Env, t: Tables, seen: map<int, FixRecord>, foreign: set<Instant>, items: seq<Location>)
    requires KeysOk(env, t, seen) && forall l :: l in items ==> Legitimate(env, seen, foreign, l)
    ensures KeysOk(env, InsertAll(t, items), seen)
  {
    hide Reports;
    var t' := InsertAll(t, items);
    forall k | k in t'.keys && k.0 == env.device
      ensures k.1 in env.held || (k.1 in seen && t'.keys[k] == env.instant(seen[k.1].recorded_at))
    {
      InsertAllSource(t, items, k);
      if l :| l in items && KeyOf(l) == k && t'.keys[k] == l.recordedAt {
        assert Legitimate(env, seen, foreign, l);
      }
    }
  }

  /** And its rows. */
  lemma LegitimateRows(env: Env, t: Tables, seen: map<int, FixRecord>, foreign: set<Instant>, items: seq<Location>)
    requires RowsOk(env, t, seen, foreign) && forall l :: l in items ==> Legitimate(env, seen, foreign, l)
    ensures RowsOk(env, InsertAll(t, items), seen, foreign)
  {
    hide Reports;
    hide Brings;
    var t' := InsertAll(t, items);
    forall p | p in t'.rows && p.0 == env.device && p.1 !in foreign
      ensures ReadingOf(env, seen, p.1, t'.rows[p])
    {
      RowSource(t, items, p);
      if j :| 0 <= j < |items| && Brings(t, items, j) && PlaceOf(items[j]) == p && t'.rows[p] == items[j].fix {
        assert Legitimate(env, seen, foreign, items[j]);
        assert seen[items[j].sequenceId] == seen[items[j].sequenceId];
      }
    }
  }

  lemma ServeKeeps(env: Env, w: World, q: Request, reported: bool, steps: nat)
    requires Invariant(env, w, steps) && q in w.inFlight
    ensures Invariant(env, DoServe(w, q, reported), steps)
  {
    hide Look;
    hide InSync;
    hide Disposed;
    hide DeviceOk;
    hide HistoryOk;
    hide AccountsOk;
    hide Legitimate;
    hide KeysOk;
    hide RowsOk;
    var w' := DoServe(w, q, reported);
    var items := Accepted(q);
    GroundedKept(w.server, items, Location(0, 0, 0, Telemetry(0.0, 0.0, None, None, None, None, None)));
    InsertAllKeeps(w.server, items);
    forall l | l in items
      ensures Legitimate(env, w.seen, w.foreign, l)
    {
      AcceptedFrom(q, l);
    }
    LegitimateKeys(env, w.server, w.seen, w.foreign, items);
    LegitimateRows(env, w.server, w.seen, w.foreign, items);
    forall p, l | p in w'.answered && l in p
      ensures Disposed(env, w'.server, w'.refused, l.sequenceId)
    {
      if p in w.answered {
        DisposedGrows(env, w.server, w.refused, w'.server, w'.refused, l.sequenceId);
      } else {
        RequestDisposed(env, w, q, l);
      }
    }
    ServerGrows(env, w, w', steps);
  }

  lemma OtherTrafficKeeps(env: Env, w: World, items: seq<Location>, single: Location, steps: nat)
    requires Invariant(env, w, steps) && forall l :: l in items ==> l.device != env.device
    ensures Invariant(env, DoOther(env, w, items, single), steps)
  {
    hide Look;
    hide InSync;
    hide Disposed;
    hide DeviceOk;
    hide HistoryOk;
    hide AccountsOk;
    hide ReadingOf;
    var w' := DoOther(env, w, items, single);
    GroundedKept(w.server, items, single);
    GroundedKept(InsertAll(w.server, items), [], single);
    InsertAllKeeps(w.server, items);
    assert forall l :: l in items ==> Legitimate(env, w.seen, w.foreign, l);
    LegitimateKeys(env, w.server, w.seen, w.foreign, items);
    LegitimateRows(env, w.server, w.seen, w.foreign, items);
    forall p, l | p in w'.answered && l in p
      ensures Disposed(env, w'.server, w'.refused, l.sequenceId)
    {
      DisposedGrows(env, w.server, w.refused, w'.server, w'.refused, l.sequenceId);
    }
    ServerGrows(env, w, w', steps);
  }

  lemma ConfirmKeeps(env: Env, w: World, a: Action, steps: nat)
    requires Invariant(env, w, steps) && a.Confirm? && Enabled(env, w, a)
    ensures Invariant(env, Do(env, w, a), steps)
  {
    hide Look;
    hide InSync;
    hide FlashOk;
    hide ServerOk;
    hide IdsOk;
    hide LinkOk;
    var d, q := w.drain.value, a.request;
    var w' := w.(drain := Some(d.(done := d.done + |q|)));
    forall i | 0 <= i < d.done + |q|
      ensures Vouched(env, w.answered, d.batch[i])
    {
      if i >= d.done {
        assert Chunk(d)[i - d.done] == d.batch[i];
        assert q[i - d.done] in q;
      }
    }
    assert d.done + |q| <= |d.batch|;
    LinkFrame(env, w, w');
    ServerFrame(env, w, w');
  }

  lemma StopKeeps(env: Env, w: World, a: Action, steps: nat)
    requires Invariant(env, w, steps) && (a.GiveUp? || a.PowerCut?) && Enabled(env, w, a)
    ensures Invariant(env, Do(env, w, a), steps)
  {
    hide Look;
    hide InSync;
    hide FlashOk;
    hide IdsOk;
    hide LinkOk;
    hide ServerOk;
    hide AccountsOk;
    var w' := Do(env, w, a);
    SameAccounts(env, w, w');
    LinkFrame(env, w, w');
    ServerFrame(env, w, w');
  }

  /** Only booting, pushing and acknowledging move the device's counters. */
  function Cost(a: Action): nat {
    if a.Boot? || a.Enqueue? || a.Acknowledge? then 1 else 0
  }

  function Spent(run: seq<Action>): nat {
    if run == [] then 0 else Spent(run[..|run| - 1]) + Cost(run[|run| - 1])
  }

  const MAX_STEPS: nat := 0xFFFF_FFF0

  lemma ActionKeeps(env: Env, w: World, a: Action, steps: nat)
    requires Invariant(env, w, steps) && Enabled(env, w, a) && steps + Cost(a) < MAX_STEPS
    ensures Invariant(env, Do(env, w, a), steps + Cost(a))
  {
    hide Invariant;
    hide DoBoot;
    hide DoEnqueue;
    hide DoAcknowledge;
    hide DoServe;
    hide DoOther;
    match a
    case Boot(_) => BootKeeps(env, w, a, steps);
    case Enqueue(record, io, cut) => EnqueueKeeps(env, w, record, io, cut, steps);
    case StartDrain(_, _) => StartDrainKeeps(env, w, a, steps);
    case Post(_) => PostKeeps(env, w, a, steps);
    case Serve(q, reported) => ServeKeeps(env, w, q, reported, steps);
    case OtherTraffic(items, single) => OtherTrafficKeeps(env, w, items, single, steps);
    case Confirm(_) => ConfirmKeeps(env, w, a, steps);
    case GiveUp => StopKeeps(env, w, a, steps);
    case Acknowledge(io, cut) => AcknowledgeKeeps(env, w, io, cut, steps);
    case PowerCut => StopKeeps(env, w, a, steps);
  }

  /** The invariant survives every run, from wherever it holds. */
  lemma {:induction false} RunKeeps(env: Env, w: World, run: seq<Action>, steps: nat)
    requires Invariant(env, w, steps) && After(env, w, run).Some? && steps + Spent(run) < MAX_STEPS
    ensures Invariant(env, After(env, w, run).value, steps + Spent(run))
  {
    hide Enabled;
    hide Do;
    hide Invariant;
    hide Cost;
    if run != [] {
      var n := |run| - 1;
      RunKeeps(env, w, run[..n], steps);
      ActionKeeps(env, After(env, w, run[..n]).value, run[n], steps + Spent(run[..n]));
    }
  }

  lemma InitOk(env: Env, w: World)
    requires Init(env, w)
    ensures Invariant(env, w, 0)
  {
    hide Reports;
  }

  // ---- One exchange that succeeds ----

  /** A chunk was posted, served, and its 201 arrived. */
  function Exchanged(w: World, q: Request): World
    requires w.drain.Some?
  {
    DoServe(w.(inFlight := w.inFlight + {q}), q, true)
      .(drain := Some(w.drain.value.(done := w.drain.value.done + |q|)))
  }

  /** Ids taken from records fit the key column as soon as they are valid. */
  lemma AcceptedStorable(env: Env, q: Request, records: seq<FixRecord>)
    requires Carries(env, q, records)
    ensures forall l :: l in Accepted(q) ==> Storable(l)
  {
    hide Reports;
    hide ValidateRanges;
    hide Accepted;
    forall l | l in Accepted(q)
      ensures Storable(l)
    {
      AcceptedFrom(q, l);
      AcceptedDistinct(q);
      var k :| 0 <= k < |Accepted(q)| && Accepted(q)[k] == l;
      var i :| 0 <= i < |q| && q[i] == l;
      assert q[i].sequenceId == records[i].sequence_id;
    }
  }

  lemma ExchangeSteps(env: Env, v: World, q: Request)
    requires v.drain.Some? && v.drain.value.done < |v.drain.value.batch| && Carries(env, q, Chunk(v.drain.value))
    ensures var posted := v.(inFlight := v.inFlight + {q});
      var served := DoServe(posted, q, true);
      && Enabled(env, v, Post(q)) && Do(env, v, Post(q)) == posted
      && Enabled(env, posted, Serve(q, true)) && Do(env, posted, Serve(q, true)) == served
      && Enabled(env, served, Confirm(q)) && Do(env, served, Confirm(q)) == Exchanged(v, q)
  {
    hide Carries;
    hide DoServe;
    hide Accepted;
    hide Storable;
    AcceptedStorable(env, q, Chunk(v.drain.value));
    ServedWorld(v.(inFlight := v.inFlight + {q}), q);
  }

  lemma ExchangeRun(env: Env, w: World, run: seq<Action>, q: Request)
    requires After(env, w, run).Some?
    requires var v := After(env, w, run).value;
      v.drain.Some? && v.drain.value.done < |v.drain.value.batch| && Carries(env, q, Chunk(v.drain.value))
    ensures After(env, w, run + [Post(q)] + [Serve(q, true)] + [Confirm(q)]) == Some(Exchanged(After(env, w, run).value, q))
  {
    hide After;
    hide Enabled;
    hide Do;
    hide Exchanged;
    hide Carries;
    ExchangeSteps(env, After(env, w, run).value, q);
    Next(env, w, run, Post(q));
    Next(env, w, run + [Post(q)], Serve(q, true));
    Next(env, w, run + [Post(q)] + [Serve(q, true)], Confirm(q));
  }

  lemma ServedWorld(w: World, q: Request)
    ensures var v := DoServe(w, q, true);
      v == w.(server := v.server, refused := v.refused, answered := w.answered + {q})
  {
  }

  // ---- The theorems ----

  /** This fix is stored by the backend: its id is an ingest key under its own
      instant, and there is a location row at that instant. */
  predicate Stored(env: Env, server: Tables, id: int, r: FixRecord) {
    exists k :: k in server.keys && k == (env.device, id)
      && server.keys[k] == env.instant(r.recorded_at) && (env.device, env.instant(r.recorded_at)) in server.rows
  }

  /** No fix is unaccounted for, from any state that keeps the invariant. */
  lemma Accounted(env: Env, w: World, run: seq<Action>, steps: nat, id: int)
    requires Invariant(env, w, steps) && steps + Spent(run) < MAX_STEPS
    requires After(env, w, run).Some? && id in After(env, w, run).value.promised
    ensures var v := After(env, w, run).value;
      && id in v.seen && v.seen[id].sequence_id == id
      && Sound(v.flash, env.capacity)
      && (v.seen[id] in Queue(v.flash) || Disposed(env, v.server, v.refused, id) || id in v.dropped)
      && (Disposed(env, v.server, v.refused, id) ==>
            id in v.refused || id in env.held || Stored(env, v.server, id, v.seen[id]))
      && |v.dropped| == v.flash.Stored().value.lost_count
  {
    hide After;
    hide InSync;
    hide Reports;
    hide Spent;
    hide Vouched;
    hide LinkOk;
    hide RowsOk;
    RunKeeps(env, w, run, steps);
    var v := After(env, w, run).value;
    var q := ViewOf(env, v).value.queue;
    if Vouched(env, v.answered, v.seen[id]) {
      VouchedDisposed(env, v, v.seen[id]);
    }
    if Queued(q, id) {
      var i :| 0 <= i < |q| && q[i].sequence_id == id;
      assert q[i] == v.seen[id];
    }
    if Disposed(env, v.server, v.refused, id) && id !in v.refused && id !in env.held {
      var k :| k in v.server.keys && k == (env.device, id);
      assert (k.0, v.server.keys[k]) in v.server.rows;
    }
  }

  /** No silent loss.  In every run, whatever was lost, repeated, reordered or
      cut, a fix whose push returned true is still in the queue that a reboot
      would find, or stored by the backend, or refused by it as invalid, or one
      of the fixes that lost_count counts. */
  lemma NoSilentLoss(env: Env, w: World, run: seq<Action>, id: int)
    requires Init(env, w) && Spent(run) < MAX_STEPS
    requires After(env, w, run).Some? && id in After(env, w, run).value.promised
    ensures var v := After(env, w, run).value;
      && id in v.seen && v.seen[id].sequence_id == id
      && Sound(v.flash, env.capacity)
      && (v.seen[id] in Queue(v.flash) || Stored(env, v.server, id, v.seen[id]) || id in v.refused || id in v.dropped)
      && |v.dropped| == v.flash.Stored().value.lost_count
  {
    hide After;
    hide Spent;
    hide InSync;
    hide Invariant;
    InitOk(env, w);
    Accounted(env, w, run, 0, id);
  }

  /** The row of a stored fix holds its own reading, as it was sent, if no other
      fix has its instant and nothing else put a row there. */
  lemma StoredReading(env: Env, w: World, run: seq<Action>, steps: nat, id: int)
    requires Invariant(env, w, steps) && steps + Spent(run) < MAX_STEPS
    requires After(env, w, run).Some? && id in After(env, w, run).value.seen
    requires var v := After(env, w, run).value;
      && Stored(env, v.server, id, v.seen[id]) && env.instant(v.seen[id].recorded_at) !in v.foreign
    ensures var v := After(env, w, run).value;
      var at := env.instant(v.seen[id].recorded_at);
      && (env.device, at) in v.server.rows
      && ReadingOf(env, v.seen, at, v.server.rows[(env.device, at)])
      && ((forall other :: other in v.seen && other != id ==> env.instant(v.seen[other].recorded_at) != at) ==>
            Reports(v.seen[id], v.server.rows[(env.device, at)]))
  {
    hide After;
    hide InSync;
    hide Reports;
    hide Spent;
    hide DeviceOk;
    hide HistoryOk;
    hide LinkOk;
    hide AccountsOk;
    RunKeeps(env, w, run, steps);
  }

  /** What the backend holds for the device, it holds for good. */
  lemma {:induction false} KeysPersist(env: Env, w: World, run: seq<Action>, early: nat, k: IngestKey)
    requires After(env, w, run).Some? && early <= |run|
    ensures After(env, w, run[..early]).Some?
    ensures var u, v := After(env, w, run[..early]).value, After(env, w, run).value;
      k in u.server.keys ==> k in v.server.keys && v.server.keys[k] == u.server.keys[k]
  {
    hide Enabled;
    hide Do;
    if early == |run| {
      assert run[..early] == run;
    } else {
      var n := |run| - 1;
      KeysPersist(env, w, run[..n], early, k);
      assert run[..n][..early] == run[..early];
      var u := After(env, w, run[..n]).value;
      if k in u.server.keys {
        ActionKeepsKeys(env, u, run[n], k);
      }
    }
  }

  lemma ActionKeepsKeys(env: Env, w: World, a: Action, k: IngestKey)
    requires Enabled(env, w, a) && k in w.server.keys
    ensures k in Do(env, w, a).server.keys && Do(env, w, a).server.keys[k] == w.server.keys[k]
  {
    hide Begin;
    hide Push;
    hide Peek;
    hide AckFront;
    if a.Serve? {
      InsertAllKeeps(w.server, Accepted(a.request));
    } else if a.OtherTraffic? {
      InsertAllKeeps(w.server, a.items);
    }
  }

  /** Ids are never reused: in every run, a record that a reboot could see at one
      moment and a record that it could see at a later moment carry the same id
      only if they are the same record; and within the queue ids increase. */
  lemma IdsNeverReused(env: Env, w: World, run: seq<Action>, early: nat, x: FixRecord, y: FixRecord)
    requires Init(env, w) && Spent(run) < MAX_STEPS && early <= |run|
    requires VisibleAfter(env, w, run[..early], x) && VisibleAfter(env, w, run, y)
    ensures x.sequence_id == y.sequence_id ==> x == y
    ensures Ordered(ViewOf(env, After(env, w, run).value).value.queue)
  {
    hide After;
    hide Look;
    hide Spent;
    hide Reports;
    hide DeviceOk;
    hide LinkOk;
    hide ServerOk;
    hide AccountsOk;
    hide Init;
    InitOk(env, w);
    SpentBefore(run, early);
    RunKeeps(env, w, run[..early], 0);
    RunKeeps(env, w, run, 0);
    SeenGrows(env, w, run, early, 0);
  }

  /** A reboot at the end of the run would find this record in the queue. */
  predicate VisibleAfter(env: Env, w: World, run: seq<Action>, r: FixRecord) {
    && After(env, w, run).Some?
    && ViewOf(env, After(env, w, run).value).Some?
    && r in ViewOf(env, After(env, w, run).value).value.queue
  }

  lemma {:induction false} SpentBefore(run: seq<Action>, early: nat)
    requires early <= |run|
    ensures Spent(run[..early]) <= Spent(run)
  {
    if early == |run| {
      assert run[..early] == run;
    } else {
      var n := |run| - 1;
      SpentBefore(run[..n], early);
      assert run[..n][..early] == run[..early];
    }
  }

  lemma {:induction false} SeenGrows(env: Env, w: World, run: seq<Action>, early: nat, steps: nat)
    requires Invariant(env, w, steps) && steps + Spent(run) < MAX_STEPS && After(env, w, run).Some? && early <= |run|
    ensures After(env, w, run[..early]).Some?
    ensures var u, v := After(env, w, run[..early]).value, After(env, w, run).value;
      forall id :: id in u.seen ==> id in v.seen && v.seen[id] == u.seen[id]
  {
    hide Invariant;
    hide Enabled;
    hide Do;
    hide Cost;
    if early == |run| {
      assert run[..early] == run;
    } else {
      var n := |run| - 1;
      SeenGrows(env, w, run[..n], early, steps);
      assert run[..n][..early] == run[..early];
      RunKeeps(env, w, run[..n], steps);
      SeenOnce(env, After(env, w, run[..n]).value, run[n], steps + Spent(run[..n]));
    }
  }

  /** No action forgets an id or changes what it named. */
  lemma SeenOnce(env: Env, w: World, a: Action, steps: nat)
    requires Invariant(env, w, steps) && Enabled(env, w, a) && steps + Cost(a) < MAX_STEPS
    ensures var w' := Do(env, w, a);
      forall id :: id in w.seen ==> id in w'.seen && w'.seen[id] == w.seen[id]
  {
    hide Push;
    hide Peek;
    hide Begin;
    hide AckFront;
    hide InsertAll;
    hide Harmless;
    hide Invariant;
    if a.Enqueue? {
      NewIdFresh(env, w, a.record, a.pushIo, steps);
    }
  }

  /** A push draws an id that no record seen has. */
  lemma NewIdFresh(env: Env, w: World, record: FixRecord, io: PushIo, steps: nat)
    requires Invariant(env, w, steps) && w.ram.Some? && steps < MAX_STEPS
    requires record.sequence_id == 0 && Harmless(w.ram.value.meta, io)
    ensures Push(w.flash, w.ram.value, record, io).record.sequence_id !in w.seen
  {
    hide Look;
    hide Push;
    hide InSync;
    hide Harmless;
    hide LinkOk;
    hide ServerOk;
    hide AccountsOk;
    hide Ordered;
    hide Queued;
    var r := w.ram.value;
    StillFlashOk(w.flash, r, env.capacity);
    CountersFit(w.flash, r, env.capacity, steps);
    EnqueueView(w.flash, r, env.capacity, record, io);
  }
}
