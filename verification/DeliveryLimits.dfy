/** What the guards of the delivery theorems protect: runs that leave them, and
    exactly what is lost. */
module DeliveryLimits {
  import opened Wire
  import opened FixRecordCodec
  import opened FixQueue
  import opened FixStore
  import opened StoreInvariant
  import opened StoreOperations
  import opened Ingest
  import opened Delivery

  // ---- A push into a full ring that does not complete ----

  /** The power fails during a push into a full ring, after the data file was
      opened: the oldest fix is still there exactly if the bytes that arrived
      leave its slot decoding to it.  Otherwise it is nowhere: not in the queue,
      and not counted. */
  lemma FullRingGuardNeeded(env: Env, w: World, record: FixRecord, io: PushIo, steps: nat)
    requires Invariant(env, w, steps) && w.ram.Some? && FixQueueIsFull(w.ram.value.meta)
    requires record.sequence_id == 0 && Terminated(record.recorded_at) && io.data.Wrote? && !Landed(io)
    ensures var q, w' := Queue(w.flash), DoEnqueue(w, record, io, true);
      var seen, kept := Visible(w'.flash), DecodeRecord(FrontAfter(w.flash, w.ram.value, record, io.data)) == Some(Queue(w.flash)[0]);
      && q != [] && q[0].sequence_id in w'.seen && q[0].sequence_id !in w'.dropped
      && (seen.Some? && q[0] in seen.value.0 <==> kept)
      && (seen.Some? ==> seen.value.1 == w.flash.Stored().value.lost_count)
  {
    hide Push;
    hide Peek;
    hide DecodeMeta;
    hide DecodeRecord;
    hide Visible;
    hide FrontAfter;
    hide LinkOk;
    hide ServerOk;
    hide AccountsOk;
    var r, q := w.ram.value, Queue(w.flash);
    StillFlashOk(w.flash, r, env.capacity);
    FullRingOverwrite(w.flash, r, env.capacity, record, io);
    assert ViewOf(env, w).value.queue == q;
    assert Queued(q, q[0].sequence_id);
    NotAmongRest(q);
    var front := DecodeRecord(FrontAfter(w.flash, r, record, io.data));
    if front.Some? {
      assert forall x :: x in [front.value] + q[1..] <==> x == front.value || x in q[1..];
    }
  }

  lemma NotAmongRest(q: seq<FixRecord>)
    requires q != [] && Ordered(q)
    ensures q[0] !in q[1..]
  {
  }

  /** Every push into a full ring has a moment at which a power cut costs the
      whole queue: the next boot that can write resets the store.  RAM then holds
      no fix, no loss is counted, and ids start at 1 again. */
  lemma FullRingLosesAll(env: Env, w: World, record: FixRecord, bootIo: BootIo, steps: nat)
    requires Invariant(env, w, steps) && w.ram.Some? && FixQueueIsFull(w.ram.value.meta) && steps + 1 < MAX_STEPS
    requires record.sequence_id == 0 && Terminated(record.recorded_at)
    requires bootIo.mounted && bootIo.dataFile && bootIo.second.Wrote? && bootIo.second.bytes >= FIX_QUEUE_META_WIRE_SIZE
    ensures exists io ::
      var cut := DoEnqueue(w, record, io, true);
      var booted := DoBoot(env, cut, bootIo);
      && !Landed(io) && Visible(cut.flash) == None
      && booted.ram.Some? && booted.ram.value.meta == FixQueueMetaFresh(env.capacity).(generation := 1)
      && forall id :: Queued(Queue(w.flash), id) ==> id in booted.seen && id !in booted.dropped
  {
    hide Push;
    hide Peek;
    hide Begin;
    hide DecodeMeta;
    hide DecodeRecord;
    hide Visible;
    hide FatalCut;
    hide RecordImage;
    hide LinkOk;
    hide ServerOk;
    hide AccountsOk;
    var r, q := w.ram.value, Queue(w.flash);
    StillFlashOk(w.flash, r, env.capacity);
    CountersFit(w.flash, r, env.capacity, steps);
    FreshDiffers(env, w, record, steps);
    FullRingFatal(w.flash, r, env.capacity, record);
    var io := PushIo(Wrote(FatalCut(w.flash, r, record)), NotOpened);
    var cut := DoEnqueue(w, record, io, true);
    BeginKeepsIff(cut.flash, COLD, env.capacity, bootIo);
    assert ViewOf(env, w).value.queue == q;
    assert !Landed(io) && Visible(cut.flash) == None;
  }

  /** A new record is not the oldest one. */
  lemma FreshDiffers(env: Env, w: World, record: FixRecord, steps: nat)
    requires Invariant(env, w, steps) && w.ram.Some? && FixQueueIsFull(w.ram.value.meta) && record.sequence_id == 0
    ensures Queue(w.flash) != [] && Numbered(record, w.ram.value.meta) != Queue(w.flash)[0]
  {
    hide DecodeMeta;
    hide DecodeRecord;
    hide LinkOk;
    hide ServerOk;
    hide AccountsOk;
    StillFlashOk(w.flash, w.ram.value, env.capacity);
    assert ViewOf(env, w).value.queue == Queue(w.flash);
  }

  // ---- A boot that resets ----

  /** A boot that cannot read its front slot, and the first push after it: every
      waiting fix is gone from the device, uncounted; and id 1 is given again. */
  predicate Restarts(env: Env, w: World, bootIo: BootIo, record: FixRecord, pushIo: PushIo) {
    && w.ram.None? && w.flash.Stored().Some? && w.flash.Stored().value.count > 0
    && bootIo.readable == 0 && bootIo.mounted && bootIo.dataFile
    && bootIo.second.Wrote? && bootIo.second.bytes >= FIX_QUEUE_META_WIRE_SIZE
    && record.sequence_id == 0 && Terminated(record.recorded_at) && Landed(pushIo)
  }

  function Restarted(env: Env, w: World, bootIo: BootIo, record: FixRecord, pushIo: PushIo): World {
    var booted := DoBoot(env, w, bootIo);
    if booted.ram.None? then booted else DoEnqueue(booted, record, pushIo, false)
  }

  function First(record: FixRecord): FixRecord {
    record.(sequence_id := 1)
  }

  lemma RestartView(env: Env, w: World, bootIo: BootIo, record: FixRecord, pushIo: PushIo)
    requires 0 < env.capacity <= MAX_CAPACITY && Restarts(env, w, bootIo, record, pushIo)
    requires w.flash.Stored().value.capacity == env.capacity
    ensures DoBoot(env, w, bootIo).ram == Some(ResetDone(w.flash, env.capacity).ram)
    ensures var w' := Restarted(env, w, bootIo, record, pushIo);
      && w'.ram.Some? && InSync(w'.flash, w'.ram.value, env.capacity) && w'.ram.value.meta.next_seq == 2
      && ViewOf(env, w') == Some(View([First(record)], 2, 0, 2))
      && w' == w.(flash := w'.flash, ram := w'.ram, seen := w.seen[1 := First(record)], promised := w.promised + {1})
  {
    hide Push;
    hide Peek;
    hide Begin;
    hide DecodeMeta;
    hide DecodeRecord;
    hide MetaImage;
    hide CoveredMeta;
    BeginKeepsIff(w.flash, COLD, env.capacity, bootIo);
    PushAfterReset(w.flash, env.capacity, record, pushIo);
  }

  /** A reboot of this world would find the id in the queue. */
  predicate Waiting(env: Env, w: World, id: int) {
    ViewOf(env, w).Some? && Queued(ViewOf(env, w).value.queue, id)
  }

  lemma Capacity(env: Env, w: World, steps: nat)
    requires Invariant(env, w, steps) && w.flash.Stored().Some?
    ensures 0 < env.capacity <= MAX_CAPACITY && w.flash.Stored().value.capacity == env.capacity && ViewOf(env, w).Some?
  {
    hide DecodeMeta;
    hide DecodeRecord;
    hide HistoryOk;
    hide LinkOk;
    hide ServerOk;
    hide AccountsOk;
  }

  /** Both delivery theorems fail without the guard on boots.  A fix that waited,
      and that the backend had not dealt with, is neither queued nor counted nor
      stored; and id 1 now names another record than it did. */
  lemma ResetForgetsQueue(env: Env, w: World, bootIo: BootIo, record: FixRecord, pushIo: PushIo, steps: nat, id: int)
    requires Invariant(env, w, steps) && Restarts(env, w, bootIo, record, pushIo)
    requires Waiting(env, w, id) && !Disposed(env, w.server, w.refused, id)
    ensures var w' := Restarted(env, w, bootIo, record, pushIo);
      && ViewOf(env, w') == Some(View([First(record)], 2, 0, 2))
      && id in w.seen && !Disposed(env, w'.server, w'.refused, id) && id !in w'.dropped
      && (id != 1 ==> id in w'.seen && !Waiting(env, w', id))
      && 1 in w'.seen && w'.seen[1] == First(record)
      && (1 in w.seen && w.seen[1] != First(record) ==>
            w'.seen[1] != w.seen[1] && w'.seen[1].sequence_id == w.seen[1].sequence_id)
  {
    hide Disposed;
    hide Restarted;
    hide Look;
    hide Invariant;
    hide Queued;
    hide InSync;
    hide Restarts;
    WaitingSeen(env, w, steps, id);
    OneQueued(First(record), id);
    RestartedWorld(env, w, bootIo, record, pushIo, steps);
  }

  lemma WaitingSeen(env: Env, w: World, steps: nat, id: int)
    requires Invariant(env, w, steps) && Waiting(env, w, id)
    ensures id in w.seen && id !in w.dropped && forall other :: other in w.seen ==> w.seen[other].sequence_id == other
  {
    hide Look;
    hide DeviceOk;
    hide LinkOk;
    hide ServerOk;
    hide AccountsOk;
  }

  lemma OneQueued(r: FixRecord, id: int)
    ensures Queued([r], id) <==> id == r.sequence_id
  {
    assert [r][0] == r;
  }

  lemma CapacityOf(env: Env, w: World, steps: nat)
    requires Invariant(env, w, steps) && w.flash.Stored().Some?
    ensures 0 < env.capacity <= MAX_CAPACITY && w.flash.Stored().value.capacity == env.capacity
  {
    hide Look;
    Capacity(env, w, steps);
  }

  /** A new device, switched on, records its first fix, and loses power. */
  function OneFix(bootIo: BootIo, record: FixRecord, pushIo: PushIo): seq<Action> {
    [Boot(bootIo)] + [Enqueue(record, pushIo, false)] + [PowerCut]
  }

  lemma FirstFix(env: Env, w: World, bootIo: BootIo, record: FixRecord, pushIo: PushIo)
    requires Init(env, w)
    requires bootIo.mounted && bootIo.dataFile && bootIo.readable > 0
    requires bootIo.first.Wrote? && bootIo.first.bytes >= FIX_QUEUE_META_WIRE_SIZE
    requires record.sequence_id == 0 && Terminated(record.recorded_at) && Landed(pushIo)
    ensures var run := OneFix(bootIo, record, pushIo);
      && After(env, w, run).Some? && Spent(run) == 2
      && var v := After(env, w, run).value;
         && v.ram.None? && v.drain.None? && v.server == w.server && v.refused == {}
         && v.seen == map[1 := First(record)] && v.promised == {1}
         && ViewOf(env, v) == Some(View([First(record)], 2, 0, 2))
         && v.flash.Stored().Some? && v.flash.Stored().value.count > 0
  {
    hide After;
    hide Enabled;
    hide Init;
    hide Look;
    hide DoBoot;
    hide DoEnqueue;
    hide Terminated;
    FirstBoot(env, w, bootIo);
    var u := DoBoot(env, w, bootIo);
    var v := DoEnqueue(u, record, pushIo, false);
    var booted := [Boot(bootIo)];
    FirstPush(env, w, u, record, pushIo);
    NoRun(env, w);
    Next(env, w, [], Boot(bootIo));
    assert [] + booted == booted;
    Next(env, w, booted, Enqueue(record, pushIo, false));
    StopsHere(env, v);
    Next(env, w, booted + [Enqueue(record, pushIo, false)], PowerCut);
    SpentOne([], Boot(bootIo));
    SpentOne(booted, Enqueue(record, pushIo, false));
    SpentOne(booted + [Enqueue(record, pushIo, false)], PowerCut);
  }

  lemma FirstBoot(env: Env, w: World, bootIo: BootIo)
    requires Init(env, w)
    requires bootIo.mounted && bootIo.dataFile && bootIo.readable > 0
    requires bootIo.first.Wrote? && bootIo.first.bytes >= FIX_QUEUE_META_WIRE_SIZE
    ensures Enabled(env, w, Boot(bootIo)) && w.refused == {} && w.seen == map[] && w.promised == {}
    ensures var u := DoBoot(env, w, bootIo);
      && u == w.(flash := u.flash, ram := u.ram) && u.drain.None? && 0 < env.capacity <= MAX_CAPACITY
      && u.ram.Some? && InSync(u.flash, u.ram.value, env.capacity) && ViewOf(env, u) == Some(View([], 1, 0, 1))
      && u.ram.value.meta.next_seq == 1 && u.ram.value.meta.generation == 1
  {
    hide Begin;
    hide DecodeMeta;
    hide DecodeRecord;
    hide Grounded;
    BeginFresh(w.flash, COLD, env.capacity, bootIo);
  }

  lemma FirstPush(env: Env, w: World, u: World, record: FixRecord, pushIo: PushIo)
    requires u == w.(flash := u.flash, ram := u.ram) && w.refused == {} && w.seen == map[] && w.promised == {} && u.drain.None?
    requires u.ram.Some? && InSync(u.flash, u.ram.value, env.capacity) && ViewOf(env, u) == Some(View([], 1, 0, 1))
    requires u.ram.value.meta.next_seq == 1 && u.ram.value.meta.generation == 1
    requires record.sequence_id == 0 && Terminated(record.recorded_at) && Landed(pushIo) && 0 < env.capacity
    ensures Enabled(env, u, Enqueue(record, pushIo, false))
    ensures var v := DoEnqueue(u, record, pushIo, false);
      && v.drain.None? && v.server == w.server && v.refused == {}
      && v.seen == map[1 := First(record)] && v.promised == {1}
      && ViewOf(env, v) == Some(View([First(record)], 2, 0, 2))
      && v.flash.Stored().Some? && v.flash.Stored().value.count > 0
  {
    hide Push;
    hide Peek;
    hide Look;
    hide Terminated;
    hide InSync;
    hide Published;
    hide FixQueueIsFull;
    var r := u.ram.value;
    EmptyRing(u.flash, r, env.capacity);
    PushLands(u.flash, r, env.capacity, record, pushIo);
    EnqueueView(u.flash, r, env.capacity, record, pushIo);
    var p := Push(u.flash, r, record, pushIo);
    ShownCounted(p.flash, env.capacity);
    assert [] + [p.record] == [p.record];
  }

  /** What an empty view says about RAM. */
  lemma EmptyRing(f: Flash, r: Ram, capacity: uint32)
    requires InSync(f, r, capacity) && r.meta.next_seq == 1 && r.meta.generation == 1
    requires Look(f, capacity) == Some(View([], 1, 0, 1)) && capacity > 0
    ensures !FixQueueIsFull(r.meta) && r.meta.lost_count == 0 && Published(r.meta, 1).next_seq == 2
  {
    hide DecodeMeta;
    hide DecodeRecord;
    ModuloSmall(2, TWO_TO_THE_32);
  }

  /** A stored queue that shows a record has a positive count. */
  lemma ShownCounted(f: Flash, capacity: uint32)
    requires Look(f, capacity).Some? && Look(f, capacity).value.queue != []
    ensures f.Stored().Some? && f.Stored().value.count > 0
  {
    hide DecodeMeta;
    hide DecodeRecord;
  }

  lemma StopsHere(env: Env, v: World)
    ensures Enabled(env, v, PowerCut) && Do(env, v, PowerCut) == v.(ram := None, drain := None)
  {
  }

  lemma SpentOne(run: seq<Action>, a: Action)
    ensures Spent(run + [a]) == Spent(run) + Cost(a)
  {
    assert (run + [a])[..|run|] == run;
  }

  /** Such boots are reached from a new device: its first fix is lost from the
      device, uncounted and stored nowhere, and the second record that a reboot
      can see under id 1 is a different one. */
  lemma ResetReusesId(env: Env, w: World, firstIo: BootIo, one: FixRecord, oneIo: PushIo,
                      bootIo: BootIo, two: FixRecord, twoIo: PushIo)
    requires Init(env, w) && First(one) != First(two)
    requires firstIo.mounted && firstIo.dataFile && firstIo.readable > 0
    requires firstIo.first.Wrote? && firstIo.first.bytes >= FIX_QUEUE_META_WIRE_SIZE
    requires one.sequence_id == 0 && Terminated(one.recorded_at) && Landed(oneIo)
    requires bootIo.readable == 0 && bootIo.mounted && bootIo.dataFile
    requires bootIo.second.Wrote? && bootIo.second.bytes >= FIX_QUEUE_META_WIRE_SIZE
    requires two.sequence_id == 0 && Terminated(two.recorded_at) && Landed(twoIo)
    ensures var run := OneFix(firstIo, one, oneIo);
      && VisibleAfter(env, w, run, First(one)) && 1 in After(env, w, run).value.promised
      && var v := After(env, w, run).value;
         && Restarts(env, v, bootIo, two, twoIo)
         && var v' := Restarted(env, v, bootIo, two, twoIo);
            && ViewOf(env, v') == Some(View([First(two)], 2, 0, 2))
            && First(one) !in ViewOf(env, v').value.queue && !Disposed(env, v'.server, v'.refused, 1)
            && First(one).sequence_id == First(two).sequence_id && 1 !in v'.dropped
  {
    hide After;
    hide Look;
    hide Restarted;
    hide Spent;
    hide Grounded;
    var run := OneFix(firstIo, one, oneIo);
    FirstFix(env, w, firstIo, one, oneIo);
    var v := After(env, w, run).value;
    OneId(First(one));
    InitOk(env, w);
    RunKeeps(env, w, run, 0);
    ResetForgetsQueue(env, v, bootIo, two, twoIo, 2, 1);
  }

  // ---- The life after a reset ----

  /** The ids under which the backend knows the device or may come to know it from
      requests still under way, and the instants of such rows. */
  function KnownIds(env: Env, w: World): set<int> {
    (set k | k in w.server.keys && k.0 == env.device :: k.1) + (set q, l | q in w.inFlight && l in q :: l.sequenceId)
  }

  function KnownInstants(env: Env, w: World): set<Instant> {
    (set p | p in w.server.rows && p.0 == env.device :: p.1) + (set q, l | q in w.inFlight && l in q :: l.recordedAt)
  }

  /** The same device, with what the backend holds from before. */
  function Heir(env: Env, w: World): Env {
    env.(held := KnownIds(env, w))
  }

  /** The same world, with a history that begins at the first push. */
  function Reborn(env: Env, w: World, first: FixRecord): World {
    w.(refused := {}, answered := {}, seen := map[1 := first], promised := {1}, dropped := {}, foreign := KnownInstants(env, w))
  }

  /** After a reset and a first push the invariant holds again, for the new life;
      so whatever is proved from the invariant holds for it too. */
  lemma NewLife(env: Env, w: World, bootIo: BootIo, record: FixRecord, pushIo: PushIo, steps: nat)
    requires Invariant(env, w, steps) && Restarts(env, w, bootIo, record, pushIo)
    ensures var w' := Restarted(env, w, bootIo, record, pushIo);
      Invariant(Heir(env, w'), Reborn(env, w', First(record)), 2)
  {
    hide Restarted;
    hide Reports;
    var w' := Restarted(env, w, bootIo, record, pushIo);
    CapacityOf(env, w, steps);
    RestartView(env, w, bootIo, record, pushIo);
    NewLifeServer(env, w, w', First(record), steps);
    NewLifeDevice(env, w', First(record));
  }

  lemma NewLifeServer(env: Env, w: World, w': World, first: FixRecord, steps: nat)
    requires Invariant(env, w, steps) && w'.server == w.server && w'.inFlight == w.inFlight
    ensures LinkOk(Heir(env, w'), Reborn(env, w', first)) && ServerOk(Heir(env, w'), Reborn(env, w', first))
  {
    hide DeviceOk;
    hide HistoryOk;
    hide AccountsOk;
    hide Reports;
    hide Disposed;
    hide ReadingOf;
    var e, v := Heir(env, w'), Reborn(env, w', first);
    forall q, l | q in v.inFlight && l in q
      ensures l.device == e.device && Legitimate(e, v.seen, v.foreign, l)
    {
      assert l.sequenceId in e.held && l.recordedAt in v.foreign;
    }
  }

  lemma NewLifeDevice(env: Env, w: World, first: FixRecord)
    requires 0 < env.capacity <= MAX_CAPACITY && w.drain.None?
    requires w.ram.Some? && InSync(w.flash, w.ram.value, env.capacity) && w.ram.value.meta.next_seq == 2
    requires ViewOf(env, w) == Some(View([first], 2, 0, 2)) && first.sequence_id == 1
    ensures var e, v := Heir(env, w), Reborn(env, w, first);
      DeviceOk(e, v, 2) && HistoryOk(e, v) && AccountsOk(e, v)
  {
    hide Look;
    hide InSync;
    hide Sound;
    hide IdsOk;
    hide Queued;
    hide KnownIds;
    hide KnownInstants;
    hide Disposed;
    StillFlashOk(w.flash, w.ram.value, env.capacity);
    OneId(first);
  }

  lemma OneId(first: FixRecord)
    requires first.sequence_id == 1
    ensures IdsOk(View([first], 2, 0, 2), map[1 := first], {}) && Queued([first], 1)
  {
    assert [first][0].sequence_id == 1;
  }

  // ---- When a fix that was dealt with is stored ----

  /** The backend is given an item with this key and this instant, and takes it up. */
  predicate Brings(a: Action, k: (Device, int), at: Instant) {
    a.Serve? && exists l :: l in Accepted(a.request) && KeyOf(l) == k && l.recordedAt == at
  }

  /** The key is free, or stands for this very instant. */
  predicate Free(server: Tables, k: (Device, int), at: Instant) {
    k in server.keys ==> server.keys[k] == at
  }

  /** Since the life began, a request that was not answered before and now is, was
      served; and what it refused is known to be refused. */
  lemma {:induction false} AnsweredServed(env: Env, w: World, run: seq<Action>, q: Request) returns (n: nat)
    requires After(env, w, run).Some? && q in After(env, w, run).value.answered && q !in w.answered
    ensures n < |run| && run[n] == Serve(q, true) && Refused(q) <= After(env, w, run).value.refused
  {
    hide Enabled;
    hide Refused;
    n := |run| - 1;
    var u := After(env, w, run[..n]).value;
    AnsweredOnce(env, u, run[n]);
    if q in u.answered {
      n := AnsweredServed(env, w, run[..n], q);
    }
  }

  lemma AnsweredOnce(env: Env, w: World, a: Action)
    requires Enabled(env, w, a)
    ensures var w' := Do(env, w, a);
      && w.refused <= w'.refused
      && forall q :: q in w'.answered && q !in w.answered ==> a == Serve(q, true) && Refused(q) <= w'.refused
  {
    hide Begin;
    hide Push;
    hide Peek;
    hide AckFront;
    hide Refused;
    hide InsertAll;
  }

  /** In a request without repeated ids, whatever is not refused is taken up. */
  lemma TakenUp(q: Request, l: Location)
    requires OneEach(q) && l in q && l.sequenceId !in Refused(q)
    ensures l in Accepted(q)
  {
    hide ValidateLocation;
    hide Accepted;
    var i :| 0 <= i < |q| && q[i] == l;
    assert FirstOfId(q, i);
    var at := AcceptedPositions(q);
    assert i in at;
    var k :| 0 <= k < |at| && at[k] == i;
    assert Accepted(q)[k] == l;
  }

  /** A promised fix that is nowhere on the device, and was neither dropped nor
      refused, has been given to the backend in this life. */
  lemma GoneServed(env: Env, w: World, run: seq<Action>, steps: nat, id: int) returns (n: nat)
    requires Invariant(env, w, steps) && steps + Spent(run) < MAX_STEPS && w.answered == {}
    requires After(env, w, run).Some? && id in After(env, w, run).value.promised
    requires var v := After(env, w, run).value; !Waiting(env, v, id) && id !in v.refused && id !in v.dropped
    ensures var v := After(env, w, run).value;
      id in v.seen && n < |run| && Brings(run[n], (env.device, id), env.instant(v.seen[id].recorded_at))
  {
    hide After;
    hide Look;
    hide Spent;
    hide Accepted;
    hide Refused;
    hide ServerOk;
    hide DeviceOk;
    hide OneEach;
    RunKeeps(env, w, run, steps);
    var v := After(env, w, run).value;
    var q, l :| q in v.answered && l in q
      && l.device == env.device && l.sequenceId == id && l.recordedAt == env.instant(v.seen[id].recorded_at);
    n := AnsweredServed(env, w, run, q);
    TakenUp(q, l);
  }

  /** What one taken-up item decides: afterwards its key stands for its instant if
      and only if it was free, or already did. */
  lemma BroughtIffFree(t: Tables, q: Request, k: IngestKey, at: Instant)
    requires Brings(Serve(q, true), k, at)
    ensures var t' := InsertAll(t, Accepted(q));
      k in t'.keys && (t'.keys[k] == at <==> Free(t, k, at))
  {
    hide InsertAll;
    hide Accepted;
    var items := Accepted(q);
    var l :| l in items && KeyOf(l) == k && l.recordedAt == at;
    InsertAllKeys(t, items, k);
    var i :| 0 <= i < |items| && items[i] == l;
    InsertAllKeeps(t, items);
    InsertAllSource(t, items, k);
    AcceptedDistinct(q);
  }

  /** Every time the backend is given a fix decides the same: at the end its key
      stands for its instant if and only if it was free just before, or did. */
  lemma DecidedByServe(env: Env, w: World, run: seq<Action>, n: nat, k: (Device, int), at: Instant)
    requires After(env, w, run).Some? && n < |run| && Brings(run[n], k, at)
    ensures After(env, w, run[..n]).Some?
    ensures var u, v := After(env, w, run[..n]).value, After(env, w, run).value;
      k in v.server.keys && (v.server.keys[k] == at <==> Free(u.server, k, at))
  {
    hide After;
    hide Accepted;
    hide Free;
    var l :| l in Accepted(run[n].request) && KeyOf(l) == k && l.recordedAt == at;
    KeysPersist(env, w, run, n, KeyOf(l));
    KeysPersist(env, w, run, n + 1, KeyOf(l));
    ServedAt(env, w, run, n);
    BroughtIffFree(After(env, w, run[..n]).value.server, run[n].request, KeyOf(l), at);
  }

  lemma ServedAt(env: Env, w: World, run: seq<Action>, n: nat)
    requires n < |run| && run[n].Serve? && After(env, w, run[..n + 1]).Some?
    ensures After(env, w, run[..n]).Some?
    ensures After(env, w, run[..n + 1]).value.server
            == InsertAll(After(env, w, run[..n]).value.server, Accepted(run[n].request))
  {
    hide Enabled;
    hide InsertAll;
    hide Accepted;
    assert run[..n + 1][..n] == run[..n];
  }

  /** A fix that has left the queue and was neither dropped nor refused has been
      given to the backend; and it is stored if and only if, just before that, its
      key was free or held the very instant of the fix.  That is so for the first
      time and for every repetition. */
  lemma StoredIffFree(env: Env, w: World, run: seq<Action>, steps: nat, id: int)
    requires Invariant(env, w, steps) && steps + Spent(run) < MAX_STEPS && w.answered == {}
    requires After(env, w, run).Some? && id in After(env, w, run).value.promised
    requires var v := After(env, w, run).value; !Waiting(env, v, id) && id !in v.refused && id !in v.dropped
    ensures var v := After(env, w, run).value;
      && id in v.seen
      && var at, k := env.instant(v.seen[id].recorded_at), (env.device, id);
         && (exists n :: 0 <= n < |run| && Brings(run[n], k, at))
         && forall n :: 0 <= n < |run| && Brings(run[n], k, at) ==>
              && After(env, w, run[..n]).Some?
              && (Stored(env, v.server, id, v.seen[id]) <==> Free(After(env, w, run[..n]).value.server, k, at))
  {
    hide After;
    hide Spent;
    hide Brings;
    hide Free;
    hide Invariant;
    hide Waiting;
    hide Stored;
    hide Grounded;
    var first := GoneServed(env, w, run, steps, id);
    var v := After(env, w, run).value;
    var at, k := env.instant(v.seen[id].recorded_at), (env.device, id);
    RunGrounded(env, w, run, steps);
    forall n | 0 <= n < |run| && Brings(run[n], k, at)
      ensures After(env, w, run[..n]).Some?
      ensures Stored(env, v.server, id, v.seen[id]) <==> Free(After(env, w, run[..n]).value.server, k, at)
    {
      DecidedByServe(env, w, run, n, k, at);
      StoredIffKey(env, v.server, id, v.seen[id]);
    }
  }

  lemma RunGrounded(env: Env, w: World, run: seq<Action>, steps: nat)
    requires Invariant(env, w, steps) && steps + Spent(run) < MAX_STEPS && After(env, w, run).Some?
    ensures Grounded(After(env, w, run).value.server)
  {
    hide After;
    hide Spent;
    hide DeviceOk;
    hide HistoryOk;
    hide LinkOk;
    hide AccountsOk;
    RunKeeps(env, w, run, steps);
  }

  lemma StoredIffKey(env: Env, server: Tables, id: int, r: FixRecord)
    requires Grounded(server)
    ensures Stored(env, server, id, r)
            <==> (env.device, id) in server.keys && server.keys[(env.device, id)] == env.instant(r.recorded_at)
  {
    if j :| j in server.keys && j == (env.device, id) {
      assert (j.0, server.keys[j]) in server.rows;
    }
  }

  /** In a life whose earlier requests have all arrived, what counts is whether the
      key was free when that life began. */
  lemma StoredIffFreeAtStart(env: Env, w: World, run: seq<Action>, steps: nat, id: int)
    requires Invariant(env, w, steps) && steps + Spent(run) < MAX_STEPS
    requires forall held :: held in env.held ==> (env.device, held) in w.server.keys
    requires After(env, w, run).Some? && id in After(env, w, run).value.promised
    requires var v := After(env, w, run).value; !Waiting(env, v, id) && id !in v.refused && id !in v.dropped
    ensures var v, k := After(env, w, run).value, (env.device, id);
      && id in v.seen
      && (Stored(env, v.server, id, v.seen[id])
          <==> k !in w.server.keys || w.server.keys[k] == env.instant(v.seen[id].recorded_at))
  {
    hide After;
    hide Look;
    hide Spent;
    hide Reports;
    hide DeviceOk;
    hide LinkOk;
    hide Enabled;
    hide Do;
    RunKeeps(env, w, run, steps);
    var v, k := After(env, w, run).value, (env.device, id);
    Disposal(env, v, steps + Spent(run), id);
    assert run[..0] == [];
    NoRun(env, w);
    KeysPersist(env, w, run, 0, k);
    var j :| j in v.server.keys && j == (env.device, id);
    assert (j.0, v.server.keys[j]) in v.server.rows;
  }

  /** A promised fix that is nowhere on the device has been dealt with. */
  lemma Disposal(env: Env, v: World, steps: nat, id: int)
    requires Invariant(env, v, steps) && id in v.promised && !Waiting(env, v, id) && id !in v.refused && id !in v.dropped
    ensures id in v.seen && Disposed(env, v.server, v.refused, id)
  {
    hide Look;
    hide LinkOk;
    hide DeviceOk;
    hide ServerOk;
    hide Disposed;
    hide Vouched;
    VouchedDisposed(env, v, v.seen[id]);
  }

  lemma StartStep(env: Env, w: World, first: FixRecord, steps: nat)
    requires Invariant(env, w, steps) && w.ram.Some? && w.drain.None? && ViewOf(env, w) == Some(View([first], 2, 0, 2))
    ensures Enabled(env, w, StartDrain(1, 1)) && Do(env, w, StartDrain(1, 1)) == w.(drain := Some(Drain([first], 0)))
  {
    hide Invariant;
    hide Look;
    hide Peek;
    StartsWith(env, w, first, steps);
  }

  /** A drain of the only record, against a backend that knows its key. */
  lemma DrainKnown(env: Env, w: World, first: FixRecord, l: Location, steps: nat)
    requires Invariant(env, w, steps) && w.ram.Some? && w.drain.None? && ViewOf(env, w) == Some(View([first], 2, 0, 2))
    requires Carries(env, [l], [first]) && ValidateLocation(l) == None && (env.device, first.sequence_id) in w.server.keys
    ensures var run := [StartDrain(1, 1)] + [Post([l])] + [Serve([l], true)] + [Confirm([l])];
      After(env, w, run)
        == Some(w.(inFlight := w.inFlight + {[l]}, answered := w.answered + {[l]}, drain := Some(Drain([first], 1))))
  {
    hide ValidateLocation;
    hide Invariant;
    hide Look;
    hide Carries;
    hide After;
    hide Enabled;
    hide Do;
    hide Exchanged;
    var start := [StartDrain(1, 1)];
    var drained := w.(drain := Some(Drain([first], 0)));
    OneCarried(env, first, l);
    NoRun(env, w);
    StartStep(env, w, first, steps);
    Next(env, w, [], StartDrain(1, 1));
    assert [] + start == start;
    assert Chunk(drained.drain.value) == [first];
    ExchangeRun(env, w, start, [l]);
    ExchangedKnown(drained, l);
  }

  lemma OneCarried(env: Env, r: FixRecord, l: Location)
    requires Carries(env, [l], [r])
    ensures KeyOf(l) == (env.device, r.sequence_id)
  {
    hide Reports;
    assert [l][0] == l;
  }

  /** Answered 201, acknowledged off the ring, and stored nowhere: what happens to
      the first fix of a new life when the backend knows id 1 at another instant. */
  lemma CollisionLost(env: Env, w: World, first: FixRecord, l: Location, steps: nat)
    requires Invariant(env, w, steps) && steps + 1 < MAX_STEPS && w.ram.Some? && w.drain.None? && 1 in w.promised
    requires ViewOf(env, w) == Some(View([first], 2, 0, 2)) && 1 !in w.refused && first.sequence_id == 1
    requires (env.device, 1) in w.server.keys && w.server.keys[(env.device, 1)] != env.instant(first.recorded_at)
    requires Carries(env, [l], [first]) && ValidateLocation(l) == None
    ensures var run := [StartDrain(1, 1)] + [Post([l])] + [Serve([l], true)] + [Confirm([l])] + [Acknowledge(Wrote(32), false)];
      && After(env, w, run).Some?
      && var v := After(env, w, run).value;
         && v.server == w.server && 1 in v.promised && 1 in v.seen && v.seen[1] == first
         && !Waiting(env, v, 1) && 1 !in v.refused && 1 !in v.dropped && !Stored(env, v.server, 1, first)
  {
    hide Invariant;
    hide Look;
    hide Peek;
    hide AckFront;
    hide After;
    hide Carries;
    hide ValidateLocation;
    hide DoBoot;
    hide DoEnqueue;
    hide DoServe;
    hide DoOther;
    DrainKnown(env, w, first, l, steps);
    StartsWith(env, w, first, steps);
    LastAcknowledged(env, w, first, steps);
    var run := [StartDrain(1, 1)] + [Post([l])] + [Serve([l], true)] + [Confirm([l])];
    Next(env, w, run, Acknowledge(Wrote(32), false));
    assert [first][1..] == [];
  }

  /** The two together: a boot that cannot read its front slot, against a backend
      that knows id 1, and the first fix enqueued afterwards is lost without trace. */
  lemma ResetLosesSilently(env: Env, w: World, bootIo: BootIo, record: FixRecord, pushIo: PushIo, l: Location, steps: nat)
    requires Invariant(env, w, steps) && Restarts(env, w, bootIo, record, pushIo)
    requires (env.device, 1) in w.server.keys && w.server.keys[(env.device, 1)] != env.instant(record.recorded_at)
    requires Carries(env, [l], [First(record)]) && ValidateLocation(l) == None
    ensures var e, w' := Heir(env, w), Reborn(env, Restarted(env, w, bootIo, record, pushIo), First(record));
      var run := [StartDrain(1, 1)] + [Post([l])] + [Serve([l], true)] + [Confirm([l])] + [Acknowledge(Wrote(32), false)];
      && After(e, w', run).Some?
      && var v := After(e, w', run).value;
         && 1 in v.promised && 1 in v.seen && v.seen[1] == First(record)
         && !Waiting(e, v, 1) && 1 !in v.refused && 1 !in v.dropped && !Stored(e, v.server, 1, First(record))
  {
    hide Invariant;
    hide Restarts;
    hide Restarted;
    hide After;
    hide Look;
    hide Reports;
    hide ValidateLocation;
    hide InSync;
    hide Stored;
    var restarted := Restarted(env, w, bootIo, record, pushIo);
    NewLife(env, w, bootIo, record, pushIo, steps);
    RestartedWorld(env, w, bootIo, record, pushIo, steps);
    CollisionLost(Heir(env, w), Reborn(env, restarted, First(record)), First(record), l, 2);
  }

  lemma RestartedWorld(env: Env, w: World, bootIo: BootIo, record: FixRecord, pushIo: PushIo, steps: nat)
    requires Invariant(env, w, steps) && Restarts(env, w, bootIo, record, pushIo)
    ensures var w' := Restarted(env, w, bootIo, record, pushIo);
      && w'.server == w.server && w'.ram.Some? && w'.drain.None? && Heir(env, w') == Heir(env, w)
      && ViewOf(env, w') == Some(View([First(record)], 2, 0, 2))
      && w' == w.(flash := w'.flash, ram := w'.ram, seen := w.seen[1 := First(record)], promised := w.promised + {1})
  {
    hide Restarted;
    hide Look;
    hide HistoryOk;
    hide LinkOk;
    hide ServerOk;
    hide AccountsOk;
    CapacityOf(env, w, steps);
    RestartView(env, w, bootIo, record, pushIo);
  }

  lemma NoRun(env: Env, w: World)
    ensures After(env, w, []) == Some(w)
  {
  }

  /** An exchange about a known key changes nothing but what was sent. */
  lemma ExchangedKnown(w: World, l: Location)
    requires w.drain.Some? && KeyOf(l) in w.server.keys && ValidateLocation(l) == None
    ensures Exchanged(w, [l]) == w.(inFlight := w.inFlight + {[l]}, answered := w.answered + {[l]},
                                    drain := Some(w.drain.value.(done := w.drain.value.done + 1)))
  {
    hide ValidateLocation;
    hide InsertAll;
    hide Accepted;
    StoredIffKeyFree(w.server, l);
    NothingRefused(l);
    assert w.refused + {} == w.refused;
  }

  /** A drain of one takes the only record. */
  lemma StartsWith(env: Env, w: World, first: FixRecord, steps: nat)
    requires Invariant(env, w, steps) && w.ram.Some? && ViewOf(env, w) == Some(View([first], 2, 0, 2))
    ensures var p := Peek(w.flash, w.ram.value, 1, 1, NotOpened);
      p.records == [first] && p.flash == w.flash && p.ram == w.ram.value
    ensures first.sequence_id == 1 ==> 1 in w.seen && w.seen[1] == first && 1 !in w.dropped
  {
    hide Look;
    hide InSync;
    hide Peek;
    hide LinkOk;
    hide ServerOk;
    hide AccountsOk;
    PeekView(w.flash, w.ram.value, env.capacity, 1, 1);
    var p := Peek(w.flash, w.ram.value, 1, 1, NotOpened).records;
    assert p == [first][..|p|];
    assert [first][0] == first;
    if first.sequence_id == 1 {
      assert Queued([first], 1);
    }
  }

  lemma NothingRefused(l: Location)
    requires ValidateLocation(l) == None
    ensures Refused([l]) == {}
  {
    hide ValidateLocation;
  }

  lemma LastAcknowledged(env: Env, w: World, first: FixRecord, steps: nat)
    requires Invariant(env, w, steps) && steps + 1 < MAX_STEPS && w.ram.Some?
    requires ViewOf(env, w) == Some(View([first], 2, 0, 2))
    ensures var v := w.(flash := AckFront(w.flash, w.ram.value, 1, Wrote(32)).flash);
      ViewOf(env, v).Some? && ViewOf(env, v).value.queue == [first][1..]
  {
    hide Look;
    hide InSync;
    hide AckFront;
    hide HistoryOk;
    hide LinkOk;
    hide ServerOk;
    hide AccountsOk;
    CountersFit(w.flash, w.ram.value, env.capacity, steps);
    AckLanded(w.flash, w.ram.value, env.capacity, 1);
  }
}
