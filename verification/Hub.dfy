/** The live-event hub (hub.go): subscribers per device, each with a buffered
    channel, changed in place under one lock. */
module Hub {
  import opened Wire

  type DeviceId = nat

  /** The hub carries snapshots without looking into them. */
  datatype LiveLocation = LiveLocation(deviceId: DeviceId, serverTime: int)
  datatype LiveEvent = LiveEvent(id: nat, kind: string, snapshot: LiveLocation)

  const CHANNEL_CAPACITY: nat := 16

  /** A channel, and whether the unsubscribe closure has used up its sync.Once. */
  datatype Channel = Channel(buffer: seq<LiveEvent>, closed: bool, once: bool)

  class Subscription {
    const device: DeviceId
    const id: nat
    var ch: Channel

    constructor (device: DeviceId, id: nat)
      ensures this.device == device && this.id == id && ch == Channel([], false, false)
    {
      this.device, this.id := device, id;
      ch := Channel([], false, false);
    }

    method Send(event: LiveEvent)
      requires !ch.closed && |ch.buffer| < CHANNEL_CAPACITY
      modifies this
      ensures ch == old(ch).(buffer := old(ch.buffer) + [event])
    {
      ch := ch.(buffer := ch.buffer + [event]);
    }

    /** Closing a closed channel panics. */
    method Close()
      requires !ch.closed
      modifies this
      ensures ch == old(ch).(closed := true)
    {
      ch := ch.(closed := true);
    }

    /** What arrives on the channel; None once it is closed and empty.  An empty
        open channel blocks its reader. */
    method Receive() returns (event: Option<LiveEvent>)
      requires ch.buffer != [] || ch.closed
      modifies this
      ensures old(ch.buffer) == [] ==> event == None && ch == old(ch)
      ensures old(ch.buffer) != [] ==> event == Some(old(ch.buffer)[0]) && ch == old(ch).(buffer := old(ch.buffer)[1..])
    {
      if ch.buffer == [] {
        return None;
      }
      event := Some(ch.buffer[0]);
      ch := ch.(buffer := ch.buffer[1..]);
    }
  }

  type Registry = map<DeviceId, map<nat, Subscription>>

  predicate In(subs: Registry, sub: Subscription) {
    sub.device in subs && sub.id in subs[sub.device] && subs[sub.device][sub.id] == sub
  }

  /** No inner map is empty, and whoever is registered is registered under its
      own device and id. */
  ghost predicate Tidy(subs: Registry) {
    && (forall d :: d in subs ==> subs[d] != map[])
    && (forall d, id :: d in subs && id in subs[d] ==> subs[d][id].device == d && subs[d][id].id == id)
  }

  /** What the hub and every channel it ever made hold. */
  datatype State = State(sequence: nat, subs: Registry, channels: map<Subscription, Channel>) {
    predicate Registered(sub: Subscription) {
      In(subs, sub)
    }

    predicate Full(sub: Subscription) {
      sub in channels && |channels[sub].buffer| >= CHANNEL_CAPACITY
    }

    /** The keys of the inner map: who hears of this device. */
    function Audience(device: DeviceId): set<nat> {
      if device in subs then subs[device].Keys else {}
    }

    /** Registered is open, and a used-up closure has closed. */
    predicate ChannelOk(sub: Subscription)
      requires sub in channels
    {
      var ch := channels[sub];
      0 < sub.id <= sequence && |ch.buffer| <= CHANNEL_CAPACITY && (Registered(sub) <==> !ch.closed) && (ch.once ==> ch.closed)
    }

    ghost predicate Ok() {
      && Tidy(subs)
      && (forall d, id :: d in subs && id in subs[d] ==> subs[d][id] in channels)
      && (forall sub :: sub in channels ==> ChannelOk(sub))
    }
  }

  /** An empty inner map is not kept. */
  function Put(subs: Registry, device: DeviceId, inner: map<nat, Subscription>): Registry {
    if inner == map[] then subs - {device} else subs[device := inner]
  }

  /** Writing the inner map back, and then dropping the key if it is empty. */
  lemma PutSteps(subs: Registry, device: DeviceId, inner: map<nat, Subscription>)
    ensures Put(subs, device, inner) == if |inner| == 0 then subs[device := inner] - {device} else subs[device := inner]
  {
    assert |inner| == 0 <==> inner == map[];
    assert subs[device := inner] - {device} == subs - {device};
  }

  lemma PutRemoved(subs: Registry, sub: Subscription)
    requires Tidy(subs) && In(subs, sub)
    ensures var to := Put(subs, sub.device, subs[sub.device] - {sub.id});
      && Tidy(to) && !In(to, sub)
      && forall other :: other != sub ==> (In(to, other) <==> In(subs, other))
  {
    var inner := subs[sub.device] - {sub.id};
    var to := Put(subs, sub.device, inner);
    forall other | other != sub
      ensures In(to, other) <==> In(subs, other)
    {
      if other.device == sub.device {
        assert other.id in inner <==> other.id in subs[sub.device] && other.id != sub.id;
      }
    }
  }

  lemma PutAdded(subs: Registry, sub: Subscription, inner: map<nat, Subscription>)
    requires Tidy(subs) && inner == if sub.device in subs then subs[sub.device] else map[]
    requires sub.id !in inner
    ensures var to := subs[sub.device := inner[sub.id := sub]];
      && Tidy(to) && In(to, sub)
      && forall other :: other != sub ==> (In(to, other) <==> In(subs, other))
  {
  }

  /** removeLocked: out of the maps, and the channel closed. */
  function Remove(st: State, sub: Subscription): State
    requires sub in st.channels
  {
    if !st.Registered(sub) then st
    else
      st.(channels := st.channels[sub := st.channels[sub].(closed := true)],
          subs := Put(st.subs, sub.device, st.subs[sub.device] - {sub.id}))
  }

  /** One turn of Publish's loop: the event goes into the buffer if there is
      room, and the subscriber goes if there is none. */
  function SendTo(st: State, sub: Subscription, event: LiveEvent): State
    requires sub in st.channels
  {
    if st.Full(sub) then Remove(st, sub)
    else st.(channels := st.channels[sub := st.channels[sub].(buffer := st.channels[sub].buffer + [event])])
  }

  function Subscribed(st: State, sub: Subscription): State {
    var inner: map<nat, Subscription> := if sub.device in st.subs then st.subs[sub.device] else map[];
    st.(sequence := st.sequence + 1,
        channels := st.channels[sub := Channel([], false, false)],
        subs := st.subs[sub.device := inner[sub.id := sub]])
  }

  function Unsubscribed(st: State, sub: Subscription): State
    requires sub in st.channels
  {
    if st.channels[sub].once then st
    else
      var used := st.(channels := st.channels[sub := st.channels[sub].(once := true)]);
      Remove(used, sub)
  }

  function Received(st: State, sub: Subscription): State
    requires sub in st.channels && st.channels[sub].buffer != []
  {
    st.(channels := st.channels[sub := st.channels[sub].(buffer := st.channels[sub].buffer[1..])])
  }

  /** The subscribers of `device` that stay once those in `ids` had their turn. */
  function Stay(st: State, device: DeviceId, ids: set<nat>): map<nat, Subscription> {
    map id | id in st.Audience(device) && !(id in ids && st.Full(st.subs[device][id])) :: st.subs[device][id]
  }

  predicate Hears(st: State, device: DeviceId, ids: set<nat>, sub: Subscription) {
    sub.device == device && sub.id in ids && st.Registered(sub)
  }

  function Heard(st: State, sub: Subscription, event: LiveEvent): Channel
    requires sub in st.channels
  {
    var ch := st.channels[sub];
    if st.Full(sub) then ch.(closed := true) else ch.(buffer := ch.buffer + [event])
  }

  /** Everyone in `ids` has had its turn, whatever the order of the turns. */
  ghost function Delivered(st: State, device: DeviceId, ids: set<nat>, event: LiveEvent): State {
    st.(channels := map sub | sub in st.channels :: if Hears(st, device, ids, sub) then Heard(st, sub, event) else st.channels[sub],
        subs := Put(st.subs, device, Stay(st, device, ids)))
  }

  lemma InAudience(st: State, device: DeviceId, id: nat)
    requires st.Ok() && id in st.Audience(device)
    ensures var sub := st.subs[device][id];
      && sub in st.channels && sub.device == device && sub.id == id && st.Registered(sub) && 0 < sub.id <= st.sequence
      && !st.channels[sub].closed && !st.channels[sub].once
  {
    var sub := st.subs[device][id];
    assert st.Registered(sub);
    assert st.ChannelOk(sub);
  }

  lemma DeliveredNobody(st: State, device: DeviceId, event: LiveEvent)
    requires st.Ok()
    ensures Delivered(st, device, {}, event) == st
  {
    hide State.Full;
    var none := Delivered(st, device, {}, event);
    assert none.channels == st.channels;
    if device in st.subs {
      assert Stay(st, device, {}) == st.subs[device];
    } else {
      assert Stay(st, device, {}) == map[];
    }
    assert none.subs == st.subs;
  }

  lemma DeliveredChannels(st: State, device: DeviceId, ids: set<nat>, id: nat, event: LiveEvent)
    requires st.Ok() && id in st.Audience(device) - ids
    ensures var sub := st.subs[device][id];
      && sub in st.channels && !Hears(st, device, ids, sub)
      && Delivered(st, device, ids + {id}, event).channels
         == Delivered(st, device, ids, event).channels[sub := Heard(st, sub, event)]
  {
    hide State.Full;
    hide State.Ok;
    hide Heard;
    InAudience(st, device, id);
    var sub := st.subs[device][id];
    forall other | other in st.channels && other != sub
      ensures Hears(st, device, ids + {id}, other) == Hears(st, device, ids, other)
    {
    }
  }

  lemma StayOneMore(st: State, device: DeviceId, ids: set<nat>, id: nat)
    requires st.Ok() && id in st.Audience(device) - ids
    ensures var sub := st.subs[device][id];
      && id in Stay(st, device, ids) && Stay(st, device, ids)[id] == sub
      && Stay(st, device, ids + {id}) == if st.Full(sub) then Stay(st, device, ids) - {id} else Stay(st, device, ids)
  {
    hide State.Full;
    hide State.Ok;
    InAudience(st, device, id);
  }

  /** One more turn, taken by anyone who has not had it. */
  lemma DeliveredOneMore(st: State, device: DeviceId, ids: set<nat>, id: nat, event: LiveEvent)
    requires st.Ok() && id in st.Audience(device) - ids
    ensures var sub := st.subs[device][id];
      var to := Delivered(st, device, ids, event);
      && sub in st.channels && sub.device == device && sub.id == id
      && to.Registered(sub) && sub in to.channels && to.channels[sub] == st.channels[sub]
      && SendTo(to, sub, event) == Delivered(st, device, ids + {id}, event)
  {
    hide Hears;
    hide Stay;
    hide State.Ok;
    InAudience(st, device, id);
    var sub := st.subs[device][id];
    var to := Delivered(st, device, ids, event);
    DeliveredChannels(st, device, ids, id, event);
    StayOneMore(st, device, ids, id);
    assert to.subs[device] == Stay(st, device, ids);
    assert to.Full(sub) == st.Full(sub);
    var next := Put(to.subs, device, Stay(st, device, ids + {id}));
    assert next == Put(st.subs, device, Stay(st, device, ids + {id}));
  }

  lemma ChannelInOrder(st: State, sub: Subscription)
    requires st.Ok() && sub in st.channels
    ensures st.ChannelOk(sub)
  {
  }

  lemma CountedOk(st: State, sequence: nat)
    requires st.Ok() && st.sequence <= sequence
    ensures st.(sequence := sequence).Ok()
  {
    hide In;
    hide Tidy;
    var to := st.(sequence := sequence);
    assert forall sub :: to.Registered(sub) == st.Registered(sub);
    assert forall sub :: sub in st.channels ==> st.ChannelOk(sub);
  }

  lemma RegisteredOpen(st: State, sub: Subscription)
    requires st.Ok() && st.Registered(sub)
    ensures sub in st.channels && !st.channels[sub].closed
  {
    assert st.ChannelOk(sub);
  }

  lemma RemoveOk(st: State, sub: Subscription)
    requires st.Ok() && sub in st.channels
    ensures Remove(st, sub).Ok() && !Remove(st, sub).Registered(sub)
    ensures forall other :: other != sub ==> (Remove(st, sub).Registered(other) <==> st.Registered(other))
  {
    hide Tidy;
    hide Put;
    if st.Registered(sub) {
      PutRemoved(st.subs, sub);
      KeepsOk(st, Remove(st, sub), sub);
    }
  }

  /** A change to one channel and its registration leaves the others in order. */
  lemma KeepsOk(st: State, to: State, sub: Subscription)
    requires st.Ok() && Tidy(to.subs) && to.sequence >= st.sequence
    requires sub in to.channels && to.channels == st.channels[sub := to.channels[sub]] && to.ChannelOk(sub)
    requires forall other :: other != sub ==> (to.Registered(other) <==> st.Registered(other))
    ensures to.Ok()
  {
    forall d, id | d in to.subs && id in to.subs[d]
      ensures to.subs[d][id] in to.channels
    {
      assert to.Registered(to.subs[d][id]);
    }
    forall other | other in to.channels
      ensures to.ChannelOk(other)
    {
      if other != sub {
        assert st.ChannelOk(other);
      }
    }
  }

  lemma SendToOk(st: State, sub: Subscription, event: LiveEvent)
    requires st.Ok() && st.Registered(sub)
    ensures sub in st.channels && SendTo(st, sub, event).Ok()
    ensures forall other :: other != sub ==> (SendTo(st, sub, event).Registered(other) <==> st.Registered(other))
  {
    hide Remove;
    hide In;
    hide Tidy;
    RegisteredOpen(st, sub);
    assert st.ChannelOk(sub);
    RemoveOk(st, sub);
    if !st.Full(sub) {
      KeepsOk(st, SendTo(st, sub, event), sub);
    }
  }

  lemma Turn(st: State, device: DeviceId, ids: set<nat>, id: nat, event: LiveEvent)
    requires st.Ok() && id in st.Audience(device) - ids
    requires Delivered(st, device, ids, event).Ok()
    ensures var sub := st.subs[device][id];
      var to := Delivered(st, device, ids, event);
      && sub.device == device && sub.id == id && to.Registered(sub) && sub in to.channels && !to.channels[sub].closed
      && SendTo(to, sub, event) == Delivered(st, device, ids + {id}, event)
      && SendTo(to, sub, event).Ok()
  {
    hide State.Full;
    hide State.Ok;
    hide Delivered;
    hide SendTo;
    DeliveredOneMore(st, device, ids, id, event);
    RegisteredOpen(Delivered(st, device, ids, event), st.subs[device][id]);
    SendToOk(Delivered(st, device, ids, event), st.subs[device][id], event);
  }

  lemma SubscribedOk(st: State, sub: Subscription)
    requires st.Ok() && sub !in st.channels && sub.id == st.sequence + 1
    ensures Subscribed(st, sub).Ok() && Subscribed(st, sub).Registered(sub)
    ensures forall other :: other != sub ==> (Subscribed(st, sub).Registered(other) <==> st.Registered(other))
  {
    if sub.id in st.Audience(sub.device) {
      InAudience(st, sub.device, sub.id);
    }
    PutAdded(st.subs, sub, if sub.device in st.subs then st.subs[sub.device] else map[]);
    KeepsOk(st, Subscribed(st, sub), sub);
  }

  lemma ReceivedOk(st: State, sub: Subscription)
    requires st.Ok() && sub in st.channels && st.channels[sub].buffer != []
    ensures Received(st, sub).Ok()
  {
    assert st.ChannelOk(sub);
    KeepsOk(st, Received(st, sub), sub);
  }

  /** However often it is called, the closure unsubscribes once. */
  lemma UnsubscribedOk(st: State, sub: Subscription)
    requires st.Ok() && sub in st.channels
    ensures var to := Unsubscribed(st, sub);
      && to.Ok() && !to.Registered(sub) && to.channels[sub].closed && to.channels[sub].once
      && Unsubscribed(to, sub) == to
      && (forall other :: other != sub ==> (to.Registered(other) <==> st.Registered(other)))
  {
    hide Put;
    hide In;
    hide Tidy;
    assert st.ChannelOk(sub);
    if !st.channels[sub].once {
      RemoveOk(st, sub);
      assert Unsubscribed(st, sub).channels == st.channels[sub := st.channels[sub].(closed := true, once := true)];
      KeepsOk(st, Unsubscribed(st, sub), sub);
    }
  }

  class Hub {
    var sequence: nat
    var subs: Registry
    ghost var made: set<Subscription>

    ghost function View(): State
      reads this, made
    {
      State(sequence, subs, map sub | sub in made :: sub.ch)
    }

    constructor ()
      ensures View() == State(0, map[], map[]) && View().Ok() && made == {}
    {
      sequence, subs, made := 0, map[], {};
    }

    method NextID() returns (id: nat)
      modifies this
      ensures View() == old(View()).(sequence := old(sequence) + 1) && made == old(made)
      ensures id == old(sequence) + 1
    {
      sequence := sequence + 1;
      return sequence;
    }

    /** One channel is closed; the rest of the hub stays. */
    method CloseChannel(sub: Subscription)
      requires sub in made && !sub.ch.closed
      modifies sub
      ensures View() == old(View()).(channels := old(View()).channels[sub := old(sub.ch).(closed := true)])
    {
      ghost var st := View();
      sub.Close();
      assert View().channels == st.channels[sub := st.channels[sub].(closed := true)];
    }

    /** removeLocked. */
    method RemoveLocked(device: DeviceId, id: nat, sub: Subscription)
      requires sub in made && sub.device == device && sub.id == id
      requires View().Registered(sub) ==> !sub.ch.closed
      modifies `subs, sub
      ensures View() == Remove(old(View()), sub)
    {
      hide State.Full;
      ghost var st := View();
      if device in subs && id in subs[device] && subs[device][id] == sub {
        var inner := subs[device] - {id};
        subs := subs[device := inner];
        assert View() == st.(subs := subs);
        CloseChannel(sub);
        if |inner| == 0 {
          subs := subs - {device};
        }
        PutSteps(st.subs, device, inner);
      }
    }

    /** The event is numbered before the lock is taken. */
    method Publish(device: DeviceId, kind: string, snapshot: LiveLocation)
      requires View().Ok()
      modifies this, made
      ensures made == old(made)
      ensures var st := old(View()).(sequence := old(sequence) + 1);
        View() == Delivered(st, device, st.Audience(device), LiveEvent(st.sequence, kind, snapshot))
      ensures View().Ok()
    {
      hide State.Ok;
      hide Delivered;
      CountedOk(View(), sequence + 1);
      var id := NextID();
      Broadcast(device, LiveEvent(id, kind, snapshot));
    }

    /** Publish's loop under the lock.  The turns come in any order; each either
        delivers or removes. */
    method Broadcast(device: DeviceId, event: LiveEvent)
      requires View().Ok()
      modifies `subs, made
      ensures View() == Delivered(old(View()), device, old(View()).Audience(device), event)
      ensures View().Ok()
    {
      hide State.Full;
      hide State.Ok;
      hide Delivered;
      hide SendTo;
      hide In;
      ghost var st := View();
      var audience: map<nat, Subscription> := if device in subs then subs[device] else map[];
      var ids := audience.Keys;
      ghost var served := {};
      DeliveredNobody(st, device, event);
      while ids != {}
        invariant ids !! served && ids + served == st.Audience(device)
        invariant View() == Delivered(st, device, served, event) && View().Ok()
        decreases |ids|
      {
        var id :| id in ids;
        var sub := audience[id];
        Turn(st, device, served, id, event);
        TakeTurn(sub, event);
        ids := ids - {id};
        served := served + {id};
      }
      assert served == st.Audience(device);
    }

    method TakeTurn(sub: Subscription, event: LiveEvent)
      requires sub in made && View().Registered(sub) && !sub.ch.closed
      modifies `subs, sub
      ensures View() == SendTo(old(View()), sub, event)
    {
      hide Remove;
      ghost var st := View();
      if |sub.ch.buffer| < CHANNEL_CAPACITY {
        sub.Send(event);
        assert View().channels == SendTo(st, sub, event).channels;
      } else {
        RemoveLocked(sub.device, sub.id, sub);
      }
    }

    method Subscribe(device: DeviceId) returns (sub: Subscription)
      requires View().Ok()
      modifies this
      ensures fresh(sub) && made == old(made) + {sub} && sub.device == device && sub.id == old(sequence) + 1
      ensures View() == Subscribed(old(View()), sub) && View().Ok()
    {
      hide State.Ok;
      hide State.Full;
      hide In;
      hide Tidy;
      ghost var st := View();
      if device !in subs {
        subs := subs[device := map[]];
      }
      sequence := sequence + 1;
      sub := new Subscription(device, sequence);
      var inner: map<nat, Subscription> := subs[device];
      subs := subs[device := inner[sub.id := sub]];
      made := made + {sub};
      assert View().channels == Subscribed(st, sub).channels;
      assert View().subs == Subscribed(st, sub).subs;
      SubscribedOk(st, sub);
    }

    /** The closure Subscribe returns. */
    method Unsubscribe(sub: Subscription)
      requires View().Ok() && sub in made
      modifies this, sub
      ensures made == old(made)
      ensures View() == Unsubscribed(old(View()), sub) && View().Ok()
    {
      hide State.Ok;
      hide Remove;
      ghost var st := View();
      UnsubscribedOk(st, sub);
      if !sub.ch.once {
        sub.ch := sub.ch.(once := true);
        assert View().channels == st.channels[sub := st.channels[sub].(once := true)];
        if st.Registered(sub) {
          RegisteredOpen(st, sub);
        }
        RemoveLocked(sub.device, sub.id, sub);
      }
    }
  }
}
