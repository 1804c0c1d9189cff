/** The hub under interleaving: publishers that number their event before they
    get the lock and then serve one subscriber at a time, subscriptions and
    unsubscriptions between lock holders, and readers at any moment. */
module HubRuns {
  import opened Wire
  import opened Hub

  /** A publisher inside the lock, and whom it has still to serve. */
  datatype Publishing = Publishing(device: DeviceId, event: LiveEvent, remaining: set<nat>)

  /** What has happened to one subscription: how many events its device had
      published before it, what its reader received, how often its channel was
      closed, and whether its closure was called. */
  datatype History = History(since: nat, received: seq<LiveEvent>, closes: nat, unsubscribed: bool)

  type Publication = (DeviceId, LiveEvent)

  /** `pending` are numbered and wait for the lock; `log` is the lock order. */
  datatype World = World(hub: State, pending: set<Publication>, lock: Option<Publishing>,
                         log: seq<Publication>, history: map<Subscription, History>)

  const START: World := World(State(0, map[], map[]), {}, None, [], map[])

  datatype Action =
    | NextId
    | Draw(device: DeviceId, kind: string, snapshot: LiveLocation)
    | Lock(publication: Publication)
    | Serve(id: nat)
    | Unlock
    | Subscribe(sub: Subscription)
    | Unsubscribe(sub: Subscription)
    | Receive(sub: Subscription)

  predicate Enabled(w: World, a: Action) {
    match a
    case NextId => true
    case Draw(_, _, _) => true
    case Lock(publication) => w.lock == None && publication in w.pending
    case Serve(id) =>
      w.lock.Some? && id in w.lock.value.remaining && id in w.hub.Audience(w.lock.value.device)
      && Served(w, id) in w.hub.channels && Served(w, id) in w.history
    case Unlock => w.lock.Some? && w.lock.value.remaining == {}
    case Subscribe(sub) => w.lock == None && sub !in w.hub.channels && sub.id == w.hub.sequence + 1
    case Unsubscribe(sub) =>
      sub in w.hub.channels && sub in w.history && (w.lock == None || w.hub.channels[sub].once)
    case Receive(sub) => sub in w.hub.channels && sub in w.history && w.hub.channels[sub].buffer != []
  }

  function Served(w: World, id: nat): Subscription
    requires w.lock.Some? && id in w.hub.Audience(w.lock.value.device)
  {
    w.hub.subs[w.lock.value.device][id]
  }

  /** Whether the action closes this channel. */
  predicate Closes(w: World, a: Action, sub: Subscription)
    requires Enabled(w, a)
  {
    match a
    case Serve(id) => sub == Served(w, id) && w.hub.Full(sub) && w.hub.Registered(sub)
    case Unsubscribe(s) => sub == s && !w.hub.channels[s].once && w.hub.Registered(sub)
    case _ => false
  }

  /** Sending to or closing a closed channel. */
  predicate Panics(w: World, a: Action)
    requires Enabled(w, a)
  {
    match a
    case Serve(id) => w.hub.channels[Served(w, id)].closed
    case Unsubscribe(sub) => Closes(w, a, sub) && w.hub.channels[sub].closed
    case _ => false
  }

  function Do(w: World, a: Action): World
    requires Enabled(w, a)
  {
    match a
    case NextId => w.(hub := w.hub.(sequence := w.hub.sequence + 1))
    case Draw(device, kind, snapshot) =>
      var id := w.hub.sequence + 1;
      w.(hub := w.hub.(sequence := id), pending := w.pending + {(device, LiveEvent(id, kind, snapshot))})
    case Lock(p) =>
      w.(pending := w.pending - {p}, log := w.log + [p], lock := Some(Publishing(p.0, p.1, w.hub.Audience(p.0))))
    case Serve(id) =>
      var sub, lock := Served(w, id), w.lock.value;
      var h := w.history[sub];
      w.(hub := SendTo(w.hub, sub, lock.event),
         lock := Some(lock.(remaining := lock.remaining - {id})),
         history := w.history[sub := h.(closes := h.closes + if Closes(w, a, sub) then 1 else 0)])
    case Unlock => w.(lock := None)
    case Subscribe(sub) =>
      w.(hub := Subscribed(w.hub, sub), history := w.history[sub := History(|Published(w.log, sub.device)|, [], 0, false)])
    case Unsubscribe(sub) =>
      var h := w.history[sub];
      w.(hub := Unsubscribed(w.hub, sub),
         history := w.history[sub := h.(closes := h.closes + (if Closes(w, a, sub) then 1 else 0), unsubscribed := true)])
    case Receive(sub) =>
      var h := w.history[sub];
      w.(hub := Received(w.hub, sub), history := w.history[sub := h.(received := h.received + [w.hub.channels[sub].buffer[0]])])
  }

  /** The world after the actions, if each was possible in its turn. */
  function After(actions: seq<Action>): Option<World> {
    if actions == [] then Some(START)
    else
      match After(actions[..|actions| - 1])
      case None => None
      case Some(w) => if Enabled(w, actions[|actions| - 1]) then Some(Do(w, actions[|actions| - 1])) else None
  }

  /** The events published for a device, in lock order. */
  function Published(log: seq<Publication>, device: DeviceId): seq<LiveEvent> {
    if log == [] then []
    else
      var last := log[|log| - 1];
      Published(log[..|log| - 1], device) + if last.0 == device then [last.1] else []
  }

  lemma PublishedOneMore(log: seq<Publication>, p: Publication, device: DeviceId)
    ensures Published(log + [p], device) == Published(log, device) + if p.0 == device then [p.1] else []
  {
    assert (log + [p])[..|log|] == log;
  }

  /** Registered, but the publisher in the lock has not come to it yet. */
  predicate Waiting(w: World, sub: Subscription) {
    w.lock.Some? && w.lock.value.device == sub.device && sub.id in w.lock.value.remaining
  }

  /** What the subscriber should have seen. */
  function Due(w: World, sub: Subscription): seq<LiveEvent>
    requires sub in w.history && w.history[sub].since <= |Published(w.log, sub.device)|
  {
    Published(w.log, sub.device)[w.history[sub].since..]
  }

  /** What it received and what still lies in its channel. */
  function Seen(w: World, sub: Subscription): seq<LiveEvent>
    requires sub in w.history && sub in w.hub.channels
  {
    w.history[sub].received + w.hub.channels[sub].buffer
  }

  predicate SubOk(w: World, sub: Subscription)
    requires sub in w.hub.channels
  {
    && sub in w.history && w.history[sub].since <= |Published(w.log, sub.device)|
    && var h, seen, due := w.history[sub], Seen(w, sub), Due(w, sub);
       if w.hub.Registered(sub) then
         h.closes == 0 && !h.unsubscribed && if Waiting(w, sub) then due != [] && seen == due[..|due| - 1] else seen == due
       else
         h.closes == 1 && seen <= due && (seen == due ==> h.unsubscribed)
  }

  predicate LockOk(w: World) {
    w.lock.Some? ==>
      && w.log != [] && w.log[|w.log| - 1] == (w.lock.value.device, w.lock.value.event)
      && w.lock.value.remaining <= w.hub.Audience(w.lock.value.device)
  }

  ghost predicate Invariant(w: World) {
    w.hub.Ok() && LockOk(w) && forall sub :: sub in w.hub.channels ==> SubOk(w, sub)
  }

  /** A subscription that an action does not concern stays in order. */
  lemma Untouched(w: World, to: World, sub: Subscription)
    requires sub in w.hub.channels && SubOk(w, sub) && to.log == w.log
    requires sub in to.hub.channels && to.hub.channels[sub] == w.hub.channels[sub]
    requires sub in to.history && to.history[sub] == w.history[sub]
    requires to.hub.Registered(sub) == w.hub.Registered(sub)
    requires w.hub.Registered(sub) ==> Waiting(to, sub) == Waiting(w, sub)
    ensures SubOk(to, sub)
  {
    hide Published;
    hide In;
    hide Waiting;
  }

  lemma CountKeeps(w: World, a: Action)
    requires Invariant(w) && (a.NextId? || a.Draw?)
    ensures Invariant(Do(w, a))
  {
    hide State.Ok;
    hide Published;
    hide In;
    CountedOk(w.hub, w.hub.sequence + 1);
    forall sub | sub in w.hub.channels
      ensures SubOk(Do(w, a), sub)
    {
      assert SubOk(w, sub);
    }
  }

  lemma LockKeeps(w: World, a: Action)
    requires Invariant(w) && a.Lock? && Enabled(w, a)
    ensures Invariant(Do(w, a))
  {
    hide State.Ok;
    hide Published;
    var to := Do(w, a);
    forall sub | sub in w.hub.channels
      ensures SubOk(to, sub)
    {
      assert SubOk(w, sub);
      PublishedOneMore(w.log, a.publication, sub.device);
      if w.hub.Registered(sub) && sub.device == a.publication.0 {
        assert Due(to, sub) == Due(w, sub) + [a.publication.1];
      }
    }
  }

  lemma LastPublished(w: World)
    requires LockOk(w) && w.lock.Some?
    ensures var all := Published(w.log, w.lock.value.device);
      all != [] && all[|all| - 1] == w.lock.value.event
  {
  }

  /** Serving one subscriber leaves the rest of the audience registered. */
  lemma ServeAudience(w: World, a: Action)
    requires w.hub.Ok() && LockOk(w) && a.Serve? && Enabled(w, a)
    ensures LockOk(Do(w, a))
  {
    hide State.Ok;
    hide SendTo;
    var served, event, to := Served(w, a.id), w.lock.value.event, Do(w, a);
    var device := w.lock.value.device;
    InAudience(w.hub, device, a.id);
    SendToOk(w.hub, served, event);
    forall id | id in w.hub.Audience(device) - {a.id}
      ensures id in to.hub.Audience(device)
    {
      InAudience(w.hub, device, id);
      assert to.hub.Registered(w.hub.subs[device][id]);
    }
  }

  lemma ServeKeeps(w: World, a: Action)
    requires Invariant(w) && a.Serve? && Enabled(w, a)
    ensures Invariant(Do(w, a)) && !Panics(w, a)
  {
    hide State.Ok;
    hide Published;
    hide Put;
    hide LockOk;
    hide In;
    hide SubOk;
    var served, event, to := Served(w, a.id), w.lock.value.event, Do(w, a);
    InAudience(w.hub, w.lock.value.device, a.id);
    SendToOk(w.hub, served, event);
    ServeAudience(w, a);
    forall sub | sub in w.hub.channels
      ensures SubOk(to, sub)
    {
      assert SubOk(w, sub);
      if sub == served {
        ServedOk(w, a);
      } else {
        if w.hub.Registered(sub) && sub.device == served.device && sub.id == served.id {
          SameKeyed(w.hub, served, sub);
        }
        HasHistory(w, sub);
        Untouched(w, to, sub);
      }
    }
  }

  /** The one served has the event, or is out. */
  lemma ServedOk(w: World, a: Action)
    requires Invariant(w) && a.Serve? && Enabled(w, a)
    ensures Served(w, a.id) in Do(w, a).hub.channels && SubOk(Do(w, a), Served(w, a.id))
  {
    hide State.Ok;
    hide Published;
    hide Put;
    hide In;
    var served := Served(w, a.id);
    InAudience(w.hub, w.lock.value.device, a.id);
    assert SubOk(w, served);
    LastPublished(w);
    RemoveOk(w.hub, served);
    SendToOk(w.hub, served, w.lock.value.event);
  }

  /** Two registered subscriptions differ in device or id. */
  lemma SameKeyed(st: State, a: Subscription, b: Subscription)
    requires st.Registered(a) && st.Registered(b) && a.device == b.device && a.id == b.id
    ensures a == b
  {
  }

  lemma UnlockKeeps(w: World, a: Action)
    requires Invariant(w) && a.Unlock? && Enabled(w, a)
    ensures Invariant(Do(w, a))
  {
    hide State.Ok;
    hide Published;
    hide In;
    forall sub | sub in w.hub.channels
      ensures SubOk(Do(w, a), sub)
    {
      assert SubOk(w, sub);
    }
  }

  lemma SubscribeKeeps(w: World, a: Action)
    requires Invariant(w) && a.Subscribe? && Enabled(w, a)
    ensures Invariant(Do(w, a))
  {
    hide State.Ok;
    hide Published;
    hide In;
    SubscribedOk(w.hub, a.sub);
    forall sub | sub in Do(w, a).hub.channels
      ensures SubOk(Do(w, a), sub)
    {
      if sub != a.sub {
        assert SubOk(w, sub);
      }
    }
  }

  lemma UnsubscribeKeeps(w: World, a: Action)
    requires Invariant(w) && a.Unsubscribe? && Enabled(w, a)
    ensures Invariant(Do(w, a)) && !Panics(w, a)
  {
    hide State.Ok;
    hide Published;
    hide In;
    hide Put;
    UnsubscribedOk(w.hub, a.sub);
    ChannelInOrder(w.hub, a.sub);
    forall sub | sub in w.hub.channels
      ensures SubOk(Do(w, a), sub)
    {
      assert SubOk(w, sub);
    }
  }

  lemma ReceiveKeeps(w: World, a: Action)
    requires Invariant(w) && a.Receive? && Enabled(w, a)
    ensures Invariant(Do(w, a))
  {
    hide State.Ok;
    hide Published;
    hide In;
    hide SubOk;
    var to := Do(w, a);
    ReceivedOk(w.hub, a.sub);
    forall sub | sub in w.hub.channels
      ensures SubOk(to, sub)
    {
      assert SubOk(w, sub);
      if sub == a.sub {
        ReaderOk(w, a);
      } else {
        HasHistory(w, sub);
        Untouched(w, to, sub);
      }
    }
  }

  lemma ReaderOk(w: World, a: Action)
    requires a.Receive? && Enabled(w, a) && SubOk(w, a.sub)
    ensures SubOk(Do(w, a), a.sub)
  {
    hide Published;
    hide In;
    assert Seen(Do(w, a), a.sub) == Seen(w, a.sub);
  }

  lemma StepKeeps(w: World, a: Action)
    requires Invariant(w) && Enabled(w, a)
    ensures Invariant(Do(w, a)) && !Panics(w, a)
  {
    hide Invariant;
    hide Do;
    match a
    case NextId => CountKeeps(w, a);
    case Draw(_, _, _) => CountKeeps(w, a);
    case Lock(_) => LockKeeps(w, a);
    case Serve(_) => ServeKeeps(w, a);
    case Unlock => UnlockKeeps(w, a);
    case Subscribe(_) => SubscribeKeeps(w, a);
    case Unsubscribe(_) => UnsubscribeKeeps(w, a);
    case Receive(_) => ReceiveKeeps(w, a);
  }

  lemma {:induction false} RunKeeps(actions: seq<Action>)
    requires After(actions).Some?
    ensures Invariant(After(actions).value)
  {
    hide Do;
    hide Enabled;
    if actions != [] {
      RunKeeps(actions[..|actions| - 1]);
      StepKeeps(After(actions[..|actions| - 1]).value, actions[|actions| - 1]);
    }
  }

  /** However the run was interleaved: a registered subscriber has received or
      still holds exactly the events published for its device since it
      subscribed, in lock order.  One that missed an event is out of the hub, and
      its channel was closed once; one that is out and called no unsubscribe did
      miss one.  No inner map is empty. */
  lemma NoSilentGap(actions: seq<Action>, sub: Subscription)
    requires After(actions).Some? && After(actions).value.lock == None
    requires sub in After(actions).value.hub.channels
    ensures var w := After(actions).value;
      && sub in w.history && w.history[sub].since <= |Published(w.log, sub.device)|
      && var h, ch := w.history[sub], w.hub.channels[sub];
         var due := Published(w.log, sub.device)[h.since..];
         && h.received + ch.buffer <= due
         && |ch.buffer| <= 16
         && (w.hub.Registered(sub) <==> !ch.closed)
         && h.closes == (if ch.closed then 1 else 0)
         && (!ch.closed ==> h.received + ch.buffer == due)
         && (ch.closed && !h.unsubscribed ==> |h.received + ch.buffer| < |due|)
    ensures forall d :: d in After(actions).value.hub.subs ==> After(actions).value.hub.subs[d] != map[]
  {
    hide After;
    hide Published;
    RunKeeps(actions);
    ChannelInOrder(After(actions).value.hub, sub);
    assert SubOk(After(actions).value, sub);
  }

  // ---- Who is out ----

  /** The two ways out of the hub: unsubscribing, or being served with sixteen
      events unread. */
  predicate Leaves(w: World, a: Action, sub: Subscription)
    requires Enabled(w, a) && sub in w.hub.channels
  {
    a == Unsubscribe(sub) || (a.Serve? && Served(w, a.id) == sub && |w.hub.channels[sub].buffer| == 16)
  }

  lemma StepCloses(w: World, a: Action, sub: Subscription)
    requires Invariant(w) && Enabled(w, a) && sub in w.hub.channels
    ensures sub in Do(w, a).hub.channels
    ensures Do(w, a).hub.channels[sub].closed <==> w.hub.channels[sub].closed || Leaves(w, a, sub)
  {
    hide State.Ok;
    hide SubOk;
    hide LockOk;
    hide Put;
    ChannelInOrder(w.hub, sub);
    if a.Serve? {
      InAudience(w.hub, w.lock.value.device, a.id);
    }
  }

  predicate LeavesAt(actions: seq<Action>, n: nat, sub: Subscription)
    requires n < |actions|
  {
    && After(actions[..n]).Some? && Enabled(After(actions[..n]).value, actions[n])
    && sub in After(actions[..n]).value.hub.channels && Leaves(After(actions[..n]).value, actions[n], sub)
  }

  predicate EverLeft(actions: seq<Action>, sub: Subscription) {
    exists n :: 0 <= n < |actions| && LeavesAt(actions, n, sub)
  }

  lemma EverLeftOneMore(actions: seq<Action>, sub: Subscription)
    requires actions != []
    ensures EverLeft(actions, sub) <==> EverLeft(actions[..|actions| - 1], sub) || LeavesAt(actions, |actions| - 1, sub)
  {
    hide LeavesAt;
    var n := |actions| - 1;
    if k :| 0 <= k < n && LeavesAt(actions[..n], k, sub) {
      PrefixLeaves(actions, k, sub);
    }
    if k :| 0 <= k < n && LeavesAt(actions, k, sub) {
      PrefixLeaves(actions, k, sub);
      assert LeavesAt(actions[..n], k, sub);
    }
  }

  /** In every run a channel is closed if and only if its subscriber unsubscribed or
      was served with sixteen events unread: whoever reads in time is never dropped. */
  lemma {:induction false} ClosedIff(actions: seq<Action>, sub: Subscription)
    requires After(actions).Some? && sub in After(actions).value.hub.channels
    ensures After(actions).value.hub.channels[sub].closed
       <==> EverLeft(actions, sub)
  {
    hide Leaves;
    hide LeavesAt;
    hide Do;
    hide Enabled;
    if actions != [] {
      hide Invariant;
      var n := |actions| - 1;
      var w, a := After(actions[..n]).value, actions[n];
      EverLeftOneMore(actions, sub);
      hide EverLeft;
      LastLeaves(actions, sub);
      if sub in w.hub.channels {
        RunKeeps(actions[..n]);
        ClosedIff(actions[..n], sub);
        StepCloses(w, a, sub);
      } else {
        JustSubscribed(w, a, sub);
        NeverThere(actions[..n], sub);
      }
    }
  }

  lemma JustSubscribed(w: World, a: Action, sub: Subscription)
    requires Enabled(w, a) && sub !in w.hub.channels && sub in Do(w, a).hub.channels
    ensures !Do(w, a).hub.channels[sub].closed
  {
  }

  /** Channels stay, so one that is not there never was. */
  lemma {:induction false} NeverThere(actions: seq<Action>, sub: Subscription)
    requires After(actions).Some? && sub !in After(actions).value.hub.channels
    ensures !EverLeft(actions, sub)
  {
    hide LeavesAt;
    hide Leaves;
    hide Enabled;
    hide Do;
    if actions != [] {
      var n := |actions| - 1;
      EverLeftOneMore(actions, sub);
      hide EverLeft;
      ChannelsStay(After(actions[..n]).value, actions[n], sub);
      NeverThere(actions[..n], sub);
      LastLeaves(actions, sub);
    }
  }

  lemma ChannelsStay(w: World, a: Action, sub: Subscription)
    requires Enabled(w, a)
    ensures sub in w.hub.channels ==> sub in Do(w, a).hub.channels
  {
  }

  lemma PrefixLeaves(actions: seq<Action>, k: nat, sub: Subscription)
    requires k < |actions| - 1
    ensures LeavesAt(actions[..|actions| - 1], k, sub) <==> LeavesAt(actions, k, sub)
  {
    hide After;
    hide Leaves;
    hide Enabled;
    assert actions[..|actions| - 1][..k] == actions[..k];
  }

  lemma LastLeaves(actions: seq<Action>, sub: Subscription)
    requires actions != [] && After(actions).Some?
    ensures var w, a := After(actions[..|actions| - 1]).value, actions[|actions| - 1];
      LeavesAt(actions, |actions| - 1, sub) <==> sub in w.hub.channels && Leaves(w, a, sub)
  {
    hide Leaves;
    hide Enabled;
    hide Do;
  }

  /** No run sends to a closed channel or closes one twice. */
  lemma NeverPanics(actions: seq<Action>, a: Action)
    requires After(actions).Some? && Enabled(After(actions).value, a)
    ensures !Panics(After(actions).value, a)
  {
    hide After;
    hide Invariant;
    RunKeeps(actions);
    StepKeeps(After(actions).value, a);
  }

  /** A publisher in the lock is never stuck: whoever it has still to serve can
      be served, and once there is nobody left it can leave. */
  lemma PublisherProceeds(actions: seq<Action>)
    requires After(actions).Some? && After(actions).value.lock.Some?
    ensures var w := After(actions).value;
      && (forall id :: id in w.lock.value.remaining ==> Enabled(w, Serve(id)))
      && (w.lock.value.remaining == {} ==> Enabled(w, Unlock))
  {
    hide After;
    hide SubOk;
    RunKeeps(actions);
    var w := After(actions).value;
    forall id | id in w.lock.value.remaining
      ensures Enabled(w, Serve(id))
    {
      InAudience(w.hub, w.lock.value.device, id);
      HasHistory(w, Served(w, id));
    }
  }

  lemma HasHistory(w: World, sub: Subscription)
    requires Invariant(w) && sub in w.hub.channels
    ensures sub in w.history
  {
    hide State.Ok;
    assert SubOk(w, sub);
  }

  // ---- Numbers ----

  /** The numbers of the publications are distinct and were drawn. */
  ghost predicate EventIdsOk(pending: set<Publication>, log: seq<Publication>, sequence: nat) {
    && (forall p :: p in pending ==> 0 < p.1.id <= sequence)
    && (forall i :: 0 <= i < |log| ==> 0 < log[i].1.id <= sequence)
    && (forall p, q :: p in pending && q in pending && p != q ==> p.1.id != q.1.id)
    && (forall i, j :: 0 <= i < j < |log| ==> log[i].1.id != log[j].1.id)
    && (forall p, i :: p in pending && 0 <= i < |log| ==> p.1.id != log[i].1.id)
  }

  /** So are those of the subscriptions, and no publication has one of them. */
  ghost predicate SubIdsOk(subs: set<Subscription>, pending: set<Publication>, log: seq<Publication>, sequence: nat) {
    && (forall s :: s in subs ==> 0 < s.id <= sequence)
    && (forall s, i :: s in subs && 0 <= i < |log| ==> s.id != log[i].1.id)
    && (forall s, p :: s in subs && p in pending ==> s.id != p.1.id)
    && (forall s, t :: s in subs && t in subs && s != t ==> s.id != t.id)
  }

  ghost predicate IdsOk(w: World) {
    EventIdsOk(w.pending, w.log, w.hub.sequence) && SubIdsOk(w.hub.channels.Keys, w.pending, w.log, w.hub.sequence)
  }

  /** Only drawing, locking and subscribing touch the numbers. */
  lemma OthersKeepIds(w: World, a: Action)
    requires Enabled(w, a) && !a.NextId? && !a.Draw? && !a.Lock? && !a.Subscribe?
    ensures var to := Do(w, a);
      && to.pending == w.pending && to.log == w.log && to.hub.sequence == w.hub.sequence
      && to.hub.channels.Keys == w.hub.channels.Keys
  {
  }

  lemma LockKeepsIds(subs: set<Subscription>, pending: set<Publication>, log: seq<Publication>, sequence: nat, p: Publication)
    requires EventIdsOk(pending, log, sequence) && SubIdsOk(subs, pending, log, sequence) && p in pending
    ensures EventIdsOk(pending - {p}, log + [p], sequence) && SubIdsOk(subs, pending - {p}, log + [p], sequence)
  {
  }

  lemma CountKeepsIds(subs: set<Subscription>, pending: set<Publication>, log: seq<Publication>, sequence: nat)
    requires EventIdsOk(pending, log, sequence) && SubIdsOk(subs, pending, log, sequence)
    ensures EventIdsOk(pending, log, sequence + 1) && SubIdsOk(subs, pending, log, sequence + 1)
  {
  }

  lemma DrawKeepsIds(subs: set<Subscription>, pending: set<Publication>, log: seq<Publication>, sequence: nat, p: Publication)
    requires EventIdsOk(pending, log, sequence) && SubIdsOk(subs, pending, log, sequence) && p.1.id == sequence + 1
    ensures EventIdsOk(pending + {p}, log, sequence + 1) && SubIdsOk(subs, pending + {p}, log, sequence + 1)
  {
  }

  lemma SubscribeKeepsIds(subs: set<Subscription>, pending: set<Publication>, log: seq<Publication>, sequence: nat, s: Subscription)
    requires EventIdsOk(pending, log, sequence) && SubIdsOk(subs, pending, log, sequence) && s.id == sequence + 1
    ensures EventIdsOk(pending, log, sequence + 1) && SubIdsOk(subs + {s}, pending, log, sequence + 1)
  {
  }

  lemma StepKeepsIds(w: World, a: Action)
    requires IdsOk(w) && Enabled(w, a)
    ensures IdsOk(Do(w, a))
  {
    hide EventIdsOk;
    hide SubIdsOk;
    var subs, sequence := w.hub.channels.Keys, w.hub.sequence;
    match a
    case NextId =>
      CountKeepsIds(subs, w.pending, w.log, sequence);
    case Draw(device, kind, snapshot) =>
      DrawKeepsIds(subs, w.pending, w.log, sequence, (device, LiveEvent(sequence + 1, kind, snapshot)));
    case Lock(p) =>
      LockKeepsIds(subs, w.pending, w.log, sequence, p);
    case Subscribe(sub) =>
      SubscribeKeepsIds(subs, w.pending, w.log, sequence, sub);
      assert Do(w, a).hub.channels.Keys == subs + {sub};
    case _ =>
      hide Do;
      OthersKeepIds(w, a);
  }

  /** No number is ever drawn twice. */
  lemma {:induction false} IdsUnique(actions: seq<Action>)
    requires After(actions).Some?
    ensures IdsOk(After(actions).value)
  {
    hide Do;
    hide Enabled;
    if actions != [] {
      IdsUnique(actions[..|actions| - 1]);
      StepKeepsIds(After(actions[..|actions| - 1]).value, actions[|actions| - 1]);
    }
  }

  // ---- When numbers arrive in order ----

  predicate Rising(events: seq<LiveEvent>) {
    forall i, j :: 0 <= i < j < |events| ==> events[i].id < events[j].id
  }

  /** The publications of a device that were waiting with a lower number when
      another publication of the device got the lock. */
  function Overtaken(actions: seq<Action>, d: DeviceId): set<Publication> {
    if actions == [] then {}
    else
      var n := |actions| - 1;
      match After(actions[..n])
      case None => {}
      case Some(w) => Overtaken(actions[..n], d) + Passed(w.pending, actions[n], d)
  }

  function Passed(pending: set<Publication>, a: Action, d: DeviceId): set<Publication> {
    if a.Lock? && a.publication.0 == d then set q | q in pending && q.0 == d && q.1.id < a.publication.1.id else {}
  }

  /** This number is lower than that of something already published. */
  predicate Late(log: seq<Publication>, d: DeviceId, id: nat) {
    exists k :: 0 <= k < |log| && log[k].0 == d && log[k].1.id > id
  }

  /** Waiting publications are late exactly if they were overtaken. */
  ghost predicate WaitingOk(pending: set<Publication>, log: seq<Publication>, over: set<Publication>, d: DeviceId) {
    forall q :: q in pending && q.0 == d ==> (q in over <==> Late(log, d, q.1.id))
  }

  predicate NoneOvertaken(log: seq<Publication>, over: set<Publication>, d: DeviceId) {
    forall k :: 0 <= k < |log| && log[k].0 == d ==> log[k] !in over
  }

  ghost predicate OrderOk(pending: set<Publication>, log: seq<Publication>, sequence: nat, over: set<Publication>, d: DeviceId) {
    && WaitingOk(pending, log, over, d)
    && (forall q :: q in over ==> q.1.id <= sequence)
    && (Rising(Published(log, d)) <==> NoneOvertaken(log, over, d))
  }

  lemma {:induction false} PublishedFrom(log: seq<Publication>, d: DeviceId, e: LiveEvent)
    ensures e in Published(log, d) <==> exists k :: 0 <= k < |log| && log[k] == (d, e)
  {
    if log != [] {
      var n := |log| - 1;
      PublishedFrom(log[..n], d, e);
      assert log == log[..n] + [log[n]];
      if e in Published(log[..n], d) {
        var k :| 0 <= k < n && log[..n][k] == (d, e);
        assert log[k] == (d, e);
      }
      if k :| 0 <= k < n && log[k] == (d, e) {
        assert log[..n][k] == (d, e);
      }
    }
  }

  lemma RisesOn(events: seq<LiveEvent>, e: LiveEvent)
    ensures Rising(events + [e]) <==> Rising(events) && forall x :: x in events ==> x.id < e.id
  {
    var all := events + [e];
    assert forall i :: 0 <= i < |events| ==> all[i] == events[i] && events[i] in events;
    if Rising(all) {
      forall i, j | 0 <= i < j < |events|
        ensures events[i].id < events[j].id
      {
        assert all[i].id < all[j].id;
      }
      assert forall i :: 0 <= i < |events| ==> all[i].id < all[|events|].id;
    }
  }

  /** One more publication keeps the order exactly if it is not late. */
  lemma PublishedRises(log: seq<Publication>, p: Publication, d: DeviceId)
    requires forall k :: 0 <= k < |log| ==> log[k].1.id != p.1.id
    ensures Rising(Published(log + [p], d)) <==> Rising(Published(log, d)) && (p.0 == d ==> !Late(log, d, p.1.id))
  {
    hide Published;
    hide Rising;
    PublishedOneMore(log, p, d);
    var events := Published(log, d);
    if p.0 == d {
      RisesOn(events, p.1);
      forall e | e in events
        ensures exists k :: 0 <= k < |log| && log[k] == (d, e)
      {
        PublishedFrom(log, d, e);
      }
      forall k | 0 <= k < |log| && log[k].0 == d
        ensures log[k].1 in events
      {
        PublishedFrom(log, d, log[k].1);
      }
    } else {
      assert events + [] == events;
    }
  }

  lemma LateOneMore(log: seq<Publication>, p: Publication, d: DeviceId, id: nat)
    ensures Late(log + [p], d, id) <==> Late(log, d, id) || (p.0 == d && p.1.id > id)
  {
    var all := log + [p];
    assert forall k :: 0 <= k < |log| ==> all[k] == log[k];
    assert all[|log|] == p;
  }

  /** Getting the lock overtakes exactly the waiting ones that it makes late. */
  lemma LockKeepsWaiting(pending: set<Publication>, log: seq<Publication>, over: set<Publication>, d: DeviceId, p: Publication)
    requires WaitingOk(pending, log, over, d)
    ensures WaitingOk(pending - {p}, log + [p], over + Passed(pending, Lock(p), d), d)
  {
    hide Late;
    forall q | q in pending - {p} && q.0 == d
      ensures q in over + Passed(pending, Lock(p), d) <==> Late(log + [p], d, q.1.id)
    {
      LateOneMore(log, p, d, q.1.id);
    }
  }

  lemma LockKeepsOrder(pending: set<Publication>, log: seq<Publication>, sequence: nat, over: set<Publication>, d: DeviceId, p: Publication)
    requires OrderOk(pending, log, sequence, over, d) && EventIdsOk(pending, log, sequence) && p in pending
    ensures Rising(Published(log + [p], d)) <==> NoneOvertaken(log + [p], over + Passed(pending, Lock(p), d), d)
  {
    hide Published;
    hide Rising;
    hide Late;
    PublishedRises(log, p, d);
    var all, passed := log + [p], Passed(pending, Lock(p), d);
    assert all[|log|] == p && p !in passed;
    forall k | 0 <= k < |log|
      ensures all[k] == log[k] && log[k] !in passed
    {
    }
  }

  lemma LockKeepsOrderOk(pending: set<Publication>, log: seq<Publication>, sequence: nat, over: set<Publication>, d: DeviceId, p: Publication)
    requires OrderOk(pending, log, sequence, over, d) && EventIdsOk(pending, log, sequence) && p in pending
    ensures OrderOk(pending - {p}, log + [p], sequence, over + Passed(pending, Lock(p), d), d)
  {
    LockKeepsOrder(pending, log, sequence, over, d, p);
    LockKeepsWaiting(pending, log, over, d, p);
    hide WaitingOk;
    hide NoneOvertaken;
    hide Rising;
    hide Published;
  }

  /** A number just drawn is the highest, so it is neither late nor overtaken. */
  lemma DrawKeepsOrderOk(pending: set<Publication>, log: seq<Publication>, sequence: nat, over: set<Publication>, d: DeviceId, p: Publication)
    requires OrderOk(pending, log, sequence, over, d) && EventIdsOk(pending, log, sequence) && p.1.id == sequence + 1
    ensures OrderOk(pending + {p}, log, sequence + 1, over, d)
  {
    hide NoneOvertaken;
    hide Rising;
    hide Published;
  }

  lemma StepKeepsOrder(w: World, a: Action, over: set<Publication>, d: DeviceId)
    requires IdsOk(w) && Enabled(w, a) && OrderOk(w.pending, w.log, w.hub.sequence, over, d)
    ensures var to := Do(w, a);
      OrderOk(to.pending, to.log, to.hub.sequence, over + Passed(w.pending, a, d), d)
  {
    hide EventIdsOk;
    hide SubIdsOk;
    hide WaitingOk;
    hide NoneOvertaken;
    hide Rising;
    hide Published;
    var sequence := w.hub.sequence;
    if !a.Lock? {
      assert over + Passed(w.pending, a, d) == over;
    }
    match a
    case NextId =>
    case Draw(device, kind, snapshot) =>
      DrawKeepsOrderOk(w.pending, w.log, sequence, over, d, (device, LiveEvent(sequence + 1, kind, snapshot)));
    case Lock(p) => LockKeepsOrderOk(w.pending, w.log, sequence, over, d, p);
    case Subscribe(_) =>
    case _ =>
      hide Do;
      OthersKeepIds(w, a);
  }

  lemma {:induction false} RunKeepsOrder(actions: seq<Action>, d: DeviceId)
    requires After(actions).Some?
    ensures var w := After(actions).value;
      OrderOk(w.pending, w.log, w.hub.sequence, Overtaken(actions, d), d)
  {
    hide Do;
    hide Enabled;
    hide IdsOk;
    hide OrderOk;
    hide Passed;
    if actions == [] {
      NothingOvertaken(d);
    } else {
      var n := |actions| - 1;
      RunKeepsOrder(actions[..n], d);
      IdsUnique(actions[..n]);
      StepKeepsOrder(After(actions[..n]).value, actions[n], Overtaken(actions[..n], d), d);
    }
  }

  lemma NothingOvertaken(d: DeviceId)
    ensures OrderOk({}, [], 0, {}, d)
  {
  }

  /** A device's events are published in the order of their numbers if and only if
      none of them was waiting with a lower number when another one of the device
      got the lock. */
  lemma OrderKeptIff(actions: seq<Action>, d: DeviceId)
    requires After(actions).Some?
    ensures var log := After(actions).value.log;
      Rising(Published(log, d)) <==> forall k :: 0 <= k < |log| && log[k].0 == d ==> log[k] !in Overtaken(actions, d)
  {
    hide After;
    hide Overtaken;
    hide Rising;
    hide Published;
    RunKeepsOrder(actions, d);
  }

  /** And then every subscriber of the device sees them so. */
  lemma SeenInOrder(actions: seq<Action>, sub: Subscription)
    requires After(actions).Some? && sub in After(actions).value.hub.channels
    requires var log := After(actions).value.log;
      forall k :: 0 <= k < |log| && log[k].0 == sub.device ==> log[k] !in Overtaken(actions, sub.device)
    ensures sub in After(actions).value.history && Rising(Seen(After(actions).value, sub))
  {
    hide After;
    hide Overtaken;
    hide Published;
    OrderKeptIff(actions, sub.device);
    RunKeeps(actions);
    var w := After(actions).value;
    assert SubOk(w, sub);
    var seen, all := Seen(w, sub), Published(w.log, sub.device);
    assert seen <= all[w.history[sub].since..];
    assert forall i :: 0 <= i < |seen| ==> seen[i] == all[w.history[sub].since + i];
  }

  lemma Next(actions: seq<Action>, a: Action)
    requires After(actions).Some? && Enabled(After(actions).value, a)
    ensures After(actions + [a]) == Some(Do(After(actions).value, a))
  {
    hide Do;
    hide Enabled;
    assert (actions + [a])[..|actions|] == actions;
  }

  function Delivering(run: seq<Action>, p: Publication, sub: Subscription): seq<Action> {
    run + [Lock(p)] + [Serve(sub.id)] + [Unlock]
  }

  /** A publication reaches the device's only subscriber. */
  lemma ReachesOnly(run: seq<Action>, p: Publication, sub: Subscription)
    requires After(run).Some?
    requires var w := After(run).value;
      && w.lock == None && p in w.pending && p.0 in w.hub.subs && w.hub.subs[p.0] == map[sub.id := sub]
      && sub in w.hub.channels && sub in w.history && !w.hub.Full(sub)
    ensures var w, next := After(run).value, Delivering(run, p, sub);
      && After(next).Some?
      && var to := After(next).value;
         && to.lock == None && to.pending == w.pending - {p} && to.hub.subs == w.hub.subs && sub in to.history
         && to.hub.channels == w.hub.channels[sub := w.hub.channels[sub].(buffer := w.hub.channels[sub].buffer + [p.1])]
  {
    hide After;
    var locked := run + [Lock(p)];
    Next(run, Lock(p));
    var w := After(locked).value;
    assert w.hub.Audience(p.0) == {sub.id} && Served(w, sub.id) == sub;
    Next(locked, Serve(sub.id));
    assert After(locked + [Serve(sub.id)]).value.lock.value.remaining == {};
    Next(locked + [Serve(sub.id)], Unlock);
  }

  /** But a publisher numbers its event before it waits for the lock, so a
      subscriber can receive a higher number before a lower one. */
  lemma NumbersOutOfOrder(sub: Subscription, early: LiveLocation, late: LiveLocation)
    requires sub.device == 7 && sub.id == 1
    ensures var first, second := LiveEvent(2, "location", early), LiveEvent(3, "location", late);
      exists run ::
        && After(run).Some?
        && sub in After(run).value.hub.channels
        && After(run).value.hub.channels[sub].buffer == [second, first]
  {
    var first, second := LiveEvent(2, "location", early), LiveEvent(3, "location", late);
    var drawn := [Subscribe(sub)] + [Draw(7, "location", early)] + [Draw(7, "location", late)];
    BothDrawn(sub, early, late);
    hide After;
    hide Delivering;
    ReachesOnly(drawn, (7, second), sub);
    var between := Delivering(drawn, (7, second), sub);
    assert After(between).value.hub.channels[sub].buffer == [second];
    assert (7, first) in After(between).value.pending;
    ReachesOnly(between, (7, first), sub);
    assert After(Delivering(between, (7, first), sub)).value.hub.channels[sub].buffer == [second, first];
  }

  lemma BothDrawn(sub: Subscription, early: LiveLocation, late: LiveLocation)
    requires sub.device == 7 && sub.id == 1
    ensures var run := [Subscribe(sub)] + [Draw(7, "location", early)] + [Draw(7, "location", late)];
      && After(run).Some?
      && var w := After(run).value;
         && w.pending == {(7, LiveEvent(2, "location", early)), (7, LiveEvent(3, "location", late))}
         && w.lock == None && w.hub.subs == map[7 := map[1 := sub]] && sub in w.history
         && w.hub.channels == map[sub := Channel([], false, false)]
  {
    Next([], Subscribe(sub));
    assert [] + [Subscribe(sub)] == [Subscribe(sub)];
    Next([Subscribe(sub)], Draw(7, "location", early));
    Next([Subscribe(sub)] + [Draw(7, "location", early)], Draw(7, "location", late));
  }
}
