/** Cellular recovery: the policy (connectivity_policy.cpp), the manager that
    drives it (cellular_manager.cpp) and the gate of the main loop that feeds
    it (main.cpp), closed into one machine over real time. */
module Connectivity {
  import opened Wire
  import opened Transport

  datatype ConnectivityState = IDLE | READY | BACKOFF | RECONNECT_PDP | RESTART_MODEM | FAILED
  datatype ConnectivityEvent = REGISTRATION_OK | PDP_OK | TRANSPORT_FAILURE | UPLOAD_SUCCESS
  datatype ConnectivityAction = NOTHING | CHECK | CONNECT | RESTART
  datatype ConnectivityDecision = ConnectivityDecision(action: ConnectivityAction, deadlineMs: uint32)

  datatype Policy = Policy(base: uint32, max: uint32, limit: uint8, deadline: uint32, failures: uint8, state: ConnectivityState)

  /** The signed 32-bit comparison of two readings of the clock. */
  predicate Due(now: uint32, deadline: uint32) {
    Wrap(now - deadline) < 0x8000_0000
  }

  function Shift(failures: uint8): nat
    requires failures > 0
  {
    if failures > 6 then 6 else failures - 1
  }

  function Pow2(n: nat): nat {
    if n == 0 then 1 else 2 * Pow2(n - 1)
  }

  function Delay(base: uint32, max: uint32, failures: uint8): uint32
    requires failures > 0
  {
    var delay := Wrap(base * Pow2(Shift(failures)));
    if delay > max then max else delay
  }

  function OnEvent(p: Policy, e: ConnectivityEvent, now: uint32): (Policy, ConnectivityDecision) {
    if e == UPLOAD_SUCCESS || e == PDP_OK then
      (p.(failures := 0, state := READY, deadline := now), ConnectivityDecision(NOTHING, now))
    else if e == REGISTRATION_OK then (p, ConnectivityDecision(CONNECT, now))
    else
      var failures := if p.failures < 255 then p.failures + 1 else p.failures;
      if failures > p.limit then (p.(failures := failures, state := FAILED), ConnectivityDecision(NOTHING, now))
      else
        var deadline := Wrap(now + Delay(p.base, p.max, failures));
        (p.(failures := failures, state := BACKOFF, deadline := deadline), ConnectivityDecision(CHECK, deadline))
  }

  function OnTick(p: Policy, now: uint32): (Policy, ConnectivityDecision) {
    if p.state != BACKOFF || !Due(now, p.deadline) then (p, ConnectivityDecision(NOTHING, p.deadline))
    else if p.failures >= 3 then (p.(state := RESTART_MODEM), ConnectivityDecision(RESTART, now))
    else (p.(state := RECONNECT_PDP), ConnectivityDecision(CONNECT, now))
  }

  /** The decision that goes with an event: look again at the deadline of a new
      back-off, connect on a registration, and otherwise nothing. */
  lemma EventDecision(p: Policy, e: ConnectivityEvent, now: uint32)
    ensures var (q, d) := OnEvent(p, e, now);
      && (q.base, q.max, q.limit) == (p.base, p.max, p.limit)
      && (d.action == CONNECT <==> e == REGISTRATION_OK) && (e == REGISTRATION_OK ==> q == p)
      && (d.action == CHECK <==> e == TRANSPORT_FAILURE && q.state == BACKOFF)
      && d.action != RESTART
      && d.deadlineMs == (if d.action == CHECK then q.deadline else now)
      && (q.state == READY && e != REGISTRATION_OK ==> q.deadline == now)
  {
    hide Delay;
    hide Wrap;
  }

  class ConnectivityPolicy {
    const base: uint32
    const max: uint32
    const limit: uint8
    var deadline: uint32
    var failures: uint8
    var state: ConnectivityState

    constructor (base: uint32, max: uint32, limit: uint8)
      ensures Value() == Policy(base, max, limit, 0, 0, IDLE)
    {
      this.base, this.max, this.limit := base, max, limit;
      deadline, failures, state := 0, 0, IDLE;
    }

    function Value(): Policy
      reads this
    {
      Policy(base, max, limit, deadline, failures, state)
    }

    method Event(e: ConnectivityEvent, now: uint32) returns (decision: ConnectivityDecision)
      modifies this
      ensures (Value(), decision) == OnEvent(old(Value()), e, now)
      ensures e in {UPLOAD_SUCCESS, PDP_OK} ==> failures == 0 && state == READY
      ensures e == TRANSPORT_FAILURE ==>
        failures == (if old(failures) < 255 then old(failures) + 1 else 255) && (state == FAILED <==> failures > limit)
    {
      if e == UPLOAD_SUCCESS || e == PDP_OK {
        failures, state, deadline := 0, READY, now;
        return ConnectivityDecision(NOTHING, now);
      }
      if e == REGISTRATION_OK {
        return ConnectivityDecision(CONNECT, now);
      }
      if failures < 255 {
        failures := failures + 1;
      }
      if failures > limit {
        state := FAILED;
        return ConnectivityDecision(NOTHING, now);
      }
      var delay := Wrap(base * Pow2(Shift(failures)));
      if delay > max {
        delay := max;
      }
      state, deadline := BACKOFF, Wrap(now + delay);
      return ConnectivityDecision(CHECK, deadline);
    }

    method Tick(now: uint32) returns (decision: ConnectivityDecision)
      modifies this
      ensures (Value(), decision) == OnTick(old(Value()), now)
    {
      if state != BACKOFF || !Due(now, deadline) {
        return ConnectivityDecision(NOTHING, deadline);
      }
      var restart := failures >= 3;
      state := if restart then RESTART_MODEM else RECONNECT_PDP;
      return ConnectivityDecision(if restart then RESTART else CONNECT, now);
    }
  }

  /** How the modem answers a recovery attempt. */
  datatype Modem = Modem(networkConnected: bool, restarted: bool, registered: bool, pdpConnected: bool)

  function Recovers(action: ConnectivityAction, m: Modem): bool {
    if action == CONNECT then m.networkConnected && m.pdpConnected
    else action == RESTART && m.restarted && m.registered && m.pdpConnected
  }

  /** The manager's tick: a due recovery attempt, and its result as an event. */
  function ManagerTick(p: Policy, now: uint32, modem: Modem, after: uint32): (Policy, ConnectivityAction) {
    var (q, decision) := OnTick(p, now);
    if decision.action == NOTHING then (q, NOTHING)
    else (OnEvent(q, if Recovers(decision.action, modem) then PDP_OK else TRANSPORT_FAILURE, after).0, decision.action)
  }

  function Report(p: Policy, result: TransportResult, now: uint32): Policy {
    if result == SENT then OnEvent(p, UPLOAD_SUCCESS, now).0
    else if result in {TRANSPORT_ERROR, TIMEOUT, HTTP_SERVER_ERROR} then OnEvent(p, TRANSPORT_FAILURE, now).0
    else p
  }

  class CellularManager {
    const policy: ConnectivityPolicy

    constructor (base: uint32, max: uint32, limit: uint8)
      ensures fresh(policy) && policy.Value() == Policy(base, max, limit, 0, 0, IDLE)
    {
      policy := new ConnectivityPolicy(base, max, limit);
    }

    method Begin(connected: bool, now: uint32)
      modifies policy
      ensures policy.Value() == OnEvent(old(policy.Value()), if connected then PDP_OK else TRANSPORT_FAILURE, now).0
    {
      var _ := policy.Event(if connected then PDP_OK else TRANSPORT_FAILURE, now);
    }

    method Tick(now: uint32, modem: Modem, after: uint32) returns (action: ConnectivityAction)
      modifies policy
      ensures (policy.Value(), action) == ManagerTick(old(policy.Value()), now, modem, after)
    {
      var decision := policy.Tick(now);
      if decision.action == NOTHING {
        return NOTHING;
      }
      var recovered := false;
      if decision.action == CONNECT {
        recovered := modem.networkConnected && modem.pdpConnected;
      } else if decision.action == RESTART {
        recovered := modem.restarted;
        recovered := recovered && modem.registered;
        recovered := recovered && modem.pdpConnected;
      }
      if recovered {
        var _ := policy.Event(PDP_OK, after);
      } else {
        var _ := policy.Event(TRANSPORT_FAILURE, after);
      }
      return decision.action;
    }

    method ReportTransportResult(result: TransportResult, now: uint32)
      modifies policy
      ensures policy.Value() == Report(old(policy.Value()), result, now)
    {
      if result == SENT {
        var _ := policy.Event(UPLOAD_SUCCESS, now);
      } else if result == TRANSPORT_ERROR || result == TIMEOUT || result == HTTP_SERVER_ERROR {
        var _ := policy.Event(TRANSPORT_FAILURE, now);
      }
    }
  }

  // ---- The closed loop ----

  /** One pass of the main loop, in real milliseconds: the manager ticks; then,
      only if the policy is READY, an upload may run and be reported. */
  datatype Pass = Pass(tick: nat, modem: Modem, after: nat, upload: Option<TransportResult>, reported: nat)

  datatype Mark = Failure(t: nat) | Recovery(action: ConnectivityAction, t: nat) | Success(t: nat)

  /** The policy together with what has happened so far. */
  datatype Loop = Loop(policy: Policy, trace: seq<Mark>)

  function LoopTick(l: Loop, x: Pass): Loop {
    var (p, action) := ManagerTick(l.policy, Wrap(x.tick), x.modem, Wrap(x.after));
    if action == NOTHING then Loop(p, l.trace)
    else Loop(p, l.trace + [Recovery(action, x.tick), if Recovers(action, x.modem) then Success(x.after) else Failure(x.after)])
  }

  function LoopUpload(l: Loop, x: Pass): Loop {
    if l.policy.state != READY || x.upload.None? then l
    else
      var p := Report(l.policy, x.upload.value, Wrap(x.reported));
      if x.upload.value == SENT then Loop(p, l.trace + [Success(x.reported)])
      else if x.upload.value in {TRANSPORT_ERROR, TIMEOUT, HTTP_SERVER_ERROR} then Loop(p, l.trace + [Failure(x.reported)])
      else Loop(p, l.trace)
  }

  function LoopPass(l: Loop, x: Pass): Loop {
    LoopUpload(LoopTick(l, x), x)
  }

  function LoopRun(l: Loop, passes: seq<Pass>): Loop {
    if passes == [] then l else LoopPass(LoopRun(l, passes[..|passes| - 1]), passes[|passes| - 1])
  }

  /** Time does not run backwards within a pass or between passes. */
  predicate Chronological(start: nat, passes: seq<Pass>) {
    && (forall i :: 0 <= i < |passes| ==> passes[i].tick <= passes[i].after <= passes[i].reported)
    && (passes != [] ==> start <= passes[0].tick)
    && (forall i :: 0 <= i < |passes| - 1 ==> passes[i].reported <= passes[i + 1].tick)
  }

  /** A run without success: no recovery that was performed worked, and no upload
      that ran was SENT. */
  predicate Unlucky(l: Loop, passes: seq<Pass>) {
    NoSuccess(LoopRun(l, passes).trace)
  }

  predicate NoSuccess(trace: seq<Mark>) {
    forall m :: m in trace ==> !m.Success?
  }

  function EndOf(now: nat, passes: seq<Pass>): nat {
    if passes == [] then now else passes[|passes| - 1].reported
  }

  /** How many recoveries were performed. */
  function Recoveries(trace: seq<Mark>): nat {
    if trace == [] then 0
    else Recoveries(trace[..|trace| - 1]) + if trace[|trace| - 1].Recovery? then 1 else 0
  }

  function ActionFor(k: nat): ConnectivityAction {
    if k < 3 then CONNECT else RESTART
  }

  /** The k-th recovery follows the k-th failure, after the k-th delay. */
  predicate Answers(p: Policy, failure: Mark, recovery: Mark, k: nat) {
    && 0 < k < 0x100
    && failure.Failure? && recovery.Recovery? && recovery.action == ActionFor(k)
    && recovery.t >= failure.t + Delay(p.base, p.max, k)
  }

  /** Failure, recovery, failure, recovery, ...: the shape of a run of failures. */
  ghost predicate Shaped(p: Policy, trace: seq<Mark>) {
    && (forall i :: 0 <= 2 * i < |trace| ==> trace[2 * i].Failure?)
    && (forall i :: 0 <= 2 * i + 1 < |trace| ==> Answers(p, trace[2 * i], trace[2 * i + 1], i + 1))
  }

  /** Where a run without success can be, and what it has done by time `now`. */
  ghost predicate LoopOk(l: Loop, now: nat) {
    var p, n := l.policy, |l.trace|;
    && p.limit < 255 && p.max <= 0x8000_0000
    && Shaped(p, l.trace)
    && (n > 0 ==> l.trace[n - 1].t <= now)
    && match p.state
       case READY => p.failures == 0 && n == 0
       case BACKOFF =>
         && 1 <= p.failures <= p.limit && n == 2 * p.failures - 1
         && p.deadline == Wrap(l.trace[n - 1].t + Delay(p.base, p.max, p.failures))
       case FAILED => p.failures == p.limit + 1 && n == 2 * p.limit + 1
       case _ => false
  }

  lemma DueNotEarly(failed: nat, delay: uint32, t: nat)
    requires failed <= t && delay <= 0x8000_0000 && Due(Wrap(t), Wrap(failed + delay))
    ensures t >= failed + delay
  {
    WrapSub(t, failed + delay);
    if t < failed + delay {
      WrapBefore(t - (failed + delay));
      assert false;
    }
  }

  lemma WrapBefore(x: int)
    requires -0x8000_0000 <= x < 0
    ensures Wrap(x) >= 0x8000_0000
  {
  }

  lemma DueOnTime(failed: nat, delay: uint32, t: nat)
    requires failed + delay <= t < failed + delay + 0x8000_0000
    ensures Due(Wrap(t), Wrap(failed + delay))
  {
    WrapSub(t, failed + delay);
    ModuloSmall(t - (failed + delay), TWO_TO_THE_32);
  }

  lemma ShapedAppend(p: Policy, trace: seq<Mark>, k: nat, recovery: Mark, failure: Mark)
    requires Shaped(p, trace) && |trace| == 2 * k - 1 && k > 0 && failure.Failure?
    requires Answers(p, trace[2 * (k - 1)], recovery, k)
    ensures Shaped(p, trace + [recovery, failure])
  {
    hide Answers;
    var longer := trace + [recovery, failure];
    assert |longer| == 2 * k + 1 && longer[2 * k - 1] == recovery && longer[2 * k] == failure;
    forall i | 0 <= 2 * i < |longer|
      ensures longer[2 * i].Failure?
    {
      if 2 * i < |trace| {
        assert longer[2 * i] == trace[2 * i];
      } else {
        assert i == k;
      }
    }
    forall i | 0 <= 2 * i + 1 < |longer|
      ensures Answers(p, longer[2 * i], longer[2 * i + 1], i + 1)
    {
      assert longer[2 * i] == trace[2 * i];
      if 2 * i + 1 < |trace| {
        assert longer[2 * i + 1] == trace[2 * i + 1];
      } else {
        assert i == k - 1;
      }
    }
  }

  lemma DelayWithin(base: uint32, max: uint32, failures: uint8)
    requires failures > 0
    ensures Delay(base, max, failures) <= max
  {
  }

  lemma ShapedSameConfig(p: Policy, q: Policy, trace: seq<Mark>)
    requires p.base == q.base && p.max == q.max
    ensures Shaped(p, trace) == Shaped(q, trace)
  {
    hide Delay;
    assert forall f, r, k {:trigger Answers(p, f, r, k)} {:trigger Answers(q, f, r, k)} :: Answers(p, f, r, k) == Answers(q, f, r, k);
  }

  lemma TickKeeps(l: Loop, x: Pass, now: nat)
    requires LoopOk(l, now) && now <= x.tick <= x.after && NoSuccess(LoopTick(l, x).trace)
    ensures LoopOk(LoopTick(l, x), x.after)
    ensures LoopTick(l, x).policy.state == READY ==> LoopTick(l, x) == l
  {
    hide Wrap;
    hide Due;
    hide Shaped;
    hide Delay;
    hide Answers;
    var p, k, n := l.policy, l.policy.failures, |l.trace|;
    if p.state == BACKOFF && Due(Wrap(x.tick), p.deadline) {
      var last := l.trace[n - 1];
      assert LoopTick(l, x).trace[n + 1] in LoopTick(l, x).trace;
      DelayWithin(p.base, p.max, k);
      DueNotEarly(last.t, Delay(p.base, p.max, k), x.tick);
      LastFailed(p, l.trace, k);
      RecoveryAnswers(p, last, k, x.tick);
      ShapedAppend(p, l.trace, k, Recovery(ActionFor(k), x.tick), Failure(x.after));
      ShapedSameConfig(p, LoopTick(l, x).policy, LoopTick(l, x).trace);
      WrapAdd(x.after, Delay(p.base, p.max, k + 1));
    }
  }

  lemma RecoveryAnswers(p: Policy, failure: Mark, k: uint8, t: nat)
    requires k > 0 && failure.Failure? && t >= failure.t + Delay(p.base, p.max, k)
    ensures Answers(p, failure, Recovery(ActionFor(k), t), k)
  {
  }

  lemma LastFailed(p: Policy, trace: seq<Mark>, k: nat)
    requires Shaped(p, trace) && |trace| == 2 * k - 1 && k > 0
    ensures trace[2 * (k - 1)].Failure? && trace[|trace| - 1] == trace[2 * (k - 1)]
  {
  }

  lemma UploadKeeps(l: Loop, x: Pass, now: nat)
    requires LoopOk(l, now) && now <= x.reported && NoSuccess(LoopUpload(l, x).trace)
    ensures LoopOk(LoopUpload(l, x), x.reported)
  {
    hide Wrap;
    hide Shaped;
    hide Delay;
    WrapAdd(x.reported, Delay(l.policy.base, l.policy.max, 1));
    var m := LoopUpload(l, x);
    assert m.trace != [] ==> m.trace[|m.trace| - 1] in m.trace;
    if m.trace != l.trace {
      OneFailureShaped(m.policy, x.reported);
      assert m.trace == [Failure(x.reported)];
    }
  }

  lemma OneFailureShaped(p: Policy, t: nat)
    ensures Shaped(p, [Failure(t)])
  {
  }

  /** Every run of failures keeps to the pattern: at any moment the recoveries
      done are the first so many of the sequence CONNECT, CONNECT, RESTART,
      RESTART, ..., each no sooner than its delay after its failure, at most
      `limit` of them; and the policy is FAILED exactly when all are spent. */
  lemma {:induction false} FailingRunShape(l: Loop, now: nat, passes: seq<Pass>)
    requires LoopOk(l, now) && Chronological(now, passes) && Unlucky(l, passes)
    ensures var m := LoopRun(l, passes);
      && LoopOk(m, EndOf(now, passes))
      && Shaped(m.policy, m.trace) && Recoveries(m.trace) <= m.policy.limit
      && (m.policy.state == FAILED <==> |m.trace| == 2 * m.policy.limit + 1)
      && (m.policy.state == FAILED ==> Recoveries(m.trace) == m.policy.limit)
  {
    hide LoopTick;
    hide LoopUpload;
    hide Shaped;
    if passes != [] {
      var n := |passes| - 1;
      var front, x := passes[..n], passes[n];
      assert Chronological(now, front);
      TraceGrows(LoopRun(l, front), x);
      FailingRunShape(l, now, front);
      var before := if front == [] then now else front[|front| - 1].reported;
      TickKeeps(LoopRun(l, front), x, before);
      UploadKeeps(LoopTick(LoopRun(l, front), x), x, x.after);
    }
    ShapedCount(LoopRun(l, passes).policy, LoopRun(l, passes).trace);
  }

  /** Marks are only added. */
  lemma TraceGrows(l: Loop, x: Pass)
    ensures NoSuccess(LoopPass(l, x).trace) ==> NoSuccess(LoopTick(l, x).trace) && NoSuccess(l.trace)
  {
    hide Wrap;
    hide Delay;
    hide Due;
  }

  lemma {:induction false} ShapedCount(p: Policy, trace: seq<Mark>)
    requires Shaped(p, trace)
    ensures Recoveries(trace) == |trace| / 2
  {
    hide Answers;
    if trace != [] {
      var n := |trace| - 1;
      assert Shaped(p, trace[..n]) by {
        assert forall i :: 0 <= i < n ==> trace[..n][i] == trace[i];
      }
      ShapedCount(p, trace[..n]);
      MarkAt(p, trace, n);
    }
  }

  lemma MarkAt(p: Policy, trace: seq<Mark>, n: nat)
    requires Shaped(p, trace) && n < |trace|
    ensures trace[n].Recovery? <==> n % 2 == 1
  {
    var i := n / 2;
    if n % 2 == 0 {
      assert trace[2 * i].Failure?;
    } else {
      assert Answers(p, trace[2 * i], trace[2 * i + 1], i + 1);
    }
  }

  /** Both starts of a run: the link was up, or it failed at boot. */
  lemma RunStarts(base: uint32, max: uint32, limit: uint8, deadline: uint32, t: nat)
    requires limit < 255 && max <= 0x8000_0000
    ensures LoopOk(Loop(Policy(base, max, limit, deadline, 0, READY), []), t)
    ensures LoopOk(Loop(OnEvent(Policy(base, max, limit, 0, 0, IDLE), TRANSPORT_FAILURE, Wrap(t)).0, [Failure(t)]), t)
  {
    hide Delay;
    var p := OnEvent(Policy(base, max, limit, 0, 0, IDLE), TRANSPORT_FAILURE, Wrap(t)).0;
    WrapAdd(t, if limit > 0 then Delay(base, max, 1) else 0);
  }

  lemma WrapAdd(t: nat, d: nat)
    ensures Wrap(Wrap(t) + d) == Wrap(t + d)
  {
    var q := t / TWO_TO_THE_32;
    assert t == Wrap(t) + q * TWO_TO_THE_32;
    WrapShift(Wrap(t) + d, q);
  }

  /** No recovery is forgotten: a tick within half a clock turn after the delay
      has run out performs it. */
  lemma RecoveryFires(l: Loop, now: nat, x: Pass)
    requires LoopOk(l, now) && l.policy.state == BACKOFF
    requires var due := l.trace[|l.trace| - 1].t + Delay(l.policy.base, l.policy.max, l.policy.failures);
      due <= x.tick < due + 0x8000_0000
    ensures |LoopTick(l, x).trace| == |l.trace| + 2
    ensures LoopTick(l, x).trace[|l.trace|] == Recovery(ActionFor(l.policy.failures), x.tick)
  {
    hide Delay;
    hide Due;
    hide Shaped;
    DueOnTime(l.trace[|l.trace| - 1].t, Delay(l.policy.base, l.policy.max, l.policy.failures), x.tick);
  }

  // ---- Any run, lucky or not ----

  function LastMark(l: Loop): nat
    requires l.trace != []
  {
    l.trace[|l.trace| - 1].t
  }

  /** The failures since the last success. */
  function FailuresSince(trace: seq<Mark>): nat {
    if trace == [] then 0
    else
      match trace[|trace| - 1]
      case Success(_) => 0
      case Failure(_) => FailuresSince(trace[..|trace| - 1]) + 1
      case Recovery(_, _) => FailuresSince(trace[..|trace| - 1])
  }

  /** What happened determines the policy: it counts the failures since the last
      success, up to 255; it is READY without any, FAILED with more than the limit,
      and otherwise waits for the delay after the last one. */
  predicate Tells(l: Loop) {
    var p, k := l.policy, FailuresSince(l.trace);
    && p.failures == (if k < 255 then k else 255)
    && (p.state == READY <==> k == 0)
    && (p.state == FAILED <==> p.failures > p.limit)
    && (p.state !in {READY, FAILED} ==>
          && p.state == BACKOFF && l.trace != [] && l.trace[|l.trace| - 1].Failure?
          && p.deadline == Wrap(LastMark(l) + Delay(p.base, p.max, p.failures)))
  }

  lemma OneMoreMark(trace: seq<Mark>, m: Mark)
    ensures FailuresSince(trace + [m])
      == if m.Success? then 0 else FailuresSince(trace) + if m.Failure? then 1 else 0
  {
    assert (trace + [m])[..|trace|] == trace;
  }

  /** A due tick performs the recovery that the count asks for; it succeeds exactly
      if the modem did all of it, and otherwise counts as one more failure. */
  lemma DueTick(p: Policy, now: uint32, modem: Modem, after: nat)
    requires p.state == BACKOFF && Due(now, p.deadline) && p.failures <= p.limit
    ensures var (q, action) := ManagerTick(p, now, modem, Wrap(after));
      var worked :=
        if p.failures < 3 then modem.networkConnected && modem.pdpConnected
        else modem.restarted && modem.registered && modem.pdpConnected;
      && action == (if p.failures < 3 then CONNECT else RESTART)
      && Recovers(action, modem) == worked
      && (q.base, q.max, q.limit) == (p.base, p.max, p.limit)
      && if worked then q.state == READY && q.failures == 0
         else
           && q.failures == (if p.failures < 255 then p.failures + 1 else 255)
           && if q.failures > p.limit then q.state == FAILED
              else q.state == BACKOFF && q.deadline == Wrap(after + Delay(p.base, p.max, q.failures))
  {
    hide Delay;
    hide Due;
    var k := if p.failures < 255 then p.failures + 1 else 255;
    WrapAdd(after, Delay(p.base, p.max, k));
  }

  lemma TickTells(l: Loop, x: Pass)
    requires Tells(l)
    ensures Tells(LoopTick(l, x))
  {
    hide Delay;
    hide Due;
    hide ManagerTick;
    hide FailuresSince;
    hide Wrap;
    var p := l.policy;
    if p.state == BACKOFF && Due(Wrap(x.tick), p.deadline) {
      DueTick(p, Wrap(x.tick), x.modem, x.after);
      var action := ActionFor(p.failures);
      var mark := if Recovers(action, x.modem) then Success(x.after) else Failure(x.after);
      OneMoreMark(l.trace, Recovery(action, x.tick));
      OneMoreMark(l.trace + [Recovery(action, x.tick)], mark);
      assert l.trace + [Recovery(action, x.tick), mark] == l.trace + [Recovery(action, x.tick)] + [mark];
    } else {
      TickWaits(p, Wrap(x.tick), x.modem, Wrap(x.after));
    }
  }

  lemma TickWaits(p: Policy, now: uint32, modem: Modem, after: uint32)
    requires p.state != BACKOFF || !Due(now, p.deadline)
    ensures ManagerTick(p, now, modem, after) == (p, NOTHING)
  {
    hide Due;
  }

  lemma UploadTells(l: Loop, x: Pass)
    requires Tells(l)
    ensures Tells(LoopUpload(l, x))
  {
    hide Delay;
    hide FailuresSince;
    hide Wrap;
    WrapAdd(x.reported, Delay(l.policy.base, l.policy.max, 1));
    OneMoreMark(l.trace, Success(x.reported));
    OneMoreMark(l.trace, Failure(x.reported));
  }

  /** In every run what happened determines the policy. */
  lemma {:induction false} RunTells(l: Loop, passes: seq<Pass>)
    requires Tells(l)
    ensures Tells(LoopRun(l, passes))
  {
    hide Tells;
    hide LoopTick;
    hide LoopUpload;
    if passes != [] {
      var n := |passes| - 1;
      RunTells(l, passes[..n]);
      TickTells(LoopRun(l, passes[..n]), passes[n]);
      UploadTells(LoopTick(LoopRun(l, passes[..n]), passes[n]), passes[n]);
    }
  }

  /** Both starts tell: the link was up, or it failed at boot. */
  lemma StartTells(base: uint32, max: uint32, limit: uint8, t: nat)
    ensures var p := Policy(base, max, limit, 0, 0, IDLE);
      && Tells(Loop(OnEvent(p, PDP_OK, Wrap(t)).0, [Success(t)]))
      && Tells(Loop(OnEvent(p, TRANSPORT_FAILURE, Wrap(t)).0, [Failure(t)]))
  {
    hide Delay;
    assert FailuresSince([]) == 0;
    OneMoreMark([], Success(t));
    OneMoreMark([], Failure(t));
    assert [] + [Success(t)] == [Success(t)] && [] + [Failure(t)] == [Failure(t)];
    WrapAdd(t, Delay(base, max, 1));
  }

  // ---- After a success ----

  /** The policy does not look at the past. */
  lemma {:induction false} TraceOnlyGrows(l: Loop, passes: seq<Pass>)
    ensures var m := LoopRun(Loop(l.policy, []), passes);
      LoopRun(l, passes) == Loop(m.policy, l.trace + m.trace)
  {
    hide ManagerTick;
    hide Report;
    if passes == [] {
      assert l.trace + [] == l.trace;
    } else {
      var n := |passes| - 1;
      TraceOnlyGrows(l, passes[..n]);
      var m := LoopRun(Loop(l.policy, []), passes[..n]);
      PassOnlyGrows(l.trace, m, passes[n]);
    }
  }

  lemma PassOnlyGrows(before: seq<Mark>, m: Loop, x: Pass)
    ensures LoopPass(Loop(m.policy, before + m.trace), x) == Loop(LoopPass(m, x).policy, before + LoopPass(m, x).trace)
  {
    hide ManagerTick;
    hide Report;
    hide Recovers;
  }

  lemma {:induction false} RunSplits(l: Loop, lead: seq<Pass>, passes: seq<Pass>)
    ensures LoopRun(l, lead + passes) == LoopRun(LoopRun(l, lead), passes)
    decreases |passes|
  {
    hide LoopPass;
    if passes == [] {
      assert lead + passes == lead;
    } else {
      var n := |passes| - 1;
      RunSplits(l, lead, passes[..n]);
      assert (lead + passes)[..|lead + passes| - 1] == lead + passes[..n];
    }
  }

  /** What a run adds to the marks. */
  function MarksAfter(l: Loop, passes: seq<Pass>): seq<Mark> {
    LoopRun(Loop(l.policy, []), passes).trace
  }

  lemma MarksAfterSplit(l: Loop, lead: seq<Pass>, passes: seq<Pass>)
    ensures var u, m := LoopRun(l, lead), LoopRun(l, lead + passes);
      m == Loop(LoopRun(Loop(u.policy, []), passes).policy, u.trace + MarksAfter(u, passes))
  {
    hide LoopRun;
    RunSplits(l, lead, passes);
    TraceOnlyGrows(LoopRun(l, lead), passes);
  }

  /** What follows a success in any run, whatever happened before, is a failing run
      from READY until the next success: the recoveries are again the first of the
      sequence, each after its delay. */
  lemma AfterSuccess(l: Loop, lead: seq<Pass>, outage: seq<Pass>, now: nat)
    requires Tells(l) && l.policy.limit < 255 && l.policy.max <= 0x8000_0000
    requires FailuresSince(LoopRun(l, lead).trace) == 0 && Chronological(now, outage)
    requires NoSuccess(MarksAfter(LoopRun(l, lead), outage))
    ensures var m, marks := LoopRun(l, lead + outage), MarksAfter(LoopRun(l, lead), outage);
      && m.trace == LoopRun(l, lead).trace + marks
      && LoopOk(Loop(m.policy, marks), EndOf(now, outage))
      && Shaped(m.policy, marks) && Recoveries(marks) <= m.policy.limit
      && (m.policy.state == FAILED <==> |marks| == 2 * m.policy.limit + 1)
  {
    hide LoopRun;
    hide Shaped;
    hide Chronological;
    hide FailuresSince;
    hide Recoveries;
    RunTells(l, lead);
    SameLimits(l, lead);
    MarksAfterSplit(l, lead, outage);
    var ready := Loop(LoopRun(l, lead).policy, []);
    ReadyOk(ready, now);
    FailingRunShape(ready, now, outage);
  }

  lemma ReadyOk(l: Loop, now: nat)
    requires l.policy.state == READY && l.policy.failures == 0 && l.trace == []
    requires l.policy.limit < 255 && l.policy.max <= 0x8000_0000
    ensures LoopOk(l, now)
  {
  }

  lemma {:induction false} SameLimits(l: Loop, passes: seq<Pass>)
    ensures var p, q := l.policy, LoopRun(l, passes).policy;
      p.base == q.base && p.max == q.max && p.limit == q.limit
  {
    hide LoopTick;
    hide LoopUpload;
    if passes != [] {
      var m, x := LoopRun(l, passes[..|passes| - 1]), passes[|passes| - 1];
      SameLimits(l, passes[..|passes| - 1]);
      TickSameLimits(m, x);
      UploadSameLimits(LoopTick(m, x), x);
    }
  }

  lemma TickSameLimits(l: Loop, x: Pass)
    ensures var p, q := l.policy, LoopTick(l, x).policy;
      p.base == q.base && p.max == q.max && p.limit == q.limit
  {
    hide OnEvent;
    hide Due;
    hide Wrap;
    hide Recovers;
    var p := OnTick(l.policy, Wrap(x.tick)).0;
    EventDecision(p, PDP_OK, Wrap(x.after));
    EventDecision(p, TRANSPORT_FAILURE, Wrap(x.after));
  }

  lemma UploadSameLimits(l: Loop, x: Pass)
    ensures var p, q := l.policy, LoopUpload(l, x).policy;
      p.base == q.base && p.max == q.max && p.limit == q.limit
  {
    hide OnEvent;
    hide Wrap;
    EventDecision(l.policy, UPLOAD_SUCCESS, Wrap(x.reported));
    EventDecision(l.policy, TRANSPORT_FAILURE, Wrap(x.reported));
  }

  // ---- How long it takes to fail ----

  /** No pass lasts longer than g, and none begins later than g after the end of
      the one before. */
  predicate Paced(start: nat, passes: seq<Pass>, g: nat) {
    && (forall i :: 0 <= i < |passes| ==> passes[i].reported <= passes[i].tick + g)
    && (passes != [] ==> passes[0].tick <= start + g)
    && (forall i :: 0 <= i < |passes| - 1 ==> passes[i + 1].tick <= passes[i].reported + g)
  }

  /** Waiting for the k-th recovery since `first`: the last failure was at most one
      cycle later for each recovery done, and the recovery is not overdue by more
      than g. */
  ghost predicate OnSchedule(l: Loop, first: nat, k0: nat, g: nat, tick: nat, now: nat)
    requires l.policy.state == BACKOFF && LoopOk(l, now)
  {
    var k, due := l.policy.failures, LastMark(l) + Delay(l.policy.base, l.policy.max, l.policy.failures);
    && k0 <= k && LastMark(l) <= first + (k - k0) * (l.policy.max + 3 * g)
    && tick <= due && now <= due + g
  }

  lemma OneCycle(k: nat, k0: nat, c: nat)
    requires k0 <= k
    ensures (k + 1 - k0) * c == (k - k0) * c + c
  {
  }

  /** A pass while waiting: it performs the recovery if that is due, and in any
      case keeps to the schedule. */
  lemma PassOnSchedule(l: Loop, x: Pass, first: nat, k0: nat, g: nat, tick: nat, now: nat)
    requires LoopOk(l, now) && l.policy.state == BACKOFF && OnSchedule(l, first, k0, g, tick, now)
    requires now <= x.tick <= x.after <= x.reported <= x.tick + g && x.tick <= now + g && 2 * g < 0x8000_0000
    requires NoSuccess(LoopPass(l, x).trace)
    ensures var m := LoopPass(l, x);
      && LoopOk(m, x.reported) && m.policy.max == l.policy.max && m.policy.limit == l.policy.limit
      && m.policy.state in {BACKOFF, FAILED}
      && (m.policy.state == BACKOFF ==> OnSchedule(m, first, k0, g, x.tick, x.reported))
  {
    hide Delay;
    hide Wrap;
    hide Due;
    hide Shaped;
    TraceGrows(l, x);
    TickKeeps(l, x, now);
    UploadKeeps(LoopTick(l, x), x, x.after);
    var k := l.policy.failures;
    var due := LastMark(l) + Delay(l.policy.base, l.policy.max, k);
    DelayWithin(l.policy.base, l.policy.max, k);
    OneCycle(k, k0, l.policy.max + 3 * g);
    if x.tick >= due {
      RecoveryFires(l, now, x);
    } else {
      NotYet(l, x, now);
    }
  }

  lemma NotYet(l: Loop, x: Pass, now: nat)
    requires LoopOk(l, now) && l.policy.state == BACKOFF && LastMark(l) <= x.tick
    requires x.tick < LastMark(l) + Delay(l.policy.base, l.policy.max, l.policy.failures)
    ensures LoopPass(l, x) == l
  {
    hide Delay;
    hide Due;
    hide Shaped;
    var delay := Delay(l.policy.base, l.policy.max, l.policy.failures);
    DelayWithin(l.policy.base, l.policy.max, l.policy.failures);
    if Due(Wrap(x.tick), Wrap(LastMark(l) + delay)) {
      DueNotEarly(LastMark(l), delay, x.tick);
    }
  }

  lemma {:induction false} RunOnSchedule(l: Loop, now: nat, passes: seq<Pass>, g: nat)
    requires LoopOk(l, now) && l.policy.state == BACKOFF && now <= LastMark(l) + g && 2 * g < 0x8000_0000
    requires Chronological(now, passes) && Paced(now, passes, g) && Unlucky(l, passes)
    ensures var m := LoopRun(l, passes);
      && LoopOk(m, EndOf(now, passes)) && m.policy.max == l.policy.max && m.policy.limit == l.policy.limit
      && m.policy.state in {BACKOFF, FAILED}
      && (m.policy.state == BACKOFF && passes != [] ==>
            OnSchedule(m, LastMark(l), l.policy.failures, g, passes[|passes| - 1].tick, EndOf(now, passes)))
  {
    hide LoopPass;
    hide Shaped;
    hide Delay;
    hide Wrap;
    if passes != [] {
      var n := |passes| - 1;
      var front, x := passes[..n], passes[n];
      assert Chronological(now, front) && Paced(now, front, g);
      TraceGrows(LoopRun(l, front), x);
      RunOnSchedule(l, now, front, g);
      var m := LoopRun(l, front);
      if m.policy.state == FAILED {
        FailedStays(m, x, EndOf(now, front));
      } else {
        var tick := if front == [] then LastMark(l) else front[|front| - 1].tick;
        PassOnSchedule(m, x, LastMark(l), l.policy.failures, g, tick, EndOf(now, front));
      }
    }
  }

  lemma FailedStays(l: Loop, x: Pass, now: nat)
    requires LoopOk(l, now) && l.policy.state == FAILED && now <= x.reported
    ensures LoopPass(l, x) == l && LoopOk(l, x.reported)
  {
    hide Shaped;
  }

  lemma ScheduleBound(l: Loop, first: nat, k0: nat, g: nat, tick: nat, now: nat)
    requires LoopOk(l, now) && l.policy.state == BACKOFF && OnSchedule(l, first, k0, g, tick, now) && k0 > 0
    ensures tick <= first + l.policy.limit * (l.policy.max + 3 * g)
  {
    hide Shaped;
    hide Delay;
    hide Wrap;
    var k, c := l.policy.failures, l.policy.max + 3 * g;
    DelayWithin(l.policy.base, l.policy.max, k);
    OneCycle(k, k0, c);
    MulMonotone(k + 1 - k0, l.policy.limit, c);
  }

  /** `limit` cycles of the maximal delay and three gaps after the last failure. */
  function GiveUpBy(l: Loop, g: nat): nat
    requires l.trace != []
  {
    LastMark(l) + l.policy.limit * (l.policy.max + 3 * g)
  }

  lemma WaitingIsEarly(l: Loop, now: nat, passes: seq<Pass>, g: nat)
    requires LoopOk(l, now) && l.policy.state == BACKOFF && now <= LastMark(l) + g && 2 * g < 0x8000_0000
    requires Chronological(now, passes) && Paced(now, passes, g) && Unlucky(l, passes) && passes != []
    requires LoopRun(l, passes).policy.state == BACKOFF
    ensures passes[|passes| - 1].tick <= GiveUpBy(l, g)
  {
    hide LoopRun;
    hide Chronological;
    hide Paced;
    hide Shaped;
    hide Delay;
    hide OnSchedule;
    hide Wrap;
    RunOnSchedule(l, now, passes, g);
    ScheduleBound(LoopRun(l, passes), LastMark(l), l.policy.failures, g, passes[|passes| - 1].tick, EndOf(now, passes));
  }

  /** A run of failures gives up in time: with passes at most g apart and g long,
      the policy is FAILED by then, and exactly `limit` recoveries were performed. */
  lemma FailsInTime(l: Loop, now: nat, passes: seq<Pass>, g: nat)
    requires LoopOk(l, now) && l.policy.state == BACKOFF && now <= LastMark(l) + g && 2 * g < 0x8000_0000
    requires Chronological(now, passes) && Paced(now, passes, g) && Unlucky(l, passes)
    requires passes != [] && passes[|passes| - 1].tick > GiveUpBy(l, g)
    ensures LoopRun(l, passes).policy.state == FAILED
    ensures Recoveries(LoopRun(l, passes).trace) == l.policy.limit
  {
    hide LoopRun;
    hide GiveUpBy;
    hide Chronological;
    hide Paced;
    hide Shaped;
    hide Delay;
    hide OnSchedule;
    hide Recoveries;
    RunOnSchedule(l, now, passes, g);
    FailingRunShape(l, now, passes);
    if LoopRun(l, passes).policy.state == BACKOFF {
      WaitingIsEarly(l, now, passes, g);
    }
  }

  /** And so it does in any run once no success comes any more. */
  lemma GivesUpAfterSuccess(l: Loop, lead: seq<Pass>, first: seq<Pass>, more: seq<Pass>, now: nat, g: nat)
    requires Tells(l) && l.policy.limit < 255 && l.policy.max <= 0x8000_0000
    requires FailuresSince(LoopRun(l, lead).trace) == 0 && Chronological(now, first)
    requires NoSuccess(MarksAfter(LoopRun(l, lead), first + more))
    requires var a := LoopRun(Loop(LoopRun(l, lead).policy, []), first);
      && a.policy.state == BACKOFF && a.trace != [] && 2 * g < 0x8000_0000
      && EndOf(now, first) <= LastMark(a) + g && Chronological(EndOf(now, first), more) && Paced(EndOf(now, first), more, g)
      && more != [] && more[|more| - 1].tick > GiveUpBy(a, g)
    ensures LoopRun(l, lead + (first + more)).policy.state == FAILED
    ensures Recoveries(MarksAfter(LoopRun(l, lead), first + more)) == LoopRun(l, lead).policy.limit
  {
    hide LoopRun;
    hide LoopOk;
    hide GiveUpBy;
    hide Chronological;
    hide Paced;
    hide NoSuccess;
    hide FailuresSince;
    hide Recoveries;
    var ready := Loop(LoopRun(l, lead).policy, []);
    var a := LoopRun(ready, first);
    RunSplits(ready, first, more);
    TraceOnlyGrows(a, more);
    EarlierNoSuccess(a.trace, LoopRun(Loop(a.policy, []), more).trace);
    AfterSuccess(l, lead, first, now);
    MarksAfterSplit(l, lead, first);
    MarksAfterSplit(l, lead, first + more);
    SameLimits(ready, first);
    FailsInTime(a, EndOf(now, first), more, g);
  }

  lemma EarlierNoSuccess(a: seq<Mark>, b: seq<Mark>)
    requires NoSuccess(a + b)
    ensures NoSuccess(a)
  {
    assert forall m :: m in a ==> m in a + b;
  }

  /** FAILED is absorbing for policy, manager and main loop together, whatever
      the modem would answer. */
  lemma {:induction false} FailedAbsorbs(l: Loop, passes: seq<Pass>)
    requires l.policy.state == FAILED
    ensures LoopRun(l, passes) == l
  {
    if passes != [] {
      FailedAbsorbs(l, passes[..|passes| - 1]);
    }
  }

  /** The k-th delay is base doubled k - 1 times, up to the maximum, as long as
      the shift does not overflow and k is at most 7; from then on it is constant. */
  lemma DelayDoubles(base: uint32, max: uint32, k: uint8)
    requires k > 0 && base * 64 < TWO_TO_THE_32
    ensures var raw := base * Pow2(if k <= 7 then k - 1 else 6);
      Delay(base, max, k) == if raw > max then max else raw
  {
    assert Pow2(0) == 1 && Pow2(1) == 2 && Pow2(2) == 4 && Pow2(3) == 8 && Pow2(4) == 16;
    assert Pow2(5) == 32 && Pow2(6) == 64;
    var s := Shift(k);
    assert s <= 6 && Pow2(s) <= 64;
    assert base * Pow2(s) <= base * 64;
    ModuloSmall(base * Pow2(s), TWO_TO_THE_32);
  }

  /** The counter saturates at 255, so a limit of 255 is never exceeded. */
  lemma FailedReachableIff(p: Policy, now: uint32)
    requires p.failures >= p.limit
    ensures OnEvent(p, TRANSPORT_FAILURE, now).0.state == FAILED <==> p.limit < 255
  {
    hide Delay;
  }
}
