/** The motion and sampling policy (sampling_policy.h, sampling_policy.cpp).
    `SamplingPolicy` updates its fields in place; what it does to them is the
    function `PolicyOnFix`, and the theorems are about whole runs of fixes.  Distance
    is a parameter. */
module Sampling {
  import opened Crc16
  import opened Wire
  import opened LocationPayload

  datatype MotionState = UNKNOWN | STATIONARY | MOVING
  datatype UploadReason = NONE | FIRST_VALID_FIX | DISTANCE_REACHED | INTERVAL_ELAPSED | STATIONARY_HEARTBEAT

  datatype SamplingConfig = SamplingConfig(
    minFixPollMs: uint32,
    maxFixPollMs: uint32,
    unknownFixPollMs: uint32,
    stationaryHeartbeatMs: uint32,
    maxFixAgeMs: uint32,
    targetPointSpacingM: uint32,
    movingEnterMps: real,
    movingExitMps: real,
    stateConfirmationCount: uint8,
    maxAccuracyM: real,
    minSatellites: nat,
    maxSpeedMps: real,
    distance: (real, real, real, real) -> real)

  datatype SamplingDecision = SamplingDecision(
    nextFixPollMs: uint32,
    shouldUpload: bool,
    uploadReason: UploadReason,
    motionState: MotionState,
    fixAccepted: bool)

  datatype Place = Place(lat: real, lon: real)

  // The policy's fields, in groups that change together.
  datatype Motion = Motion(state: MotionState, candidate: MotionState, candidateCount: uint8)
  datatype Clock = Clock(hasPoll: bool, lastPollMs: uint32, pollIntervalMs: uint32)
  datatype Freshness = Freshness(hasTimestamp: bool, lastRecordedAt: Bytes, lastChangeMs: uint32)
  datatype Previous = Previous(hasFix: bool, at: Place, ms: uint32)
  datatype Upload = Upload(hasSent: bool, lastSent: LocationPayload, lastSentMs: uint32)

  datatype Policy = Policy(motion: Motion, clock: Clock, stamp: Freshness, prev: Previous, upload: Upload)

  /** A C string: the bytes before the first NUL, at most the first 20. */
  function Text(t: Bytes): Bytes {
    if t == [] || t[0] == 0 then [] else [t[0]] + Text(t[1..])
  }

  function TextOf(fix: LocationPayload): Bytes {
    Text(fix.recorded_at[..20])
  }

  /** The text is what comes before the first NUL, cut off after 20 bytes. */
  lemma {:induction false} TextIsPrefix(t: Bytes)
    ensures var s := Text(t);
      && |s| <= |t| && s == t[..|s|] && (forall i :: 0 <= i < |s| ==> t[i] != 0) && (|s| < |t| ==> t[|s|] == 0)
  {
    if t != [] && t[0] != 0 {
      TextIsPrefix(t[1..]);
    }
  }

  /** The bytes agree up to a NUL, or to the twentieth. */
  predicate SameText(s: Bytes, t: Bytes, n: nat)
    requires |s| >= 20 && |t| >= 20
  {
    n <= 20 && (forall i :: 0 <= i < n ==> s[i] == t[i] != 0) && (n < 20 ==> s[n] == t[n] == 0)
  }

  /** strcmp with the stored 20 bytes: which fixes carry the same timestamp. */
  lemma SameTextIff(a: LocationPayload, b: LocationPayload)
    ensures TextOf(a) == TextOf(b) <==> exists n: nat :: SameText(a.recorded_at, b.recorded_at, n)
  {
    if TextOf(a) == TextOf(b) {
      SameTextOf(a, b);
    }
    if n: nat :| SameText(a.recorded_at, b.recorded_at, n) {
      TextEnds(a.recorded_at[..20], n);
      TextEnds(b.recorded_at[..20], n);
      assert a.recorded_at[..20][..n] == b.recorded_at[..20][..n];
    }
  }

  lemma SameTextOf(a: LocationPayload, b: LocationPayload)
    requires TextOf(a) == TextOf(b)
    ensures SameText(a.recorded_at, b.recorded_at, |TextOf(a)|)
  {
    hide Text;
    var s, t, x := a.recorded_at[..20], b.recorded_at[..20], TextOf(a);
    TextIsPrefix(s);
    TextIsPrefix(t);
    forall i | 0 <= i < |x|
      ensures s[i] == t[i]
    {
      assert x[i] == s[..|x|][i] == t[..|x|][i];
    }
  }

  lemma TextEnds(t: Bytes, n: nat)
    requires n <= |t| && (forall i :: 0 <= i < n ==> t[i] != 0) && (n < |t| ==> t[n] == 0)
    ensures Text(t) == t[..n]
  {
    hide Text;
    TextIsPrefix(t);
  }

  predicate ValidCoordinates(fix: LocationPayload) {
    -90.0 <= fix.latitude <= 90.0 && -180.0 <= fix.longitude <= 180.0
    && fix.recorded_at[0] != 0 && fix.recorded_at[0] != 0x30
  }

  function IntervalForSpeed(c: SamplingConfig, speed: real): uint32
    requires c.minFixPollMs <= c.maxFixPollMs
  {
    if speed <= 0.0 then c.unknownFixPollMs
    else
      var rawMs := (c.targetPointSpacingM as real / speed) * 1000.0;
      if rawMs <= c.minFixPollMs as real then c.minFixPollMs
      else if rawMs >= c.maxFixPollMs as real then c.maxFixPollMs
      else (rawMs + 0.5).Floor
  }

  predicate FixDue(k: Clock, now: uint32) {
    !k.hasPoll || now < k.lastPollMs || Wrap(now - k.lastPollMs) >= k.pollIntervalMs
  }

  /** The fix carries the timestamp of the one before it. */
  predicate SameTimestamp(f: Freshness, fix: LocationPayload) {
    f.hasTimestamp && TextOf(fix) == f.lastRecordedAt
  }

  predicate Stagnant(c: SamplingConfig, f: Freshness, now: uint32, fix: LocationPayload) {
    SameTimestamp(f, fix) && c.maxFixAgeMs > 0 && Wrap(now - f.lastChangeMs) > c.maxFixAgeMs
  }

  predicate GoodQuality(c: SamplingConfig, fix: LocationPayload) {
    && !(c.maxAccuracyM > 0.0 && fix.accuracy_m > 0.0 && fix.accuracy_m > c.maxAccuracyM)
    && !(c.minSatellites > 0 && fix.satellites_used > 0 && fix.satellites_used < c.minSatellites)
  }

  predicate PossibleJump(c: SamplingConfig, p: Previous, now: uint32, fix: LocationPayload) {
    c.maxSpeedMps > 0.0 && p.hasFix && Wrap(now - p.ms) > 0 ==>
      c.distance(p.at.lat, p.at.lon, fix.latitude, fix.longitude) / (Wrap(now - p.ms) as real / 1000.0) <= c.maxSpeedMps
  }

  predicate Accepts(c: SamplingConfig, s: Policy, now: uint32, fix: LocationPayload) {
    ValidCoordinates(fix) && !Stagnant(c, s.stamp, now, fix) && GoodQuality(c, fix) && PossibleJump(c, s.prev, now, fix)
  }

  function Observed(c: SamplingConfig, state: MotionState, speed: real): MotionState {
    if state != MOVING && speed >= c.movingEnterMps then MOVING
    else if state == UNKNOWN && speed < c.movingEnterMps then STATIONARY
    else if state == MOVING && speed >= 0.0 && speed <= c.movingExitMps then STATIONARY
    else state
  }

  function Confirmed(c: SamplingConfig, m: Motion, observed: MotionState): Motion {
    if observed != m.state && observed != UNKNOWN then
      var count := if m.candidate != observed then 1 else if m.candidateCount < 255 then m.candidateCount + 1 else m.candidateCount;
      if count >= c.stateConfirmationCount then Motion(observed, UNKNOWN, 0)
      else Motion(m.state, observed, count)
    else Motion(m.state, UNKNOWN, 0)
  }

  function PollInterval(c: SamplingConfig, state: MotionState, observed: MotionState, speed: real): uint32
    requires c.minFixPollMs <= c.maxFixPollMs
  {
    var effective := if observed == UNKNOWN then state else observed;
    if effective == STATIONARY && (state != UNKNOWN || speed >= 0.0) then c.maxFixPollMs
    else if effective == MOVING then IntervalForSpeed(c, speed)
    else c.unknownFixPollMs
  }

  function UploadFor(c: SamplingConfig, s: Policy, effective: MotionState, interval: uint32, now: uint32, fix: LocationPayload): UploadReason {
    var u := s.upload;
    if !u.hasSent then FIRST_VALID_FIX
    else if effective == MOVING && ValidCoordinates(u.lastSent)
            && c.distance(u.lastSent.latitude, u.lastSent.longitude, fix.latitude, fix.longitude) >= c.targetPointSpacingM as real then DISTANCE_REACHED
    else if effective == MOVING && Wrap(now - u.lastSentMs) >= interval then INTERVAL_ELAPSED
    else if effective == STATIONARY && Wrap(now - u.lastSentMs) >= c.stationaryHeartbeatMs then STATIONARY_HEARTBEAT
    else NONE
  }

  function Stamped(s: Policy, now: uint32, fix: LocationPayload): Policy {
    if !ValidCoordinates(fix) || SameTimestamp(s.stamp, fix) then s
    else s.(stamp := Freshness(true, TextOf(fix), now))
  }

  /** One fix: the new fields and the decision. */
  function PolicyOnFix(c: SamplingConfig, s: Policy, now: uint32, fix: LocationPayload): (Policy, SamplingDecision)
    requires c.minFixPollMs <= c.maxFixPollMs
  {
    var s1 := Stamped(s.(clock := s.clock.(hasPoll := true, lastPollMs := now)), now, fix);
    if !Accepts(c, s, now, fix) then
      (s1, SamplingDecision(s.clock.pollIntervalMs, false, NONE, s.motion.state, false))
    else
      var observed := Observed(c, s.motion.state, fix.speed_mps);
      var motion := Confirmed(c, s.motion, observed);
      var interval := PollInterval(c, motion.state, observed, fix.speed_mps);
      var effective := if observed == UNKNOWN then motion.state else observed;
      var reason := UploadFor(c, s, effective, interval, now, fix);
      (s1.(motion := motion,
           prev := Previous(true, Place(fix.latitude, fix.longitude), now),
           clock := s1.clock.(pollIntervalMs := interval)),
       SamplingDecision(interval, reason != NONE, reason, motion.state, true))
  }

  function PolicyOnUploadResult(s: Policy, now: uint32, fix: LocationPayload, sent: bool): Policy {
    if sent then s.(upload := Upload(true, fix, now)) else s
  }

  function PolicyNotifyGpsReenabled(s: Policy, now: uint32): Policy {
    s.(clock := s.clock.(lastPollMs := Wrap(now - s.clock.pollIntervalMs)))
  }

  predicate RadioDue(now: uint32, queueSize: nat, lastOpenMs: uint32, hasOpened: bool, state: MotionState,
                     batchMinItems: nat, flushMsMoving: uint32, flushMsStationary: uint32) {
    queueSize != 0
    && ((batchMinItems > 0 && queueSize >= batchMinItems) || !hasOpened
        || Wrap(now - lastOpenMs) >= (if state == MOVING then flushMsMoving else flushMsStationary))
  }

  lemma ClockUngated(c: SamplingConfig, s: Policy, clock: Clock, now: uint32, fix: LocationPayload)
    ensures Accepts(c, s.(clock := clock), now, fix) == Accepts(c, s, now, fix)
  {
  }

  class SamplingPolicy {
    const config: SamplingConfig
    var motion: Motion
    var clock: Clock
    var stamp: Freshness
    var prev: Previous
    var upload: Upload

    constructor (config: SamplingConfig)
      ensures this.config == config && State() == Initial(config)
    {
      this.config := config;
      motion, clock := Motion(UNKNOWN, UNKNOWN, 0), Clock(false, 0, config.unknownFixPollMs);
      stamp, prev := Freshness(false, [], 0), Previous(false, Place(0.0, 0.0), 0);
      upload := Upload(false, ZeroPayload(), 0);
    }

    function State(): Policy
      reads this
    {
      Policy(motion, clock, stamp, prev, upload)
    }

    /** The gates of onFix: coordinates, stagnation, quality, jump. */
    method Gate(now: uint32, fix: LocationPayload) returns (accepted: bool)
      modifies this`stamp
      ensures accepted == Accepts(config, old(State()), now, fix)
      ensures State() == Stamped(old(State()), now, fix)
    {
      hide TextOf;
      if !ValidCoordinates(fix) {
        return false;
      }
      if !stamp.hasTimestamp || TextOf(fix) != stamp.lastRecordedAt {
        stamp := Freshness(true, TextOf(fix), now);
      } else if config.maxFixAgeMs > 0 && Wrap(now - stamp.lastChangeMs) > config.maxFixAgeMs {
        return false;
      }
      if config.maxAccuracyM > 0.0 && fix.accuracy_m > 0.0 && fix.accuracy_m > config.maxAccuracyM {
        return false;
      }
      if config.minSatellites > 0 && fix.satellites_used > 0 && fix.satellites_used < config.minSatellites {
        return false;
      }
      if config.maxSpeedMps > 0.0 && prev.hasFix {
        var dtMs := Wrap(now - prev.ms);
        if dtMs > 0 {
          var implied := config.distance(prev.at.lat, prev.at.lon, fix.latitude, fix.longitude) / (dtMs as real / 1000.0);
          if implied > config.maxSpeedMps {
            return false;
          }
        }
      }
      return true;
    }

    /** The hysteresis of onFix. */
    method UpdateMotion(speed: real) returns (observed: MotionState)
      modifies this`motion
      ensures observed == Observed(config, old(motion).state, speed)
      ensures motion == Confirmed(config, old(motion), observed)
      ensures motion.state in {old(motion.state), observed}
      ensures config.stateConfirmationCount <= 1 ==> motion.state == (if observed == UNKNOWN then old(motion.state) else observed)
    {
      observed := motion.state;
      if motion.state != MOVING && speed >= config.movingEnterMps {
        observed := MOVING;
      } else if motion.state == UNKNOWN && speed < config.movingEnterMps {
        observed := STATIONARY;
      } else if motion.state == MOVING && speed >= 0.0 && speed <= config.movingExitMps {
        observed := STATIONARY;
      }
      if observed != motion.state && observed != UNKNOWN {
        if motion.candidate != observed {
          motion := motion.(candidate := observed, candidateCount := 1);
        } else if motion.candidateCount < 255 {
          motion := motion.(candidateCount := motion.candidateCount + 1);
        }
        if motion.candidateCount >= config.stateConfirmationCount {
          motion := Motion(observed, UNKNOWN, 0);
        }
      } else if observed == motion.state {
        motion := motion.(candidate := UNKNOWN, candidateCount := 0);
      }
    }

    method OnFix(now: uint32, fix: LocationPayload) returns (result: SamplingDecision)
      requires config.minFixPollMs <= config.maxFixPollMs
      modifies this
      ensures (State(), result) == PolicyOnFix(config, old(State()), now, fix)
    {
      hide Accepts;
      hide PollInterval;
      hide Observed;
      hide Confirmed;
      hide ValidCoordinates;
      clock := clock.(lastPollMs := now, hasPoll := true);
      result := SamplingDecision(clock.pollIntervalMs, false, NONE, motion.state, true);
      ghost var polled := State();
      ClockUngated(config, old(State()), polled.clock, now, fix);
      var accepted := Gate(now, fix);
      if !accepted {
        result := result.(fixAccepted := false);
        return;
      }
      prev := Previous(true, Place(fix.latitude, fix.longitude), now);
      var observed := UpdateMotion(fix.speed_mps);
      var effective := if observed == UNKNOWN then motion.state else observed;
      clock := clock.(pollIntervalMs := PollInterval(config, motion.state, observed, fix.speed_mps));
      result := result.(nextFixPollMs := clock.pollIntervalMs, motionState := motion.state);
      if !upload.hasSent {
        result := result.(shouldUpload := true, uploadReason := FIRST_VALID_FIX);
        return;
      }
      if effective == MOVING && ValidCoordinates(upload.lastSent)
         && config.distance(upload.lastSent.latitude, upload.lastSent.longitude, fix.latitude, fix.longitude) >= config.targetPointSpacingM as real {
        result := result.(shouldUpload := true, uploadReason := DISTANCE_REACHED);
      } else if effective == MOVING && Wrap(now - upload.lastSentMs) >= clock.pollIntervalMs {
        result := result.(shouldUpload := true, uploadReason := INTERVAL_ELAPSED);
      } else if effective == STATIONARY && Wrap(now - upload.lastSentMs) >= config.stationaryHeartbeatMs {
        result := result.(shouldUpload := true, uploadReason := STATIONARY_HEARTBEAT);
      }
    }

    method OnUploadResult(now: uint32, fix: LocationPayload, sent: bool)
      modifies this
      ensures State() == PolicyOnUploadResult(old(State()), now, fix, sent)
    {
      if sent {
        upload := Upload(true, fix, now);
      }
    }

    method NotifyGpsReenabled(now: uint32)
      modifies this
      ensures State() == PolicyNotifyGpsReenabled(old(State()), now)
    {
      clock := clock.(lastPollMs := Wrap(now - clock.pollIntervalMs));
    }
  }

  function ZeroPayload(): LocationPayload {
    LocationPayload(seq(21, _ => 0), 0.0, 0.0, 0.0, 0.0, 0.0, 0, 0.0, 0, 0)
  }

  function Initial(c: SamplingConfig): Policy {
    Policy(Motion(UNKNOWN, UNKNOWN, 0), Clock(false, 0, c.unknownFixPollMs), Freshness(false, [], 0),
           Previous(false, Place(0.0, 0.0), 0), Upload(false, ZeroPayload(), 0))
  }

  // ---- Runs ----

  /** What the policy is told, with the real time in milliseconds; millis() is
      that time in 32 bits. */
  datatype Event =
    | Fixed(t: nat, fix: LocationPayload)
    | Uploaded(t: nat, fix: LocationPayload, sent: bool)
    | GpsBack(t: nat)

  function Step(c: SamplingConfig, s: Policy, e: Event): Policy
    requires c.minFixPollMs <= c.maxFixPollMs
  {
    match e
    case Fixed(t, fix) => PolicyOnFix(c, s, Wrap(t), fix).0
    case Uploaded(t, fix, sent) => PolicyOnUploadResult(s, Wrap(t), fix, sent)
    case GpsBack(t) => PolicyNotifyGpsReenabled(s, Wrap(t))
  }

  function After(c: SamplingConfig, run: seq<Event>): Policy
    requires c.minFixPollMs <= c.maxFixPollMs
  {
    if run == [] then Initial(c) else Step(c, After(c, run[..|run| - 1]), run[|run| - 1])
  }

  predicate AcceptedAt(c: SamplingConfig, s: Policy, e: Event) {
    e.Fixed? && Accepts(c, s, Wrap(e.t), e.fix)
  }

  /** The speeds of the accepted fixes, in order. */
  function Speeds(c: SamplingConfig, run: seq<Event>): seq<real>
    requires c.minFixPollMs <= c.maxFixPollMs
  {
    if run == [] then []
    else
      var n := |run| - 1;
      Speeds(c, run[..n]) + if AcceptedAt(c, After(c, run[..n]), run[n]) then [run[n].fix.speed_mps] else []
  }

  /** The speeds of the fixes accepted since the motion state last changed. */
  function Since(c: SamplingConfig, run: seq<Event>): seq<real>
    requires c.minFixPollMs <= c.maxFixPollMs
  {
    if run == [] then []
    else
      var s, e := After(c, run[..|run| - 1]), run[|run| - 1];
      if Step(c, s, e).motion.state != s.motion.state then []
      else Since(c, run[..|run| - 1]) + if AcceptedAt(c, s, e) then [e.fix.speed_mps] else []
  }

  /** This speed speaks against `state` and for x. */
  predicate Says(c: SamplingConfig, state: MotionState, speed: real, x: MotionState) {
    match x
    case MOVING => state != MOVING && speed >= c.movingEnterMps
    case STATIONARY =>
      (state == UNKNOWN && speed < c.movingEnterMps) || (state == MOVING && 0.0 <= speed <= c.movingExitMps)
    case UNKNOWN => false
  }

  lemma SaysObserved(c: SamplingConfig, state: MotionState, speed: real, x: MotionState)
    ensures Says(c, state, speed, x) <==> x != UNKNOWN && x != state && Observed(c, state, speed) == x
  {
  }

  /** The last n speeds all speak for x. */
  predicate LastSay(c: SamplingConfig, speeds: seq<real>, n: nat, state: MotionState, x: MotionState) {
    n <= |speeds| && forall k :: |speeds| - n <= k < |speeds| ==> Says(c, state, speeds[k], x)
  }

  /** The candidate's count is the full length of the unbroken run of speeds that
      speak for it, still short of confirmation; without a candidate the last
      speed spoke for the state. */
  predicate MotionOk(c: SamplingConfig, m: Motion, since: seq<real>) {
    if m.candidate == UNKNOWN then
      m.candidateCount == 0 && forall x :: !LastSay(c, since, 1, m.state, x)
    else
      && 1 <= m.candidateCount < c.stateConfirmationCount
      && LastSay(c, since, m.candidateCount, m.state, m.candidate)
      && !LastSay(c, since, m.candidateCount + 1, m.state, m.candidate)
  }

  function Needed(c: SamplingConfig): nat {
    if c.stateConfirmationCount == 0 then 1 else c.stateConfirmationCount
  }

  lemma OneMoreSays(c: SamplingConfig, since: seq<real>, speed: real, n: nat, state: MotionState, x: MotionState)
    ensures LastSay(c, since + [speed], n + 1, state, x) <==> LastSay(c, since, n, state, x) && Says(c, state, speed, x)
  {
    hide Says;
    var longer := since + [speed];
    if LastSay(c, longer, n + 1, state, x) {
      assert Says(c, state, longer[|since|], x);
      assert forall k :: 0 <= k < |since| ==> longer[k] == since[k];
    }
  }

  lemma FewerSay(c: SamplingConfig, speeds: seq<real>, m: nat, n: nat, state: MotionState, x: MotionState)
    requires m <= n && LastSay(c, speeds, n, state, x)
    ensures LastSay(c, speeds, m, state, x)
  {
  }

  lemma OneVoice(c: SamplingConfig, state: MotionState, speed: real, x: MotionState, y: MotionState)
    requires Says(c, state, speed, x) && Says(c, state, speed, y)
    ensures x == y
  {
  }

  /** An accepted speed makes x the state exactly if it completes the run for x. */
  lemma ConfirmedIff(c: SamplingConfig, m: Motion, since: seq<real>, speed: real, x: MotionState)
    requires MotionOk(c, m, since)
    ensures var m' := Confirmed(c, m, Observed(c, m.state, speed));
      m'.state == x != m.state <==> LastSay(c, since + [speed], Needed(c), m.state, x)
  {
    hide Observed;
    hide Says;
    hide LastSay;
    var observed := Observed(c, m.state, speed);
    SaysObserved(c, m.state, speed, x);
    NoneSay(c, since, m.state, x);
    OneMoreSays(c, since, speed, Needed(c) - 1, m.state, x);
    if LastSay(c, since, Needed(c) - 1, m.state, x) && Needed(c) > 1 {
      FewerSay(c, since, 1, Needed(c) - 1, m.state, x);
      if m.candidate != UNKNOWN {
        CandidateIs(c, since, m.candidateCount, Needed(c) - 1, m.state, m.candidate, x);
      }
    }
    if m.candidate == x && x != UNKNOWN && m.candidateCount >= Needed(c) - 1 {
      FewerSay(c, since, Needed(c) - 1, m.candidateCount, m.state, x);
    }
  }

  lemma NoneSay(c: SamplingConfig, speeds: seq<real>, state: MotionState, x: MotionState)
    ensures LastSay(c, speeds, 0, state, x)
  {
  }

  /** Two unbroken runs that end here speak for the same state, and the longest
      one is not the shorter. */
  lemma CandidateIs(c: SamplingConfig, speeds: seq<real>, count: nat, n: nat, state: MotionState, candidate: MotionState, x: MotionState)
    requires count > 0 && n > 0 && LastSay(c, speeds, count, state, candidate) && LastSay(c, speeds, n, state, x)
    requires !LastSay(c, speeds, count + 1, state, candidate)
    ensures x == candidate && n <= count
  {
    hide Says;
    OneVoice(c, state, speeds[|speeds| - 1], x, candidate);
  }

  lemma ConfirmedOk(c: SamplingConfig, m: Motion, since: seq<real>, speed: real)
    requires MotionOk(c, m, since)
    ensures var m' := Confirmed(c, m, Observed(c, m.state, speed));
      MotionOk(c, m', if m'.state != m.state then [] else since + [speed])
  {
    hide Observed;
    hide Says;
    hide LastSay;
    var observed, m' := Observed(c, m.state, speed), Confirmed(c, m, Observed(c, m.state, speed));
    forall x: MotionState
      ensures !LastSay(c, [], 1, m'.state, x)
      ensures LastSay(c, since + [speed], 1, m.state, x) <==> x != UNKNOWN && x != m.state && observed == x
    {
      NothingSays(c, m'.state, x);
      NoneSay(c, since, m.state, x);
      OneMoreSays(c, since, speed, 0, m.state, x);
      SaysObserved(c, m.state, speed, x);
    }
    SaysObserved(c, m.state, speed, observed);
    OneMoreSays(c, since, speed, m.candidateCount, m.state, observed);
    OneMoreSays(c, since, speed, m.candidateCount + 1, m.state, observed);
    OneMoreSays(c, since, speed, 1, m.state, observed);
    if m.candidate != observed && m.candidate != UNKNOWN && LastSay(c, since, 1, m.state, observed) {
      CandidateIs(c, since, m.candidateCount, 1, m.state, m.candidate, observed);
    }
  }

  lemma NothingSays(c: SamplingConfig, state: MotionState, x: MotionState)
    ensures !LastSay(c, [], 1, state, x)
  {
  }

  /** A rejected fix changes neither the motion state, nor the last accepted
      place, nor the upload record, nor the poll interval, and asks for no upload. */
  lemma RejectedChangesNothing(c: SamplingConfig, s: Policy, now: uint32, fix: LocationPayload)
    requires c.minFixPollMs <= c.maxFixPollMs && !Accepts(c, s, now, fix)
    ensures var (s', d) := PolicyOnFix(c, s, now, fix);
      && s'.motion == s.motion && s'.prev == s.prev && s'.upload == s.upload
      && s'.clock.pollIntervalMs == s.clock.pollIntervalMs == d.nextFixPollMs
      && !d.shouldUpload && !d.fixAccepted && d.motionState == s.motion.state
  {
    hide Accepts;
  }

  lemma StepEffect(c: SamplingConfig, s: Policy, e: Event)
    requires c.minFixPollMs <= c.maxFixPollMs
    ensures var s' := Step(c, s, e);
      if AcceptedAt(c, s, e) then
        && s'.motion == Confirmed(c, s.motion, Observed(c, s.motion.state, e.fix.speed_mps))
        && s'.prev == Previous(true, Place(e.fix.latitude, e.fix.longitude), Wrap(e.t))
      else s'.motion == s.motion && s'.prev == s.prev
  {
    hide Accepts;
    hide Observed;
    hide Confirmed;
    hide PollInterval;
    hide UploadFor;
    if e.Fixed? && !AcceptedAt(c, s, e) {
      RejectedChangesNothing(c, s, Wrap(e.t), e.fix);
    }
  }

  lemma {:induction false} RunMotionOk(c: SamplingConfig, run: seq<Event>)
    requires c.minFixPollMs <= c.maxFixPollMs
    ensures MotionOk(c, After(c, run).motion, Since(c, run))
  {
    hide Accepts;
    hide Observed;
    hide Confirmed;
    hide Step;
    hide LastSay;
    if run == [] {
      forall x: MotionState
        ensures !LastSay(c, [], 1, UNKNOWN, x)
      {
        NothingSays(c, UNKNOWN, x);
      }
    } else {
      hide MotionOk;
      var n := |run| - 1;
      RunMotionOk(c, run[..n]);
      var s, e := After(c, run[..n]), run[n];
      StepEffect(c, s, e);
      if AcceptedAt(c, s, e) {
        ConfirmedOk(c, s.motion, Since(c, run[..n]), e.fix.speed_mps);
      } else {
        assert Since(c, run) == Since(c, run[..n]);
      }
    }
  }

  /** Hysteresis, in every run: an event makes x the new motion state if and only
      if it is an accepted fix and the last confirmation count of accepted speeds,
      this one included and all of them since the state last changed, speak for x:
      MOVING from the enter threshold on, STATIONARY from MOVING down from the exit
      threshold, STATIONARY from UNKNOWN below the enter threshold. */
  lemma MotionChangesConfirmed(c: SamplingConfig, run: seq<Event>, e: Event, x: MotionState)
    requires c.minFixPollMs <= c.maxFixPollMs
    ensures var before, after := After(c, run).motion.state, Step(c, After(c, run), e).motion.state;
      (after == x && x != before) <==>
        (AcceptedAt(c, After(c, run), e) &&
         var speeds := Since(c, run) + [e.fix.speed_mps];
         Needed(c) <= |speeds| && forall k :: |speeds| - Needed(c) <= k < |speeds| ==> Says(c, before, speeds[k], x))
  {
    hide Accepts;
    hide Confirmed;
    hide Observed;
    hide Step;
    hide After;
    hide Since;
    hide MotionOk;
    RunMotionOk(c, run);
    var s := After(c, run);
    StepEffect(c, s, e);
    if AcceptedAt(c, s, e) {
      ConfirmedIff(c, s.motion, Since(c, run), e.fix.speed_mps, x);
    }
  }

  /** Those speeds are the last of all accepted ones. */
  lemma {:induction false} SinceIsLast(c: SamplingConfig, run: seq<Event>)
    requires c.minFixPollMs <= c.maxFixPollMs
    ensures |Since(c, run)| <= |Speeds(c, run)|
    ensures Since(c, run) == Speeds(c, run)[|Speeds(c, run)| - |Since(c, run)|..]
  {
    hide Accepts;
    hide Step;
    if run != [] {
      SinceIsLast(c, run[..|run| - 1]);
    }
  }

  /** The decision tells the state that the fix left behind. */
  lemma DecisionTells(c: SamplingConfig, s: Policy, now: uint32, fix: LocationPayload)
    requires c.minFixPollMs <= c.maxFixPollMs
    ensures var (s', d) := PolicyOnFix(c, s, now, fix);
      && d.motionState == s'.motion.state && d.nextFixPollMs == s'.clock.pollIntervalMs
      && (d.fixAccepted <==> Accepts(c, s, now, fix)) && (d.shouldUpload <==> d.uploadReason != NONE)
      && s'.clock.hasPoll && s'.clock.lastPollMs == now
  {
    hide Accepts;
    hide Observed;
    hide Confirmed;
    hide PollInterval;
    hide UploadFor;
  }

  // ---- The poll interval ----

  lemma IntervalWithin(c: SamplingConfig, speed: real)
    requires c.minFixPollMs <= c.unknownFixPollMs <= c.maxFixPollMs
    ensures c.minFixPollMs <= IntervalForSpeed(c, speed) <= c.maxFixPollMs
  {
  }

  /** At the measured speed one interval covers the target spacing to within half
      a millisecond of travel; it covers no less at the lower bound and no more at
      the upper one. */
  lemma IntervalCoversSpacing(c: SamplingConfig, speed: real)
    requires c.minFixPollMs <= c.maxFixPollMs && speed > 0.0
    ensures var interval := IntervalForSpeed(c, speed);
      var covered, target := speed * interval as real / 1000.0, c.targetPointSpacingM as real;
      && (c.minFixPollMs < interval < c.maxFixPollMs ==> -speed * 0.0005 <= covered - target <= speed * 0.0005)
      && (interval == c.minFixPollMs < c.maxFixPollMs ==> covered - target >= -speed * 0.0005)
      && (interval == c.maxFixPollMs > c.minFixPollMs ==> covered - target <= speed * 0.0005)
  {
    hide IntervalForSpeed;
    var rawMs := (c.targetPointSpacingM as real / speed) * 1000.0;
    assert speed * rawMs == c.targetPointSpacingM as real * 1000.0;
    IntervalNear(c, speed);
    Covered(speed, IntervalForSpeed(c, speed) as real, rawMs, c.targetPointSpacingM as real);
  }

  lemma Covered(speed: real, interval: real, rawMs: real, target: real)
    requires speed > 0.0 && speed * rawMs == target * 1000.0
    ensures interval >= rawMs - 0.5 ==> speed * interval / 1000.0 - target >= -speed * 0.0005
    ensures interval <= rawMs + 0.5 ==> speed * interval / 1000.0 - target <= speed * 0.0005
  {
    Scaled(speed, rawMs - 0.5, interval);
    Scaled(speed, interval, rawMs + 0.5);
    Distributes(speed, rawMs, -0.5);
    Distributes(speed, rawMs, 0.5);
  }

  lemma Scaled(speed: real, a: real, b: real)
    requires speed > 0.0
    ensures a <= b ==> speed * a <= speed * b
  {
  }

  lemma Distributes(speed: real, a: real, b: real)
    ensures speed * (a + b) == speed * a + speed * b
  {
  }

  lemma IntervalNear(c: SamplingConfig, speed: real)
    requires c.minFixPollMs <= c.maxFixPollMs && speed > 0.0
    ensures var rawMs, interval := (c.targetPointSpacingM as real / speed) * 1000.0, IntervalForSpeed(c, speed);
      && (interval < c.maxFixPollMs ==> interval as real >= rawMs - 0.5)
      && (interval > c.minFixPollMs ==> interval as real <= rawMs + 0.5)
  {
  }

  /** In every run the poll interval stays within the configured bounds. */
  lemma {:induction false} RunIntervalWithin(c: SamplingConfig, run: seq<Event>)
    requires c.minFixPollMs <= c.unknownFixPollMs <= c.maxFixPollMs
    ensures c.minFixPollMs <= After(c, run).clock.pollIntervalMs <= c.maxFixPollMs
  {
    hide Accepts;
    hide Observed;
    hide Confirmed;
    hide UploadFor;
    hide IntervalForSpeed;
    if run != [] {
      RunIntervalWithin(c, run[..|run| - 1]);
      var e := run[|run| - 1];
      if e.Fixed? {
        IntervalWithin(c, e.fix.speed_mps);
      }
    }
  }

  /** After GNSS comes back the next fix is due at once, whatever the clock reads. */
  lemma DueAfterReenable(s: Policy, now: uint32)
    ensures FixDue(PolicyNotifyGpsReenabled(s, now).clock, now)
  {
    var i := s.clock.pollIntervalMs;
    if now >= i {
      ModuloSmall(now - i, TWO_TO_THE_32);
      ModuloSmall(i, TWO_TO_THE_32);
    } else {
      WrapNegative(now - i);
    }
  }

  lemma WrapNegative(x: int)
    requires -TWO_TO_THE_32 < x < 0
    ensures Wrap(x) == x + TWO_TO_THE_32
  {
  }

  /** The device's clock difference is the real one, for less than a full turn. */
  lemma ElapsedSince(from: nat, t: nat)
    requires 0 <= t - from < TWO_TO_THE_32
    ensures Wrap(Wrap(t) - Wrap(from)) == t - from
  {
    var a, b := from / TWO_TO_THE_32, t / TWO_TO_THE_32;
    assert from == a * TWO_TO_THE_32 + Wrap(from) && t == b * TWO_TO_THE_32 + Wrap(t);
    if a == b {
      ModuloSmall(t - from, TWO_TO_THE_32);
    } else {
      assert b == a + 1;
      WrapNegative(Wrap(t) - Wrap(from));
    }
  }

  /** After a poll the next one is due in real time once the interval has passed,
      or, early, once the 32-bit clock has wrapped; and the first poll is due at once. */
  lemma FixDueInTime(c: SamplingConfig, run: seq<Event>, t0: nat, fix: LocationPayload, t: nat)
    requires c.minFixPollMs <= c.maxFixPollMs && 0 <= t - t0 < TWO_TO_THE_32
    ensures FixDue(Initial(c).clock, Wrap(t))
    ensures var clock := After(c, run + [Fixed(t0, fix)]).clock;
      FixDue(clock, Wrap(t)) <==> t - t0 >= clock.pollIntervalMs || t / TWO_TO_THE_32 > t0 / TWO_TO_THE_32
  {
    hide PolicyOnFix;
    assert (run + [Fixed(t0, fix)])[..|run|] == run;
    DecisionTells(c, After(c, run), Wrap(t0), fix);
    ElapsedSince(t0, t);
    var a, b := t0 / TWO_TO_THE_32, t / TWO_TO_THE_32;
    assert t0 == a * TWO_TO_THE_32 + Wrap(t0) && t == b * TWO_TO_THE_32 + Wrap(t);
  }

  /** The interval that an accepted fix leaves behind: as its speed has it while the
      fix speaks for MOVING; the longest one while it speaks for STATIONARY; the
      cadence of the unknown where there is nothing to go by. */
  lemma PollAsObserved(c: SamplingConfig, s: Policy, now: uint32, fix: LocationPayload)
    requires c.minFixPollMs <= c.maxFixPollMs && Accepts(c, s, now, fix)
    ensures var d, v := PolicyOnFix(c, s, now, fix).1, fix.speed_mps;
      d.nextFixPollMs
        == if (if s.motion.state == MOVING then v < 0.0 || v > c.movingExitMps else v >= c.movingEnterMps)
           then (if v <= 0.0 then c.unknownFixPollMs else IntervalForSpeed(c, v))
           else if v >= 0.0 || d.motionState != UNKNOWN then c.maxFixPollMs
           else c.unknownFixPollMs
  {
    hide Accepts;
    hide Confirmed;
    hide UploadFor;
  }

  // ---- Which fixes are accepted ----

  datatype Poll = Poll(t: nat, text: Bytes)

  /** The fixes with usable coordinates, and when they came. */
  function Polls(run: seq<Event>): seq<Poll> {
    if run == [] then []
    else
      var e := run[|run| - 1];
      Polls(run[..|run| - 1]) + if e.Fixed? && ValidCoordinates(e.fix) then [Poll(e.t, TextOf(e.fix))] else []
  }

  /** The timestamp of the k-th has been the same ever since, and not before. */
  predicate SameSince(polls: seq<Poll>, k: nat) {
    && k < |polls|
    && (forall j :: k <= j < |polls| ==> polls[j].text == polls[k].text)
    && (k > 0 ==> polls[k - 1].text != polls[k].text)
  }

  lemma StampOneMore(c: SamplingConfig, run: seq<Event>)
    requires c.minFixPollMs <= c.maxFixPollMs && run != []
    ensures var s, e := After(c, run[..|run| - 1]), run[|run| - 1];
      After(c, run).stamp == if e.Fixed? then Stamped(s, Wrap(e.t), e.fix).stamp else s.stamp
  {
    hide Accepts;
    hide ValidCoordinates;
    hide TextOf;
    hide PollInterval;
    hide UploadFor;
    hide Confirmed;
    hide Observed;
  }

  lemma {:induction false} RunStamp(c: SamplingConfig, run: seq<Event>) returns (k: nat)
    requires c.minFixPollMs <= c.maxFixPollMs
    ensures var polls, stamp := Polls(run), After(c, run).stamp;
      if polls == [] then !stamp.hasTimestamp
      else SameSince(polls, k) && stamp == Freshness(true, polls[k].text, Wrap(polls[k].t))
  {
    hide Step;
    hide ValidCoordinates;
    hide TextOf;
    k := 0;
    if run != [] {
      k := RunStamp(c, run[..|run| - 1]);
      StampOneMore(c, run);
      var polls, e := Polls(run[..|run| - 1]), run[|run| - 1];
      if e.Fixed? && ValidCoordinates(e.fix) && (polls == [] || TextOf(e.fix) != polls[k].text) {
        k := |polls|;
      }
    }
  }

  lemma SameSinceOnce(polls: seq<Poll>, j: nat, k: nat)
    requires SameSince(polls, j) && SameSince(polls, k)
    ensures j == k
  {
  }

  /** In every run, in real time: a fix is accepted if and only if its coordinates
      and timestamp are usable, the timestamp has not been the same for longer than
      the maximum age, no known quality is too poor, and the speed since the last
      accepted fix is possible. */
  lemma AcceptedIff(c: SamplingConfig, run: seq<Event>, t: nat, fix: LocationPayload, k: nat)
    requires c.minFixPollMs <= c.maxFixPollMs
    requires Polls(run) != [] ==> SameSince(Polls(run), k) && 0 <= t - Polls(run)[k].t < TWO_TO_THE_32
    ensures var polls, track := Polls(run), Track(c, run);
      var here := Stop(t, Place(fix.latitude, fix.longitude));
      PolicyOnFix(c, After(c, run), Wrap(t), fix).1.fixAccepted <==>
        && -90.0 <= fix.latitude <= 90.0 && -180.0 <= fix.longitude <= 180.0
        && fix.recorded_at[0] != 0 && fix.recorded_at[0] != 0x30
        && (polls != [] && TextOf(fix) == polls[k].text && c.maxFixAgeMs > 0 ==> t - polls[k].t <= c.maxFixAgeMs)
        && (c.maxAccuracyM > 0.0 && fix.accuracy_m > 0.0 ==> fix.accuracy_m <= c.maxAccuracyM)
        && (c.minSatellites > 0 && fix.satellites_used > 0 ==> fix.satellites_used >= c.minSatellites)
        && (c.maxSpeedMps > 0.0 && track != [] ==> Bounded(c, track[|track| - 1], here))
  {
    hide After;
    hide Polls;
    hide Track;
    hide TextOf;
    hide PolicyOnFix;
    hide Bounded;
    hide PossibleJump;
    hide Stagnant;
    hide SameSince;
    DecisionTells(c, After(c, run), Wrap(t), fix);
    StagnantIff(c, run, t, fix, k);
    JumpAfter(c, run, t, fix);
  }

  lemma StagnantIff(c: SamplingConfig, run: seq<Event>, t: nat, fix: LocationPayload, k: nat)
    requires c.minFixPollMs <= c.maxFixPollMs
    requires Polls(run) != [] ==> SameSince(Polls(run), k) && 0 <= t - Polls(run)[k].t < TWO_TO_THE_32
    ensures var polls := Polls(run);
      Stagnant(c, After(c, run).stamp, Wrap(t), fix) <==>
        polls != [] && TextOf(fix) == polls[k].text && c.maxFixAgeMs > 0 && t - polls[k].t > c.maxFixAgeMs
  {
    hide After;
    hide Polls;
    hide TextOf;
    var j := RunStamp(c, run);
    if Polls(run) != [] {
      SameSinceOnce(Polls(run), j, k);
      ElapsedSince(Polls(run)[k].t, t);
    }
  }

  lemma JumpAfter(c: SamplingConfig, run: seq<Event>, t: nat, fix: LocationPayload)
    requires c.minFixPollMs <= c.maxFixPollMs
    ensures var track, here := Track(c, run), Stop(t, Place(fix.latitude, fix.longitude));
      PossibleJump(c, After(c, run).prev, Wrap(t), fix) <==>
        (c.maxSpeedMps > 0.0 && track != [] ==> Bounded(c, track[|track| - 1], here))
  {
    hide After;
    hide Track;
    hide Bounded;
    hide PossibleJump;
    var s, track := After(c, run), Track(c, run);
    if c.maxSpeedMps > 0.0 {
      TeleportGuard(c, run);
    }
    if c.maxSpeedMps > 0.0 && track != [] {
      JumpIff(c, s.prev, track[|track| - 1], Stop(t, Place(fix.latitude, fix.longitude)), fix);
    } else {
      NoPrevious(c, s.prev, Wrap(t), fix);
    }
  }

  lemma NoPrevious(c: SamplingConfig, p: Previous, now: uint32, fix: LocationPayload)
    requires !p.hasFix || c.maxSpeedMps <= 0.0
    ensures PossibleJump(c, p, now, fix)
  {
  }

  // ---- When uploads are asked for ----

  datatype Sent = Never | Last(t: nat, fix: LocationPayload)

  /** The last upload of the run that succeeded. */
  function LastSent(run: seq<Event>): Sent {
    if run == [] then Never
    else
      var e := run[|run| - 1];
      if e.Uploaded? && e.sent then Last(e.t, e.fix) else LastSent(run[..|run| - 1])
  }

  lemma {:induction false} RunUpload(c: SamplingConfig, run: seq<Event>)
    requires c.minFixPollMs <= c.maxFixPollMs
    ensures match LastSent(run)
      case Never => !After(c, run).upload.hasSent
      case Last(t, fix) => After(c, run).upload == Upload(true, fix, Wrap(t))
  {
    hide Accepts;
    hide Observed;
    hide Confirmed;
    hide PollInterval;
    hide UploadFor;
    if run != [] {
      RunUpload(c, run[..|run| - 1]);
    }
  }

  /** In every run, in real time and across the wrap of the clock: an accepted
      fix asks for an upload always before the first success; while stationary,
      exactly once the heartbeat has passed since the last one; while moving,
      exactly once the poll interval or the target spacing has. */
  lemma UploadAskedWhenDue(c: SamplingConfig, run: seq<Event>, t: nat, fix: LocationPayload)
    requires c.minFixPollMs <= c.maxFixPollMs
    requires Accepts(c, After(c, run), Wrap(t), fix)
    requires LastSent(run).Last? ==> 0 <= t - LastSent(run).t < TWO_TO_THE_32
    ensures var d := PolicyOnFix(c, After(c, run), Wrap(t), fix).1;
      var last, observed := LastSent(run), Observed(c, After(c, run).motion.state, fix.speed_mps);
      && observed != UNKNOWN
      && (last.Never? ==> d.shouldUpload && d.uploadReason == FIRST_VALID_FIX)
      && (last.Last? && d.shouldUpload && observed == STATIONARY ==> d.uploadReason == STATIONARY_HEARTBEAT)
      && (last.Last? && d.shouldUpload && observed == MOVING ==>
            d.uploadReason
              == if ValidCoordinates(last.fix)
                    && c.distance(last.fix.latitude, last.fix.longitude, fix.latitude, fix.longitude) >= c.targetPointSpacingM as real
                 then DISTANCE_REACHED else INTERVAL_ELAPSED)
      && (last.Last? && observed == STATIONARY ==> (d.shouldUpload <==> t - last.t >= c.stationaryHeartbeatMs))
      && (last.Last? && observed == MOVING ==>
            (d.shouldUpload <==>
              t - last.t >= d.nextFixPollMs
              || (ValidCoordinates(last.fix)
                  && c.distance(last.fix.latitude, last.fix.longitude, fix.latitude, fix.longitude) >= c.targetPointSpacingM as real)))
  {
    hide Accepts;
    hide Confirmed;
    hide PollInterval;
    hide ValidCoordinates;
    RunUpload(c, run);
    NeverObservedUnknown(c, run, fix.speed_mps);
    if LastSent(run).Last? {
      ElapsedSince(LastSent(run).t, t);
    }
  }

  lemma NeverObservedUnknown(c: SamplingConfig, run: seq<Event>, speed: real)
    requires c.minFixPollMs <= c.maxFixPollMs
    ensures Observed(c, After(c, run).motion.state, speed) != UNKNOWN
  {
  }

  /** The radio gate in real time: a waiting fix opens it when the batch is full,
      when it was never open, or when the flush interval since the last opening has
      passed, and not before. */
  lemma RadioDueInTime(since: nat, t: nat, queueSize: nat, hasOpened: bool, state: MotionState,
                       batchMinItems: nat, moving: uint32, stationary: uint32)
    requires 0 <= t - since < TWO_TO_THE_32
    ensures RadioDue(Wrap(t), queueSize, Wrap(since), hasOpened, state, batchMinItems, moving, stationary)
       <==> queueSize > 0
            && ((batchMinItems > 0 && queueSize >= batchMinItems) || !hasOpened
                || t - since >= (if state == MOVING then moving else stationary))
  {
    ElapsedSince(since, t);
  }

  // ---- The teleport guard ----

  datatype Stop = Stop(t: nat, at: Place)

  /** The accepted fixes of a run. */
  function Track(c: SamplingConfig, run: seq<Event>): seq<Stop>
    requires c.minFixPollMs <= c.maxFixPollMs
  {
    if run == [] then []
    else
      var n := |run| - 1;
      Track(c, run[..n])
      + if AcceptedAt(c, After(c, run[..n]), run[n])
        then [Stop(run[n].t, Place(run[n].fix.latitude, run[n].fix.longitude))] else []
  }

  function Apart(c: SamplingConfig, x: Stop, y: Stop): real {
    c.distance(x.at.lat, x.at.lon, y.at.lat, y.at.lon)
  }

  /** Milliseconds from x to y as the device counts them. */
  function Elapsed(x: Stop, y: Stop): uint32 {
    Wrap(Wrap(y.t) - Wrap(x.t))
  }

  predicate PrevIsLast(p: Previous, track: seq<Stop>) {
    if track == [] then !p.hasFix
    else p == Previous(true, track[|track| - 1].at, Wrap(track[|track| - 1].t))
  }

  predicate Bounded(c: SamplingConfig, x: Stop, y: Stop) {
    Elapsed(x, y) > 0 ==> Apart(c, x, y) <= c.maxSpeedMps * (Elapsed(x, y) as real / 1000.0)
  }

  /** Consecutive accepted fixes with some elapsed time are never further apart
      than the maximum speed allows, whatever was rejected between them. */
  lemma {:induction false} TeleportGuard(c: SamplingConfig, run: seq<Event>)
    requires c.minFixPollMs <= c.maxFixPollMs && c.maxSpeedMps > 0.0
    ensures PrevIsLast(After(c, run).prev, Track(c, run))
    ensures forall k :: 0 <= k < |Track(c, run)| - 1 ==> Bounded(c, Track(c, run)[k], Track(c, run)[k + 1])
  {
    hide Step;
    hide PossibleJump;
    hide Stagnant;
    hide GoodQuality;
    hide ValidCoordinates;
    hide Bounded;
    if run != [] {
      var n := |run| - 1;
      TeleportGuard(c, run[..n]);
      var s, e, before := After(c, run[..n]), run[n], Track(c, run[..n]);
      StepEffect(c, s, e);
      if AcceptedAt(c, s, e) {
        var y := Stop(e.t, Place(e.fix.latitude, e.fix.longitude));
        if before != [] {
          JumpIff(c, s.prev, before[|before| - 1], y, e.fix);
        }
        assert Track(c, run) == before + [y];
      } else {
        assert Track(c, run) == before;
      }
    }
  }

  lemma JumpIff(c: SamplingConfig, p: Previous, x: Stop, y: Stop, fix: LocationPayload)
    requires c.maxSpeedMps > 0.0 && p == Previous(true, x.at, Wrap(x.t)) && y.at == Place(fix.latitude, fix.longitude)
    ensures PossibleJump(c, p, Wrap(y.t), fix) <==> Bounded(c, x, y)
  {
    if Elapsed(x, y) > 0 {
      DivisionBound(Apart(c, x, y), Elapsed(x, y) as real / 1000.0, c.maxSpeedMps);
    }
  }

  lemma DivisionBound(d: real, t: real, v: real)
    requires t > 0.0
    ensures d / t <= v <==> d <= v * t
  {
    var q := d / t;
    assert d == q * t;
    if q <= v {
      assert (v - q) * t >= 0.0;
    } else {
      assert (q - v) * t > 0.0;
    }
    assert (v - q) * t == v * t - q * t;
  }

  /** Real times strictly increase and the device never sleeps through a full
      turn of its 32-bit clock. */
  predicate Steady(track: seq<Stop>) {
    forall k :: 0 <= k < |track| - 1 ==> 0 < track[k + 1].t - track[k].t < TWO_TO_THE_32
  }

  lemma ElapsedReal(x: Stop, y: Stop)
    requires 0 < y.t - x.t < TWO_TO_THE_32
    ensures Elapsed(x, y) == y.t - x.t
  {
    ElapsedSince(x.t, y.t);
  }

  /** With distances that respect the triangle inequality, the speed bound holds
      between any two accepted fixes of the run. */
  lemma {:induction false} TeleportGuardAllPairs(c: SamplingConfig, run: seq<Event>, i: nat, j: nat)
    requires c.minFixPollMs <= c.maxFixPollMs && c.maxSpeedMps > 0.0
    requires forall x, y, z :: Apart(c, x, z) <= Apart(c, x, y) + Apart(c, y, z)
    requires i < j < |Track(c, run)| && Steady(Track(c, run))
    ensures Apart(c, Track(c, run)[i], Track(c, run)[j])
            <= c.maxSpeedMps * ((Track(c, run)[j].t - Track(c, run)[i].t) as real / 1000.0)
    decreases j
  {
    hide Track;
    hide Apart;
    hide Elapsed;
    hide PrevIsLast;
    TeleportGuard(c, run);
    var track := Track(c, run);
    var x, y, z := track[i], track[j - 1], track[j];
    assert Bounded(c, track[j - 1], track[j - 1 + 1]);
    ElapsedReal(y, z);
    if i < j - 1 {
      TeleportGuardAllPairs(c, run, i, j - 1);
      Chained(c, x, y, z);
    }
  }

  /** The bound adds up over two stretches. */
  lemma Chained(c: SamplingConfig, x: Stop, y: Stop, z: Stop)
    requires Apart(c, x, z) <= Apart(c, x, y) + Apart(c, y, z)
    requires Apart(c, x, y) <= c.maxSpeedMps * ((y.t - x.t) as real / 1000.0)
    requires Apart(c, y, z) <= c.maxSpeedMps * ((z.t - y.t) as real / 1000.0)
    ensures Apart(c, x, z) <= c.maxSpeedMps * ((z.t - x.t) as real / 1000.0)
  {
    hide Apart;
    SpeedAdds(c.maxSpeedMps, (y.t - x.t) as real, (z.t - y.t) as real);
  }

  lemma SpeedAdds(v: real, s: real, t: real)
    ensures v * (s / 1000.0) + v * (t / 1000.0) == v * ((s + t) / 1000.0)
  {
  }

  /** The guard needs elapsed time: within one millisecond any jump is accepted. */
  lemma SameMillisecondUnchecked(c: SamplingConfig, s: Policy, now: uint32, fix: LocationPayload)
    requires ValidCoordinates(fix) && GoodQuality(c, fix) && !Stagnant(c, s.stamp, now, fix) && s.prev.ms == now
    ensures Accepts(c, s, now, fix)
  {
  }
}
