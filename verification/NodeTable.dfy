/** The state machine as its table says it: for every state and every kind of event the
    state that follows, the timers, the event posted and the pipeline begun. States, kinds
    and times stand in the statements as themselves, and none of them uses the model's moves. */
module NodeTable {
  import opened Base
  import opened Events
  import opened NodeModel
  import opened NodeInvariants
  import opened NodePipeline
  import opened NodeTheorems
  import opened NodeWake
  import Build = NodeCrypto

  // States

  lemma FromBoot(cfg: Config, s: Node, hw: Hw, arrivals: seq<Event>)
    requires s.ctl.queue != [] && s.ctl.state == Boot
    ensures var k, to := s.ctl.queue[0].kind, Step(cfg, s, Dispatch(hw, arrivals)).ctl.state;
            to == if k == InitComplete then Calibrating else Boot
  {
    StateChangesOnlyByMove(cfg, s, Dispatch(hw, arrivals));
  }

  lemma FromCalibrating(cfg: Config, s: Node, hw: Hw, arrivals: seq<Event>)
    requires s.ctl.queue != [] && s.ctl.state == Calibrating
    ensures var k, to := s.ctl.queue[0].kind, Step(cfg, s, Dispatch(hw, arrivals)).ctl.state;
            to == if k == BaselineReady then Armed else Calibrating
  {
    StateChangesOnlyByMove(cfg, s, Dispatch(hw, arrivals));
  }

  lemma FromArmed(cfg: Config, s: Node, hw: Hw, arrivals: seq<Event>)
    requires s.ctl.queue != [] && s.ctl.state == Armed
    ensures var k, to := s.ctl.queue[0].kind, Step(cfg, s, Dispatch(hw, arrivals)).ctl.state;
            to ==
              if k == PressureBreach || k == MotionDetected || k == DualBreach || k == TamperDetected then
                (if hw.lf.signKeyReady then Signing else Fault)
              else if k == InactivityTimeout then DeepSleep
              else if k == ArmedTimeout then LightSleep
              else if k == BatteryLow || k == BatteryCritical then LowBattery
              else if k == SensorFault then Fault
              else Armed
  {
    StateChangesOnlyByMove(cfg, s, Dispatch(hw, arrivals));
  }

  lemma FromLightSleep(cfg: Config, s: Node, hw: Hw, arrivals: seq<Event>)
    requires s.ctl.queue != [] && s.ctl.state == LightSleep
    ensures var k, to := s.ctl.queue[0].kind, Step(cfg, s, Dispatch(hw, arrivals)).ctl.state;
            to ==
              if k == PressureBreach || k == MotionDetected || k == DualBreach || k == TamperDetected then
                (if hw.lf.signKeyReady then Signing else Fault)
              else if k == InactivityTimeout then DeepSleep
              else if k == BatteryLow || k == BatteryCritical then LowBattery
              else LightSleep
  {
    StateChangesOnlyByMove(cfg, s, Dispatch(hw, arrivals));
  }

  lemma FromDeepSleep(cfg: Config, s: Node, hw: Hw, arrivals: seq<Event>)
    requires s.ctl.queue != [] && s.ctl.state == DeepSleep
    ensures var k, to := s.ctl.queue[0].kind, Step(cfg, s, Dispatch(hw, arrivals)).ctl.state;
            to ==
              if k == RtcWakeup then Armed
              else if k == BatteryLow || k == BatteryCritical then LowBattery
              else DeepSleep
  {
    StateChangesOnlyByMove(cfg, s, Dispatch(hw, arrivals));
  }

  lemma FromEventDetected(cfg: Config, s: Node, hw: Hw, arrivals: seq<Event>)
    requires s.ctl.queue != [] && s.ctl.state == EventDetected
    ensures Step(cfg, s, Dispatch(hw, arrivals)).ctl.state == EventDetected
  {
    StateChangesOnlyByMove(cfg, s, Dispatch(hw, arrivals));
  }

  lemma FromSigning(cfg: Config, s: Node, hw: Hw, arrivals: seq<Event>)
    requires s.ctl.queue != [] && s.ctl.state == Signing
    ensures var k, to := s.ctl.queue[0].kind, Step(cfg, s, Dispatch(hw, arrivals)).ctl.state;
            to ==
              if k == SigningComplete then (if hw.bleReady && hw.setDataOk && hw.startOk then Transmitting else Fault)
              else if k == SensorFault then Fault
              else Signing
  {
    StateChangesOnlyByMove(cfg, s, Dispatch(hw, arrivals));
  }

  lemma FromTransmitting(cfg: Config, s: Node, hw: Hw, arrivals: seq<Event>)
    requires s.ctl.queue != [] && s.ctl.state == Transmitting
    ensures var k, to := s.ctl.queue[0].kind, Step(cfg, s, Dispatch(hw, arrivals)).ctl.state;
            to ==
              if k == TxComplete || k == TxTimeout then Cooldown
              else if k == BleFault then Fault
              else Transmitting
  {
    StateChangesOnlyByMove(cfg, s, Dispatch(hw, arrivals));
  }

  lemma FromCooldown(cfg: Config, s: Node, hw: Hw, arrivals: seq<Event>)
    requires s.ctl.queue != [] && s.ctl.state == Cooldown
    ensures var k, to := s.ctl.queue[0].kind, Step(cfg, s, Dispatch(hw, arrivals)).ctl.state;
            to ==
              if k == CooldownExpired then Armed
              else if k == TamperDetected then (if hw.lf.signKeyReady then Signing else Fault)
              else if k == BatteryLow || k == BatteryCritical then LowBattery
              else Cooldown
  {
    StateChangesOnlyByMove(cfg, s, Dispatch(hw, arrivals));
  }

  lemma FromFault(cfg: Config, s: Node, hw: Hw, arrivals: seq<Event>)
    requires s.ctl.queue != [] && s.ctl.state == Fault
    ensures var k, to := s.ctl.queue[0].kind, Step(cfg, s, Dispatch(hw, arrivals)).ctl.state;
            to == if k == RecoverySuccess then Calibrating else Fault
  {
    StateChangesOnlyByMove(cfg, s, Dispatch(hw, arrivals));
  }

  lemma FromLowBattery(cfg: Config, s: Node, hw: Hw, arrivals: seq<Event>)
    requires s.ctl.queue != [] && s.ctl.state == LowBattery
    ensures var k, to := s.ctl.queue[0].kind, Step(cfg, s, Dispatch(hw, arrivals)).ctl.state;
            to ==
              if k == PressureBreach || k == MotionDetected || k == DualBreach || k == TamperDetected then
                (if hw.lf.signKeyReady then Signing else Fault)
              else if k == BatteryRestored then Armed
              else LowBattery
  {
    StateChangesOnlyByMove(cfg, s, Dispatch(hw, arrivals));
  }

  // Pipelines

  /** The events that begin a pipeline: the four breaches in ARMED, LIGHT_SLEEP and
      LOW_BATTERY and the tamper event in COOLDOWN. */
  predicate Begins(st: State, k: Kind) {
    || ((st == Armed || st == LightSleep || st == LowBattery) &&
        (k == PressureBreach || k == MotionDetected || k == DualBreach || k == TamperDetected))
    || (st == Cooldown && k == TamperDetected)
  }

  /** Every device that the building of a frame asks answers. */
  predicate Answers(hw: Hw) {
    hw.innerOk && hw.innerLen == 64 && hw.lf.aesKeyReady && hw.lf.signKeyReady && hw.lf.rngOk && hw.lf.aeadOk && hw.lf.outerOk
  }

  /** A dispatch that begins a pipeline adds one entry, with the event itself, the next
      sequence number and the outcome of its signing. */
  lemma BreachesBeginPipelines(cfg: Config, s: Node, hw: Hw, arrivals: seq<Event>)
    requires cfg.Valid() && s.ctl.queue != [] && Begins(s.ctl.state, s.ctl.queue[0].kind)
    ensures var e, p, d := s.ctl.queue[0], s.pipe, Step(cfg, s, Dispatch(hw, arrivals)).pipe;
            && d.lastEvent == e && d.sequence == (p.sequence + 1) % 0x1_0000_0000 && d.lfBuf == p.lfBuf
            && d.lastLer.sequence == d.sequence
            && d.log == p.log + [Pipeline(e, d.lastLer, if Answers(hw) then InProgress else SignFailed)]
  {
    DispatchCarries(cfg, s, hw, arrivals);
    SigningOutcome(cfg, s.pipe, s.ctl.queue[0], hw);
  }

  lemma SigningOutcome(cfg: Config, p: Pipe, e: Event, hw: Hw)
    requires cfg.Valid()
    ensures var d := Sign(cfg, p, e, hw);
            && d.lastEvent == e && d.sequence == (p.sequence + 1) % 0x1_0000_0000 && d.lfBuf == p.lfBuf
            && d.lastLer.sequence == d.sequence
            && d.log == p.log + [Pipeline(e, d.lastLer, if Answers(hw) then InProgress else SignFailed)]
  {
    FrameIsBuiltIff(cfg, p, e, hw);
  }

  lemma FrameIsBuiltIff(cfg: Config, p: Pipe, e: Event, hw: Hw)
    requires cfg.Valid()
    ensures hw.lf.signKeyReady && FrameBuilt(cfg, Begin(cfg, p, e), hw) <==> Answers(hw)
  {
    var b := Begin(cfg, p, e);
    Build.BuildSucceedsIff(cfg.crypto, cfg.key, b.lastLer, cfg.crypto.sign(b.lastLer.ToBytes(), hw.innerRnd),
                           hw.innerLen, hw.lf, b.lastLf);
  }

  /** The good signing result puts the frame of the signing on the radio, and the last
      pipeline comes to what the radio answers. */
  lemma SignedFramesAreLoaded(cfg: Config, s: Node, hw: Hw, arrivals: seq<Event>)
    requires s.ctl.queue != [] && s.ctl.state == Signing && s.ctl.queue[0].kind == SigningComplete && s.pipe.log != []
    ensures var p, last := s.pipe, s.pipe.log[|s.pipe.log| - 1];
            var on := hw.bleReady && hw.setDataOk && hw.startOk;
            Step(cfg, s, Dispatch(hw, arrivals)).pipe ==
              p.(lfBuf := if hw.bleReady then p.lastLf else p.lfBuf,
                 log := p.log[|p.log| - 1 := last.(fate := if on then Advertised(p.lastLf, s.ctl.now) else AdvFailed)])
  {
    DispatchCarries(cfg, s, hw, arrivals);
  }

  /** Every other event leaves the data alone. */
  lemma OtherEventsCarryNothing(cfg: Config, s: Node, hw: Hw, arrivals: seq<Event>)
    requires s.ctl.queue != [] && !Begins(s.ctl.state, s.ctl.queue[0].kind)
    requires s.ctl.state != Signing || s.ctl.queue[0].kind != SigningComplete
    ensures Step(cfg, s, Dispatch(hw, arrivals)).pipe == s.pipe
  {
    DispatchCarries(cfg, s, hw, arrivals);
    OthersCarryNothing(s.ctl.state, s.ctl.queue[0].kind);
  }

  lemma OthersCarryNothing(st: State, k: Kind)
    requires !Begins(st, k) && (st != Signing || k != SigningComplete)
    ensures MoveOf(st, k) != Detect && MoveOf(st, k) != Transmit
  {
  }

  // The queue

  /** A post: at most 16 events wait, and what does not fit is counted. */
  function Posted(c: Control, k: Kind): Control {
    if |c.queue| < 16 then c.(queue := c.queue + [Event(k, c.now % 0x1_0000_0000, [0, 0, 0, 0, 0, 0, 0, 0])])
    else c.(drops := c.drops + 1)
  }

  /** What reaches the node from outside: breaches, the battery monitor and the poll tick. */
  predicate Outer(k: Kind) {
    || k == PressureBreach || k == MotionDetected || k == DualBreach || k == TamperDetected
    || k == BatteryLow || k == BatteryCritical || k == BatteryRestored || k == PollTick
  }

  function Outers(es: seq<Event>): seq<Event> {
    if es == [] then []
    else Outers(es[..|es| - 1]) + if Outer(es[|es| - 1].kind) then [es[|es| - 1]] else []
  }

  /** While a dispatch is under way the outside events join the rest of the queue in their
      order as far as there is room; the others are counted. */
  lemma ArrivalsJoinTheQueue(c: Control, arrivals: seq<Event>)
    requires c.queue != [] && |c.queue| <= 16
    ensures var all := c.queue[1..] + Outers(arrivals);
            Take(c, arrivals) ==
              if |all| <= 16 then c.(queue := all) else c.(queue := all[..16], drops := c.drops + |all| - 16)
  {
    ArrivalsJoin(c.(queue := c.queue[1..]), arrivals);
  }

  lemma {:induction false} ArrivalsJoin(c: Control, es: seq<Event>)
    requires |c.queue| <= 16
    ensures var all := c.queue + Outers(es);
            PostAll(c, es) ==
              if |all| <= 16 then c.(queue := all) else c.(queue := all[..16], drops := c.drops + |all| - 16)
  {
    if es == [] {
      assert c.queue + [] == c.queue;
    } else {
      var rest, e := es[..|es| - 1], es[|es| - 1];
      ArrivalsJoin(c, rest);
      OneJoins(c, Outers(rest), PostAll(c, rest), e);
    }
  }

  lemma OneJoins(c: Control, joined: seq<Event>, d: Control, e: Event)
    requires |c.queue| <= 16
    requires var all := c.queue + joined;
             d == if |all| <= 16 then c.(queue := all) else c.(queue := all[..16], drops := c.drops + |all| - 16)
    ensures var all := c.queue + (joined + if Outer(e.kind) then [e] else []);
            Outsider(d, e) == if |all| <= 16 then c.(queue := all) else c.(queue := all[..16], drops := c.drops + |all| - 16)
  {
    var before, added := c.queue + joined, if Outer(e.kind) then [e] else [];
    Regroup(c.queue, joined, added);
    assert before + [] == before;
    if |before| >= 16 { assert (before + added)[..16] == before[..16]; }
  }

  /** What follows from the state entered, with `n` tries at recovery so far */
  function PostOnEntry(from: State, to: State, n: nat, answers: bool): Option<Kind> {
    if from == to then None
    else if to == Calibrating then Some(BaselineReady)
    else if to == Signing then Some(if answers then SigningComplete else SensorFault)
    else if to == Fault then Some(if from != Transmitting && n >= 3 then Error else RecoverySuccess)
    else None
  }

  function PostedIf(c: Control, k: Option<Kind>): Control { if k.Some? then Posted(c, k.value) else c }

  /** What a dispatch posts behind the arrivals */
  lemma EntriesPost(cfg: Config, s: Node, hw: Hw, arrivals: seq<Event>)
    requires cfg.Valid() && s.ctl.queue != []
    ensures var c, d := Take(s.ctl, arrivals), Step(cfg, s, Dispatch(hw, arrivals)).ctl;
            var p := PostedIf(c, PostOnEntry(s.ctl.state, d.state, s.ctl.faultRetries, Answers(hw)));
            d.queue == p.queue && d.drops == p.drops
  {
    var c, e := Take(s.ctl, arrivals), s.ctl.queue[0];
    var move, r := MoveOf(c.state, e.kind), ResultsOf(cfg, s.pipe, e, hw);
    var effect, p := Make(c, move, cfg.CooldownLen(), r), PostOnEntry(c.state, Target(move, c.state, r), c.faultRetries, Answers(hw));
    assert effect.post == p by {
      FrameIsBuiltIff(cfg, s.pipe, e, hw);
      MovePosts(c, e.kind, move, cfg.CooldownLen(), r, Answers(hw));
    }
    assert effect.ctl.queue == c.queue && effect.ctl.drops == c.drops && effect.ctl.now == c.now by {
      MakeKeepsQueue(c, move, cfg.CooldownLen(), r);
      MakeStampsEffect(c, move, cfg.CooldownLen(), r);
    }
    EffectPosts(c, effect);
    ArrivalsJoinNothingElse(s.ctl.(queue := s.ctl.queue[1..]), arrivals);
    DispatchControls(cfg, s, hw, arrivals);
    MakeReachesTarget(c, move, cfg.CooldownLen(), r);
  }

  lemma MovePosts(c: Control, k: Kind, move: Move, len: nat, r: Results, answers: bool)
    requires move == MoveOf(c.state, k) && (move == Detect && r.signStarted ==> r.frameBuilt == answers)
    ensures Make(c, move, len, r).post == PostOnEntry(c.state, Target(move, c.state, r), c.faultRetries, answers)
  {
  }

  lemma EffectPosts(c: Control, e: Effect)
    requires e.ctl.queue == c.queue && e.ctl.drops == c.drops && e.ctl.now == c.now
    ensures Settle(e).queue == PostedIf(c, e.post).queue && Settle(e).drops == PostedIf(c, e.post).drops
  {
  }

  // Timers

  /** Leaving ARMED, COOLDOWN or TRANSMITTING cancels the timer of that state. */
  function Cancelled(t: Timers, from: State): Timers {
    if from == Armed then t.(dwell := None)
    else if from == Cooldown then t.(cooldown := None)
    else if from == Transmitting then t.(txTimeout := None)
    else t
  }

  /** The timers after a dispatch of `k` that leads from `c` to state `to`. A transmission that
      cannot start has left TRANSMITTING again. */
  function TimersAfter(cfg: Config, c: Control, k: Kind, to: State, hw: Hw): Timers {
    var t := Cancelled(c.timers, c.state);
    if to == c.state then c.timers
    else if to == Armed then t.(dwell := Some(c.now + 10000), inactivity := Some(c.now + 86400000))
    else if to == Cooldown then t.(cooldown := Some(c.now + if cfg.cooldownMs > 0 then cfg.cooldownMs else 5000))
    else if to == Transmitting then t.(txTimeout := Some(c.now + 5000), stop := Some(c.now + 500))
    else if to == DeepSleep && !hw.alarmSet then t.(fallback := Some(c.now + cfg.deepSleepMs))
    else if c.state == Armed && Begins(Armed, k) then t.(inactivity := Some(c.now + 86400000))
    else if c.state == Signing && k == SigningComplete then t.(txTimeout := None)
    else t
  }

  lemma GoCancels(c: Control, next: State)
    ensures Go(c, next).timers == Cancelled(c.timers, c.state) && Go(c, next).now == c.now && Go(c, next).state == next
  {
  }

  lemma FaultCancels(c: Control)
    ensures ToFault(c).ctl.timers == Cancelled(c.timers, c.state)
  {
    GoCancels(c, Fault);
  }

  lemma SigningCancels(c: Control, r: Results)
    ensures ToSigning(c, r).ctl.timers == Cancelled(c.timers, c.state)
  {
    GoCancels(c, Signing);
    FaultCancels(Go(c, Signing));
  }

  lemma DetectSetsTimers(c: Control, r: Results)
    ensures ToSigning(Kept(c), r).ctl.timers ==
              var t := Cancelled(c.timers, c.state);
              if c.state == Armed then t.(inactivity := Some(c.now + 86400000)) else t
  {
    SigningCancels(Kept(c), r);
  }

  lemma TransmitSetsTimers(c: Control, adv: AdvResult)
    requires c.state == Signing
    ensures ToTransmitting(c, adv).ctl.timers ==
              if adv == Started then c.timers.(txTimeout := Some(c.now + 5000), stop := Some(c.now + 500))
              else c.timers.(txTimeout := None)
  {
    GoCancels(c, Transmitting);
    var e := Expecting(c);
    assert e.timers == c.timers.(txTimeout := Some(c.now + 5000)) && e.now == c.now && e.state == Transmitting;
    FaultCancels(e);
    FaultCancels(Unhooked(e));
    assert Cancelled(e.timers, Transmitting) == c.timers.(txTimeout := None);
  }

  lemma ArmSetsTimers(c: Control)
    ensures ToArmed(c).timers ==
              Cancelled(c.timers, c.state).(dwell := Some(c.now + 10000), inactivity := Some(c.now + 86400000))
  {
    GoCancels(c, Armed);
  }

  lemma SleepSetsTimers(c: Control, fallback: Option<nat>)
    ensures ToDeepSleep(c, fallback).timers ==
              var t := Cancelled(c.timers, c.state);
              if fallback.Some? then t.(fallback := Some(c.now + fallback.value)) else t
  {
    GoCancels(c, DeepSleep);
  }

  lemma CoolSetsTimers(c: Control, len: nat)
    ensures ToCooldown(c, len).timers == Cancelled(c.timers, c.state).(cooldown := Some(c.now + len))
  {
    GoCancels(c, Cooldown);
  }

  predicate SetsTimers(cfg: Config, c: Control, k: Kind, move: Move, hw: Hw, r: Results) {
    Make(c, move, cfg.CooldownLen(), r).ctl.timers == TimersAfter(cfg, c, k, Target(move, c.state, r), hw)
  }

  lemma TableOnLeaving(cfg: Config, c: Control, k: Kind, to: State, hw: Hw)
    requires var move := MoveOf(c.state, k);
             (move == Calibrate && to == Calibrating) || (move == Doze && to == LightSleep) ||
             (move == Drain && to == LowBattery) || (move == Fail && to == Fault)
    ensures TimersAfter(cfg, c, k, to, hw) == Cancelled(c.timers, c.state)
  {
  }

  lemma LeavingSetsTimers(cfg: Config, c: Control, k: Kind, move: Move, hw: Hw, r: Results)
    requires move == MoveOf(c.state, k) && (move == Calibrate || move == Doze || move == Drain)
    ensures SetsTimers(cfg, c, k, move, hw, r)
  {
    TableOnLeaving(cfg, c, k, Target(move, c.state, r), hw);
    GoCancels(if move == Calibrate then Forgiven(c, Fault) else c, Target(move, c.state, r));
  }

  lemma FailingSetsTimers(cfg: Config, c: Control, k: Kind, hw: Hw, r: Results)
    requires MoveOf(c.state, k) == Fail
    ensures SetsTimers(cfg, c, k, Fail, hw, r)
  {
    TableOnLeaving(cfg, c, k, Fault, hw);
    FaultCancels(Forgiven(c, Transmitting));
  }

  lemma ArmingSetsTimers(cfg: Config, c: Control, k: Kind, hw: Hw, r: Results)
    requires MoveOf(c.state, k) == Arm
    ensures SetsTimers(cfg, c, k, Arm, hw, r)
  {
    ArmSetsTimers(c);
  }

  lemma CoolingSetsTimers(cfg: Config, c: Control, k: Kind, hw: Hw, r: Results)
    requires MoveOf(c.state, k) == Cool
    ensures SetsTimers(cfg, c, k, Cool, hw, r)
  {
    CoolSetsTimers(c, cfg.CooldownLen());
  }

  lemma SleepingSetsTimers(cfg: Config, c: Control, k: Kind, hw: Hw, r: Results)
    requires MoveOf(c.state, k) == Sleep && r.fallback == FallbackOf(cfg, hw)
    ensures SetsTimers(cfg, c, k, Sleep, hw, r)
  {
    SleepSetsTimers(c, r.fallback);
  }

  lemma TableOnBreach(cfg: Config, c: Control, k: Kind, to: State, hw: Hw)
    requires MoveOf(c.state, k) == Detect && (to == Signing || to == Fault)
    ensures TimersAfter(cfg, c, k, to, hw) ==
              var t := Cancelled(c.timers, c.state);
              if c.state == Armed then t.(inactivity := Some(c.now + 86400000)) else t
  {
  }

  lemma DetectingSetsTimers(cfg: Config, c: Control, k: Kind, hw: Hw, r: Results)
    requires MoveOf(c.state, k) == Detect
    ensures SetsTimers(cfg, c, k, Detect, hw, r)
  {
    var to := Target(Detect, c.state, r);
    TableOnBreach(cfg, c, k, to, hw);
    DetectSetsTimers(c, r);
  }

  lemma TableOnTransmission(cfg: Config, c: Control, k: Kind, to: State, hw: Hw)
    requires MoveOf(c.state, k) == Transmit && (to == Transmitting || to == Fault)
    ensures c.state == Signing
    ensures TimersAfter(cfg, c, k, to, hw) ==
              if to == Transmitting then c.timers.(txTimeout := Some(c.now + 5000), stop := Some(c.now + 500))
              else c.timers.(txTimeout := None)
  {
  }

  lemma TransmittingSetsTimers(cfg: Config, c: Control, k: Kind, hw: Hw, r: Results)
    requires MoveOf(c.state, k) == Transmit
    ensures SetsTimers(cfg, c, k, Transmit, hw, r)
  {
    var to := Target(Transmit, c.state, r);
    TableOnTransmission(cfg, c, k, to, hw);
    TransmitSetsTimers(c, r.adv);
  }

  lemma MoveSetsTimers(cfg: Config, c: Control, k: Kind, move: Move, hw: Hw, r: Results)
    requires r.fallback == FallbackOf(cfg, hw) && move == MoveOf(c.state, k)
    ensures SetsTimers(cfg, c, k, move, hw, r)
  {
    match move
    case Ignore =>
    case Detect => DetectingSetsTimers(cfg, c, k, hw, r);
    case Transmit => TransmittingSetsTimers(cfg, c, k, hw, r);
    case Sleep => SleepingSetsTimers(cfg, c, k, hw, r);
    case Fail => FailingSetsTimers(cfg, c, k, hw, r);
    case Arm => ArmingSetsTimers(cfg, c, k, hw, r);
    case Cool => CoolingSetsTimers(cfg, c, k, hw, r);
    case _ => LeavingSetsTimers(cfg, c, k, move, hw, r);
  }

  lemma SettlingKeepsTimers(e: Effect)
    ensures Settle(e).timers == e.ctl.timers && Settle(e).state == e.ctl.state
  {
  }

  lemma TakingKeepsTimers(cfg: Config, c: Control, t: Control, k: Kind, to: State, hw: Hw)
    requires t.timers == c.timers && t.state == c.state && t.now == c.now
    ensures TimersAfter(cfg, t, k, to, hw) == TimersAfter(cfg, c, k, to, hw)
  {
  }

  lemma DispatchSetsTimers(cfg: Config, s: Node, hw: Hw, arrivals: seq<Event>)
    requires s.ctl.queue != []
    ensures var d := Step(cfg, s, Dispatch(hw, arrivals)).ctl;
            d.timers == TimersAfter(cfg, s.ctl, s.ctl.queue[0].kind, d.state, hw)
  {
    var c, k := Take(s.ctl, arrivals), s.ctl.queue[0].kind;
    var move, r := MoveOf(c.state, k), ResultsOf(cfg, s.pipe, s.ctl.queue[0], hw);
    ArrivalsJoinNothingElse(s.ctl.(queue := s.ctl.queue[1..]), arrivals);
    DispatchControls(cfg, s, hw, arrivals);
    MakeReachesTarget(c, move, cfg.CooldownLen(), r);
    MoveSetsTimers(cfg, c, k, move, hw, r);
    SettlingKeepsTimers(Make(c, move, cfg.CooldownLen(), r));
    TakingKeepsTimers(cfg, s.ctl, c, k, Target(move, c.state, r), hw);
  }

  /** The alarm, the stored callback, the retry count and the times after a dispatch */
  lemma DispatchSetsRest(cfg: Config, s: Node, hw: Hw, arrivals: seq<Event>)
    requires s.ctl.queue != []
    ensures var c, d, k := s.ctl, Step(cfg, s, Dispatch(hw, arrivals)).ctl, s.ctl.queue[0].kind;
            && d.alarm == (c.alarm || (c.state != DeepSleep && d.state == DeepSleep && hw.alarmSet))
            && d.advCb == (
                 if c.state == Signing && k == SigningComplete && hw.bleReady && hw.setDataOk then hw.startOk else c.advCb)
            && d.faultRetries == RetriesAfter(c.state, d.state, c.faultRetries)
            && d.now == c.now && d.enteredAt == if c.state != d.state then c.now else c.enteredAt
  {
    var c, k := Take(s.ctl, arrivals), s.ctl.queue[0].kind;
    var move, r := MoveOf(c.state, k), ResultsOf(cfg, s.pipe, s.ctl.queue[0], hw);
    ArrivalsJoinNothingElse(s.ctl.(queue := s.ctl.queue[1..]), arrivals);
    DispatchControls(cfg, s, hw, arrivals);
    MakeReachesTarget(c, move, cfg.CooldownLen(), r);
    MakeStampsEntry(c, move, cfg.CooldownLen(), r);
    OnlyIgnoringStays(c.state, k, r);
    MoveSetsAlarm(c, k, move, cfg.CooldownLen(), r);
    MoveSetsCallback(c, k, cfg.CooldownLen(), r);
    MoveSetsRetries(c, k, move, cfg.CooldownLen(), r);
    SettlingKeepsRest(Make(c, move, cfg.CooldownLen(), r));
  }

  /** Tries at recovery: a failed transmission starts them anew, and leaving FAULT ends them. */
  function RetriesAfter(from: State, to: State, n: nat): nat {
    if from == to then n
    else if from == Fault then 0
    else if to == Fault then if from == Transmitting then 1 else if n >= 3 then n else n + 1
    else n
  }

  lemma {:induction false} ArrivalsJoinNothingElse(c: Control, es: seq<Event>)
    ensures var d := PostAll(c, es); d == c.(queue := d.queue, drops := d.drops)
  {
    if es != [] { ArrivalsJoinNothingElse(c, es[..|es| - 1]); }
  }

  lemma OnlyIgnoringStays(st: State, k: Kind, r: Results)
    ensures Target(MoveOf(st, k), st, r) == st <==> MoveOf(st, k) == Ignore
  {
  }

  lemma SettlingKeepsRest(e: Effect)
    ensures var d := Settle(e);
            d.alarm == e.ctl.alarm && d.advCb == e.ctl.advCb && d.faultRetries == e.ctl.faultRetries
  {
  }

  function OneMore(n: nat): nat { if n >= 3 then n else n + 1 }

  lemma FaultSetsRest(c: Control)
    ensures var d := ToFault(c).ctl;
            d.alarm == c.alarm && d.advCb == c.advCb && d.faultRetries == OneMore(c.faultRetries)
  {
  }

  lemma SigningSetsRest(c: Control, r: Results)
    ensures var d := ToSigning(Kept(c), r).ctl;
            d.alarm == c.alarm && d.faultRetries == if r.signStarted then c.faultRetries else OneMore(c.faultRetries)
  {
    FaultSetsRest(Go(Kept(c), Signing));
  }

  lemma TransmittingSetsRest(c: Control, adv: AdvResult)
    ensures var d := ToTransmitting(c, adv).ctl;
            d.alarm == c.alarm && d.faultRetries == if adv == Started then c.faultRetries else OneMore(c.faultRetries)
  {
    FaultSetsRest(Expecting(c));
    FaultSetsRest(Unhooked(Expecting(c)));
  }

  lemma MoveSetsAlarm(c: Control, k: Kind, move: Move, len: nat, r: Results)
    requires move == MoveOf(c.state, k)
    ensures Make(c, move, len, r).ctl.alarm == (c.alarm || (move == Sleep && r.fallback.None?))
  {
    match move
    case Fail => FaultSetsRest(Forgiven(c, Transmitting));
    case Detect => SigningSetsRest(c, r);
    case Transmit => TransmittingSetsRest(c, r.adv);
    case _ =>
  }

  lemma MoveSetsCallback(c: Control, k: Kind, len: nat, r: Results)
    ensures var move := MoveOf(c.state, k);
            Make(c, move, len, r).ctl.advCb == if move == Transmit && r.adv != NotLoaded then r.adv == Started else c.advCb
  {
  }

  lemma MoveSetsRetries(c: Control, k: Kind, move: Move, len: nat, r: Results)
    requires move == MoveOf(c.state, k)
    ensures Make(c, move, len, r).ctl.faultRetries == RetriesAfter(c.state, Target(move, c.state, r), c.faultRetries)
  {
    match move
    case Fail => FaultSetsRest(Forgiven(c, Transmitting));
    case Detect => SigningSetsRest(c, r);
    case Transmit => TransmittingSetsRest(c, r.adv);
    case _ =>
  }

  // The other steps

  /** `at` is due, and no pending timer is due before it. */
  predicate IsNext(c: Control, at: Option<nat>) {
    && at.Some? && at.value <= c.now
    && (c.timers.cooldown.Some? ==> at.value <= c.timers.cooldown.value)
    && (c.timers.txTimeout.Some? ==> at.value <= c.timers.txTimeout.value)
    && (c.timers.dwell.Some? ==> at.value <= c.timers.dwell.value)
    && (c.timers.inactivity.Some? ==> at.value <= c.timers.inactivity.value)
    && (c.timers.fallback.Some? ==> at.value <= c.timers.fallback.value)
    && (c.timers.stop.Some? ==> at.value <= c.timers.stop.value)
  }

  /** A timer that is next to run out clears its deadline and posts its event; any other
      attempt changes nothing. */
  lemma TimersPost(cfg: Config, s: Node, ok: bool)
    ensures var c, t := s.ctl, s.ctl.timers;
            && Step(cfg, s, FireTimer(CooldownTimer, ok)).ctl ==
                 (if IsNext(c, t.cooldown) then Posted(c.(timers := t.(cooldown := None)), CooldownExpired) else c)
            && Step(cfg, s, FireTimer(TxTimer, ok)).ctl ==
                 (if IsNext(c, t.txTimeout) then Posted(c.(timers := t.(txTimeout := None)), TxTimeout) else c)
            && Step(cfg, s, FireTimer(DwellTimer, ok)).ctl ==
                 (if IsNext(c, t.dwell) then Posted(c.(timers := t.(dwell := None)), ArmedTimeout) else c)
  {
    NextMayFire(s.ctl);
  }

  lemma LongTimersPost(cfg: Config, s: Node, ok: bool)
    ensures var c, t := s.ctl, s.ctl.timers;
            && Step(cfg, s, FireTimer(InactivityTimer, ok)).ctl ==
                 (if IsNext(c, t.inactivity) then Posted(c.(timers := t.(inactivity := None)), InactivityTimeout) else c)
            && Step(cfg, s, FireTimer(FallbackTimer, ok)).ctl ==
                 (if IsNext(c, t.fallback) then Posted(c.(timers := t.(fallback := None)), RtcWakeup) else c)
  {
    NextMayFire(s.ctl);
  }

  /** The end of the advertising window stops the advertisement: whether that works is what
      the state machine hears, if it still waits to hear. */
  lemma StopPosts(cfg: Config, s: Node, ok: bool)
    ensures var c := s.ctl;
            var off := c.(timers := c.timers.(stop := None), advCb := false);
            Step(cfg, s, FireTimer(StopTimer, ok)).ctl ==
              if !IsNext(c, c.timers.stop) then c else if !c.advCb then off
              else if ok then Posted(off, TxComplete) else Posted(off, BleFault)
  {
    NextMayFire(s.ctl);
  }

  lemma NextMayFire(c: Control)
    ensures MayFire(c, CooldownTimer) == IsNext(c, c.timers.cooldown) && MayFire(c, TxTimer) == IsNext(c, c.timers.txTimeout)
    ensures MayFire(c, DwellTimer) == IsNext(c, c.timers.dwell) && MayFire(c, InactivityTimer) == IsNext(c, c.timers.inactivity)
    ensures MayFire(c, FallbackTimer) == IsNext(c, c.timers.fallback) && MayFire(c, StopTimer) == IsNext(c, c.timers.stop)
  {
  }

  /** The alarm posts the wakeup once; an outside event is posted as it came; nothing but a
      dispatch touches the data. */
  lemma OthersPost(cfg: Config, s: Node, e: Event, ms: nat)
    ensures var c := s.ctl;
            && Step(cfg, s, FireAlarm).ctl == (if c.alarm then Posted(c.(alarm := false), RtcWakeup) else c)
            && Step(cfg, s, Outside(e)).ctl ==
                 (if !Outer(e.kind) then c else if |c.queue| < 16 then c.(queue := c.queue + [e]) else c.(drops := c.drops + 1))
            && Step(cfg, s, Advance(ms)).ctl == c.(now := c.now + ms)
  {
  }

  lemma OnlyDispatchCarries(cfg: Config, s: Node, op: Op)
    requires !op.Dispatch? || s.ctl.queue == []
    ensures Step(cfg, s, op).pipe == s.pipe && (op.Dispatch? ==> Step(cfg, s, op) == s)
  {
  }

  /** The node after boot: the tamper event of a skewed clock, if any, waits before INIT_COMPLETE. */
  lemma BootQueues(skew: Option<u32>)
    ensures var c, zero := Init(skew).ctl, [0, 0, 0, 0, 0, 0, 0, 0];
            && c.state == Boot && c.drops == c.now == c.enteredAt == c.faultRetries == 0 && !c.alarm && !c.advCb
            && c.timers == Timers(None, None, None, None, None, None)
            && c.queue == (if skew.Some? then [Event(TamperDetected, skew.value, zero)] else []) + [Event(InitComplete, 0, zero)]
            && Init(skew).pipe.log == [] && Init(skew).pipe.sequence == 0
  {
  }

  // From breach to cooldown

  /** Everything works: the devices that build a frame, and the radio. */
  predicate Works(hw: Hw) { Answers(hw) && hw.bleReady && hw.setDataOk && hw.startOk }

  /** `d` waits for its good signing result, for a pipeline begun by the event `e`. */
  predicate IsSigned(d: Node, e: Event, n: nat, now: nat) {
    && d.ctl.state == Signing && d.ctl.now == now
    && d.ctl.queue == [Event(SigningComplete, now % 0x1_0000_0000, [0, 0, 0, 0, 0, 0, 0, 0])]
    && |d.pipe.log| == n + 1 && d.pipe.log[n].event == e
  }

  /** `d` advertises the frame of the pipeline begun by `e` and has nothing else to do before
      the advertising window ends. */
  predicate IsOnAir(d: Node, e: Event, n: nat, now: nat) {
    && d.ctl.state == Transmitting && d.ctl.queue == [] && d.ctl.advCb && d.ctl.timers.stop == Some(now + 500)
    && |d.pipe.log| == n + 1 && d.pipe.log[n].event == e
    && d.pipe.log[n].fate == Advertised(d.pipe.lfBuf, now)
  }

  /** A breach that is acted on goes on air when everything works: two dispatches take it from
      the queue to an advertisement of its own record. */
  lemma BreachGoesOnAir(cfg: Config, s: Node, first: Hw, signed: Node, second: Hw, aired: Node)
    requires cfg.Valid() && |s.ctl.queue| == 1 && Begins(s.ctl.state, s.ctl.queue[0].kind)
    requires Works(first) && signed == Step(cfg, s, Dispatch(first, []))
    requires Works(second) && aired == Step(cfg, signed, Dispatch(second, []))
    ensures IsSigned(signed, s.ctl.queue[0], |s.pipe.log|, s.ctl.now)
    ensures IsOnAir(aired, s.ctl.queue[0], |s.pipe.log|, s.ctl.now)
  {
    BreachIsSigned(cfg, s, first, signed);
    FrameGoesOnAir(cfg, signed, second, aired, s.ctl.queue[0], |s.pipe.log|, s.ctl.now);
  }

  lemma BreachIsSigned(cfg: Config, s: Node, hw: Hw, d: Node)
    requires cfg.Valid() && |s.ctl.queue| == 1 && Begins(s.ctl.state, s.ctl.queue[0].kind) && Works(hw)
    requires d == Step(cfg, s, Dispatch(hw, []))
    ensures IsSigned(d, s.ctl.queue[0], |s.pipe.log|, s.ctl.now)
  {
    BreachesLeadToSigning(cfg, s, hw);
    BreachesBeginPipelines(cfg, s, hw, []);
    EntriesPost(cfg, s, hw, []);
    DispatchSetsRest(cfg, s, hw, []);
    assert Take(s.ctl, []).queue == [];
    assert PostedIf(Take(s.ctl, []), Some(SigningComplete)).queue == [] + [Internal(SigningComplete, s.ctl.now)];
  }

  lemma BreachesLeadToSigning(cfg: Config, s: Node, hw: Hw)
    requires s.ctl.queue != [] && Begins(s.ctl.state, s.ctl.queue[0].kind) && hw.lf.signKeyReady
    ensures Step(cfg, s, Dispatch(hw, [])).ctl.state == Signing
  {
    match s.ctl.state
    case Armed => FromArmed(cfg, s, hw, []);
    case LightSleep => FromLightSleep(cfg, s, hw, []);
    case Cooldown => FromCooldown(cfg, s, hw, []);
    case LowBattery => FromLowBattery(cfg, s, hw, []);
  }

  lemma FrameGoesOnAir(cfg: Config, s: Node, hw: Hw, d: Node, e: Event, n: nat, now: nat)
    requires cfg.Valid() && IsSigned(s, e, n, now) && Works(hw) && d == Step(cfg, s, Dispatch(hw, []))
    ensures IsOnAir(d, e, n, now)
  {
    FrameIsOnAir(cfg, s, hw, d);
    SignedFramesAreLoaded(cfg, s, hw, []);
  }

  lemma FrameIsOnAir(cfg: Config, s: Node, hw: Hw, d: Node)
    requires cfg.Valid() && s.ctl.state == Signing && |s.ctl.queue| == 1 && s.ctl.queue[0].kind == SigningComplete
    requires Works(hw) && d == Step(cfg, s, Dispatch(hw, []))
    ensures d.ctl.state == Transmitting && d.ctl.queue == [] && d.ctl.advCb && d.ctl.timers.stop == Some(s.ctl.now + 500)
  {
    FromSigning(cfg, s, hw, []);
    DispatchSetsRest(cfg, s, hw, []);
    DispatchSetsTimers(cfg, s, hw, []);
    EntriesPost(cfg, s, hw, []);
    assert Take(s.ctl, []).queue == [];
  }

  /** Once the advertisement is over, a stop that works leads to COOLDOWN and one that fails
      to FAULT. */
  lemma StopDecides(cfg: Config, s: Node, ok: bool, hw: Hw, arrivals: seq<Event>)
    requires s.ctl.state == Transmitting && s.ctl.queue == [] && s.ctl.advCb && IsNext(s.ctl, s.ctl.timers.stop)
    ensures var stopped := Step(cfg, s, FireTimer(StopTimer, ok));
            stopped.ctl.queue != [] &&
            Step(cfg, stopped, Dispatch(hw, arrivals)).ctl.state == if ok then Cooldown else Fault
  {
    StopPosts(cfg, s, ok);
    FromTransmitting(cfg, Step(cfg, s, FireTimer(StopTimer, ok)), hw, arrivals);
  }
}
