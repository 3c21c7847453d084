/** The node's state machine as one flat step function on values. Class `Fsm` in
    NodeFsm.dfy, with its nested transitions, is proved to compute exactly these steps;
    what the firmware promises is proved about them in NodeInvariants.dfy and
    NodeTheorems.dfy. */
module NodeModel {
  import opened Base
  import opened Wire
  import opened Events
  import opened NodeCrypto

  const QUEUE_DEPTH := 16
  const ARMED_DWELL_MS := 10000
  const SLEEP_INACTIVITY_MS := 86400000
  const TX_TIMEOUT_MS := 5000
  const ADV_DURATION_MS := 500
  const MAX_FAULT_RETRIES := 3

  datatype State =
    | Boot | Calibrating | Armed | LightSleep | DeepSleep | EventDetected
    | Signing | Transmitting | Cooldown | Fault | LowBattery

  /** What one pipeline, from latched event to advertisement, has come to. */
  datatype Fate = InProgress | SignFailed | AdvFailed | Advertised(frame: seq<byte>, at: nat)

  datatype Pipeline = Pipeline(event: Event, ler: Ler, fate: Fate)

  /** Deadlines of the pending timers */
  datatype Timers = Timers(
    cooldown: Option<nat>, txTimeout: Option<nat>, dwell: Option<nat>,
    inactivity: Option<nat>, fallback: Option<nat>, stop: Option<nat>)

  /** The part of the node that decides what happens next. `alarm` says that the DS3231
      wakeup alarm is armed and `advCb` that a completion callback is stored. `drops`
      counts the posts a full queue refused; `enteredAt` is the time of the last transition. */
  datatype Control = Control(
    state: State, queue: seq<Event>, drops: nat,
    now: nat, enteredAt: nat,
    timers: Timers, alarm: bool, advCb: bool,
    faultRetries: nat)

  /** The data on its way from event to advertisement. `log` lists every pipeline since boot. */
  datatype Pipe = Pipe(
    lastEvent: Event, lastLer: Ler, lastLf: seq<byte>, lfBuf: seq<byte>,
    sequence: u32, log: seq<Pipeline>)

  datatype Node = Node(ctl: Control, pipe: Pipe)

  /** `deepSleepMs` is the configured wakeup interval. */
  datatype Config = Config(crypto: Crypto, key: seq<byte>, addr: seq<byte>, cooldownMs: nat, deepSleepMs: nat) {
    ghost predicate Valid() { crypto.Correct() && |addr| == 6 }

    function CooldownLen(): nat { if cooldownMs > 0 then cooldownMs else 5000 }
  }

  /** What the hardware answers to the calls of one dispatch. */
  datatype Hw = Hw(
    innerOk: bool, innerRnd: nat, innerLen: nat, lf: LfHw,
    bleReady: bool, setDataOk: bool, startOk: bool,
    alarmSet: bool)

  const NO_LER := Ler(Zeros(6), 0, 0, 0, 0, Zeros(4), Zeros(4))
  const NO_EVENT := Event(PollTick, 0, [0, 0, 0, 0, 0, 0, 0, 0])

  /** The node after `fsm_init`. When the clock reported a skew at boot, a tamper event
      with the given timestamp was posted before the state machine started. */
  function Init(skew: Option<u32>): Node {
    var q := match skew
      case Some(ms) => [Event(TamperDetected, ms, NO_EVENT.data)]
      case None => [];
    Node(Control(Boot, q + [Internal(InitComplete, 0)], 0, 0, 0,
                 Timers(None, None, None, None, None, None), false, false, 0),
         Pipe(NO_EVENT, NO_LER, Zeros(LF_LEN), Zeros(LF_LEN), 0, []))
  }

  // Control

  function Post(c: Control, e: Event): Control {
    if |c.queue| < QUEUE_DEPTH then c.(queue := c.queue + [e]) else c.(drops := c.drops + 1)
  }

  /** A step of the firmware: the control state it leaves and the event it then posts, if any */
  datatype Effect = Effect(ctl: Control, post: Option<Kind>)

  function Settle(e: Effect): Control {
    match e.post
    case None => e.ctl
    case Some(k) => Post(e.ctl, Internal(k, e.ctl.now))
  }

  /** Exit actions and the change of state */
  function Go(c: Control, next: State): Control {
    c.(state := next, enteredAt := c.now, timers :=
        match c.state
        case Armed => c.timers.(dwell := None)
        case Cooldown => c.timers.(cooldown := None)
        case Transmitting => c.timers.(txTimeout := None)
        case _ => c.timers)
  }

  function Restart(c: Control): Control {
    c.(timers := c.timers.(inactivity := Some(c.now + SLEEP_INACTIVITY_MS)))
  }

  function ToArmed(c: Control): Control {
    var g := Restart(Go(c, Armed));
    g.(timers := g.timers.(dwell := Some(c.now + ARMED_DWELL_MS)))
  }

  /** `fallback` is the length of the timer that stands in for an alarm that cannot be set. */
  function ToDeepSleep(c: Control, fallback: Option<nat>): Control {
    var g := Go(c, DeepSleep);
    match fallback
    case None => g.(alarm := true)
    case Some(ms) => g.(timers := g.timers.(fallback := Some(c.now + ms)))
  }

  function ToCalibrating(c: Control): Effect { Effect(Go(c, Calibrating), Some(BaselineReady)) }

  function ToFault(c: Control): Effect {
    var g := Go(c, Fault);
    if c.faultRetries >= MAX_FAULT_RETRIES then Effect(g, Some(Error))
    else Effect(g.(faultRetries := c.faultRetries + 1), Some(RecoverySuccess))
  }

  function ToCooldown(c: Control, len: nat): Control {
    var g := Go(c, Cooldown);
    g.(timers := g.timers.(cooldown := Some(c.now + len)))
  }

  function ToSigning(c: Control, r: Results): Effect {
    var g := Go(c, Signing);
    if !r.signStarted then ToFault(g)
    else Effect(g, Some(if r.frameBuilt then SigningComplete else SensorFault))
  }

  /** Entry of TRANSMITTING up to the call that starts the advertisement */
  function Expecting(c: Control): Control {
    var g := Go(c, Transmitting);
    g.(timers := g.timers.(txTimeout := Some(c.now + TX_TIMEOUT_MS)))
  }

  function Unhooked(c: Control): Control { c.(advCb := false) }

  function OnAir(c: Control): Control {
    c.(advCb := true, timers := c.timers.(stop := Some(c.now + ADV_DURATION_MS)))
  }

  function ToTransmitting(c: Control, adv: AdvResult): Effect {
    match adv
    case NotLoaded => ToFault(Expecting(c))
    case NotStarted => ToFault(Unhooked(Expecting(c)))
    case Started => Effect(OnAir(Expecting(c)), None)
  }

  datatype AdvResult = NotLoaded | NotStarted | Started

  /** What came of the hardware calls of a dispatch */
  datatype Results = Results(signStarted: bool, frameBuilt: bool, adv: AdvResult, fallback: Option<nat>)

  /** What the handler of a state does with an event */
  datatype Move = Ignore | Calibrate | Arm | Doze | Sleep | Detect | Transmit | Cool | Fail | Drain

  function MoveOf(st: State, k: Kind): Move {
    match st
    case Boot => if k == InitComplete then Calibrate else Ignore
    case Calibrating => if k == BaselineReady then Arm else Ignore
    case Armed =>
      if IsBreach(k) then Detect else if k == InactivityTimeout then Sleep
      else if k == ArmedTimeout then Doze else if IsBatteryDown(k) then Drain
      else if k == SensorFault then Fail else Ignore
    case LightSleep =>
      if IsBreach(k) then Detect else if k == InactivityTimeout then Sleep
      else if IsBatteryDown(k) then Drain else Ignore
    case DeepSleep =>
      if k == RtcWakeup then Arm else if IsBatteryDown(k) then Drain else Ignore
    case EventDetected => Ignore
    case Signing =>
      if k == SigningComplete then Transmit else if k == SensorFault then Fail else Ignore
    case Transmitting =>
      if k == TxComplete || k == TxTimeout then Cool else if k == BleFault then Fail else Ignore
    case Cooldown =>
      if k == CooldownExpired then Arm else if k == TamperDetected then Detect
      else if IsBatteryDown(k) then Drain else Ignore
    case Fault => if k == RecoverySuccess then Calibrate else Ignore
    case LowBattery =>
      if k == BatteryRestored then Arm else if IsBreach(k) then Detect else Ignore
  }

  /** `c` with the retry count cleared when it is in state `st` */
  function Forgiven(c: Control, st: State): Control { if c.state == st then c.(faultRetries := 0) else c }

  /** Only ARMED restarts the inactivity timer on a breach. */
  function Kept(c: Control): Control { if c.state == Armed then Restart(c) else c }

  /** `c` with `move` made, the event being no longer in the queue */
  function Make(c: Control, move: Move, len: nat, r: Results): Effect {
    match move
    case Ignore => Effect(c, None)
    case Calibrate => ToCalibrating(Forgiven(c, Fault))
    case Arm => Effect(ToArmed(c), None)
    case Doze => Effect(Go(c, LightSleep), None)
    case Sleep => Effect(ToDeepSleep(c, r.fallback), None)
    case Detect => ToSigning(Kept(c), r)
    case Transmit => ToTransmitting(c, r.adv)
    case Cool => Effect(ToCooldown(c, len), None)
    case Fail => ToFault(Forgiven(c, Transmitting))
    case Drain => Effect(Go(c, LowBattery), None)
  }

  // Data

  /** The latest pipeline comes to `fate`. */
  function Mark(p: Pipe, fate: Fate): Pipe {
    if p.log == [] then p
    else p.(log := p.log[|p.log| - 1 := p.log[|p.log| - 1].(fate := fate)])
  }

  /** Entry of SIGNING: the record is built from the latched event under the next sequence
      number, and a new pipeline begins. */
  function Begin(cfg: Config, p: Pipe, e: Event): Pipe {
    var n: u32 := (p.sequence + 1) % WORD;
    var ler := BuildLer(cfg.addr, n, e);
    p.(lastEvent := e, sequence := n, lastLer := ler, log := p.log + [Pipeline(e, ler, InProgress)])
  }

  /** The frame buffer and the return code after the callback of the inner signature */
  function Built(cfg: Config, p: Pipe, hw: Hw): (BuildRc, seq<byte>) {
    BuildLf(cfg.crypto, cfg.key, p.lastLer, cfg.crypto.sign(p.lastLer.ToBytes(), hw.innerRnd),
            hw.innerLen, hw.lf, p.lastLf)
  }

  predicate FrameBuilt(cfg: Config, p: Pipe, hw: Hw) { hw.innerOk && Built(cfg, p, hw).0 == Done }

  function Sign(cfg: Config, p: Pipe, e: Event, hw: Hw): Pipe {
    var b := Begin(cfg, p, e);
    if !hw.lf.signKeyReady || !hw.innerOk then Mark(b, SignFailed)
    else
      var (rc, lf) := Built(cfg, b, hw);
      if rc == Done then b.(lastLf := lf) else Mark(b.(lastLf := lf), SignFailed)
  }

  function Load(p: Pipe, hw: Hw, now: nat): Pipe {
    if !hw.bleReady then Mark(p, AdvFailed)
    else
      var loaded := p.(lfBuf := p.lastLf);
      Mark(loaded, if hw.setDataOk && hw.startOk then Advertised(loaded.lfBuf, now) else AdvFailed)
  }

  function AdvOf(hw: Hw): AdvResult {
    if !hw.bleReady || !hw.setDataOk then NotLoaded else if !hw.startOk then NotStarted else Started
  }

  function FallbackOf(cfg: Config, hw: Hw): Option<nat> { if hw.alarmSet then None else Some(cfg.deepSleepMs) }

  function ResultsOf(cfg: Config, p: Pipe, e: Event, hw: Hw): Results {
    Results(hw.lf.signKeyReady, FrameBuilt(cfg, Begin(cfg, p, e), hw),
            AdvOf(hw), FallbackOf(cfg, hw))
  }

  /** The data after `move` is made at time `now` */
  function Carry(cfg: Config, p: Pipe, move: Move, e: Event, hw: Hw, now: nat): Pipe {
    match move
    case Detect => Sign(cfg, p, e, hw)
    case Transmit => Load(p, hw, now)
    case _ => p
  }

  function OnEvent(cfg: Config, s: Node, e: Event, hw: Hw): Node {
    var move := MoveOf(s.ctl.state, e.kind);
    Node(Settle(Make(s.ctl, move, cfg.CooldownLen(), ResultsOf(cfg, s.pipe, e, hw))),
         Carry(cfg, s.pipe, move, e, hw, s.ctl.now))
  }

  // Timers

  datatype Timer = CooldownTimer | TxTimer | DwellTimer | InactivityTimer | FallbackTimer | StopTimer

  function Deadline(t: Timers, timer: Timer): Option<nat> {
    match timer
    case CooldownTimer => t.cooldown
    case TxTimer => t.txTimeout
    case DwellTimer => t.dwell
    case InactivityTimer => t.inactivity
    case FallbackTimer => t.fallback
    case StopTimer => t.stop
  }

  predicate NotBefore(t: Timers, timer: Timer, other: Timer) {
    Deadline(t, timer).Some? && Deadline(t, other).Some? ==> Deadline(t, timer).value <= Deadline(t, other).value
  }

  /** A due timer may fire; the work queue runs delayed work in the order of the deadlines. */
  predicate MayFire(c: Control, t: Timer) {
    && Deadline(c.timers, t).Some? && Deadline(c.timers, t).value <= c.now
    && NotBefore(c.timers, t, CooldownTimer) && NotBefore(c.timers, t, TxTimer)
    && NotBefore(c.timers, t, DwellTimer) && NotBefore(c.timers, t, InactivityTimer)
    && NotBefore(c.timers, t, FallbackTimer) && NotBefore(c.timers, t, StopTimer)
  }

  function Fire(c: Control, t: Timer, stopOk: bool): Effect {
    match t
    case CooldownTimer => Effect(c.(timers := c.timers.(cooldown := None)), Some(CooldownExpired))
    case TxTimer => Effect(c.(timers := c.timers.(txTimeout := None)), Some(TxTimeout))
    case DwellTimer => Effect(c.(timers := c.timers.(dwell := None)), Some(ArmedTimeout))
    case InactivityTimer => Effect(c.(timers := c.timers.(inactivity := None)), Some(InactivityTimeout))
    case FallbackTimer => Effect(c.(timers := c.timers.(fallback := None)), Some(RtcWakeup))
    case StopTimer =>
      var off := c.(timers := c.timers.(stop := None), advCb := false);
      Effect(off, if !c.advCb then None else if stopOk then Some(TxComplete) else Some(BleFault))
  }

  // Steps and runs

  datatype Op =
    | Dispatch(hw: Hw, arrivals: seq<Event>)
    | FireTimer(timer: Timer, stopOk: bool)
    | FireAlarm
    | Outside(event: Event)
    | Advance(ms: nat)

  function Outsider(c: Control, e: Event): Control { if FromEnvironment(e.kind) then Post(c, e) else c }

  function PostAll(c: Control, es: seq<Event>): Control {
    if es == [] then c else Outsider(PostAll(c, es[..|es| - 1]), es[|es| - 1])
  }

  /** The head is taken; `arrivals` are what other threads post before the handler acts. */
  function Take(c: Control, arrivals: seq<Event>): Control
    requires c.queue != []
  {
    PostAll(c.(queue := c.queue[1..]), arrivals)
  }

  function Handle(cfg: Config, s: Node, hw: Hw, arrivals: seq<Event>): Node
    requires s.ctl.queue != []
  {
    OnEvent(cfg, Node(Take(s.ctl, arrivals), s.pipe), s.ctl.queue[0], hw)
  }

  function Alarm(c: Control): Effect { Effect(c.(alarm := false), Some(RtcWakeup)) }

  function WithCtl(s: Node, c: Control): Node { Node(c, s.pipe) }

  /** A step that is not enabled changes nothing. */
  function Step(cfg: Config, s: Node, op: Op): Node {
    match op
    case Dispatch(hw, arrivals) => if s.ctl.queue == [] then s else Handle(cfg, s, hw, arrivals)
    case FireTimer(t, ok) => if MayFire(s.ctl, t) then WithCtl(s, Settle(Fire(s.ctl, t, ok))) else s
    case FireAlarm => if s.ctl.alarm then WithCtl(s, Settle(Alarm(s.ctl))) else s
    case Outside(e) => WithCtl(s, Outsider(s.ctl, e))
    case Advance(ms) => WithCtl(s, s.ctl.(now := s.ctl.now + ms))
  }

  function Run(cfg: Config, skew: Option<u32>, ops: seq<Op>): Node {
    if ops == [] then Init(skew)
    else Step(cfg, Run(cfg, skew, ops[..|ops| - 1]), ops[|ops| - 1])
  }

  /** A run with every node on its way: it starts after `fsm_init` and makes one step at a time. */
  ghost predicate IsTrace(cfg: Config, trace: seq<Node>, ops: seq<Op>) {
    && |trace| == |ops| + 1
    && (exists skew :: trace[0] == Init(skew))
    && forall i :: 0 <= i < |ops| ==> trace[i + 1] == Step(cfg, trace[i], ops[i])
  }

  ghost predicate Reachable(cfg: Config, s: Node) {
    exists trace, ops :: IsTrace(cfg, trace, ops) && s == trace[|ops|]
  }

  lemma InitIsReachable(cfg: Config, skew: Option<u32>)
    ensures Reachable(cfg, Init(skew))
  {
    var ops: seq<Op> := [];
    assert IsTrace(cfg, [Init(skew)], ops) && [Init(skew)][|ops|] == Init(skew);
  }

  lemma StepIsReachable(cfg: Config, s: Node, op: Op)
    requires Reachable(cfg, s)
    ensures Reachable(cfg, Step(cfg, s, op))
  {
    var trace, ops :| IsTrace(cfg, trace, ops) && s == trace[|ops|];
    var longer := trace + [Step(cfg, s, op)];
    assert IsTrace(cfg, longer, ops + [op]) && longer[|ops + [op]|] == Step(cfg, s, op);
  }

  lemma {:induction false} RunIsReachable(cfg: Config, skew: Option<u32>, ops: seq<Op>)
    ensures Reachable(cfg, Run(cfg, skew, ops))
  {
    if ops == [] {
      InitIsReachable(cfg, skew);
    } else {
      RunIsReachable(cfg, skew, ops[..|ops| - 1]);
      StepIsReachable(cfg, Run(cfg, skew, ops[..|ops| - 1]), ops[|ops| - 1]);
    }
  }
}
