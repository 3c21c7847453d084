/** The firmware's state machine as it is written: one object whose handlers set fields,
    call `Transition` from inside entry actions and post back to the queue. `Value` reads
    the object as a node of NodeModel, and every method is proved to make exactly the
    step the model makes, so what holds of all runs of the model holds of this object. */
module NodeFsm {
  import opened Base
  import opened Wire
  import opened Events
  import opened NodeCrypto
  import opened NodeModel
  import opened NodePipeline

  /** The node after `transition(next)` */
  function Entered(cfg: Config, s: Node, next: State, hw: Hw): Node {
    match next
    case Boot => WithCtl(s, Settle(Effect(Go(s.ctl, Boot), Some(InitComplete))))
    case Calibrating => WithCtl(s, Settle(ToCalibrating(s.ctl)))
    case Armed => WithCtl(s, ToArmed(s.ctl))
    case DeepSleep => WithCtl(s, ToDeepSleep(s.ctl, FallbackOf(cfg, hw)))
    case Cooldown => WithCtl(s, ToCooldown(s.ctl, cfg.CooldownLen()))
    case Fault => WithCtl(s, Settle(ToFault(s.ctl)))
    case Transmitting => Node(Settle(ToTransmitting(s.ctl, AdvOf(hw))), Load(s.pipe, hw, s.ctl.now))
    case EventDetected => Signed(cfg, s, hw)
    case Signing => Signed(cfg, s, hw)
    case _ => WithCtl(s, Go(s.ctl, next))
  }

  function AfterCallback(cfg: Config, b: Pipe, hw: Hw): Pipe {
    if !hw.innerOk then Mark(b, SignFailed)
    else
      var (rc, lf) := Built(cfg, b, hw);
      if rc == Done then b.(lastLf := lf) else Mark(b.(lastLf := lf), SignFailed)
  }

  function Signed(cfg: Config, s: Node, hw: Hw): Node {
    Node(Settle(ToSigning(s.ctl, ResultsOf(cfg, s.pipe, s.pipe.lastEvent, hw))), Sign(cfg, s.pipe, s.pipe.lastEvent, hw))
  }

  // Entry actions alone, on the control state that the exit actions have left

  function ArmedEntry(g: Control): Control {
    var h := Restart(g);
    h.(timers := h.timers.(dwell := Some(g.now + ARMED_DWELL_MS)))
  }

  function DeepSleepEntry(g: Control, fallback: Option<nat>): Control {
    match fallback
    case None => g.(alarm := true)
    case Some(ms) => g.(timers := g.timers.(fallback := Some(g.now + ms)))
  }

  function CooldownEntry(g: Control, len: nat): Control {
    g.(timers := g.timers.(cooldown := Some(g.now + len)))
  }

  function FaultEntry(g: Control): Effect {
    if g.faultRetries >= MAX_FAULT_RETRIES then Effect(g, Some(Error))
    else Effect(g.(faultRetries := g.faultRetries + 1), Some(RecoverySuccess))
  }

  function SigningEntry(g: Control, r: Results): Effect {
    if !r.signStarted then ToFault(g)
    else Effect(g, Some(if r.frameBuilt then SigningComplete else SensorFault))
  }

  function TransmittingEntry(g: Control, adv: AdvResult): Effect {
    var h := g.(timers := g.timers.(txTimeout := Some(g.now + TX_TIMEOUT_MS)));
    match adv
    case NotLoaded => ToFault(h)
    case NotStarted => ToFault(Unhooked(h))
    case Started => Effect(OnAir(h), None)
  }

  lemma EntriesFollowExits(c: Control, fallback: Option<nat>, len: nat, r: Results, adv: AdvResult)
    ensures ToArmed(c) == ArmedEntry(Go(c, Armed))
    ensures ToDeepSleep(c, fallback) == DeepSleepEntry(Go(c, DeepSleep), fallback)
    ensures ToCooldown(c, len) == CooldownEntry(Go(c, Cooldown), len)
    ensures ToFault(c) == FaultEntry(Go(c, Fault))
    ensures ToSigning(c, r) == SigningEntry(Go(c, Signing), r)
    ensures ToTransmitting(c, adv) == TransmittingEntry(Go(c, Transmitting), adv)
  {
  }

  /** EVENT_DETECTED leaves no trace of its own. */
  lemma DetectedIsTransient(cfg: Config, s: Node, hw: Hw)
    ensures Signed(cfg, WithCtl(s, Go(s.ctl, EventDetected)), hw) == Signed(cfg, s, hw)
  {
    assert Go(Go(s.ctl, EventDetected), Signing) == Go(s.ctl, Signing);
  }

  // What each move of the model comes to in terms of transitions

  lemma RestMoves(cfg: Config, s: Node, e: Event, hw: Hw)
    ensures var d := OnEvent(cfg, s, e, hw);
            match MoveOf(s.ctl.state, e.kind)
            case Arm => d == Entered(cfg, s, Armed, hw)
            case Doze => d == Entered(cfg, s, LightSleep, hw)
            case Sleep => d == Entered(cfg, s, DeepSleep, hw)
            case Cool => d == Entered(cfg, s, Cooldown, hw)
            case Drain => d == Entered(cfg, s, LowBattery, hw)
            case _ => true
  {
  }

  lemma FaultMoves(cfg: Config, s: Node, e: Event, hw: Hw)
    ensures var d := OnEvent(cfg, s, e, hw);
            match MoveOf(s.ctl.state, e.kind)
            case Calibrate => d == Entered(cfg, WithCtl(s, Forgiven(s.ctl, Fault)), Calibrating, hw)
            case Fail => d == Entered(cfg, WithCtl(s, Forgiven(s.ctl, Transmitting)), Fault, hw)
            case _ => true
  {
  }

  lemma PlainMoves(cfg: Config, s: Node, e: Event, hw: Hw)
    ensures var d := OnEvent(cfg, s, e, hw);
            match MoveOf(s.ctl.state, e.kind)
            case Ignore => d == s
            case Calibrate => d == Entered(cfg, WithCtl(s, Forgiven(s.ctl, Fault)), Calibrating, hw)
            case Arm => d == Entered(cfg, s, Armed, hw)
            case Doze => d == Entered(cfg, s, LightSleep, hw)
            case Sleep => d == Entered(cfg, s, DeepSleep, hw)
            case Cool => d == Entered(cfg, s, Cooldown, hw)
            case Fail => d == Entered(cfg, WithCtl(s, Forgiven(s.ctl, Transmitting)), Fault, hw)
            case Drain => d == Entered(cfg, s, LowBattery, hw)
            case _ => true
  {
    RestMoves(cfg, s, e, hw);
    FaultMoves(cfg, s, e, hw);
  }

  lemma TransmitMove(cfg: Config, s: Node, e: Event, hw: Hw)
    requires MoveOf(s.ctl.state, e.kind) == Transmit
    ensures OnEvent(cfg, s, e, hw) == Entered(cfg, s, Transmitting, hw)
  {
  }

  lemma LatchedBefore(cfg: Config, p: Pipe, e: Event, hw: Hw)
    ensures Begin(cfg, p.(lastEvent := e), e) == Begin(cfg, p, e)
    ensures Sign(cfg, p.(lastEvent := e), e, hw) == Sign(cfg, p, e, hw)
    ensures ResultsOf(cfg, p.(lastEvent := e), e, hw) == ResultsOf(cfg, p, e, hw)
  {
    assert Begin(cfg, p.(lastEvent := e), e) == Begin(cfg, p, e);
  }

  lemma DetectMove(cfg: Config, s: Node, e: Event, hw: Hw)
    requires MoveOf(s.ctl.state, e.kind) == Detect
    ensures OnEvent(cfg, s, e, hw) == Signed(cfg, Node(Kept(s.ctl), s.pipe.(lastEvent := e)), hw)
  {
    LatchedBefore(cfg, s.pipe, e, hw);
  }

  /** Handlers that cancel their state's timer before the transition do what its exit action does. */
  lemma EarlyCancel(c: Control, next: State)
    ensures c.state == Cooldown ==> Go(c.(timers := c.timers.(cooldown := None)), next) == Go(c, next)
    ensures c.state == Transmitting ==> Go(c.(timers := c.timers.(txTimeout := None)), next) == Go(c, next)
  {
  }

  lemma CancelledDetect(cfg: Config, s: Node, hw: Hw)
    requires s.ctl.state == Cooldown
    ensures Kept(s.ctl) == s.ctl
    ensures Signed(cfg, WithCtl(s, s.ctl.(timers := s.ctl.timers.(cooldown := None))), hw) == Signed(cfg, s, hw)
  {
    EarlyCancel(s.ctl, Signing);
  }

  /** Entry actions can start further transitions; these lead to states of lower rank. */
  function Rank(next: State): nat {
    match next
    case EventDetected => 2
    case Signing => 1
    case Transmitting => 1
    case _ => 0
  }

  class Fsm {
    const cfg: Config
    const lastLf: array<byte>
    const lfBuf: array<byte>

    var state: State
    var queue: seq<Event>
    var now: nat
    var timers: Timers
    var alarm: bool
    var advCb: bool
    var faultRetries: nat
    var lastEvent: Event
    var lastLer: Ler
    var sequence: u32

    ghost var drops: nat
    ghost var enteredAt: nat
    ghost var log: seq<Pipeline>

    ghost predicate Valid() { lastLf != lfBuf && lastLf.Length == LF_LEN && lfBuf.Length == LF_LEN }

    ghost function Ctl(): Control
      reads this
    {
      Control(state, queue, drops, now, enteredAt, timers, alarm, advCb, faultRetries)
    }

    ghost function Data(): Pipe
      reads this, lastLf, lfBuf
    {
      Pipe(lastEvent, lastLer, lastLf[..], lfBuf[..], sequence, log)
    }

    ghost function Value(): Node
      reads this, lastLf, lfBuf
    {
      Node(Ctl(), Data())
    }

    /** `fsm_init`, after the boot code has posted a tamper event where the clock reported a skew */
    constructor (cfg: Config, skew: Option<u32>)
      ensures this.cfg == cfg && Valid() && fresh(lastLf) && fresh(lfBuf)
      ensures Value() == Init(skew)
    {
      this.cfg := cfg;
      lastLf := new byte[LF_LEN](_ => 0);
      lfBuf := new byte[LF_LEN](_ => 0);
      state, now, enteredAt := Boot, 0, 0;
      queue, drops := [], 0;
      timers := Timers(None, None, None, None, None, None);
      alarm, advCb, faultRetries := false, false, 0;
      lastEvent, lastLer, sequence, log := NO_EVENT, NO_LER, 0, [];
      new;
      assert lastLf[..] == Zeros(LF_LEN) && lfBuf[..] == Zeros(LF_LEN);
      match skew {
        case Some(ms) => PostEvent(Event(TamperDetected, ms, NO_EVENT.data));
        case None =>
      }
      PostEvent(Internal(InitComplete, now));
    }

    /** `lima_post_event`: a full queue refuses the event, and no caller looks at the result. */
    method PostEvent(e: Event)
      modifies this`queue, this`drops
      ensures Ctl() == Post(old(Ctl()), e)
      ensures Data() == old(Data())
    {
      if |queue| < QUEUE_DEPTH {
        queue := queue + [e];
      } else {
        drops := drops + 1;
      }
    }

    method PostInternal(k: Kind)
      modifies this`queue, this`drops
      ensures Ctl() == Settle(Effect(old(Ctl()), Some(k)))
      ensures Data() == old(Data())
    {
      PostEvent(Internal(k, now));
    }

    // The transition engine

    method ExitState(next: State)
      modifies this`timers, this`state, this`enteredAt
      ensures Ctl() == Go(old(Ctl()), next)
      ensures Data() == old(Data())
    {
      match state {
        case Armed => timers := timers.(dwell := None);
        case Cooldown => timers := timers.(cooldown := None);
        case Transmitting => timers := timers.(txTimeout := None);
        case _ =>
      }
      state := next;
      enteredAt := now;
    }

    method Transition(next: State, hw: Hw)
      requires Valid()
      modifies this, lastLf, lfBuf
      ensures Value() == Entered(cfg, old(Value()), next, hw)
      decreases Rank(next), 1
    {
      ghost var s := Value();
      EntriesFollowExits(s.ctl, FallbackOf(cfg, hw), cfg.CooldownLen(), ResultsOf(cfg, s.pipe, s.pipe.lastEvent, hw), AdvOf(hw));
      ExitState(next);
      match next {
        case Boot => PostInternal(InitComplete);
        case Calibrating => PostInternal(BaselineReady);
        case Armed => EnterArmed();
        case LightSleep =>
        case DeepSleep => EnterDeepSleep(hw.alarmSet);
        case EventDetected =>
          Transition(Signing, hw);
          DetectedIsTransient(cfg, s, hw);
        case Signing => EnterSigning(hw);
        case Transmitting => EnterTransmitting(hw);
        case Cooldown => EnterCooldown();
        case Fault => EnterFault();
        case LowBattery =>
      }
    }

    method EnterArmed()
      modifies this`timers
      ensures Ctl() == ArmedEntry(old(Ctl())) && Data() == old(Data())
    {
      timers := timers.(inactivity := Some(now + SLEEP_INACTIVITY_MS));
      timers := timers.(dwell := Some(now + ARMED_DWELL_MS));
    }

    /** `lima_rtc_arm_wakeup`: the DS3231 alarm, or a timer where the alarm cannot be set */
    method EnterDeepSleep(alarmSet: bool)
      modifies this`timers, this`alarm
      ensures Ctl() == DeepSleepEntry(old(Ctl()), if alarmSet then None else Some(cfg.deepSleepMs)) && Data() == old(Data())
    {
      if alarmSet {
        alarm := true;
      } else {
        timers := timers.(fallback := Some(now + cfg.deepSleepMs));
      }
    }

    method EnterCooldown()
      modifies this`timers
      ensures Ctl() == CooldownEntry(old(Ctl()), cfg.CooldownLen()) && Data() == old(Data())
    {
      var ms := if cfg.cooldownMs > 0 then cfg.cooldownMs else 5000;
      timers := timers.(cooldown := Some(now + ms));
    }

    method EnterFault()
      modifies this`queue, this`drops, this`faultRetries
      ensures Ctl() == Settle(FaultEntry(old(Ctl()))) && Data() == old(Data())
    {
      if faultRetries >= MAX_FAULT_RETRIES {
        PostInternal(Error);
        return;
      }
      faultRetries := faultRetries + 1;
      PostInternal(RecoverySuccess);
    }

    // Signing

    /** `lima_crypto_build_ler` */
    method BuildRecord()
      modifies this`sequence, this`lastLer, this`log
      ensures Data() == Begin(cfg, old(Data()), old(lastEvent)) && Ctl() == old(Ctl())
    {
      sequence := (sequence + 1) % WORD;
      lastLer := BuildLer(cfg.addr, sequence, lastEvent);
      log := log + [Pipeline(lastEvent, lastLer, InProgress)];
    }

    ghost method Note(fate: Fate)
      modifies this`log
      ensures Data() == Mark(old(Data()), fate) && Ctl() == old(Ctl())
    {
      if log != [] {
        log := log[|log| - 1 := log[|log| - 1].(fate := fate)];
      }
    }

    /** `signing_complete_cb`: called with the inner signature, it builds the frame and posts
        the result. */
    method SigningDone(ok: bool, sig: Sig, hw: Hw)
      requires Valid() && sig == cfg.crypto.sign(lastLer.ToBytes(), hw.innerRnd) && ok == hw.innerOk
      modifies this`queue, this`drops, this`log, lastLf
      ensures Ctl() == Settle(Effect(old(Ctl()), Some(if FrameBuilt(cfg, old(Data()), hw) then SigningComplete else SensorFault)))
      ensures Data() == AfterCallback(cfg, old(Data()), hw)
    {
      if !ok {
        PostInternal(SensorFault);
        Note(SignFailed);
        return;
      }
      var rc := BuildLfInPlace(cfg.crypto, cfg.key, lastLer, sig, hw.innerLen, hw.lf, lastLf);
      if rc != Done {
        PostInternal(SensorFault);
        Note(SignFailed);
        return;
      }
      PostInternal(SigningComplete);
    }

    method EnterSigning(hw: Hw)
      requires Valid()
      modifies this, lastLf, lfBuf
      ensures Ctl() == Settle(SigningEntry(old(Ctl()), ResultsOf(cfg, old(Data()), old(lastEvent), hw)))
      ensures Data() == Sign(cfg, old(Data()), old(lastEvent), hw)
      decreases Rank(Signing), 0
    {
      BuildRecord();
      if hw.lf.signKeyReady {
        SigningDone(hw.innerOk, cfg.crypto.sign(lastLer.ToBytes(), hw.innerRnd), hw);
      } else {
        Note(SignFailed);
        Transition(Fault, hw);
      }
    }

    // Transmission

    /** `lima_ble_advertise`; `false` stands for its error codes. */
    method Advertise(hw: Hw) returns (ok: bool)
      requires Valid()
      modifies this`advCb, this`timers, this`log, lfBuf
      ensures ok == (AdvOf(hw) == Started)
      ensures Ctl() == match AdvOf(hw) { case NotLoaded => old(Ctl()) case NotStarted => Unhooked(old(Ctl())) case Started => OnAir(old(Ctl())) }
      ensures Data() == Load(old(Data()), hw, now)
    {
      if !hw.bleReady {
        Note(AdvFailed);
        return false;
      }
      CopyInto(lfBuf, 0, lastLf[..]);
      assert lfBuf[..] == lfBuf[..LF_LEN] == lastLf[..];
      if !hw.setDataOk {
        Note(AdvFailed);
        return false;
      }
      advCb := true;
      if !hw.startOk {
        advCb := false;
        Note(AdvFailed);
        return false;
      }
      timers := timers.(stop := Some(now + ADV_DURATION_MS));
      Note(Advertised(lfBuf[..], now));
      return true;
    }

    method EnterTransmitting(hw: Hw)
      requires Valid()
      modifies this, lastLf, lfBuf
      ensures Ctl() == Settle(TransmittingEntry(old(Ctl()), AdvOf(hw)))
      ensures Data() == Load(old(Data()), hw, old(now))
      decreases Rank(Transmitting), 0
    {
      timers := timers.(txTimeout := Some(now + TX_TIMEOUT_MS));
      var ok := Advertise(hw);
      if !ok {
        Transition(Fault, hw);
      }
    }

    // Handlers

    /** The transitions that follow a latched event */
    method Detected(hw: Hw)
      requires Valid()
      modifies this, lastLf, lfBuf
      ensures Value() == Signed(cfg, old(Value()), hw)
    {
      Transition(EventDetected, hw);
    }

    method Detect(e: Event, hw: Hw)
      requires Valid() && state != Armed && MoveOf(state, e.kind) == Move.Detect
      modifies this, lastLf, lfBuf
      ensures Value() == OnEvent(cfg, old(Value()), e, hw)
    {
      DetectMove(cfg, Value(), e, hw);
      lastEvent := e;
      Detected(hw);
    }

    method ArmedDetect(e: Event, hw: Hw)
      requires Valid() && state == Armed && MoveOf(state, e.kind) == Move.Detect
      modifies this, lastLf, lfBuf
      ensures Value() == OnEvent(cfg, old(Value()), e, hw)
    {
      DetectMove(cfg, Value(), e, hw);
      RestartActivity();
      lastEvent := e;
      Detected(hw);
    }

    method RestartActivity()
      modifies this`timers
      ensures Ctl() == Restart(old(Ctl())) && Data() == old(Data())
    {
      timers := timers.(inactivity := Some(now + SLEEP_INACTIVITY_MS));
    }

    method ArmedHandle(e: Event, hw: Hw)
      requires Valid() && state == Armed
      modifies this, lastLf, lfBuf
      ensures Value() == OnEvent(cfg, old(Value()), e, hw)
    {
      PlainMoves(cfg, Value(), e, hw);
      match e.kind {
        case PressureBreach | MotionDetected | DualBreach | TamperDetected => ArmedDetect(e, hw);
        case InactivityTimeout => Transition(DeepSleep, hw);
        case ArmedTimeout => Transition(LightSleep, hw);
        case BatteryLow | BatteryCritical => Transition(LowBattery, hw);
        case SensorFault => Transition(Fault, hw);
        case _ =>
      }
    }

    method LightSleepHandle(e: Event, hw: Hw)
      requires Valid() && state == LightSleep
      modifies this, lastLf, lfBuf
      ensures Value() == OnEvent(cfg, old(Value()), e, hw)
    {
      PlainMoves(cfg, Value(), e, hw);
      match e.kind {
        case PressureBreach | MotionDetected | DualBreach | TamperDetected => Detect(e, hw);
        case InactivityTimeout => Transition(DeepSleep, hw);
        case BatteryLow | BatteryCritical => Transition(LowBattery, hw);
        case _ =>
      }
    }

    method DeepSleepHandle(e: Event, hw: Hw)
      requires Valid() && state == DeepSleep
      modifies this, lastLf, lfBuf
      ensures Value() == OnEvent(cfg, old(Value()), e, hw)
    {
      PlainMoves(cfg, Value(), e, hw);
      match e.kind {
        case RtcWakeup => Transition(Armed, hw);
        case BatteryLow | BatteryCritical => Transition(LowBattery, hw);
        case _ =>
      }
    }

    method SigningHandle(e: Event, hw: Hw)
      requires Valid() && state == Signing
      modifies this, lastLf, lfBuf
      ensures Value() == OnEvent(cfg, old(Value()), e, hw)
    {
      PlainMoves(cfg, Value(), e, hw);
      match e.kind {
        case SigningComplete =>
          TransmitMove(cfg, Value(), e, hw);
          Transition(Transmitting, hw);
        case SensorFault => Transition(Fault, hw);
        case _ =>
      }
    }

    method Confirmed(hw: Hw)
      requires Valid() && state == Transmitting
      modifies this, lastLf, lfBuf
      ensures Value() == Entered(cfg, old(Value()), Cooldown, hw)
    {
      EarlyCancel(Ctl(), Cooldown);
      timers := timers.(txTimeout := None);
      Transition(Cooldown, hw);
    }

    method TransmittingHandle(e: Event, hw: Hw)
      requires Valid() && state == Transmitting
      modifies this, lastLf, lfBuf
      ensures Value() == OnEvent(cfg, old(Value()), e, hw)
    {
      PlainMoves(cfg, Value(), e, hw);
      match e.kind {
        case TxComplete => Confirmed(hw);
        case TxTimeout => Transition(Cooldown, hw);
        case BleFault =>
          faultRetries := 0;
          Transition(Fault, hw);
        case _ =>
      }
    }

    /** Tamper aborts the cooldown. */
    method CooldownDetect(e: Event, hw: Hw)
      requires Valid() && state == Cooldown && e.kind == TamperDetected
      modifies this, lastLf, lfBuf
      ensures Value() == OnEvent(cfg, old(Value()), e, hw)
    {
      DetectMove(cfg, Value(), e, hw);
      CancelledDetect(cfg, Node(Ctl(), Data().(lastEvent := e)), hw);
      CancelCooldown();
      lastEvent := e;
      Detected(hw);
    }

    method CancelCooldown()
      modifies this`timers
      ensures Ctl() == old(Ctl()).(timers := old(timers).(cooldown := None)) && Data() == old(Data())
    {
      timers := timers.(cooldown := None);
    }

    method CooldownHandle(e: Event, hw: Hw)
      requires Valid() && state == Cooldown
      modifies this, lastLf, lfBuf
      ensures Value() == OnEvent(cfg, old(Value()), e, hw)
    {
      PlainMoves(cfg, Value(), e, hw);
      EarlyCancel(Ctl(), LowBattery);
      match e.kind {
        case CooldownExpired => Transition(Armed, hw);
        case TamperDetected => CooldownDetect(e, hw);
        case BatteryLow | BatteryCritical =>
          CancelCooldown();
          Transition(LowBattery, hw);
        case _ =>
      }
    }

    method FaultHandle(e: Event, hw: Hw)
      requires Valid() && state == Fault
      modifies this, lastLf, lfBuf
      ensures Value() == OnEvent(cfg, old(Value()), e, hw)
    {
      PlainMoves(cfg, Value(), e, hw);
      if e.kind == RecoverySuccess {
        faultRetries := 0;
        Transition(Calibrating, hw);
      }
    }

    method LowBatteryHandle(e: Event, hw: Hw)
      requires Valid() && state == LowBattery
      modifies this, lastLf, lfBuf
      ensures Value() == OnEvent(cfg, old(Value()), e, hw)
    {
      PlainMoves(cfg, Value(), e, hw);
      match e.kind {
        case BatteryRestored => Transition(Armed, hw);
        case PressureBreach | MotionDetected | DualBreach | TamperDetected => Detect(e, hw);
        case _ =>
      }
    }

    /** `fsm_dispatch` */
    method FsmDispatch(e: Event, hw: Hw)
      requires Valid()
      modifies this, lastLf, lfBuf
      ensures Value() == OnEvent(cfg, old(Value()), e, hw)
    {
      if state == Boot && e.kind == InitComplete {
        Transition(Calibrating, hw);
        return;
      }
      if state == Calibrating && e.kind == BaselineReady {
        Transition(Armed, hw);
        return;
      }
      match state {
        case Armed => ArmedHandle(e, hw);
        case LightSleep => LightSleepHandle(e, hw);
        case DeepSleep => DeepSleepHandle(e, hw);
        case Signing => SigningHandle(e, hw);
        case Transmitting => TransmittingHandle(e, hw);
        case Cooldown => CooldownHandle(e, hw);
        case Fault => FaultHandle(e, hw);
        case LowBattery => LowBatteryHandle(e, hw);
        case Boot | Calibrating | EventDetected =>
      }
    }

    // The loop of the state machine's thread, and what runs beside it

    method Outside(e: Event)
      modifies this`queue, this`drops
      ensures Ctl() == Outsider(old(Ctl()), e) && Data() == old(Data())
    {
      if FromEnvironment(e.kind) {
        PostEvent(e);
      }
    }

    /** One turn of the thread's loop. The arrivals are posted by other threads after the
        head is taken and before the handler posts. */
    method Dispatch(hw: Hw, arrivals: seq<Event>)
      requires Valid()
      modifies this, lastLf, lfBuf
      ensures Value() == Step(cfg, old(Value()), Op.Dispatch(hw, arrivals))
    {
      if |queue| == 0 {
        return;
      }
      var e := queue[0];
      queue := queue[1..];
      ghost var c, p := Ctl(), Data();
      for i := 0 to |arrivals|
        invariant Ctl() == PostAll(c, arrivals[..i]) && Data() == p
      {
        assert arrivals[..i + 1][..i] == arrivals[..i];
        Outside(arrivals[i]);
      }
      assert arrivals[..|arrivals|] == arrivals;
      FsmDispatch(e, hw);
    }

    /** `adv_stop_fn` */
    method StopAdvertising(stopOk: bool)
      modifies this`queue, this`drops, this`timers, this`advCb
      ensures Ctl() == Settle(Fire(old(Ctl()), StopTimer, stopOk)) && Data() == old(Data())
    {
      timers := timers.(stop := None);
      if advCb {
        PostInternal(if stopOk then TxComplete else BleFault);
        advCb := false;
      }
    }

    /** The work queue runs one due item. */
    method FireTimer(t: Timer, stopOk: bool)
      requires Valid()
      modifies this`queue, this`drops, this`timers, this`advCb
      ensures Value() == Step(cfg, old(Value()), Op.FireTimer(t, stopOk))
    {
      if Deadline(timers, t).None? || !Runs(t) {
        return;
      }
      match t {
        case CooldownTimer => timers := timers.(cooldown := None); PostInternal(CooldownExpired);
        case TxTimer => timers := timers.(txTimeout := None); PostInternal(TxTimeout);
        case DwellTimer => timers := timers.(dwell := None); PostInternal(ArmedTimeout);
        case InactivityTimer => timers := timers.(inactivity := None); PostInternal(InactivityTimeout);
        case FallbackTimer => timers := timers.(fallback := None); PostInternal(RtcWakeup);
        case StopTimer => StopAdvertising(stopOk);
      }
    }

    predicate Runs(t: Timer)
      reads this
    {
      && Deadline(timers, t).Some? && Deadline(timers, t).value <= now
      && forall u :: NotBefore(timers, t, u)
    }

    method FireAlarm()
      requires Valid()
      modifies this`queue, this`drops, this`alarm
      ensures Value() == Step(cfg, old(Value()), Op.FireAlarm)
    {
      if alarm {
        alarm := false;
        PostInternal(RtcWakeup);
      }
    }

    method Elapse(ms: nat)
      requires Valid()
      modifies this`now
      ensures Value() == Step(cfg, old(Value()), Advance(ms))
    {
      now := now + ms;
    }

    method Perform(op: Op)
      requires Valid()
      modifies this, lastLf, lfBuf
      ensures Value() == Step(cfg, old(Value()), op)
    {
      match op {
        case Dispatch(hw, arrivals) => Dispatch(hw, arrivals);
        case FireTimer(t, ok) => FireTimer(t, ok);
        case FireAlarm => FireAlarm();
        case Outside(e) => Outside(e);
        case Advance(ms) => Elapse(ms);
      }
    }
  }

  /** Whatever happens to the object, and in whatever order, it is always the node of the
      model's run, and the invariants of the model hold of it. */
  method Operate(cfg: Config, skew: Option<u32>, ops: seq<Op>) returns (m: Fsm)
    ensures fresh(m) && m.Valid() && m.Value() == Run(cfg, skew, ops)
    ensures Reachable(cfg, m.Value()) && (cfg.Valid() ==> NodeInv(cfg, m.Value()))
  {
    m := new Fsm(cfg, skew);
    for i := 0 to |ops|
      invariant fresh(m) && fresh(m.lastLf) && fresh(m.lfBuf) && m.Valid() && m.cfg == cfg
      invariant m.Value() == Run(cfg, skew, ops[..i])
    {
      assert ops[..i + 1][..i] == ops[..i];
      m.Perform(ops[i]);
    }
    assert ops[..|ops|] == ops;
    RunIsReachable(cfg, skew, ops);
    if cfg.Valid() { ReachableKeepsNode(cfg, m.Value()); }
  }
}
