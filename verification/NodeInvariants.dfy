/** What every step of the node keeps. */
module NodeInvariants {
  import opened Base
  import opened Events
  import opened NodeModel

  // What a queue holds

  /** The events that the arguments below are about: the control tokens, the outcome of a
      transmission, the end of a cooldown and the transmit timeout. */
  datatype Class =
    | InitToken | BaselineToken | SignedToken | UnsignedToken | RecoveryToken
    | Outcome | CoolEnd | TxLate | Plain

  function ClassOf(k: Kind): Class {
    match k
    case InitComplete => InitToken
    case BaselineReady => BaselineToken
    case SigningComplete => SignedToken
    case SensorFault => UnsignedToken
    case RecoverySuccess => RecoveryToken
    case TxComplete => Outcome
    case BleFault => Outcome
    case CooldownExpired => CoolEnd
    case TxTimeout => TxLate
    case _ => Plain
  }

  /** How many events of each class a queue holds; whether a cooldown expiry or transmit
      timeout stands behind a signing result; whether an outcome stands behind a timeout. */
  datatype Tally = Tally(
    init: nat, baseline: nat, signed: nat, unsigned: nat, recovery: nat,
    outcome: nat, cool: nat, late: nat,
    staleBehindSigned: bool, outcomeBehindLate: bool)

  const EMPTY := Tally(0, 0, 0, 0, 0, 0, 0, 0, false, false)

  function Add(l: Tally, c: Class): Tally {
    Tally(if c.InitToken? then l.init + 1 else l.init,
          if c.BaselineToken? then l.baseline + 1 else l.baseline,
          if c.SignedToken? then l.signed + 1 else l.signed,
          if c.UnsignedToken? then l.unsigned + 1 else l.unsigned,
          if c.RecoveryToken? then l.recovery + 1 else l.recovery,
          if c.Outcome? then l.outcome + 1 else l.outcome,
          if c.CoolEnd? then l.cool + 1 else l.cool,
          if c.TxLate? then l.late + 1 else l.late,
          l.staleBehindSigned || ((c.CoolEnd? || c.TxLate?) && l.signed > 0),
          l.outcomeBehindLate || (c.Outcome? && l.late > 0))
  }

  function TallyOf(q: seq<Event>): Tally {
    if q == [] then EMPTY else Add(TallyOf(q[..|q| - 1]), ClassOf(q[|q| - 1].kind))
  }

  lemma TallyAppend(q: seq<Event>, e: Event)
    ensures TallyOf(q + [e]) == Add(TallyOf(q), ClassOf(e.kind))
  {
    assert (q + [e])[..|q|] == q;
  }

  /** `m` is what is left of `l` when an event of class `c` is taken from the front. */
  ghost predicate Taken(l: Tally, m: Tally, c: Class) {
    && l.init == m.init + (if c.InitToken? then 1 else 0)
    && l.baseline == m.baseline + (if c.BaselineToken? then 1 else 0)
    && l.signed == m.signed + (if c.SignedToken? then 1 else 0)
    && l.unsigned == m.unsigned + (if c.UnsignedToken? then 1 else 0)
    && l.recovery == m.recovery + (if c.RecoveryToken? then 1 else 0)
    && l.outcome == m.outcome + (if c.Outcome? then 1 else 0)
    && l.cool == m.cool + (if c.CoolEnd? then 1 else 0)
    && l.late == m.late + (if c.TxLate? then 1 else 0)
    && (!l.staleBehindSigned ==> !m.staleBehindSigned && (c.SignedToken? ==> m.cool == 0 && m.late == 0))
    && (!l.outcomeBehindLate ==> !m.outcomeBehindLate && (c.TxLate? ==> m.outcome == 0))
  }

  lemma AddKeepsTaken(l: Tally, m: Tally, c: Class, d: Class)
    requires Taken(l, m, c)
    ensures Taken(Add(l, d), Add(m, d), c)
  {
  }

  lemma {:induction false} TallyPop(q: seq<Event>)
    requires q != []
    ensures Taken(TallyOf(q), TallyOf(q[1..]), ClassOf(q[0].kind))
  {
    var r := q[..|q| - 1];
    if r == [] {
      assert q == [q[0]] && q[1..] == [];
      assert TallyOf(q) == Add(TallyOf([]), ClassOf(q[0].kind)) && TallyOf([]) == EMPTY;
    } else {
      TallyPop(r);
      assert q[1..] == r[1..] + [q[|q| - 1]];
      TallyAppend(r[1..], q[|q| - 1]);
      AddKeepsTaken(TallyOf(r), TallyOf(r[1..]), ClassOf(q[0].kind), ClassOf(q[|q| - 1].kind));
    }
  }

  lemma {:induction false} TallyFlags(q: seq<Event>)
    ensures var l := TallyOf(q);
            (l.signed == 0 ==> !l.staleBehindSigned) && (l.late == 0 || l.outcome == 0 ==> !l.outcomeBehindLate)
  {
    if q != [] { TallyFlags(q[..|q| - 1]); }
  }

  // The core invariant, on control state and tally; `sure` says that no post was dropped

  predicate Held(here: bool, n: nat, sure: bool) {
    if here then n <= 1 && (sure ==> n == 1) else n == 0
  }

  /** The control token of the current state is in the queue once, unless its post was
      dropped; no other control token is there. */
  predicate TokenInv(c: Control, l: Tally, sure: bool) {
    && Held(c.state == Boot, l.init, sure)
    && Held(c.state == Calibrating, l.baseline, sure)
    && Held(c.state == Signing, l.signed + l.unsigned, sure)
    && Held(c.state == Fault, l.recovery, sure)
  }

  /** Timers that belong to a state are pending only there. */
  predicate TimerInv(c: Control) {
    && c.state != EventDetected
    && c.enteredAt <= c.now
    && (c.timers.cooldown.Some? ==> c.state == Cooldown)
    && (c.timers.txTimeout.Some? ==> c.state == Transmitting)
    && (c.timers.dwell.Some? ==> c.state == Armed)
    && (c.timers.stop.Some? ==> c.state == Transmitting)
    && (c.advCb <==> c.timers.stop.Some?)
  }

  /** In COOLDOWN the timer of this very entry is pending, or it has run out and its one
      event is in the queue (or was dropped). */
  predicate CoolInv(c: Control, l: Tally, len: nat, sure: bool) {
    c.state == Cooldown ==>
      && l.cool <= 1
      && (c.timers.cooldown.Some? ==> c.timers.cooldown.value == c.enteredAt + len && l.cool == 0)
      && (l.cool == 1 ==> c.enteredAt + len <= c.now)
      && (sure ==> c.timers.cooldown.Some? || l.cool == 1)
  }

  /** A transmission has one outcome, still to come or queued, and it is ahead of the
      timeout; outside TRANSMITTING there is none. */
  predicate TxInv(c: Control, l: Tally, sure: bool) {
    if c.state != Transmitting then l.outcome == 0
    else
      && l.cool == 0 && l.outcome <= 1 && !l.outcomeBehindLate
      && (c.timers.stop.Some? ==>
            c.timers.stop.value == c.enteredAt + ADV_DURATION_MS && c.timers.txTimeout.Some? && l.late == 0 && l.outcome == 0)
      && (c.timers.txTimeout.Some? ==> c.timers.txTimeout.value == c.enteredAt + TX_TIMEOUT_MS)
      && (sure && c.timers.stop.None? ==> l.outcome == 1)
  }

  predicate Shape(c: Control, l: Tally, len: nat, sure: bool) {
    && TimerInv(c) && TokenInv(c, l, sure) && CoolInv(c, l, len, sure) && TxInv(c, l, sure)
    && (c.state == Signing ==> !l.staleBehindSigned)
    && c.faultRetries == (if c.state == Fault then 1 else 0)
  }

  predicate Core(c: Control, len: nat) {
    |c.queue| <= QUEUE_DEPTH && Shape(c, TallyOf(c.queue), len, c.drops == 0)
  }

  /** The core invariant holds after the effect, whether its post is taken or refused. */
  predicate Lands(e: Effect, l: Tally, len: nat, sure: bool) {
    match e.post
    case None => Shape(e.ctl, l, len, sure)
    case Some(k) => Shape(e.ctl, Add(l, ClassOf(k)), len, sure) && Shape(e.ctl, l, len, false)
  }

  /** `d` is `c` with other events in the queue and perhaps more posts dropped. */
  predicate Grown(c: Control, d: Control) {
    && d.state == c.state && d.now == c.now && d.enteredAt == c.enteredAt
    && d.timers == c.timers && d.alarm == c.alarm && d.advCb == c.advCb && d.faultRetries == c.faultRetries
    && |d.queue| <= QUEUE_DEPTH && d.drops >= c.drops
  }

  lemma ShapeIsStable(c: Control, d: Control, l: Tally, len: nat, sure: bool)
    requires Shape(c, l, len, sure) && Grown(c, d)
    ensures Shape(d, l, len, sure) && Shape(d, l, len, false)
  {
  }

  lemma TakenPostKeepsCore(c: Control, e: Event, len: nat)
    requires |c.queue| < QUEUE_DEPTH && Shape(c, Add(TallyOf(c.queue), ClassOf(e.kind)), len, c.drops == 0)
    ensures Core(Post(c, e), len)
  {
    TallyAppend(c.queue, e);
    ShapeIsStable(c, Post(c, e), Add(TallyOf(c.queue), ClassOf(e.kind)), len, c.drops == 0);
  }

  lemma RefusedPostKeepsCore(c: Control, e: Event, len: nat)
    requires |c.queue| == QUEUE_DEPTH && Shape(c, TallyOf(c.queue), len, false)
    ensures Core(Post(c, e), len)
  {
    ShapeIsStable(c, Post(c, e), TallyOf(c.queue), len, false);
  }

  lemma SettlingKeepsCore(e: Effect, len: nat)
    requires |e.ctl.queue| <= QUEUE_DEPTH && Lands(e, TallyOf(e.ctl.queue), len, e.ctl.drops == 0)
    ensures Core(Settle(e), len)
  {
    match e.post
    case None =>
    case Some(k) =>
      var event := Internal(k, e.ctl.now);
      if |e.ctl.queue| < QUEUE_DEPTH { TakenPostKeepsCore(e.ctl, event, len); } else { RefusedPostKeepsCore(e.ctl, event, len); }
  }

  // Steps that change the state

  /** What holds when the event that ends a state has been taken from the queue */
  predicate Quiet(c: Control, l: Tally) {
    && TimerInv(c)
    && c.timers.stop.None?
    && l.init == l.baseline == l.signed == l.unsigned == l.recovery == l.outcome == 0
    && !l.staleBehindSigned && !l.outcomeBehindLate
  }

  predicate Ready(c: Control, l: Tally) { Quiet(c, l) && c.faultRetries == 0 }

  lemma RestLands(c: Control, l: Tally, len: nat, fallback: Option<nat>, sure: bool)
    requires Ready(c, l)
    ensures Shape(Go(c, LightSleep), l, len, sure) && Shape(Go(c, LowBattery), l, len, sure)
    ensures Shape(ToDeepSleep(c, fallback), l, len, sure) && Shape(ToArmed(c), l, len, sure)
    ensures l.cool == 0 ==> Shape(ToCooldown(c, len), l, len, sure)
  {
  }

  lemma CalibratingLands(c: Control, l: Tally, len: nat, sure: bool)
    requires Ready(c, l)
    ensures Lands(ToCalibrating(c), l, len, sure)
  {
  }

  lemma FaultLands(c: Control, l: Tally, len: nat, sure: bool)
    requires Ready(c, l)
    ensures Lands(ToFault(c), l, len, sure)
  {
  }

  lemma TokenOfSigningLands(g: Control, l: Tally, k: Kind, len: nat, sure: bool)
    requires Ready(g, l) && g.state == Signing && (k == SigningComplete || k == SensorFault)
    ensures Lands(Effect(g, Some(k)), l, len, sure)
  {
  }

  lemma SigningLands(c: Control, l: Tally, len: nat, r: Results, sure: bool)
    requires Ready(c, l)
    ensures Lands(ToSigning(c, r), l, len, sure)
  {
    if !r.signStarted {
      FaultLands(Go(c, Signing), l, len, sure);
    } else {
      TokenOfSigningLands(Go(c, Signing), l, SigningComplete, len, sure);
      TokenOfSigningLands(Go(c, Signing), l, SensorFault, len, sure);
    }
  }

  lemma AdvertisingLands(c: Control, l: Tally, len: nat, sure: bool)
    requires Ready(c, l) && l.cool == 0 && l.late == 0
    ensures Lands(ToTransmitting(c, Started), l, len, sure)
  {
  }

  lemma TransmittingLands(c: Control, l: Tally, len: nat, adv: AdvResult, sure: bool)
    requires Ready(c, l) && l.cool == 0 && l.late == 0
    ensures Lands(ToTransmitting(c, adv), l, len, sure)
  {
    match adv
    case NotLoaded => FaultLands(Expecting(c), l, len, sure);
    case NotStarted => FaultLands(Unhooked(Expecting(c)), l, len, sure);
    case Started => AdvertisingLands(c, l, len, sure);
  }

  /** `m` is what a dispatch finds in the queue once the event of kind `k` is taken. */
  lemma LeavingIsQuiet(c: Control, l: Tally, m: Tally, k: Kind, len: nat, sure: bool)
    requires Shape(c, l, len, sure) && MoveOf(c.state, k) != Ignore && Taken(l, m, ClassOf(k))
    requires (m.signed == 0 ==> !m.staleBehindSigned) && (m.outcome == 0 ==> !m.outcomeBehindLate)
    ensures Quiet(c, m)
  {
    match c.state
    case Boot => case Calibrating => case Armed => case LightSleep => case DeepSleep =>
    case EventDetected => case Signing => case Transmitting => case Cooldown => case Fault => case LowBattery =>
  }

  /** What else the move needs of the queue it finds */
  predicate Clear(c: Control, m: Tally, move: Move) {
    && (c.faultRetries != 0 ==> c.state == Fault && move == Calibrate)
    && (move == Cool || move == Transmit ==> m.cool == 0)
    && (move == Transmit ==> m.late == 0)
  }

  lemma LeavingIsClear(c: Control, l: Tally, m: Tally, k: Kind, len: nat, sure: bool)
    requires Shape(c, l, len, sure) && MoveOf(c.state, k) != Ignore && Taken(l, m, ClassOf(k))
    ensures Clear(c, m, MoveOf(c.state, k))
  {
    match c.state
    case Boot => case Calibrating => case Armed => case LightSleep => case DeepSleep =>
    case EventDetected => case Signing => case Transmitting => case Cooldown => case Fault => case LowBattery =>
  }

  lemma IgnoringKeepsShape(c: Control, l: Tally, m: Tally, k: Kind, len: nat, sure: bool)
    requires Shape(c, l, len, sure) && MoveOf(c.state, k) == Ignore && Taken(l, m, ClassOf(k))
    ensures Shape(c, m, len, sure)
  {
    match c.state
    case Boot => case Calibrating => case Armed => case LightSleep => case DeepSleep =>
    case EventDetected => case Signing => case Transmitting => case Cooldown => case Fault => case LowBattery =>
  }

  lemma LeavingLands(c: Control, m: Tally, move: Move, len: nat, r: Results, sure: bool)
    requires move != Ignore && Quiet(c, m) && Clear(c, m, move)
    ensures Lands(Make(c, move, len, r), m, len, sure)
  {
    match move
    case Calibrate => CalibratingLands(Forgiven(c, Fault), m, len, sure);
    case Detect => SigningLands(Kept(c), m, len, r, sure);
    case Transmit => TransmittingLands(c, m, len, r.adv, sure);
    case Fail => FaultLands(Forgiven(c, Transmitting), m, len, sure);
    case _ => RestLands(c, m, len, r.fallback, sure);
  }

  // Whole steps

  lemma AddPlain(l: Tally, k: Kind)
    requires ClassOf(k) == Plain
    ensures Add(l, ClassOf(k)) == l
  {
  }

  lemma TallyPlain(q: seq<Event>, e: Event)
    requires ClassOf(e.kind) == Plain
    ensures TallyOf(q + [e]) == TallyOf(q)
  {
    TallyAppend(q, e);
    AddPlain(TallyOf(q), e.kind);
  }

  lemma OutsiderIsPlain(c: Control, e: Event)
    requires |c.queue| <= QUEUE_DEPTH
    ensures Grown(c, Outsider(c, e)) && TallyOf(Outsider(c, e).queue) == TallyOf(c.queue)
  {
    if FromEnvironment(e.kind) {
      TallyPlain(c.queue, e);
    }
  }

  lemma {:induction false} ArrivalsArePlain(c: Control, es: seq<Event>)
    requires |c.queue| <= QUEUE_DEPTH
    ensures Grown(c, PostAll(c, es)) && TallyOf(PostAll(c, es).queue) == TallyOf(c.queue)
  {
    if es != [] {
      ArrivalsArePlain(c, es[..|es| - 1]);
      OutsiderIsPlain(PostAll(c, es[..|es| - 1]), es[|es| - 1]);
    }
  }

  lemma DispatchLands(c: Control, t: Control, l: Tally, m: Tally, k: Kind, len: nat, r: Results, sure: bool)
    requires Shape(c, l, len, sure) && Taken(l, m, ClassOf(k)) && Grown(c, t)
    requires (m.signed == 0 ==> !m.staleBehindSigned) && (m.outcome == 0 ==> !m.outcomeBehindLate)
    ensures Lands(Make(t, MoveOf(c.state, k), len, r), m, len, sure)
  {
    ShapeIsStable(c, t, l, len, sure);
    if MoveOf(c.state, k) == Ignore {
      IgnoringKeepsShape(t, l, m, k, len, sure);
    } else {
      LeavingIsQuiet(t, l, m, k, len, sure);
      LeavingIsClear(t, l, m, k, len, sure);
      LeavingLands(t, m, MoveOf(c.state, k), len, r, sure);
    }
  }

  lemma MakeKeepsQueue(c: Control, move: Move, len: nat, r: Results)
    ensures var d := Make(c, move, len, r).ctl; d.queue == c.queue && d.drops == c.drops
  {
  }

  lemma DispatchKeepsCore(c: Control, arrivals: seq<Event>, len: nat, r: Results)
    requires Core(c, len) && c.queue != []
    ensures Core(Settle(Make(Take(c, arrivals), MoveOf(c.state, c.queue[0].kind), len, r)), len)
  {
    var k, rest, t := c.queue[0].kind, c.queue[1..], Take(c, arrivals);
    TallyPop(c.queue);
    TallyFlags(rest);
    ArrivalsArePlain(c.(queue := rest), arrivals);
    ShapeIsStable(c, c, TallyOf(c.queue), len, c.drops == 0);
    DispatchLands(c, t, TallyOf(c.queue), TallyOf(rest), k, len, r, t.drops == 0);
    MakeKeepsQueue(t, MoveOf(c.state, k), len, r);
    SettlingKeepsCore(Make(t, MoveOf(c.state, k), len, r), len);
  }

  lemma CooldownExpiryLands(c: Control, l: Tally, len: nat, sure: bool)
    requires Shape(c, l, len, sure) && MayFire(c, CooldownTimer)
    ensures Lands(Fire(c, CooldownTimer, true), l, len, sure)
  {
  }

  /** The stop timer is due 4500 ms before the timeout, so it is no longer pending. */
  lemma StopFiresFirst(c: Control, l: Tally, len: nat, sure: bool)
    requires Shape(c, l, len, sure) && MayFire(c, TxTimer)
    ensures c.timers.stop.None?
  {
    assert NotBefore(c.timers, TxTimer, StopTimer);
  }

  lemma TxExpiryLands(c: Control, l: Tally, len: nat, sure: bool)
    requires Shape(c, l, len, sure) && MayFire(c, TxTimer)
    ensures Lands(Fire(c, TxTimer, true), l, len, sure)
  {
    StopFiresFirst(c, l, len, sure);
  }

  lemma StopLands(c: Control, ok: bool, l: Tally, len: nat, sure: bool)
    requires Shape(c, l, len, sure) && c.timers.stop.Some?
    ensures Lands(Fire(c, StopTimer, ok), l, len, sure)
  {
  }

  /** The remaining timers and the alarm post events that no count is kept of. */
  lemma PlainLands(c: Control, d: Control, k: Kind, l: Tally, len: nat, sure: bool)
    requires Shape(c, l, len, sure) && ClassOf(k) == Plain
    requires d.state == c.state && d.now == c.now && d.enteredAt == c.enteredAt
    requires d.advCb == c.advCb && d.faultRetries == c.faultRetries
    requires d.timers.cooldown == c.timers.cooldown && d.timers.txTimeout == c.timers.txTimeout
    requires d.timers.stop == c.timers.stop && (d.timers.dwell.Some? ==> c.timers.dwell.Some?)
    ensures Lands(Effect(d, Some(k)), l, len, sure)
  {
    AddPlain(l, k);
  }

  lemma FireLands(c: Control, t: Timer, ok: bool, l: Tally, len: nat, sure: bool)
    requires Shape(c, l, len, sure) && MayFire(c, t)
    ensures Lands(Fire(c, t, ok), l, len, sure)
  {
    match t
    case CooldownTimer => CooldownExpiryLands(c, l, len, sure);
    case TxTimer => TxExpiryLands(c, l, len, sure);
    case StopTimer => StopLands(c, ok, l, len, sure);
    case DwellTimer => PlainLands(c, Fire(c, t, ok).ctl, ArmedTimeout, l, len, sure);
    case InactivityTimer => PlainLands(c, Fire(c, t, ok).ctl, InactivityTimeout, l, len, sure);
    case FallbackTimer => PlainLands(c, Fire(c, t, ok).ctl, RtcWakeup, l, len, sure);
  }

  lemma TimersKeepCore(c: Control, t: Timer, ok: bool, len: nat)
    requires Core(c, len) && MayFire(c, t)
    ensures Core(Settle(Fire(c, t, ok)), len)
  {
    FireLands(c, t, ok, TallyOf(c.queue), len, c.drops == 0);
    SettlingKeepsCore(Fire(c, t, ok), len);
  }

  lemma AlarmKeepsCore(c: Control, len: nat)
    requires Core(c, len)
    ensures Core(Settle(Alarm(c)), len)
  {
    PlainLands(c, c.(alarm := false), RtcWakeup, TallyOf(c.queue), len, c.drops == 0);
    SettlingKeepsCore(Alarm(c), len);
  }

  lemma OutsideKeepsCore(c: Control, e: Event, len: nat)
    requires Core(c, len)
    ensures Core(Outsider(c, e), len)
  {
    OutsiderIsPlain(c, e);
    ShapeIsStable(c, Outsider(c, e), TallyOf(c.queue), len, c.drops == 0);
  }

  lemma StepKeepsCore(cfg: Config, s: Node, op: Op)
    requires Core(s.ctl, cfg.CooldownLen())
    ensures Core(Step(cfg, s, op).ctl, cfg.CooldownLen())
  {
    var c, len := s.ctl, cfg.CooldownLen();
    match op
    case Dispatch(hw, arrivals) =>
      if c.queue != [] {
        ArrivalsArePlain(c.(queue := c.queue[1..]), arrivals);
        DispatchKeepsCore(c, arrivals, len, ResultsOf(cfg, s.pipe, c.queue[0], hw));
      }
    case FireTimer(t, ok) => if MayFire(c, t) { TimersKeepCore(c, t, ok, len); }
    case FireAlarm => AlarmKeepsCore(c, len);
    case Outside(e) => OutsideKeepsCore(c, e, len);
    case Advance(ms) =>
  }
}
