/** A waiting or sleeping node always has its way back. */
module NodeWake {
  import opened Base
  import opened Events
  import opened NodeModel

  predicate Has(q: seq<Event>, k: Kind) { exists i :: 0 <= i < |q| && q[i].kind == k }

  /** In drop-free runs: a pending timer, an armed alarm, or the event of one that has run out */
  predicate Awake(c: Control) {
    c.drops == 0 ==>
      && (c.state == Armed ==> c.timers.dwell.Some? || Has(c.queue, ArmedTimeout))
      && (c.state == Armed || c.state == LightSleep ==> c.timers.inactivity.Some? || Has(c.queue, InactivityTimeout))
      && (c.state == DeepSleep ==> c.alarm || c.timers.fallback.Some? || Has(c.queue, RtcWakeup))
  }

  lemma PrefixHas(q: seq<Event>, r: seq<Event>, k: Kind)
    requires q <= r
    ensures Has(q, k) ==> Has(r, k)
  {
    if Has(q, k) {
      var i :| 0 <= i < |q| && q[i].kind == k;
      assert r[i].kind == k;
    }
  }

  lemma PopHas(q: seq<Event>, k: Kind)
    requires q != [] && q[0].kind != k
    ensures Has(q, k) ==> Has(q[1..], k)
  {
    if Has(q, k) {
      var i :| 0 <= i < |q| && q[i].kind == k;
      assert q[1..][i - 1].kind == k;
    }
  }

  predicate Longer(c: Control, d: Control) {
    && c.queue <= d.queue && d.drops >= c.drops
    && d.state == c.state && d.timers == c.timers && d.alarm == c.alarm
  }

  lemma LongerStaysAwake(c: Control, d: Control)
    requires Awake(c) && Longer(c, d)
    ensures Awake(d)
  {
    PrefixHas(c.queue, d.queue, ArmedTimeout);
    PrefixHas(c.queue, d.queue, InactivityTimeout);
    PrefixHas(c.queue, d.queue, RtcWakeup);
  }

  lemma {:induction false} ArrivalsAreLonger(c: Control, es: seq<Event>)
    ensures Longer(c, PostAll(c, es))
  {
    if es != [] { ArrivalsAreLonger(c, es[..|es| - 1]); }
  }

  lemma SettledIsLonger(e: Effect)
    ensures Longer(e.ctl, Settle(e))
    ensures e.post.Some? && Settle(e).drops == e.ctl.drops ==> Has(Settle(e).queue, e.post.value)
  {
    if e.post.Some? && |e.ctl.queue| < QUEUE_DEPTH {
      assert Settle(e).queue[|e.ctl.queue|].kind == e.post.value;
    }
  }

  /** `c` has its head taken; where that did not end the state, nothing that wakes was lost. */
  lemma TakenStaysAwake(c: Control, r: seq<Event>)
    requires Awake(c) && c.queue != [] && r == c.queue[1..]
    requires MoveOf(c.state, c.queue[0].kind) == Ignore
    ensures Awake(c.(queue := r))
  {
    forall k | c.queue[0].kind != k
      ensures Has(c.queue, k) ==> Has(r, k)
    {
      PopHas(c.queue, k);
    }
  }

  /** Taking ARMED_TIMEOUT keeps the inactivity timer or its event. */
  lemma DozingStaysAwake(c: Control, t: Control)
    requires Awake(c) && c.queue != [] && c.state == Armed && c.queue[0].kind == ArmedTimeout
    requires t.state == Armed && t.timers == c.timers && c.queue[1..] <= t.queue && t.drops >= c.drops
    ensures Awake(Go(t, LightSleep))
  {
    PopHas(c.queue, InactivityTimeout);
    PrefixHas(c.queue[1..], t.queue, InactivityTimeout);
  }

  lemma MakeStaysAwake(c: Control, move: Move, len: nat, r: Results)
    requires move != Ignore && move != Doze
    ensures Awake(Make(c, move, len, r).ctl)
  {
  }

  lemma DispatchStaysAwake(c: Control, arrivals: seq<Event>, len: nat, r: Results)
    requires Awake(c) && c.queue != []
    ensures Awake(Settle(Make(Take(c, arrivals), MoveOf(c.state, c.queue[0].kind), len, r)))
  {
    var t, move := Take(c, arrivals), MoveOf(c.state, c.queue[0].kind);
    ArrivalsAreLonger(c.(queue := c.queue[1..]), arrivals);
    match move {
      case Ignore =>
        TakenStaysAwake(c, c.queue[1..]);
        LongerStaysAwake(c.(queue := c.queue[1..]), t);
      case Doze => DozingStaysAwake(c, t);
      case _ => MakeStaysAwake(t, move, len, r);
    }
    SettledIsLonger(Make(t, move, len, r));
    LongerStaysAwake(Make(t, move, len, r).ctl, Settle(Make(t, move, len, r)));
  }

  lemma FireStaysAwake(c: Control, t: Timer, ok: bool)
    requires Awake(c)
    ensures Awake(Settle(Fire(c, t, ok)))
  {
    SettledIsLonger(Fire(c, t, ok));
    forall k ensures Has(c.queue, k) ==> Has(Settle(Fire(c, t, ok)).queue, k) {
      PrefixHas(c.queue, Settle(Fire(c, t, ok)).queue, k);
    }
  }

  lemma AlarmStaysAwake(c: Control)
    requires Awake(c)
    ensures Awake(Settle(Alarm(c)))
  {
    SettledIsLonger(Alarm(c));
    forall k ensures Has(c.queue, k) ==> Has(Settle(Alarm(c)).queue, k) {
      PrefixHas(c.queue, Settle(Alarm(c)).queue, k);
    }
  }

  lemma StepStaysAwake(cfg: Config, s: Node, op: Op)
    requires Awake(s.ctl)
    ensures Awake(Step(cfg, s, op).ctl)
  {
    var c, len := s.ctl, cfg.CooldownLen();
    match op
    case Dispatch(hw, arrivals) =>
      if c.queue != [] {
        ArrivalsAreLonger(c.(queue := c.queue[1..]), arrivals);
        DispatchStaysAwake(c, arrivals, len, ResultsOf(cfg, s.pipe, c.queue[0], hw));
      }
    case FireTimer(t, ok) => FireStaysAwake(c, t, ok);
    case FireAlarm => AlarmStaysAwake(c);
    case Outside(e) => LongerStaysAwake(c, Outsider(c, e));
    case Advance(ms) =>
  }

  lemma {:induction false} TraceStaysAwake(cfg: Config, trace: seq<Node>, ops: seq<Op>, i: nat)
    requires IsTrace(cfg, trace, ops) && i <= |ops|
    ensures Awake(trace[i].ctl)
  {
    if i > 0 {
      TraceStaysAwake(cfg, trace, ops, i - 1);
      StepStaysAwake(cfg, trace[i - 1], ops[i - 1]);
    }
  }

  lemma ReachableIsAwake(cfg: Config, s: Node)
    requires Reachable(cfg, s)
    ensures Awake(s.ctl)
  {
    var trace, ops :| IsTrace(cfg, trace, ops) && s == trace[|ops|];
    TraceStaysAwake(cfg, trace, ops, |ops|);
  }

  // How long a pending timer can take

  function Length(cfg: Config, t: Timer): nat {
    match t
    case CooldownTimer => cfg.CooldownLen()
    case TxTimer => TX_TIMEOUT_MS
    case DwellTimer => ARMED_DWELL_MS
    case InactivityTimer => SLEEP_INACTIVITY_MS
    case FallbackTimer => cfg.deepSleepMs
    case StopTimer => ADV_DURATION_MS
  }

  predicate Within(d: Option<nat>, limit: nat) { d.Some? ==> d.value <= limit }

  /** No pending timer has longer to run than it was started for. */
  predicate Timely(cfg: Config, c: Control) {
    && Within(c.timers.cooldown, c.now + cfg.CooldownLen()) && Within(c.timers.txTimeout, c.now + TX_TIMEOUT_MS)
    && Within(c.timers.dwell, c.now + ARMED_DWELL_MS) && Within(c.timers.inactivity, c.now + SLEEP_INACTIVITY_MS)
    && Within(c.timers.fallback, c.now + cfg.deepSleepMs) && Within(c.timers.stop, c.now + ADV_DURATION_MS)
  }

  lemma GoKeepsTimely(cfg: Config, c: Control, next: State)
    requires Timely(cfg, c)
    ensures Timely(cfg, Go(c, next)) && Go(c, next).now == c.now
  {
  }

  lemma ArmedKeepsTimely(cfg: Config, c: Control)
    requires Timely(cfg, c)
    ensures Timely(cfg, ToArmed(c))
  {
    GoKeepsTimely(cfg, c, Armed);
  }

  lemma DeepSleepKeepsTimely(cfg: Config, c: Control, fallback: Option<nat>)
    requires Timely(cfg, c) && (fallback == None || fallback == Some(cfg.deepSleepMs))
    ensures Timely(cfg, ToDeepSleep(c, fallback))
  {
    GoKeepsTimely(cfg, c, DeepSleep);
  }

  lemma CooldownKeepsTimely(cfg: Config, c: Control)
    requires Timely(cfg, c)
    ensures Timely(cfg, ToCooldown(c, cfg.CooldownLen()))
  {
    GoKeepsTimely(cfg, c, Cooldown);
  }

  lemma FaultKeepsTimely(cfg: Config, c: Control)
    requires Timely(cfg, c)
    ensures Timely(cfg, ToFault(c).ctl)
  {
    GoKeepsTimely(cfg, c, Fault);
  }

  lemma SigningKeepsTimely(cfg: Config, c: Control, r: Results)
    requires Timely(cfg, c)
    ensures Timely(cfg, ToSigning(c, r).ctl)
  {
    GoKeepsTimely(cfg, c, Signing);
    FaultKeepsTimely(cfg, Go(c, Signing));
  }

  lemma ExpectingKeepsTimely(cfg: Config, c: Control)
    requires Timely(cfg, c)
    ensures Timely(cfg, Expecting(c)) && Timely(cfg, Unhooked(Expecting(c))) && Timely(cfg, OnAir(Expecting(c)))
  {
    GoKeepsTimely(cfg, c, Transmitting);
  }

  lemma TransmittingKeepsTimely(cfg: Config, c: Control, adv: AdvResult)
    requires Timely(cfg, c)
    ensures Timely(cfg, ToTransmitting(c, adv).ctl)
  {
    ExpectingKeepsTimely(cfg, c);
    FaultKeepsTimely(cfg, Expecting(c));
    FaultKeepsTimely(cfg, Unhooked(Expecting(c)));
  }

  lemma MakeKeepsTimely(cfg: Config, c: Control, move: Move, r: Results)
    requires Timely(cfg, c) && (r.fallback == None || r.fallback == Some(cfg.deepSleepMs))
    ensures Timely(cfg, Make(c, move, cfg.CooldownLen(), r).ctl)
  {
    match move
    case Ignore =>
    case Calibrate => GoKeepsTimely(cfg, Forgiven(c, Fault), Calibrating);
    case Arm => ArmedKeepsTimely(cfg, c);
    case Doze => GoKeepsTimely(cfg, c, LightSleep);
    case Sleep => DeepSleepKeepsTimely(cfg, c, r.fallback);
    case Cool => CooldownKeepsTimely(cfg, c);
    case Drain => GoKeepsTimely(cfg, c, LowBattery);
    case Detect => SigningKeepsTimely(cfg, Kept(c), r);
    case Transmit => TransmittingKeepsTimely(cfg, c, r.adv);
    case Fail => FaultKeepsTimely(cfg, Forgiven(c, Transmitting));
  }

  lemma SettlingKeepsTimely(cfg: Config, e: Effect)
    requires Timely(cfg, e.ctl)
    ensures Timely(cfg, Settle(e))
  {
  }

  lemma {:induction false} ArrivalsKeepTimers(c: Control, es: seq<Event>)
    ensures PostAll(c, es).timers == c.timers && PostAll(c, es).now == c.now
  {
    if es != [] { ArrivalsKeepTimers(c, es[..|es| - 1]); }
  }

  lemma FireKeepsTimely(cfg: Config, c: Control, t: Timer, ok: bool)
    requires Timely(cfg, c)
    ensures Timely(cfg, Settle(Fire(c, t, ok)))
  {
    SettlingKeepsTimely(cfg, Fire(c, t, ok));
  }

  lemma DispatchKeepsTimely(cfg: Config, s: Node, hw: Hw, arrivals: seq<Event>)
    requires Timely(cfg, s.ctl) && s.ctl.queue != []
    ensures Timely(cfg, Handle(cfg, s, hw, arrivals).ctl)
  {
    var e, t := s.ctl.queue[0], Take(s.ctl, arrivals);
    var move, r := MoveOf(t.state, e.kind), ResultsOf(cfg, s.pipe, e, hw);
    ArrivalsKeepTimers(s.ctl.(queue := s.ctl.queue[1..]), arrivals);
    MakeKeepsTimely(cfg, t, move, r);
    SettlingKeepsTimely(cfg, Make(t, move, cfg.CooldownLen(), r));
  }

  lemma StepKeepsTimely(cfg: Config, s: Node, op: Op)
    requires Timely(cfg, s.ctl)
    ensures Timely(cfg, Step(cfg, s, op).ctl)
  {
    match op
    case Dispatch(hw, arrivals) => if s.ctl.queue != [] { DispatchKeepsTimely(cfg, s, hw, arrivals); }
    case FireTimer(t, ok) => FireKeepsTimely(cfg, s.ctl, t, ok);
    case FireAlarm => SettlingKeepsTimely(cfg, Alarm(s.ctl));
    case Outside(e) =>
    case Advance(ms) =>
  }

  lemma {:induction false} TraceIsTimely(cfg: Config, trace: seq<Node>, ops: seq<Op>, i: nat)
    requires IsTrace(cfg, trace, ops) && i <= |ops|
    ensures Timely(cfg, trace[i].ctl)
  {
    if i > 0 {
      TraceIsTimely(cfg, trace, ops, i - 1);
      StepKeepsTimely(cfg, trace[i - 1], ops[i - 1]);
    }
  }

  /** A pending timer is due within the time it is named for. */
  lemma PendingTimersAreNear(cfg: Config, s: Node, t: Timer)
    requires Reachable(cfg, s)
    ensures Deadline(s.ctl.timers, t).Some? ==> Deadline(s.ctl.timers, t).value <= s.ctl.now + Length(cfg, t)
  {
    var trace, ops :| IsTrace(cfg, trace, ops) && s == trace[|ops|];
    TraceIsTimely(cfg, trace, ops, |ops|);
  }
}
