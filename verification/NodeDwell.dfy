/** Two things that hold of COOLDOWN do not hold of ARMED and LOW_BATTERY: the dwell in
    ARMED can be cut short, and LOW_BATTERY can come to rest for good. */
module NodeDwell {
  import opened Base
  import opened Events
  import opened NodeModel
  import opened NodePipeline
  import opened NodeTheorems

  lemma DispatchAlone(cfg: Config, s: Node, hw: Hw)
    requires s.ctl.queue != []
    ensures var e := s.ctl.queue[0];
            Step(cfg, s, Dispatch(hw, [])).ctl ==
              Settle(Make(s.ctl.(queue := s.ctl.queue[1..]), MoveOf(s.ctl.state, e.kind), cfg.CooldownLen(), ResultsOf(cfg, s.pipe, e, hw)))
  {
  }

  /** `c` is the control state of some reachable node. */
  ghost predicate Reached(cfg: Config, c: Control) { exists s :: Reachable(cfg, s) && s.ctl == c }

  lemma StepReaches(cfg: Config, s: Node, op: Op)
    requires Reachable(cfg, s)
    ensures Reached(cfg, Step(cfg, s, op).ctl)
  {
    StepIsReachable(cfg, s, op);
  }

  lemma DispatchReaches(cfg: Config, c: Control, hw: Hw, d: Control)
    requires Reached(cfg, c) && c.queue != []
    requires forall r :: Settle(Make(c.(queue := c.queue[1..]), MoveOf(c.state, c.queue[0].kind), cfg.CooldownLen(), r)) == d
    ensures Reached(cfg, d)
  {
    var s :| Reachable(cfg, s) && s.ctl == c;
    DispatchAlone(cfg, s, hw);
    StepReaches(cfg, s, Dispatch(hw, []));
  }

  lemma OutsideReaches(cfg: Config, c: Control, e: Event)
    requires Reached(cfg, c) && FromEnvironment(e.kind) && |c.queue| < QUEUE_DEPTH
    ensures Reached(cfg, c.(queue := c.queue + [e]))
  {
    var s :| Reachable(cfg, s) && s.ctl == c;
    StepReaches(cfg, s, Outside(e));
  }

  lemma TimeReaches(cfg: Config, c: Control, ms: nat)
    requires Reached(cfg, c)
    ensures Reached(cfg, c.(now := c.now + ms))
  {
    var s :| Reachable(cfg, s) && s.ctl == c;
    StepReaches(cfg, s, Advance(ms));
  }

  lemma FireReaches(cfg: Config, c: Control, t: Timer)
    requires Reached(cfg, c) && MayFire(c, t)
    ensures Reached(cfg, Settle(Fire(c, t, true)))
  {
    var s :| Reachable(cfg, s) && s.ctl == c;
    StepReaches(cfg, s, FireTimer(t, true));
  }

  function Battery(k: Kind): Event { Event(k, 0, NO_EVENT.data) }

  /** ARMED, entered at `at`, with `q` in the queue */
  function ArmedSince(at: nat, q: seq<Event>): Control {
    Control(Armed, q, 0, at, at,
            Timers(None, None, Some(at + ARMED_DWELL_MS), Some(at + SLEEP_INACTIVITY_MS), None, None), false, false, 0)
  }

  /** LOW_BATTERY at the time of its entry */
  function Drained(at: nat, inactivity: Option<nat>, q: seq<Event>): Control {
    Control(LowBattery, q, 0, at, at, Timers(None, None, None, inactivity, None, None), false, false, 0)
  }

  lemma CalibrateSettles(c: Control, len: nat, r: Results)
    requires c.state != Fault && c.queue == []
    ensures Settle(Make(c, Calibrate, len, r)) == Go(c, Calibrating).(queue := [Internal(BaselineReady, c.now)])
  {
    assert [] + [Internal(BaselineReady, c.now)] == [Internal(BaselineReady, c.now)];
  }

  lemma ArmSettles(c: Control, len: nat, r: Results)
    ensures Settle(Make(c, Arm, len, r)) == ToArmed(c)
  {
  }

  lemma BootReachesArmed(cfg: Config, hw: Hw)
    ensures Reached(cfg, ArmedSince(0, []))
  {
    var c := Init(None).ctl;
    var popped := c.(queue := []);
    var calibrating := Go(popped, Calibrating).(queue := [Internal(BaselineReady, 0)]);
    InitIsReachable(cfg, None);
    forall r ensures Settle(Make(popped, Calibrate, cfg.CooldownLen(), r)) == calibrating { CalibrateSettles(popped, cfg.CooldownLen(), r); }
    BootReachesCalibrating(cfg, hw, c, calibrating);
    CalibratingReachesArmed(cfg, hw, calibrating);
  }

  lemma BootReachesCalibrating(cfg: Config, hw: Hw, c: Control, calibrating: Control)
    requires Reached(cfg, c) && c.state == Boot && |c.queue| == 1 && c.queue[0].kind == InitComplete
    requires forall r :: Settle(Make(c.(queue := []), Calibrate, cfg.CooldownLen(), r)) == calibrating
    ensures Reached(cfg, calibrating)
  {
    assert c.queue[1..] == [];
    DispatchReaches(cfg, c, hw, calibrating);
  }

  lemma CalibratingReachesArmed(cfg: Config, hw: Hw, c: Control)
    requires Reached(cfg, c) && c.state == Calibrating && |c.queue| == 1 && c.queue[0].kind == BaselineReady
    ensures Reached(cfg, ToArmed(c.(queue := [])))
  {
    var popped := c.(queue := []);
    assert c.queue[1..] == [];
    forall r ensures Settle(Make(popped, Arm, cfg.CooldownLen(), r)) == ToArmed(popped) { ArmSettles(popped, cfg.CooldownLen(), r); }
    DispatchReaches(cfg, c, hw, ToArmed(popped));
  }

  lemma DrainSettles(c: Control, len: nat, r: Results)
    ensures Settle(Make(c, Drain, len, r)) == Go(c, LowBattery)
  {
  }

  lemma BatteryDrains(cfg: Config, hw: Hw, c: Control, rest: seq<Event>)
    requires Reached(cfg, c) && c.state == Armed && c.queue != [] && IsBatteryDown(c.queue[0].kind) && c.queue[1..] == rest
    ensures Reached(cfg, Go(c.(queue := rest), LowBattery))
  {
    var popped := c.(queue := rest);
    forall r ensures Settle(Make(popped, Drain, cfg.CooldownLen(), r)) == Go(popped, LowBattery) {
      DrainSettles(popped, cfg.CooldownLen(), r);
    }
    DispatchReaches(cfg, c, hw, Go(popped, LowBattery));
  }

  lemma IgnoredReaches(cfg: Config, hw: Hw, c: Control, e: Event)
    requires Reached(cfg, c) && c.queue == [e] && MoveOf(c.state, e.kind) == Ignore
    ensures Reached(cfg, c.(queue := []))
  {
    DispatchReaches(cfg, c, hw, c.(queue := []));
  }

  lemma BatteryRunsDown(cfg: Config, hw: Hw, q: seq<Event>)
    requires |q| == 1 && IsBatteryDown(q[0].kind)
    ensures Reached(cfg, Drained(0, Some(SLEEP_INACTIVITY_MS), []))
  {
    BootReachesArmed(cfg, hw);
    OutsideReaches(cfg, ArmedSince(0, []), q[0]);
    assert [] + [q[0]] == q;
    BatteryDrains(cfg, hw, ArmedSince(0, q), []);
  }

  /** LOW_BATTERY when the inactivity timer has run out */
  function RunDown(q: seq<Event>): Control {
    Control(LowBattery, q, 0, SLEEP_INACTIVITY_MS, 0, Timers(None, None, None, None, None, None), false, false, 0)
  }

  lemma InactivityRunsOut(cfg: Config, e: Event)
    requires Reached(cfg, Drained(0, Some(SLEEP_INACTIVITY_MS), [])) && e == Internal(InactivityTimeout, SLEEP_INACTIVITY_MS)
    ensures Reached(cfg, RunDown([e]))
  {
    var c := Drained(0, Some(SLEEP_INACTIVITY_MS), []);
    TimeReaches(cfg, c, SLEEP_INACTIVITY_MS);
    FireReaches(cfg, c.(now := SLEEP_INACTIVITY_MS), InactivityTimer);
    assert [] + [e] == [e];
  }

  lemma RunDownIsReached(cfg: Config, hw: Hw, timeout: Event)
    requires timeout == Internal(InactivityTimeout, SLEEP_INACTIVITY_MS)
    requires Reached(cfg, Drained(0, Some(SLEEP_INACTIVITY_MS), []))
    ensures Reached(cfg, RunDown([]))
  {
    InactivityRunsOut(cfg, timeout);
    IgnoredReaches(cfg, hw, RunDown([timeout]), timeout);
  }

  /** In LOW_BATTERY the node can come to rest with nothing queued and nothing pending, so
      that only a post from outside moves it again. */
  lemma LowBatteryCanStall(cfg: Config, hw: Hw)
    ensures exists c :: Reached(cfg, c) && c.state == LowBattery && c.queue == [] && c.drops == 0 &&
                        !c.alarm && c.timers == Timers(None, None, None, None, None, None)
  {
    BatteryRunsDown(cfg, hw, [Battery(BatteryLow)]);
    RunDownIsReached(cfg, hw, Internal(InactivityTimeout, SLEEP_INACTIVITY_MS));
    var c := RunDown([]);
    assert Reached(cfg, c);
  }

  // The dwell

  lemma ExpiryArrives(cfg: Config, q: seq<Event>)
    requires Reached(cfg, ArmedSince(0, q)) && |q| < QUEUE_DEPTH
    ensures Reached(cfg, Control(Armed, q + [Internal(ArmedTimeout, ARMED_DWELL_MS)], 0, ARMED_DWELL_MS, 0,
                                 Timers(None, None, None, Some(SLEEP_INACTIVITY_MS), None, None), false, false, 0))
  {
    var c := ArmedSince(0, q);
    TimeReaches(cfg, c, ARMED_DWELL_MS);
    FireReaches(cfg, c.(now := ARMED_DWELL_MS), DwellTimer);
  }

  /** ARMED at the end of its dwell, with the expiry queued behind two battery events */
  function Overtaken(low: Event, restored: Event): Control {
    Control(Armed, [low, restored] + [Internal(ArmedTimeout, ARMED_DWELL_MS)], 0, ARMED_DWELL_MS, 0,
            Timers(None, None, None, Some(SLEEP_INACTIVITY_MS), None, None), false, false, 0)
  }

  lemma OvertakenIsReached(cfg: Config, hw: Hw, low: Event, restored: Event)
    requires low.kind == BatteryLow && restored.kind == BatteryRestored
    ensures Reached(cfg, Overtaken(low, restored))
  {
    BootReachesArmed(cfg, hw);
    OutsideReaches(cfg, ArmedSince(0, []), low);
    assert [] + [low] == [low];
    OutsideReaches(cfg, ArmedSince(0, [low]), restored);
    assert [low] + [restored] == [low, restored];
    ExpiryArrives(cfg, [low, restored]);
  }

  /** The kind of the first event that ARMED acts on */
  function FirstMove(q: seq<Event>): Option<Kind> {
    if q == [] then None
    else if MoveOf(Armed, q[0].kind) != Ignore then Some(q[0].kind)
    else FirstMove(q[1..])
  }

  lemma {:induction false} FirstMoveAppend(q: seq<Event>, e: Event)
    requires FirstMove(q) != Some(ArmedTimeout) && e.kind != ArmedTimeout
    ensures FirstMove(q + [e]) != Some(ArmedTimeout)
  {
    if q == [] {
      assert q + [e] == [e] && [e][1..] == [];
    } else {
      assert (q + [e])[1..] == q[1..] + [e];
      if MoveOf(Armed, q[0].kind) == Ignore { FirstMoveAppend(q[1..], e); }
    }
  }

  /** Since entry the dwell timer runs and no expiry is the first to act, or the dwell is over. */
  predicate DwellInv(c: Control) {
    || (c.timers.dwell == Some(c.enteredAt + ARMED_DWELL_MS) && FirstMove(c.queue) != Some(ArmedTimeout))
    || c.enteredAt + ARMED_DWELL_MS <= c.now
  }

  lemma PostKeepsDwell(c: Control, e: Event)
    requires DwellInv(c) && e.kind != ArmedTimeout
    ensures DwellInv(Post(c, e))
  {
    var d := Post(c, e);
    assert d.timers == c.timers && d.enteredAt == c.enteredAt && d.now == c.now;
    if d.queue != c.queue && FirstMove(c.queue) != Some(ArmedTimeout) { FirstMoveAppend(c.queue, e); }
  }

  lemma {:induction false} ArrivalsKeepDwell(c: Control, es: seq<Event>)
    requires DwellInv(c)
    ensures DwellInv(PostAll(c, es))
  {
    if es != [] {
      ArrivalsKeepDwell(c, es[..|es| - 1]);
      if FromEnvironment(es[|es| - 1].kind) { PostKeepsDwell(PostAll(c, es[..|es| - 1]), es[|es| - 1]); }
    }
  }

  lemma FirstMoveSkips(q: seq<Event>)
    requires q != [] && MoveOf(Armed, q[0].kind) == Ignore
    ensures FirstMove(q[1..]) == FirstMove(q)
  {
  }

  lemma DispatchKeepsDwell(c: Control, arrivals: seq<Event>)
    requires c.state == Armed && DwellInv(c) && c.queue != [] && MoveOf(Armed, c.queue[0].kind) == Ignore
    ensures DwellInv(Take(c, arrivals))
  {
    FirstMoveSkips(c.queue);
    ArrivalsKeepDwell(c.(queue := c.queue[1..]), arrivals);
  }

  lemma OtherTimersLeaveDwell(c: Control, t: Timer, ok: bool)
    requires t != DwellTimer
    ensures var d := Fire(c, t, ok).ctl;
            d.timers.dwell == c.timers.dwell && d.queue == c.queue && d.enteredAt == c.enteredAt && d.now == c.now
    ensures Fire(c, t, ok).post != Some(ArmedTimeout)
  {
  }

  lemma DwellIsFramed(c: Control, d: Control)
    requires DwellInv(c) && d.timers.dwell == c.timers.dwell && d.queue == c.queue && d.enteredAt == c.enteredAt && d.now == c.now
    ensures DwellInv(d)
  {
  }

  lemma SettlingKeepsDwell(e: Effect)
    requires DwellInv(e.ctl) && e.post != Some(ArmedTimeout)
    ensures DwellInv(Settle(e))
  {
    if e.post.Some? { PostKeepsDwell(e.ctl, Internal(e.post.value, e.ctl.now)); }
  }

  lemma ExpiryEndsDwell(c: Control, ok: bool)
    requires DwellInv(c) && MayFire(c, DwellTimer)
    ensures DwellInv(Settle(Fire(c, DwellTimer, ok)))
  {
    assert c.enteredAt + ARMED_DWELL_MS <= c.now;
    SettlingKeepsTime(Fire(c, DwellTimer, ok));
  }

  lemma FireKeepsDwell(c: Control, t: Timer, ok: bool)
    requires DwellInv(c) && MayFire(c, t)
    ensures DwellInv(Settle(Fire(c, t, ok)))
  {
    if t == DwellTimer {
      ExpiryEndsDwell(c, ok);
    } else {
      OtherTimersLeaveDwell(c, t, ok);
      DwellIsFramed(c, Fire(c, t, ok).ctl);
      SettlingKeepsDwell(Fire(c, t, ok));
    }
  }

  lemma IgnoringLeavesTaken(cfg: Config, s: Node, op: Op)
    requires op.Dispatch? && s.ctl.queue != [] && MoveOf(s.ctl.state, s.ctl.queue[0].kind) == Ignore
    ensures Step(cfg, s, op).ctl == Take(s.ctl, op.arrivals)
  {
    ArrivalsLeaveState(s.ctl.(queue := s.ctl.queue[1..]), op.arrivals);
  }

  lemma StayingDispatchKeepsDwell(cfg: Config, s: Node, op: Op)
    requires op.Dispatch? && s.ctl.queue != [] && s.ctl.state == Armed && DwellInv(s.ctl)
    requires Step(cfg, s, op).ctl.state == Armed
    ensures DwellInv(Step(cfg, s, op).ctl)
  {
    StateChangesOnlyByMove(cfg, s, op);
    IgnoringLeavesTaken(cfg, s, op);
    DispatchKeepsDwell(s.ctl, op.arrivals);
  }

  lemma AlarmKeepsDwell(c: Control)
    requires DwellInv(c)
    ensures DwellInv(Settle(Alarm(c)))
  {
    PostKeepsDwell(c.(alarm := false), Internal(RtcWakeup, c.now));
  }

  lemma OutsiderKeepsDwell(c: Control, e: Event)
    requires DwellInv(c)
    ensures DwellInv(Outsider(c, e))
  {
    if FromEnvironment(e.kind) { PostKeepsDwell(c, e); }
  }

  lemma StayKeepsDwell(cfg: Config, s: Node, op: Op)
    requires s.ctl.state == Armed && Step(cfg, s, op).ctl.state == Armed && DwellInv(s.ctl)
    ensures DwellInv(Step(cfg, s, op).ctl)
  {
    match op
    case Dispatch(hw, arrivals) => if s.ctl.queue != [] { StayingDispatchKeepsDwell(cfg, s, op); }
    case FireTimer(t, ok) => if MayFire(s.ctl, t) { FireKeepsDwell(s.ctl, t, ok); }
    case FireAlarm => AlarmKeepsDwell(s.ctl);
    case Outside(e) => OutsiderKeepsDwell(s.ctl, e);
    case Advance(ms) =>
  }

  function RunFrom(cfg: Config, s: Node, ops: seq<Op>): Node
    decreases |ops|
  {
    if ops == [] then s else RunFrom(cfg, Step(cfg, s, ops[0]), ops[1..])
  }

  /** The node stays in ARMED until the last operation sends it into LIGHT_SLEEP. */
  predicate Dozes(cfg: Config, s: Node, ops: seq<Op>)
    decreases |ops|
  {
    && ops != [] && s.ctl.state == Armed
    && var d := Step(cfg, s, ops[0]);
       if |ops| == 1 then d.ctl.state == LightSleep else Dozes(cfg, d, ops[1..])
  }

  lemma DozingStep(cfg: Config, s: Node, op: Op)
    requires s.ctl.state == Armed && DwellInv(s.ctl) && Step(cfg, s, op).ctl.state == LightSleep
    ensures s.ctl.enteredAt + ARMED_DWELL_MS <= s.ctl.now == Step(cfg, s, op).ctl.now
  {
    StateChangesOnlyByMove(cfg, s, op);
    assert FirstMove(s.ctl.queue) == Some(ArmedTimeout);
  }

  lemma {:induction false} DwellRunsOut(cfg: Config, s: Node, ops: seq<Op>)
    requires DwellInv(s.ctl) && Dozes(cfg, s, ops)
    ensures RunFrom(cfg, s, ops).ctl.now >= s.ctl.enteredAt + ARMED_DWELL_MS
    decreases |ops|
  {
    var d := Step(cfg, s, ops[0]);
    if |ops| == 1 {
      DozingStep(cfg, s, ops[0]);
      assert ops[1..] == [];
    } else {
      StayKeepsDwell(cfg, s, ops[0]);
      StateChangesOnlyByMove(cfg, s, ops[0]);
      DwellRunsOut(cfg, d, ops[1..]);
    }
  }

  lemma {:induction false} ExpiryCutsShort(cfg: Config, s: Node, hw: Hw)
    requires s.ctl.state == Armed && FirstMove(s.ctl.queue) == Some(ArmedTimeout)
    ensures exists ops :: Dozes(cfg, s, ops) && RunFrom(cfg, s, ops).ctl.now == s.ctl.now
    decreases |s.ctl.queue|
  {
    var op := Dispatch(hw, []);
    var d := Step(cfg, s, op);
    StateChangesOnlyByMove(cfg, s, op);
    if MoveOf(Armed, s.ctl.queue[0].kind) != Ignore {
      assert Dozes(cfg, s, [op]) && RunFrom(cfg, s, [op]) == RunFrom(cfg, d, [op][1..]);
    } else {
      IgnoringLeavesTaken(cfg, s, op);
      ExpiryCutsShort(cfg, d, hw);
      var ops :| Dozes(cfg, d, ops) && RunFrom(cfg, d, ops).ctl.now == d.ctl.now;
      assert ([op] + ops)[1..] == ops;
      assert Dozes(cfg, s, [op] + ops) && RunFrom(cfg, s, [op] + ops) == RunFrom(cfg, d, ops);
    }
  }

  /** From its entry into ARMED the node can reach LIGHT_SLEEP before the dwell is over. */
  ghost predicate CanBeCutShort(cfg: Config, s: Node) {
    exists ops :: Dozes(cfg, s, ops) && RunFrom(cfg, s, ops).ctl.now < s.ctl.enteredAt + ARMED_DWELL_MS
  }

  predicate JustArmed(d: Control) {
    d.state == Armed && d.enteredAt == d.now && d.timers.dwell == Some(d.now + ARMED_DWELL_MS)
  }

  lemma ArmingStartsDwell(t: Control, move: Move, len: nat, r: Results)
    requires t.state != Armed && Settle(Make(t, move, len, r)).state == Armed
    ensures JustArmed(Settle(Make(t, move, len, r)))
  {
    MakeReachesTarget(t, move, len, r);
    if move == Arm { ArmSettles(t, len, r); }
  }

  lemma EnteringArmed(cfg: Config, s: Node, op: Op, d: Control)
    requires d == Step(cfg, s, op).ctl && s.ctl.state != Armed && d.state == Armed
    ensures JustArmed(d)
  {
    StateChangesOnlyByMove(cfg, s, op);
    ArrivalsLeaveState(s.ctl.(queue := s.ctl.queue[1..]), op.arrivals);
    DispatchControls(cfg, s, op.hw, op.arrivals);
    ArmingStartsDwell(Take(s.ctl, op.arrivals), MoveOf(s.ctl.state, s.ctl.queue[0].kind), cfg.CooldownLen(),
                      ResultsOf(cfg, s.pipe, s.ctl.queue[0], op.hw));
  }

  lemma CleanStayIsFull(cfg: Config, d: Node)
    requires DwellInv(d.ctl)
    ensures !CanBeCutShort(cfg, d)
  {
    forall ops | Dozes(cfg, d, ops) ensures RunFrom(cfg, d, ops).ctl.now >= d.ctl.enteredAt + ARMED_DWELL_MS {
      DwellRunsOut(cfg, d, ops);
    }
  }

  lemma EntryIsExact(cfg: Config, d: Node, hw: Hw)
    requires JustArmed(d.ctl)
    ensures CanBeCutShort(cfg, d) <==> FirstMove(d.ctl.queue) == Some(ArmedTimeout)
  {
    if FirstMove(d.ctl.queue) == Some(ArmedTimeout) {
      ExpiryCutsShort(cfg, d, hw);
    } else {
      CleanStayIsFull(cfg, d);
    }
  }

  /** A stay in ARMED can be cut short exactly when, at its entry, the first queued event
      that ARMED acts on is an ARMED_TIMEOUT, which an earlier stay has left behind. */
  lemma DwellLastsUnlessExpiryIsQueued(cfg: Config, s: Node, entry: Op, d: Node, hw: Hw)
    requires d == Step(cfg, s, entry) && s.ctl.state != Armed && d.ctl.state == Armed
    ensures CanBeCutShort(cfg, d) <==> FirstMove(d.ctl.queue) == Some(ArmedTimeout)
  {
    EnteringArmed(cfg, s, entry, d.ctl);
    EntryIsExact(cfg, d, hw);
  }

  /** That does happen: the dwell of ARMED, unlike the cooldown, is cut short in some run. */
  lemma SomeDwellIsCutShort(cfg: Config, hw: Hw)
    ensures exists s :: Reachable(cfg, s) && var d := Step(cfg, s, Dispatch(hw, []));
              s.ctl.state == LowBattery && d.ctl.state == Armed && CanBeCutShort(cfg, d)
  {
    var low, restored := Battery(BatteryLow), Battery(BatteryRestored);
    var c, expiry := Overtaken(low, restored), Internal(ArmedTimeout, ARMED_DWELL_MS);
    OvertakenIsReached(cfg, hw, low, restored);
    BatteryDrains(cfg, hw, c, [restored, expiry]);
    var s :| Reachable(cfg, s) && s.ctl == Go(c.(queue := [restored, expiry]), LowBattery);
    RestoredIsCutShort(cfg, s, hw, expiry);
  }

  lemma RestoredIsCutShort(cfg: Config, s: Node, hw: Hw, expiry: Event)
    requires s.ctl.state == LowBattery && |s.ctl.queue| == 2
    requires s.ctl.queue[0].kind == BatteryRestored && s.ctl.queue[1] == expiry && expiry.kind == ArmedTimeout
    ensures var d := Step(cfg, s, Dispatch(hw, [])); d.ctl.state == Armed && CanBeCutShort(cfg, d)
  {
    DispatchAlone(cfg, s, hw);
    assert s.ctl.queue[1..] == [expiry];
    DwellLastsUnlessExpiryIsQueued(cfg, s, Dispatch(hw, []), Step(cfg, s, Dispatch(hw, [])), hw);
  }
}
