/** What the firmware promises, over every run of the node: any interleaving of dispatches,
    timer expiries, alarms, posts from outside and the passage of time. */
module NodeTheorems {
  import opened Base
  import opened Events
  import opened NodeCrypto
  import opened NodeModel
  import opened NodeInvariants
  import opened NodePipeline
  import opened NodeWake

  // The tally, read back as places in the queue

  function Places(q: seq<Event>, c: Class): set<int> {
    set i | 0 <= i < |q| && ClassOf(q[i].kind) == c
  }

  ghost predicate Behind(q: seq<Event>, a: Class, b: Class) {
    exists i, j :: 0 <= i < j < |q| && ClassOf(q[i].kind) == a && ClassOf(q[j].kind) == b
  }

  lemma PlacesAppend(q: seq<Event>, e: Event, c: Class)
    ensures |Places(q + [e], c)| == |Places(q, c)| + (if ClassOf(e.kind) == c then 1 else 0)
  {
    assert Places(q + [e], c) == Places(q, c) + (if ClassOf(e.kind) == c then {|q|} else {});
  }

  lemma BehindGrows(q: seq<Event>, e: Event, a: Class, b: Class)
    requires Behind(q, a, b) || (ClassOf(e.kind) == b && |Places(q, a)| > 0)
    ensures Behind(q + [e], a, b)
  {
    var r := q + [e];
    if Behind(q, a, b) {
      var i, j :| 0 <= i < j < |q| && ClassOf(q[i].kind) == a && ClassOf(q[j].kind) == b;
      assert r[i] == q[i] && r[j] == q[j];
    } else {
      var i :| i in Places(q, a);
      assert r[i] == q[i] && r[|q|] == e;
    }
  }

  lemma BehindShrinks(q: seq<Event>, e: Event, a: Class, b: Class)
    requires Behind(q + [e], a, b)
    ensures Behind(q, a, b) || (ClassOf(e.kind) == b && |Places(q, a)| > 0)
  {
    var r := q + [e];
    var i, j :| 0 <= i < j < |r| && ClassOf(r[i].kind) == a && ClassOf(r[j].kind) == b;
    assert r[i] == q[i];
    assert i in Places(q, a);
    if j < |q| {
      assert r[j] == q[j];
    }
  }

  lemma BehindAppend(q: seq<Event>, e: Event, a: Class, b: Class)
    ensures Behind(q + [e], a, b) <==> Behind(q, a, b) || (ClassOf(e.kind) == b && |Places(q, a)| > 0)
  {
    if Behind(q + [e], a, b) { BehindShrinks(q, e, a, b); }
    if Behind(q, a, b) || (ClassOf(e.kind) == b && |Places(q, a)| > 0) { BehindGrows(q, e, a, b); }
  }

  lemma {:induction false} TallyCounts(q: seq<Event>)
    ensures var l := TallyOf(q);
            && l.init == |Places(q, InitToken)| && l.baseline == |Places(q, BaselineToken)|
            && l.signed == |Places(q, SignedToken)| && l.unsigned == |Places(q, UnsignedToken)|
            && l.recovery == |Places(q, RecoveryToken)| && l.outcome == |Places(q, Outcome)|
            && l.cool == |Places(q, CoolEnd)| && l.late == |Places(q, TxLate)|
  {
    if q != [] {
      var r, e := q[..|q| - 1], q[|q| - 1];
      assert q == r + [e];
      TallyCounts(r);
      forall c: Class ensures |Places(q, c)| == |Places(r, c)| + (if ClassOf(e.kind) == c then 1 else 0) {
        PlacesAppend(r, e, c);
      }
    }
  }

  lemma {:induction false} TallyOrders(q: seq<Event>)
    ensures TallyOf(q).outcomeBehindLate <==> Behind(q, TxLate, Outcome)
    ensures TallyOf(q).staleBehindSigned <==> Behind(q, SignedToken, CoolEnd) || Behind(q, SignedToken, TxLate)
  {
    if q != [] {
      var r, e := q[..|q| - 1], q[|q| - 1];
      assert q == r + [e];
      TallyOrders(r);
      TallyCounts(r);
      BehindAppend(r, e, TxLate, Outcome);
      BehindAppend(r, e, SignedToken, CoolEnd);
      BehindAppend(r, e, SignedToken, TxLate);
    }
  }

  // Control

  predicate AtMost(n: nat, here: bool, sure: bool) { n <= (if here then 1 else 0) && (sure && here ==> n == 1) }

  /** Each state that waits for the firmware itself has exactly its own token in the queue,
      and no token is ever left over for another state. */
  lemma SingleControlToken(cfg: Config, s: Node)
    requires cfg.Valid() && Reachable(cfg, s)
    ensures var c := s.ctl; var q, sure := c.queue, c.drops == 0;
            && AtMost(|Places(q, InitToken)|, c.state == Boot, sure)
            && AtMost(|Places(q, BaselineToken)|, c.state == Calibrating, sure)
            && AtMost(|Places(q, SignedToken)| + |Places(q, UnsignedToken)|, c.state == Signing, sure)
            && AtMost(|Places(q, RecoveryToken)|, c.state == Fault, sure)
  {
    ReachableKeepsNode(cfg, s);
    TallyCounts(s.ctl.queue);
  }

  /** EVENT_DETECTED is never the state between dispatches, and no timer outlives its state. */
  lemma TimersBelongToStates(cfg: Config, s: Node)
    requires cfg.Valid() && Reachable(cfg, s)
    ensures var c := s.ctl;
            && c.state != EventDetected
            && (c.timers.cooldown.Some? ==> c.state == Cooldown)
            && (c.timers.txTimeout.Some? ==> c.state == Transmitting)
            && (c.timers.dwell.Some? ==> c.state == Armed)
            && (c.timers.stop.Some? <==> c.advCb) && (c.advCb ==> c.state == Transmitting)
  {
    ReachableKeepsNode(cfg, s);
  }

  lemma PostsNoError(c: Control, e: Event)
    requires !Has(c.queue, Error) && e.kind != Error
    ensures !Has(Post(c, e).queue, Error)
  {
  }

  lemma SettlesNoError(e: Effect)
    requires !Has(e.ctl.queue, Error) && e.post != Some(Error)
    ensures !Has(Settle(e).queue, Error)
  {
    if e.post.Some? { PostsNoError(e.ctl, Internal(e.post.value, e.ctl.now)); }
  }

  lemma {:induction false} ArrivalsAreNoError(c: Control, es: seq<Event>)
    requires !Has(c.queue, Error)
    ensures !Has(PostAll(c, es).queue, Error)
  {
    if es != [] { ArrivalsAreNoError(c, es[..|es| - 1]); }
  }

  lemma MakePostsNoError(c: Control, move: Move, len: nat, r: Results)
    requires c.faultRetries <= 1
    ensures Make(c, move, len, r).post != Some(Error)
  {
  }

  lemma HandlePostsNoError(cfg: Config, s: Node, hw: Hw, arrivals: seq<Event>)
    requires !Has(s.ctl.queue, Error) && s.ctl.faultRetries <= 1 && s.ctl.queue != [] && |s.ctl.queue| <= QUEUE_DEPTH
    ensures !Has(Handle(cfg, s, hw, arrivals).ctl.queue, Error)
  {
    var c := s.ctl;
    var popped, t := c.(queue := c.queue[1..]), Take(c, arrivals);
    var r, move := ResultsOf(cfg, s.pipe, c.queue[0], hw), MoveOf(c.state, c.queue[0].kind);
    assert !Has(popped.queue, Error);
    ArrivalsAreNoError(popped, arrivals);
    ArrivalsArePlain(popped, arrivals);
    MakePostsNoError(t, move, cfg.CooldownLen(), r);
    MakeKeepsQueue(t, move, cfg.CooldownLen(), r);
    SettlesNoError(Make(t, move, cfg.CooldownLen(), r));
  }

  lemma StepPostsNoError(cfg: Config, s: Node, op: Op)
    requires !Has(s.ctl.queue, Error) && s.ctl.faultRetries <= 1 && |s.ctl.queue| <= QUEUE_DEPTH
    ensures !Has(Step(cfg, s, op).ctl.queue, Error)
  {
    match op
    case Dispatch(hw, arrivals) => if s.ctl.queue != [] { HandlePostsNoError(cfg, s, hw, arrivals); }
    case FireTimer(t, ok) => SettlesNoError(Fire(s.ctl, t, ok));
    case FireAlarm => SettlesNoError(Alarm(s.ctl));
    case Outside(e) => if FromEnvironment(e.kind) { PostsNoError(s.ctl, e); }
    case Advance(ms) =>
  }

  lemma NoErrorAlong(cfg: Config, s: Node, op: Op, t: Node)
    requires t == Step(cfg, s, op) && s.ctl.faultRetries <= 1 && |s.ctl.queue| <= QUEUE_DEPTH && !Has(s.ctl.queue, Error)
    ensures !Has(t.ctl.queue, Error)
  {
    StepPostsNoError(cfg, s, op);
  }

  lemma TraceRetriesOnce(cfg: Config, trace: seq<Node>, ops: seq<Op>, i: nat)
    requires cfg.Valid() && IsTrace(cfg, trace, ops) && i <= |ops|
    ensures trace[i].ctl.faultRetries <= 1 && |trace[i].ctl.queue| <= QUEUE_DEPTH
  {
    TraceKeepsNode(cfg, trace, ops, i);
  }

  lemma NextHasNoError(cfg: Config, trace: seq<Node>, ops: seq<Op>, i: nat)
    requires cfg.Valid() && IsTrace(cfg, trace, ops) && i < |ops| && !Has(trace[i].ctl.queue, Error)
    ensures !Has(trace[i + 1].ctl.queue, Error)
  {
    TraceRetriesOnce(cfg, trace, ops, i);
    NoErrorAlong(cfg, trace[i], ops[i], trace[i + 1]);
  }

  lemma InitHasNoError(skew: Option<u32>)
    ensures !Has(Init(skew).ctl.queue, Error)
  {
  }

  lemma {:induction false} TraceHasNoError(cfg: Config, trace: seq<Node>, ops: seq<Op>, i: nat)
    requires cfg.Valid() && IsTrace(cfg, trace, ops) && i <= |ops|
    ensures !Has(trace[i].ctl.queue, Error)
  {
    if i == 0 {
      var skew :| trace[0] == Init(skew);
      InitHasNoError(skew);
    } else {
      TraceHasNoError(cfg, trace, ops, i - 1);
      NextHasNoError(cfg, trace, ops, i - 1);
    }
  }

  /** The retry counter is 1 exactly in FAULT, so the branch for exceeded retries is never
      taken and every fault asks for recovery. */
  lemma FaultCounter(cfg: Config, s: Node)
    requires cfg.Valid() && Reachable(cfg, s)
    ensures s.ctl.faultRetries == (if s.ctl.state == Fault then 1 else 0)
    ensures !Has(s.ctl.queue, Error)
  {
    ReachableKeepsNode(cfg, s);
    var trace, ops :| IsTrace(cfg, trace, ops) && s == trace[|ops|];
    TraceHasNoError(cfg, trace, ops, |ops|);
  }

  // Transmission

  /** A transmission has exactly one outcome. It is queued or still to come from the stop
      timer while the node is in TRANSMITTING, and nowhere else; no timeout is ahead of it. */
  lemma OneOutcomePerTransmission(cfg: Config, s: Node)
    requires cfg.Valid() && Reachable(cfg, s)
    ensures var c := s.ctl; var open := |Places(c.queue, Outcome)| + (if c.timers.stop.Some? then 1 else 0);
            && AtMost(open, c.state == Transmitting, c.drops == 0)
            && (c.state == Transmitting ==> !Behind(c.queue, TxLate, Outcome))
            && (c.timers.stop.Some? ==> |Places(c.queue, TxLate)| == 0)
  {
    ReachableKeepsNode(cfg, s);
    TallyCounts(s.ctl.queue);
    TallyOrders(s.ctl.queue);
  }

  lemma HeadIsAhead(q: seq<Event>, b: Class)
    requires q != [] && ClassOf(q[0].kind) != b
    ensures |Places(q, ClassOf(q[0].kind))| > 0
    ensures |Places(q, b)| > 0 ==> Behind(q, ClassOf(q[0].kind), b)
  {
    assert 0 in Places(q, ClassOf(q[0].kind));
    if |Places(q, b)| > 0 {
      var j :| j in Places(q, b);
      assert 0 < j && ClassOf(q[j].kind) == b;
    }
  }

  /** Unless the queue has refused a post, TRANSMITTING is never ended by its timeout. */
  lemma TimeoutNeverDecides(cfg: Config, s: Node)
    requires cfg.Valid() && Reachable(cfg, s) && s.ctl.state == Transmitting && s.ctl.queue != [] && s.ctl.drops == 0
    ensures s.ctl.queue[0].kind != TxTimeout
  {
    OneOutcomePerTransmission(cfg, s);
    if ClassOf(s.ctl.queue[0].kind) != Outcome {
      HeadIsAhead(s.ctl.queue, Outcome);
    }
  }

  // Cooldown

  lemma {:induction false} ArrivalsLeaveState(c: Control, es: seq<Event>)
    ensures var d := PostAll(c, es); d.state == c.state && d.enteredAt == c.enteredAt && d.now == c.now
  {
    if es != [] { ArrivalsLeaveState(c, es[..|es| - 1]); }
  }

  lemma SettlingKeepsTime(e: Effect)
    ensures Settle(e).now == e.ctl.now && Settle(e).enteredAt == e.ctl.enteredAt
  {
  }

  lemma MakeStampsEffect(c: Control, move: Move, len: nat, r: Results)
    ensures var d := Make(c, move, len, r).ctl; d.now == c.now && d.enteredAt == if move == Ignore then c.enteredAt else c.now
  {
  }

  lemma MakeStampsEntry(c: Control, move: Move, len: nat, r: Results)
    ensures var d := Settle(Make(c, move, len, r));
            d.now == c.now && d.enteredAt == if move == Ignore then c.enteredAt else c.now
  {
    SettlingKeepsTime(Make(c, move, len, r));
    MakeStampsEffect(c, move, len, r);
  }

  /** The control state after a dispatch */
  lemma DispatchControls(cfg: Config, s: Node, hw: Hw, arrivals: seq<Event>)
    requires s.ctl.queue != []
    ensures var e := s.ctl.queue[0];
            Step(cfg, s, Dispatch(hw, arrivals)).ctl ==
              Settle(Make(Take(s.ctl, arrivals), MoveOf(s.ctl.state, e.kind), cfg.CooldownLen(), ResultsOf(cfg, s.pipe, e, hw)))
  {
    ArrivalsLeaveState(s.ctl.(queue := s.ctl.queue[1..]), arrivals);
  }

  /** A state changes only when a dispatched event makes a move, at the time of the dispatch. */
  lemma StateChangesOnlyByMove(cfg: Config, s: Node, op: Op)
    ensures var c, d := s.ctl, Step(cfg, s, op).ctl;
            if op.Dispatch? && c.queue != [] && MoveOf(c.state, c.queue[0].kind) != Ignore then
              d.enteredAt == c.now && d.now == c.now &&
              d.state == Target(MoveOf(c.state, c.queue[0].kind), c.state, ResultsOf(cfg, s.pipe, c.queue[0], op.hw))
            else d.state == c.state && d.enteredAt == c.enteredAt
  {
    if op.Dispatch? && s.ctl.queue != [] {
      var move, r := MoveOf(s.ctl.state, s.ctl.queue[0].kind), ResultsOf(cfg, s.pipe, s.ctl.queue[0], op.hw);
      ArrivalsLeaveState(s.ctl.(queue := s.ctl.queue[1..]), op.arrivals);
      DispatchControls(cfg, s, op.hw, op.arrivals);
      MakeReachesTarget(Take(s.ctl, op.arrivals), move, cfg.CooldownLen(), r);
      MakeStampsEntry(Take(s.ctl, op.arrivals), move, cfg.CooldownLen(), r);
    }
  }

  /** While the node stays in COOLDOWN the time of entry stands. */
  lemma CooldownKeepsEntry(cfg: Config, s: Node, op: Op)
    requires s.ctl.state == Cooldown && Step(cfg, s, op).ctl.state == Cooldown
    ensures Step(cfg, s, op).ctl.enteredAt == s.ctl.enteredAt
  {
    StateChangesOnlyByMove(cfg, s, op);
  }

  /** From step `i` of a run to step `j` the node is in COOLDOWN. */
  predicate CoolsFrom(trace: seq<Node>, i: nat, j: nat)
    requires i < j < |trace|
  {
    trace[i].ctl.state != Cooldown && forall k :: i < k <= j ==> trace[k].ctl.state == Cooldown
  }

  lemma EntryIsStamped(cfg: Config, s: Node, op: Op)
    requires Step(cfg, s, op).ctl.state != s.ctl.state
    ensures Step(cfg, s, op).ctl.enteredAt == Step(cfg, s, op).ctl.now
  {
    StateChangesOnlyByMove(cfg, s, op);
  }

  lemma EntryAlong(cfg: Config, s: Node, op: Op, t: Node)
    requires t == Step(cfg, s, op) && t.ctl.state == Cooldown
    ensures t.ctl.enteredAt == if s.ctl.state == Cooldown then s.ctl.enteredAt else t.ctl.now
  {
    if s.ctl.state == Cooldown { CooldownKeepsEntry(cfg, s, op); } else { EntryIsStamped(cfg, s, op); }
  }

  lemma {:induction false} EntryStands(cfg: Config, trace: seq<Node>, ops: seq<Op>, i: nat, j: nat)
    requires IsTrace(cfg, trace, ops) && i < j <= |ops| && CoolsFrom(trace, i, j)
    ensures trace[j].ctl.enteredAt == trace[i + 1].ctl.now
  {
    EntryAlong(cfg, trace[j - 1], ops[j - 1], trace[j]);
    if j > i + 1 {
      EntryStands(cfg, trace, ops, i, j - 1);
    }
  }

  lemma OnlyPlace(q: seq<Event>)
    requires q != [] && |Places(q, ClassOf(q[0].kind))| == 1
    ensures Places(q, ClassOf(q[0].kind)) == {0}
  {
    var places := Places(q, ClassOf(q[0].kind));
    assert 0 in places && |places - {0}| == 0;
  }

  lemma LeavingCooldown(cfg: Config, s: Node, exit: Op)
    requires NodeInv(cfg, s) && s.ctl.state == Cooldown && Step(cfg, s, exit).ctl.state != Cooldown
    ensures exit.Dispatch? && s.ctl.queue != [] && MoveOf(Cooldown, s.ctl.queue[0].kind) != Ignore
    ensures s.ctl.queue[0].kind == CooldownExpired ==>
              s.ctl.timers.cooldown.None? && TallyOf(s.ctl.queue).cool == 1 && s.ctl.enteredAt + cfg.CooldownLen() <= s.ctl.now
  {
    StateChangesOnlyByMove(cfg, s, exit);
    TallyPop(s.ctl.queue);
  }

  predicate CooldownIsOver(c: Control, since: nat, len: nat) {
    && c.queue != []
    && var k := c.queue[0].kind;
       k == TamperDetected || IsBatteryDown(k) ||
       (k == CooldownExpired && c.timers.cooldown.None? && Places(c.queue, CoolEnd) == {0} && c.now >= since + len)
  }

  lemma ExpiryIsOnlyPlace(q: seq<Event>)
    requires q != [] && q[0].kind == CooldownExpired && TallyOf(q).cool == 1
    ensures Places(q, CoolEnd) == {0}
  {
    TallyCounts(q);
    OnlyPlace(q);
  }

  lemma CooldownExit(cfg: Config, s: Node, exit: Op)
    requires NodeInv(cfg, s) && s.ctl.state == Cooldown && Step(cfg, s, exit).ctl.state != Cooldown
    ensures exit.Dispatch? && CooldownIsOver(s.ctl, s.ctl.enteredAt, cfg.CooldownLen())
  {
    LeavingCooldown(cfg, s, exit);
    if s.ctl.queue[0].kind == CooldownExpired { ExpiryIsOnlyPlace(s.ctl.queue); }
  }

  /** Cooldown is never cut short. A run enters COOLDOWN with step `i` and leaves it with step
      `j`: that step dispatches either a tamper or battery event, or the one expiry of the
      timer started at that very entry, no earlier than the cooldown length after it. */
  lemma CooldownLastsInFull(cfg: Config, trace: seq<Node>, ops: seq<Op>, i: nat, j: nat)
    requires cfg.Valid() && IsTrace(cfg, trace, ops)
    requires i < j < |ops| && CoolsFrom(trace, i, j) && trace[j + 1].ctl.state != Cooldown
    ensures ops[j].Dispatch? && CooldownIsOver(trace[j].ctl, trace[i + 1].ctl.now, cfg.CooldownLen())
  {
    EntryStands(cfg, trace, ops, i, j);
    TraceKeepsNode(cfg, trace, ops, j);
    CooldownExit(cfg, trace[j], ops[j]);
  }

  // Progress

  function EventOf(t: Timer): Kind {
    match t
    case CooldownTimer => CooldownExpired
    case TxTimer => TxTimeout
    case DwellTimer => ArmedTimeout
    case InactivityTimer => InactivityTimeout
    case FallbackTimer => RtcWakeup
    case StopTimer => TxComplete
  }

  /** The firmware will end the current state without help from outside: an event of its
      own that ends it is queued, or a pending timer or the alarm will post one. */
  ghost predicate OwnWake(c: Control) {
    || (exists i :: 0 <= i < |c.queue| && !FromEnvironment(c.queue[i].kind) && MoveOf(c.state, c.queue[i].kind) != Ignore)
    || (exists t :: Deadline(c.timers, t).Some? && MoveOf(c.state, EventOf(t)) != Ignore)
    || (c.alarm && MoveOf(c.state, RtcWakeup) != Ignore)
  }

  lemma QueuedWakes(c: Control, k: Kind)
    requires Has(c.queue, k) && !FromEnvironment(k) && MoveOf(c.state, k) != Ignore
    ensures OwnWake(c)
  {
    var i :| 0 <= i < |c.queue| && c.queue[i].kind == k;
  }

  lemma PendingWakes(c: Control, t: Timer)
    requires Deadline(c.timers, t).Some? && MoveOf(c.state, EventOf(t)) != Ignore
    ensures OwnWake(c)
  {
  }

  lemma TokenWakes(c: Control, k: Class)
    requires |Places(c.queue, k)| > 0 && k != Plain
    requires forall e: Kind :: ClassOf(e) == k ==> MoveOf(c.state, e) != Ignore && !FromEnvironment(e)
    ensures OwnWake(c)
  {
    var i :| i in Places(c.queue, k);
    QueuedWakes(c, c.queue[i].kind);
  }

  lemma WaitingStatesWake(c: Control)
    requires Awake(c) && c.drops == 0 && (c.state == Armed || c.state == LightSleep || c.state == DeepSleep)
    ensures OwnWake(c)
  {
    match c.state
    case Armed =>
      if c.timers.dwell.Some? { PendingWakes(c, DwellTimer); } else { QueuedWakes(c, ArmedTimeout); }
    case LightSleep =>
      if c.timers.inactivity.Some? { PendingWakes(c, InactivityTimer); } else { QueuedWakes(c, InactivityTimeout); }
    case DeepSleep =>
      if c.timers.fallback.Some? { PendingWakes(c, FallbackTimer); } else if !c.alarm { QueuedWakes(c, RtcWakeup); }
  }

  /** The token a state waits for */
  function TokenOf(c: Control, l: Tally): Class {
    match c.state
    case Boot => InitToken
    case Calibrating => BaselineToken
    case Signing => if l.signed > 0 then SignedToken else UnsignedToken
    case Fault => RecoveryToken
    case _ => Plain
  }

  lemma TokenIsQueued(c: Control, len: nat)
    requires Core(c, len) && c.drops == 0 && TokenOf(c, TallyOf(c.queue)) != Plain
    ensures |Places(c.queue, TokenOf(c, TallyOf(c.queue)))| > 0
  {
    TallyCounts(c.queue);
  }

  lemma TokenMoves(c: Control, l: Tally, k: Kind)
    requires TokenOf(c, l) != Plain && ClassOf(k) == TokenOf(c, l)
    ensures MoveOf(c.state, k) != Ignore && !FromEnvironment(k)
  {
  }

  lemma TokenStatesWake(c: Control, len: nat)
    requires Core(c, len) && c.drops == 0 && TokenOf(c, TallyOf(c.queue)) != Plain
    ensures OwnWake(c)
  {
    var l := TallyOf(c.queue);
    TokenIsQueued(c, len);
    forall e: Kind | ClassOf(e) == TokenOf(c, l) ensures MoveOf(c.state, e) != Ignore && !FromEnvironment(e) {
      TokenMoves(c, l, e);
    }
    TokenWakes(c, TokenOf(c, l));
  }

  lemma TransmittingWakes(c: Control, len: nat)
    requires Core(c, len) && c.drops == 0 && c.state == Transmitting
    ensures OwnWake(c)
  {
    if c.timers.stop.Some? {
      PendingWakes(c, StopTimer);
    } else {
      TallyCounts(c.queue);
      TokenWakes(c, Outcome);
    }
  }

  lemma CooldownWakes(c: Control, len: nat)
    requires Core(c, len) && c.drops == 0 && c.state == Cooldown
    ensures OwnWake(c)
  {
    if c.timers.cooldown.Some? {
      PendingWakes(c, CooldownTimer);
    } else {
      TallyCounts(c.queue);
      TokenWakes(c, CoolEnd);
    }
  }

  lemma LowBatteryWaitsForOthers(c: Control)
    requires c.state == LowBattery
    ensures !OwnWake(c)
  {
  }

  /** No run gets stuck: as long as no post was refused, every state but LOW_BATTERY has its
      own way out, and LOW_BATTERY never has one. */
  lemma NeverStuck(cfg: Config, s: Node)
    requires cfg.Valid() && Reachable(cfg, s) && s.ctl.drops == 0
    ensures OwnWake(s.ctl) <==> s.ctl.state != LowBattery
  {
    var c, len := s.ctl, cfg.CooldownLen();
    ReachableKeepsNode(cfg, s);
    ReachableIsAwake(cfg, s);
    match c.state
    case LowBattery => LowBatteryWaitsForOthers(c);
    case Armed => WaitingStatesWake(c);
    case LightSleep => WaitingStatesWake(c);
    case DeepSleep => WaitingStatesWake(c);
    case Transmitting => TransmittingWakes(c, len);
    case Cooldown => CooldownWakes(c, len);
    case EventDetected => assert false;
    case _ => TokenStatesWake(c, len);
  }

  // Data

  lemma LogOfReachable(cfg: Config, s: Node)
    requires cfg.Valid() && Reachable(cfg, s)
    ensures LogOk(cfg, s.pipe.log) && s.pipe.sequence == |s.pipe.log| % WORD
    ensures s.pipe.log != [] && Last(s.pipe).fate == InProgress ==> s.ctl.state == Signing
  {
    ReachableKeepsNode(cfg, s);
  }

  /** Every frame that went on air carries a signed record, and that record says what the
      event latched for its pipeline was, under that pipeline's sequence number. */
  lemma EveryFrameCarriesItsEvent(cfg: Config, s: Node, k: nat)
    requires cfg.Valid() && Reachable(cfg, s) && k < |s.pipe.log| && s.pipe.log[k].fate.Advertised?
    ensures var entry := s.pipe.log[k];
            && Carries(cfg.crypto, cfg.key, entry.fate.frame, entry.ler)
            && entry.ler.Sized() && Records(entry.ler, cfg.addr, (k + 1) % 0x1_0000_0000, entry.event)
  {
    LogOfReachable(cfg, s);
    assert EntryOk(cfg, s.pipe.log[k], k);
    RecordOfEvent(cfg.addr, SequenceOf(k), s.pipe.log[k].event);
  }

  lemma DispatchCarries(cfg: Config, s: Node, hw: Hw, arrivals: seq<Event>)
    requires s.ctl.queue != []
    ensures Handle(cfg, s, hw, arrivals).pipe ==
              Carry(cfg, s.pipe, MoveOf(s.ctl.state, s.ctl.queue[0].kind), s.ctl.queue[0], hw, s.ctl.now)
  {
    ArrivalsLeaveState(s.ctl.(queue := s.ctl.queue[1..]), arrivals);
  }

  lemma OnlyBreachesAreDetected(st: State, k: Kind)
    ensures MoveOf(st, k) == Detect ==> IsBreach(k)
  {
  }

  lemma TimeOnlyPasses(cfg: Config, s: Node, op: Op)
    ensures Step(cfg, s, op).ctl.now == s.ctl.now + (if op.Advance? then op.ms else 0)
  {
    if op.Dispatch? && s.ctl.queue != [] {
      ArrivalsLeaveState(s.ctl.(queue := s.ctl.queue[1..]), op.arrivals);
      MakeStampsEntry(Take(s.ctl, op.arrivals), MoveOf(s.ctl.state, s.ctl.queue[0].kind), cfg.CooldownLen(),
                      ResultsOf(cfg, s.pipe, s.ctl.queue[0], op.hw));
    }
  }

  /** The event and the record that are latched are those of the latest pipeline. */
  predicate Latched(p: Pipe) { p.log != [] ==> p.lastEvent == Last(p).event && p.lastLer == Last(p).ler }

  lemma MarkKeepsLatch(p: Pipe, fate: Fate)
    requires Latched(p)
    ensures Latched(Mark(p, fate))
  {
  }

  lemma SignKeepsLatch(cfg: Config, p: Pipe, e: Event, hw: Hw)
    ensures Latched(Sign(cfg, p, e, hw))
  {
    var b := Begin(cfg, p, e);
    MarkKeepsLatch(b, SignFailed);
    MarkKeepsLatch(b.(lastLf := Built(cfg, b, hw).1), SignFailed);
  }

  lemma LoadKeepsLatch(p: Pipe, hw: Hw, now: nat)
    requires Latched(p)
    ensures Latched(Load(p, hw, now))
  {
    MarkKeepsLatch(p, AdvFailed);
    MarkKeepsLatch(p.(lfBuf := p.lastLf), AdvFailed);
    MarkKeepsLatch(p.(lfBuf := p.lastLf), Advertised(p.lastLf, now));
  }

  lemma StepKeepsLatch(cfg: Config, s: Node, op: Op)
    requires Latched(s.pipe)
    ensures Latched(Step(cfg, s, op).pipe)
  {
    if op.Dispatch? && s.ctl.queue != [] {
      DispatchCarries(cfg, s, op.hw, op.arrivals);
      SignKeepsLatch(cfg, s.pipe, s.ctl.queue[0], op.hw);
      LoadKeepsLatch(s.pipe, op.hw, s.ctl.now);
    }
  }

  lemma {:induction false} TraceIsLatched(cfg: Config, trace: seq<Node>, ops: seq<Op>, i: nat)
    requires IsTrace(cfg, trace, ops) && i <= |ops|
    ensures Latched(trace[i].pipe)
  {
    if i > 0 {
      TraceIsLatched(cfg, trace, ops, i - 1);
      StepKeepsLatch(cfg, trace[i - 1], ops[i - 1]);
    }
  }

  /** Nothing overwrites the latched event: it stays that of the latest pipeline, and in
      TRANSMITTING the radio holds the frame of the record built from it. */
  lemma RadioHoldsTheLatchedEvent(cfg: Config, s: Node)
    requires cfg.Valid() && Reachable(cfg, s)
    ensures Latched(s.pipe)
    ensures s.ctl.state == Transmitting ==>
              s.pipe.log != [] && Records(s.pipe.lastLer, cfg.addr, s.pipe.sequence, s.pipe.lastEvent) &&
              Carries(cfg.crypto, cfg.key, s.pipe.lfBuf, s.pipe.lastLer)
  {
    ReachableKeepsNode(cfg, s);
    var trace, ops :| IsTrace(cfg, trace, ops) && s == trace[|ops|];
    TraceIsLatched(cfg, trace, ops, |ops|);
    if s.ctl.state == Transmitting {
      assert EntryOk(cfg, s.pipe.log[|s.pipe.log| - 1], |s.pipe.log| - 1);
      RecordOfEvent(cfg.addr, s.pipe.sequence, s.pipe.lastEvent);
    }
  }

  /** Within a boot of fewer than 2^32 pipelines every sequence number up to the counter
      belongs to exactly one pipeline, whose frame was advertised, or failed to be signed,
      or failed to go on air, or is being signed now. So numbers on air strictly increase,
      and each gap is a pipeline that failed. */
  lemma EveryNumberIsAccountedFor(cfg: Config, s: Node)
    requires cfg.Valid() && Reachable(cfg, s) && |s.pipe.log| < WORD
    ensures var log := s.pipe.log;
            && s.pipe.sequence == |log|
            && (forall k :: 0 <= k < |log| ==> log[k].ler.sequence == k + 1)
            && (forall k :: 0 <= k < |log| ==>
                  log[k].fate == InProgress ==> k == |log| - 1 && s.ctl.state == Signing)
  {
    LogOfReachable(cfg, s);
    NumbersOfLog(cfg, s.pipe);
  }

  lemma NumbersOfLog(cfg: Config, p: Pipe)
    requires LogOk(cfg, p.log) && |p.log| < WORD
    ensures forall k :: 0 <= k < |p.log| ==> p.log[k].ler.sequence == k + 1
    ensures forall k :: 0 <= k < |p.log| && p.log[k].fate == InProgress ==> k == |p.log| - 1
  {
    forall k | 0 <= k < |p.log| ensures p.log[k].ler.sequence == k + 1 {
      assert EntryOk(cfg, p.log[k], k);
    }
  }

  /** What is on air went there in the order of the numbers, and not in the future. */
  predicate InOrder(p: Pipe, now: nat) {
    && (forall k :: 0 <= k < |p.log| && p.log[k].fate.Advertised? ==> p.log[k].fate.at <= now)
    && (forall i, j :: 0 <= i < j < |p.log| && p.log[i].fate.Advertised? && p.log[j].fate.Advertised? ==>
          p.log[i].fate.at <= p.log[j].fate.at)
  }

  lemma MarkKeepsOrder(p: Pipe, fate: Fate, now: nat)
    requires InOrder(p, now) && (fate.Advertised? ==> fate.at == now)
    ensures InOrder(Mark(p, fate), now)
  {
  }

  lemma BeginKeepsOrder(cfg: Config, p: Pipe, e: Event, now: nat)
    requires InOrder(p, now)
    ensures InOrder(Begin(cfg, p, e), now)
  {
    var log := Begin(cfg, p, e).log;
    assert forall k :: 0 <= k < |log| && log[k].fate.Advertised? ==> k < |p.log| && log[k] == p.log[k];
  }

  lemma SignKeepsOrder(cfg: Config, p: Pipe, e: Event, hw: Hw, now: nat)
    requires InOrder(p, now)
    ensures InOrder(Sign(cfg, p, e, hw), now)
  {
    var b := Begin(cfg, p, e);
    BeginKeepsOrder(cfg, p, e, now);
    MarkKeepsOrder(b, SignFailed, now);
    MarkKeepsOrder(b.(lastLf := Built(cfg, b, hw).1), SignFailed, now);
  }

  lemma LoadKeepsOrder(p: Pipe, hw: Hw, now: nat)
    requires InOrder(p, now)
    ensures InOrder(Load(p, hw, now), now)
  {
    MarkKeepsOrder(p, AdvFailed, now);
    MarkKeepsOrder(p.(lfBuf := p.lastLf), AdvFailed, now);
    MarkKeepsOrder(p.(lfBuf := p.lastLf), Advertised(p.lastLf, now), now);
  }

  lemma StepKeepsOrder(cfg: Config, s: Node, op: Op)
    requires InOrder(s.pipe, s.ctl.now)
    ensures InOrder(Step(cfg, s, op).pipe, Step(cfg, s, op).ctl.now)
  {
    TimeOnlyPasses(cfg, s, op);
    if op.Dispatch? && s.ctl.queue != [] {
      DispatchCarries(cfg, s, op.hw, op.arrivals);
      SignKeepsOrder(cfg, s.pipe, s.ctl.queue[0], op.hw, s.ctl.now);
      LoadKeepsOrder(s.pipe, op.hw, s.ctl.now);
    }
  }

  lemma OrderAlong(cfg: Config, s: Node, op: Op, t: Node)
    requires t == Step(cfg, s, op) && InOrder(s.pipe, s.ctl.now)
    ensures InOrder(t.pipe, t.ctl.now)
  {
    StepKeepsOrder(cfg, s, op);
  }

  lemma {:induction false} TraceIsInOrder(cfg: Config, trace: seq<Node>, ops: seq<Op>, i: nat)
    requires IsTrace(cfg, trace, ops) && i <= |ops|
    ensures InOrder(trace[i].pipe, trace[i].ctl.now)
  {
    if i == 0 {
      var skew :| trace[0] == Init(skew);
    } else {
      TraceIsInOrder(cfg, trace, ops, i - 1);
      OrderAlong(cfg, trace[i - 1], ops[i - 1], trace[i]);
    }
  }

  /** Within a boot later pipelines have greater numbers and go on air no earlier. */
  lemma AdvertisedNumbersIncrease(cfg: Config, s: Node, i: nat, j: nat)
    requires cfg.Valid() && Reachable(cfg, s) && i < j < |s.pipe.log| < WORD
    ensures s.pipe.log[i].ler.sequence < s.pipe.log[j].ler.sequence
    ensures s.pipe.log[i].fate.Advertised? && s.pipe.log[j].fate.Advertised? ==>
              s.pipe.log[i].fate.at <= s.pipe.log[j].fate.at <= s.ctl.now
  {
    EveryNumberIsAccountedFor(cfg, s);
    var trace, ops :| IsTrace(cfg, trace, ops) && s == trace[|ops|];
    TraceIsInOrder(cfg, trace, ops, |ops|);
  }

  /** `d` continues `p`: at most one pipeline is added, and decided fates stand. */
  predicate Continues(p: Pipe, d: Pipe) {
    && |p.log| <= |d.log| <= |p.log| + 1
    && forall k :: 0 <= k < |p.log| ==>
         d.log[k].event == p.log[k].event && d.log[k].ler == p.log[k].ler &&
         (p.log[k].fate != InProgress ==> d.log[k].fate == p.log[k].fate)
  }

  lemma LoadContinues(p: Pipe, hw: Hw, now: nat)
    requires p.log != [] && Last(p).fate == InProgress
    ensures Continues(p, Load(p, hw, now)) && |Load(p, hw, now).log| == |p.log|
  {
  }

  lemma SignContinues(cfg: Config, p: Pipe, e: Event, hw: Hw)
    ensures var d := Sign(cfg, p, e, hw); Continues(p, d) && |d.log| == |p.log| + 1 && Last(d).event == e
  {
  }

  /** What one event does to the data: only a breach that is acted on begins a pipeline. */
  predicate Advances(p: Pipe, d: Pipe, e: Event, move: Move) {
    && Continues(p, d)
    && (|d.log| > |p.log| <==> move == Detect)
    && (move == Detect ==> Last(d).event == e)
    && (move != Detect && move != Transmit ==> d == p)
  }

  lemma TransmitFindsItsPipeline(cfg: Config, s: Node)
    requires NodeInv(cfg, s) && s.ctl.queue != [] && MoveOf(s.ctl.state, s.ctl.queue[0].kind) == Transmit
    ensures s.pipe.log != [] && Last(s.pipe).fate == InProgress
  {
    TallyPop(s.ctl.queue);
  }

  lemma CarryContinues(cfg: Config, s: Node, hw: Hw)
    requires NodeInv(cfg, s) && s.ctl.queue != []
    ensures var e := s.ctl.queue[0]; var move := MoveOf(s.ctl.state, e.kind);
            Advances(s.pipe, Carry(cfg, s.pipe, move, e, hw, s.ctl.now), e, move)
  {
    match MoveOf(s.ctl.state, s.ctl.queue[0].kind)
    case Detect => SignContinues(cfg, s.pipe, s.ctl.queue[0], hw);
    case Transmit =>
      TransmitFindsItsPipeline(cfg, s);
      LoadContinues(s.pipe, hw, s.ctl.now);
    case _ =>
  }

  /** A new pipeline is begun only by a dispatched breach, which becomes its event; a fate
      once decided stands; and only a breach that is acted on and the start of a
      transmission touch the data at all. */
  lemma PipelinesAreFaithful(cfg: Config, s: Node, op: Op)
    requires NodeInv(cfg, s)
    ensures var p, d := s.pipe, Step(cfg, s, op).pipe;
            if op.Dispatch? && s.ctl.queue != []
            then Advances(p, d, s.ctl.queue[0], MoveOf(s.ctl.state, s.ctl.queue[0].kind))
            else d == p
    ensures |Step(cfg, s, op).pipe.log| > |s.pipe.log| ==> s.ctl.queue != [] && IsBreach(s.ctl.queue[0].kind)
  {
    if op.Dispatch? && s.ctl.queue != [] {
      DispatchCarries(cfg, s, op.hw, op.arrivals);
      CarryContinues(cfg, s, op.hw);
      OnlyBreachesAreDetected(s.ctl.state, s.ctl.queue[0].kind);
    }
  }

  /** What begins a pipeline is one of the four breaches. */
  predicate IsOneOfFour(k: Kind) {
    k == PressureBreach || k == MotionDetected || k == DualBreach || k == TamperDetected
  }

  predicate LogsBreaches(log: seq<Pipeline>) { forall k :: 0 <= k < |log| ==> IsOneOfFour(log[k].event.kind) }

  lemma ContinuedLogsBreaches(p: Pipe, d: Pipe)
    requires LogsBreaches(p.log) && Continues(p, d)
    requires |d.log| > |p.log| ==> IsOneOfFour(Last(d).event.kind)
    ensures LogsBreaches(d.log)
  {
  }

  lemma BreachesAlong(cfg: Config, s: Node, op: Op, t: Node)
    requires NodeInv(cfg, s) && t == Step(cfg, s, op) && LogsBreaches(s.pipe.log)
    ensures LogsBreaches(t.pipe.log)
  {
    PipelinesAreFaithful(cfg, s, op);
    if t.pipe != s.pipe { ContinuedLogsBreaches(s.pipe, t.pipe); }
  }

  lemma NextLogsBreaches(cfg: Config, trace: seq<Node>, ops: seq<Op>, i: nat)
    requires cfg.Valid() && IsTrace(cfg, trace, ops) && i < |ops| && LogsBreaches(trace[i].pipe.log)
    ensures LogsBreaches(trace[i + 1].pipe.log)
  {
    TraceKeepsNode(cfg, trace, ops, i);
    BreachesAlong(cfg, trace[i], ops[i], trace[i + 1]);
  }

  lemma InitLogsNothing(skew: Option<u32>)
    ensures Init(skew).pipe.log == []
  {
  }

  lemma {:induction false} TraceLogsBreaches(cfg: Config, trace: seq<Node>, ops: seq<Op>, i: nat)
    requires cfg.Valid() && IsTrace(cfg, trace, ops) && i <= |ops|
    ensures LogsBreaches(trace[i].pipe.log)
  {
    if i == 0 {
      var skew :| trace[0] == Init(skew);
      InitLogsNothing(skew);
    } else {
      TraceLogsBreaches(cfg, trace, ops, i - 1);
      NextLogsBreaches(cfg, trace, ops, i - 1);
    }
  }

  lemma OnlyBreachesAreRecorded(cfg: Config, s: Node, k: nat)
    requires cfg.Valid() && Reachable(cfg, s) && k < |s.pipe.log|
    ensures IsOneOfFour(s.pipe.log[k].event.kind)
  {
    var trace, ops :| IsTrace(cfg, trace, ops) && s == trace[|ops|];
    TraceLogsBreaches(cfg, trace, ops, |ops|);
  }

  // What the node does not do

  /** BOOT uses up every event but INIT_COMPLETE without any effect, so also the tamper
      event that is posted for a clock skew before the state machine starts. */
  lemma SkewTamperHasNoEffect(cfg: Config, s: Node, hw: Hw, arrivals: seq<Event>)
    requires s.ctl.state == Boot && s.ctl.queue != [] && s.ctl.queue[0].kind != InitComplete
    ensures Step(cfg, s, Dispatch(hw, arrivals)) == Node(Take(s.ctl, arrivals), s.pipe)
  {
    ArrivalsLeaveState(s.ctl.(queue := s.ctl.queue[1..]), arrivals);
  }
}
