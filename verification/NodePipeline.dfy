/** What every step keeps of the data: each pipeline's record is built from its own event,
    and what is advertised is the frame sealed for that record. */
module NodePipeline {
  import opened Base
  import opened Events
  import opened NodeCrypto
  import opened NodeModel
  import opened NodeInvariants

  function SequenceOf(k: nat): u32 { (k + 1) % WORD }

  predicate EntryOk(cfg: Config, entry: Pipeline, k: nat) {
    && entry.ler == BuildLer(cfg.addr, SequenceOf(k), entry.event)
    && (entry.fate.Advertised? ==> Carries(cfg.crypto, cfg.key, entry.fate.frame, entry.ler))
  }

  predicate LogOk(cfg: Config, log: seq<Pipeline>) {
    && (forall k :: 0 <= k < |log| ==> EntryOk(cfg, log[k], k))
    && (forall k :: 0 <= k < |log| - 1 ==> log[k].fate != InProgress)
  }

  function Last(p: Pipe): Pipeline
    requires p.log != []
  {
    p.log[|p.log| - 1]
  }

  predicate PipeInv(cfg: Config, p: Pipe, st: State, l: Tally) {
    && LogOk(cfg, p.log)
    && p.sequence == |p.log| % WORD
    && (p.log != [] && Last(p).fate == InProgress ==>
          st == Signing && Carries(cfg.crypto, cfg.key, p.lastLf, Last(p).ler))
    && (st == Signing ==>
          && p.log != [] && p.lastEvent == Last(p).event && p.lastLer == Last(p).ler
          && (l.signed > 0 ==> Last(p).fate == InProgress)
          && (l.unsigned > 0 ==> Last(p).fate == SignFailed))
    && (st == Transmitting ==> p.log != [] && Last(p).fate.Advertised? && Last(p).fate.frame == p.lfBuf)
  }

  lemma MarkKeepsLog(cfg: Config, p: Pipe, fate: Fate)
    requires p.log != [] && LogOk(cfg, p.log)
    requires fate.Advertised? ==> Carries(cfg.crypto, cfg.key, fate.frame, Last(p).ler)
    ensures LogOk(cfg, Mark(p, fate).log) && |Mark(p, fate).log| == |p.log|
    ensures Last(Mark(p, fate)) == Last(p).(fate := fate)
  {
  }

  lemma SequenceSteps(n: nat)
    ensures (n % WORD + 1) % WORD == SequenceOf(n)
    ensures SequenceOf(n) == (n + 1) % WORD
  {
  }

  lemma LogAppends(cfg: Config, log: seq<Pipeline>, entry: Pipeline)
    requires LogOk(cfg, log) && (log != [] ==> log[|log| - 1].fate != InProgress) && EntryOk(cfg, entry, |log|)
    ensures LogOk(cfg, log + [entry])
  {
    var d := log + [entry];
    forall k | 0 <= k < |d| ensures EntryOk(cfg, d[k], k) {
      if k < |log| { assert d[k] == log[k] && EntryOk(cfg, log[k], k); }
    }
  }

  lemma BeginKeepsLog(cfg: Config, p: Pipe, e: Event)
    requires LogOk(cfg, p.log) && p.sequence == |p.log| % WORD
    requires p.log != [] ==> Last(p).fate != InProgress
    ensures var b := Begin(cfg, p, e);
            LogOk(cfg, b.log) && b.sequence == |b.log| % WORD && |b.log| == |p.log| + 1 &&
            Last(b) == Pipeline(e, b.lastLer, InProgress)
  {
    var b := Begin(cfg, p, e);
    SequenceSteps(|p.log|);
    LogAppends(cfg, p.log, Pipeline(e, b.lastLer, InProgress));
  }

  /** `m` is the tally of the queue before the signing result is posted. */
  lemma SignKeepsPipe(cfg: Config, p: Pipe, e: Event, hw: Hw, m: Tally)
    requires cfg.Valid() && LogOk(cfg, p.log) && p.sequence == |p.log| % WORD
    requires (p.log != [] ==> Last(p).fate != InProgress) && m.signed == m.unsigned == 0
    ensures var q, r := Sign(cfg, p, e, hw), ResultsOf(cfg, p, e, hw);
            if r.signStarted then PipeInv(cfg, q, Signing, Add(m, if r.frameBuilt then SignedToken else UnsignedToken))
            else PipeInv(cfg, q, Fault, m)
    ensures PipeInv(cfg, Sign(cfg, p, e, hw), Signing, m) || !hw.lf.signKeyReady
  {
    var b := Begin(cfg, p, e);
    BeginKeepsLog(cfg, p, e);
    MarkKeepsLog(cfg, b, SignFailed);
    if hw.lf.signKeyReady && hw.innerOk {
      var (rc, lf) := Built(cfg, b, hw);
      MarkKeepsLog(cfg, b.(lastLf := lf), SignFailed);
      if rc == Done {
        assert cfg.crypto.verify(b.lastLer.ToBytes(), cfg.crypto.sign(b.lastLer.ToBytes(), hw.innerRnd));
        BuiltFrameCarries(cfg.crypto, cfg.key, b.lastLer, cfg.crypto.sign(b.lastLer.ToBytes(), hw.innerRnd),
                          hw.innerLen, hw.lf, b.lastLf);
      }
    }
  }

  lemma LoadKeepsPipe(cfg: Config, p: Pipe, hw: Hw, now: nat, l: Tally, m: Tally)
    requires PipeInv(cfg, p, Signing, l) && l.signed > 0
    ensures PipeInv(cfg, Load(p, hw, now), if hw.bleReady && hw.setDataOk && hw.startOk then Transmitting else Fault, m)
  {
    var loaded := p.(lfBuf := p.lastLf);
    MarkKeepsLog(cfg, p, AdvFailed);
    MarkKeepsLog(cfg, loaded, AdvFailed);
    MarkKeepsLog(cfg, loaded, Advertised(loaded.lfBuf, now));
  }

  /** A state change that touches no data: nothing was in progress. */
  lemma ElsewhereKeepsPipe(cfg: Config, p: Pipe, st: State, next: State, l: Tally, m: Tally)
    requires PipeInv(cfg, p, st, l) && next != Signing && next != Transmitting
    requires p.log != [] ==> Last(p).fate != InProgress
    ensures PipeInv(cfg, p, next, m)
  {
  }

  lemma SameStateKeepsPipe(cfg: Config, p: Pipe, st: State, l: Tally, m: Tally)
    requires PipeInv(cfg, p, st, l) && m.signed <= l.signed && m.unsigned <= l.unsigned
    ensures PipeInv(cfg, p, st, m)
  {
  }

  // Whole steps

  /** The state that a move leads to */
  function Target(move: Move, st: State, r: Results): State {
    match move
    case Ignore => st
    case Calibrate => Calibrating
    case Arm => Armed
    case Doze => LightSleep
    case Sleep => DeepSleep
    case Detect => if r.signStarted then Signing else Fault
    case Transmit => if r.adv == Started then Transmitting else Fault
    case Cool => Cooldown
    case Fail => Fault
    case Drain => LowBattery
  }

  lemma MakeReachesTarget(c: Control, move: Move, len: nat, r: Results)
    ensures Settle(Make(c, move, len, r)).state == Target(move, c.state, r)
  {
  }

  lemma SettledTally(e: Effect)
    ensures var l, m := TallyOf(e.ctl.queue), TallyOf(Settle(e).queue);
            m == l || (e.post.Some? && m == Add(l, ClassOf(e.post.value)))
  {
    if e.post.Some? {
      TallyAppend(e.ctl.queue, Internal(e.post.value, e.ctl.now));
    }
  }

  /** Leaving a state other than by a good signing result, no pipeline is in progress. */
  lemma NothingInProgress(cfg: Config, p: Pipe, st: State, l: Tally, k: Kind)
    requires PipeInv(cfg, p, st, l) && MoveOf(st, k) != Ignore && MoveOf(st, k) != Transmit
    requires st == Signing ==> l.unsigned > 0
    ensures p.log != [] ==> Last(p).fate != InProgress
  {
  }

  /** The queue before the handler acts (`m`) and after its post (`n`) */
  predicate Noted(m: Tally, n: Tally, move: Move, r: Results) {
    && (move == Ignore ==> n == m)
    && (move != Ignore ==> m.signed == 0 && m.unsigned == 0)
    && (move == Detect && r.signStarted ==> n == m || n == Add(m, if r.frameBuilt then SignedToken else UnsignedToken))
  }

  lemma DetectKeepsPipe(cfg: Config, p: Pipe, st: State, e: Event, hw: Hw, l: Tally, m: Tally, n: Tally)
    requires cfg.Valid() && PipeInv(cfg, p, st, l) && MoveOf(st, e.kind) == Detect
    requires Noted(m, n, Detect, ResultsOf(cfg, p, e, hw))
    ensures PipeInv(cfg, Sign(cfg, p, e, hw), Target(Detect, st, ResultsOf(cfg, p, e, hw)), n)
  {
    NothingInProgress(cfg, p, st, l, e.kind);
    SignKeepsPipe(cfg, p, e, hw, m);
    if !hw.lf.signKeyReady { ElsewhereKeepsPipe(cfg, Sign(cfg, p, e, hw), Fault, Fault, m, n); }
  }

  lemma CarryKeepsPipe(cfg: Config, p: Pipe, st: State, e: Event, hw: Hw, now: nat, l: Tally, m: Tally, n: Tally)
    requires cfg.Valid() && PipeInv(cfg, p, st, l) && Taken(l, m, ClassOf(e.kind))
    requires Noted(m, n, MoveOf(st, e.kind), ResultsOf(cfg, p, e, hw))
    ensures var move := MoveOf(st, e.kind);
            PipeInv(cfg, Carry(cfg, p, move, e, hw, now), Target(move, st, ResultsOf(cfg, p, e, hw)), n)
  {
    match MoveOf(st, e.kind)
    case Ignore => SameStateKeepsPipe(cfg, p, st, l, m);
    case Transmit => LoadKeepsPipe(cfg, p, hw, now, l, n);
    case Detect => DetectKeepsPipe(cfg, p, st, e, hw, l, m, n);
    case _ =>
      NothingInProgress(cfg, p, st, l, e.kind);
      ElsewhereKeepsPipe(cfg, p, st, Target(MoveOf(st, e.kind), st, ResultsOf(cfg, p, e, hw)), l, n);
  }

  ghost predicate NodeInv(cfg: Config, s: Node) {
    && cfg.Valid()
    && Core(s.ctl, cfg.CooldownLen())
    && PipeOk(cfg, s)
  }

  predicate PipeOk(cfg: Config, s: Node) { PipeInv(cfg, s.pipe, s.ctl.state, TallyOf(s.ctl.queue)) }

  lemma MakePosts(c: Control, move: Move, len: nat, r: Results)
    ensures var post := Make(c, move, len, r).post;
            (move == Ignore ==> post == None) &&
            (move == Detect && r.signStarted ==> post == Some(if r.frameBuilt then SigningComplete else SensorFault))
  {
  }

  lemma PostNotes(l: Tally, n: Tally, post: Option<Kind>, move: Move, r: Results)
    requires n == l || (post.Some? && n == Add(l, ClassOf(post.value)))
    requires move == Ignore ==> post == None
    requires move != Ignore ==> l.signed == 0 && l.unsigned == 0
    requires move == Detect && r.signStarted ==> post == Some(if r.frameBuilt then SigningComplete else SensorFault)
    ensures Noted(l, n, move, r)
  {
  }

  lemma MakeNotes(c: Control, move: Move, len: nat, r: Results)
    requires move != Ignore ==> TallyOf(c.queue).signed == 0 && TallyOf(c.queue).unsigned == 0
    ensures Noted(TallyOf(c.queue), TallyOf(Settle(Make(c, move, len, r)).queue), move, r)
  {
    MakeKeepsQueue(c, move, len, r);
    MakePosts(c, move, len, r);
    SettledTally(Make(c, move, len, r));
    PostNotes(TallyOf(c.queue), TallyOf(Settle(Make(c, move, len, r)).queue), Make(c, move, len, r).post, move, r);
  }

  /** What the handler finds after the event is taken and others have arrived */
  lemma TakeNotes(c: Control, arrivals: seq<Event>, len: nat)
    requires Core(c, len) && c.queue != []
    ensures Grown(c, Take(c, arrivals)) && TallyOf(Take(c, arrivals).queue) == TallyOf(c.queue[1..])
    ensures var m := TallyOf(c.queue[1..]);
            MoveOf(c.state, c.queue[0].kind) != Ignore ==> m.signed == 0 && m.unsigned == 0
  {
    var m := TallyOf(c.queue[1..]);
    TallyPop(c.queue);
    TallyFlags(c.queue[1..]);
    ArrivalsArePlain(c.(queue := c.queue[1..]), arrivals);
    if MoveOf(c.state, c.queue[0].kind) != Ignore {
      LeavingIsQuiet(c, TallyOf(c.queue), m, c.queue[0].kind, len, c.drops == 0);
    }
  }

  lemma DispatchKeepsNode(cfg: Config, s: Node, hw: Hw, arrivals: seq<Event>)
    requires NodeInv(cfg, s) && s.ctl.queue != []
    ensures PipeOk(cfg, Handle(cfg, s, hw, arrivals))
  {
    var c, e := s.ctl, s.ctl.queue[0];
    var t, r := Take(c, arrivals), ResultsOf(cfg, s.pipe, e, hw);
    TallyPop(c.queue);
    TakeNotes(c, arrivals, cfg.CooldownLen());
    MakeNotes(t, MoveOf(c.state, e.kind), cfg.CooldownLen(), r);
    MakeReachesTarget(t, MoveOf(c.state, e.kind), cfg.CooldownLen(), r);
    CarryKeepsPipe(cfg, s.pipe, c.state, e, hw, t.now, TallyOf(c.queue), TallyOf(c.queue[1..]),
                   TallyOf(Settle(Make(t, MoveOf(c.state, e.kind), cfg.CooldownLen(), r)).queue));
  }

  /** The posts of timers and other threads are no signing results. */
  lemma PostKeepsPipe(cfg: Config, s: Node, e: Effect)
    requires PipeOk(cfg, s) && e.ctl.queue == s.ctl.queue && e.ctl.state == s.ctl.state
    requires e.post.Some? ==> ClassOf(e.post.value) != SignedToken && ClassOf(e.post.value) != UnsignedToken
    ensures PipeOk(cfg, WithCtl(s, Settle(e)))
  {
    SettledTally(e);
    SameStateKeepsPipe(cfg, s.pipe, s.ctl.state, TallyOf(e.ctl.queue), TallyOf(Settle(e).queue));
  }

  lemma FireKeepsPipe(cfg: Config, s: Node, t: Timer, ok: bool)
    requires PipeOk(cfg, s)
    ensures PipeOk(cfg, WithCtl(s, Settle(Fire(s.ctl, t, ok))))
  {
    PostKeepsPipe(cfg, s, Fire(s.ctl, t, ok));
  }

  lemma OutsideKeepsPipe(cfg: Config, s: Node, e: Event)
    requires PipeOk(cfg, s) && |s.ctl.queue| <= QUEUE_DEPTH
    ensures PipeOk(cfg, WithCtl(s, Outsider(s.ctl, e)))
  {
    OutsiderIsPlain(s.ctl, e);
  }

  lemma StepKeepsPipe(cfg: Config, s: Node, op: Op)
    requires NodeInv(cfg, s)
    ensures PipeOk(cfg, Step(cfg, s, op))
  {
    match op
    case Dispatch(hw, arrivals) => if s.ctl.queue != [] { DispatchKeepsNode(cfg, s, hw, arrivals); }
    case FireTimer(t, ok) => FireKeepsPipe(cfg, s, t, ok);
    case FireAlarm => PostKeepsPipe(cfg, s, Alarm(s.ctl));
    case Outside(e) => OutsideKeepsPipe(cfg, s, e);
    case Advance(ms) =>
  }

  lemma InitTally(q: seq<Event>, e: Event)
    requires q == [] || (|q| == 1 && ClassOf(q[0].kind) == Plain)
    ensures TallyOf(q + [e]) == Add(EMPTY, ClassOf(e.kind))
  {
    if q != [] {
      TallyPlain([], q[0]);
      assert [] + [q[0]] == q;
    }
    TallyAppend(q, e);
  }

  lemma InitInv(cfg: Config, skew: Option<u32>)
    requires cfg.Valid()
    ensures NodeInv(cfg, Init(skew))
  {
    var s := Init(skew);
    var q := s.ctl.queue[..|s.ctl.queue| - 1];
    assert s.ctl.queue == q + [Internal(InitComplete, 0)];
    InitTally(q, Internal(InitComplete, 0));
    InitShape(s.ctl, Add(EMPTY, InitToken), cfg.CooldownLen());
  }

  lemma InitShape(c: Control, l: Tally, len: nat)
    requires c.state == Boot && c.timers == Timers(None, None, None, None, None, None)
    requires c.enteredAt <= c.now && !c.advCb && c.faultRetries == 0 && l == Add(EMPTY, InitToken)
    ensures Shape(c, l, len, true)
  {
  }

  lemma {:induction false} TraceKeepsNode(cfg: Config, trace: seq<Node>, ops: seq<Op>, i: nat)
    requires cfg.Valid() && IsTrace(cfg, trace, ops) && i <= |ops|
    ensures NodeInv(cfg, trace[i])
  {
    if i == 0 {
      var skew :| trace[0] == Init(skew);
      InitInv(cfg, skew);
    } else {
      TraceKeepsNode(cfg, trace, ops, i - 1);
      StepKeepsCore(cfg, trace[i - 1], ops[i - 1]);
      StepKeepsPipe(cfg, trace[i - 1], ops[i - 1]);
    }
  }

  lemma ReachableKeepsNode(cfg: Config, s: Node)
    requires cfg.Valid() && Reachable(cfg, s)
    ensures NodeInv(cfg, s)
  {
    var trace, ops :| IsTrace(cfg, trace, ops) && s == trace[|ops|];
    TraceKeepsNode(cfg, trace, ops, |ops|);
  }
}
