/** The node's wall clock: which source a boot takes, what is kept in non-volatile storage
    while it runs, and what the comparison of the two at the next boot can find. */
module Rtc {
  import opened Base

  const FLUSH_MS := 60000
  const SKEW_THRESHOLD_S := 300

  datatype Rc = RtcOk | ErrHw | ErrFallback | ErrSkew

  /** What the DS3231 answers at boot */
  datatype Probe = Probe(ready: bool, startOk: bool, osf: bool, read: Option<u32>)

  /** `nvs` is the stored epoch, 0 for none; `due` the uptime of the next periodic flush. */
  datatype Clock = Clock(bootEpoch: u32, bootUptime: nat, valid: bool, nvs: u32, due: nat)

  // Boot

  /** The hardware time, where it can be read and its oscillator has not been stopped */
  function HwTime(p: Probe): Option<u32> { if p.ready && p.startOk && !p.osf then p.read else None }

  function Distance(a: int, b: int): nat { if a > b then a - b else b - a }

  /** `sets` is what the boot writes to the DS3231. */
  datatype Boot = Boot(clock: Clock, rc: Rc, sets: Option<u32>)

  /** The clock and the return code of a boot that finds `nvs` stored. `wrote` tells of each
      of the two attempts to store the epoch whether it works. */
  function Booted(nvs: u32, p: Probe, provision: u32, wrote: (bool, bool), uptime: nat): Boot {
    var hw := HwTime(p);
    if hw.Some? then
      Boot(Clock(hw.value, uptime, true, if hw.value > 0 && wrote.1 then hw.value else nvs, uptime + FLUSH_MS),
           if nvs > 0 && Distance(hw.value, nvs) > SKEW_THRESHOLD_S then ErrSkew else RtcOk, None)
    else if nvs > 0 then
      Boot(Clock(nvs, uptime, true, nvs, uptime + FLUSH_MS), ErrFallback, Some(nvs))
    else if provision != 0 then
      Boot(Clock(provision, uptime, false, if wrote.0 || wrote.1 then provision else nvs, uptime + FLUSH_MS), ErrFallback, Some(provision))
    else
      Boot(Clock(0, uptime, false, nvs, uptime + FLUSH_MS), ErrHw, None)
  }

  /** The table of a boot: the chip decides if it can be read; otherwise the stored epoch,
      which then also sets the chip; otherwise the provisioning constant, which sets the chip
      but is not trusted; otherwise nothing. */
  lemma BootTable(nvs: u32, p: Probe, provision: u32, wrote: (bool, bool), uptime: nat)
    ensures var b := Booted(nvs, p, provision, wrote, uptime);
            var c := b.clock;
            var chip := p.ready && p.startOk && !p.osf && p.read.Some?;
            && c.bootUptime == uptime && c.due == uptime + 60000 && (c.valid <==> chip || nvs > 0)
            && (b.rc == ErrSkew <==> chip && nvs > 0 && (p.read.value - nvs > 300 || nvs - p.read.value > 300))
            && (b.rc == RtcOk <==> chip && b.rc != ErrSkew)
            && (b.rc == ErrFallback <==> !chip && (nvs > 0 || provision != 0))
            && (b.rc == ErrHw <==> !chip && nvs == 0 && provision == 0)
            && c.bootEpoch == (if chip then p.read.value else if nvs > 0 then nvs else provision)
            && b.sets == (if chip || c.bootEpoch == 0 then None else Some(c.bootEpoch))
            && c.nvs == (if c.bootEpoch > 0 && (wrote.1 || (!chip && wrote.0)) then c.bootEpoch else nvs)
  {
  }

  // While running

  function Epoch(c: Clock, uptime: nat): u32
    requires uptime >= c.bootUptime
  {
    (c.bootEpoch + (uptime - c.bootUptime) / 1000 % WORD) % WORD
  }

  /** The epoch counts whole seconds since boot, in 32 bits. */
  lemma EpochCounts(c: Clock, uptime: nat)
    requires uptime >= c.bootUptime
    ensures Epoch(c, uptime) == (c.bootEpoch + (uptime - c.bootUptime) / 1000) % 0x1_0000_0000
  {
    var n := (uptime - c.bootUptime) / 1000;
    assert n == n / WORD * WORD + n % WORD;
    WordsDropOut(c.bootEpoch + n % WORD, n / WORD);
  }

  lemma {:induction false} WordsDropOut(n: nat, k: nat)
    ensures (n + k * WORD) % WORD == n % WORD
  {
    if k > 0 {
      WordsDropOut(n, k - 1);
      assert n + k * WORD == n + (k - 1) * WORD + WORD;
    }
  }

  function TimestampMs(c: Clock, uptime: nat): nat
    requires uptime >= c.bootUptime
  {
    c.bootEpoch * 1000 + (uptime - c.bootUptime)
  }

  /** The running clock with its uptime */
  datatype Session = Session(clock: Clock, uptime: nat)

  /** `Sleep` is the extra flush before the deep-sleep alarm is set. */
  datatype RtcOp = Pass(ms: nat) | FlushDue(ok: bool) | Sleep(ok: bool)

  /** Time passes up to the next flush, which then runs before time goes on. */
  function Step(s: Session, op: RtcOp): Session
    requires s.uptime >= s.clock.bootUptime
  {
    var c := s.clock;
    match op
    case Pass(ms) => if s.uptime + ms <= c.due then s.(uptime := s.uptime + ms) else s
    case FlushDue(ok) =>
      if s.uptime != c.due then s
      else s.(clock := c.(nvs := if ok then Epoch(c, s.uptime) else c.nvs, due := s.uptime + FLUSH_MS))
    case Sleep(ok) =>
      if c.valid && c.bootEpoch != 0 && ok then s.(clock := c.(nvs := Epoch(c, s.uptime))) else s
  }

  /** Each step of a session: the flush of the timer stores the epoch and is due again a
      minute later; the flush before sleep stores it only of a clock that is set. */
  lemma StepsStore(s: Session, ms: nat, ok: bool)
    requires s.uptime >= s.clock.bootUptime
    ensures var c, e := s.clock, (s.clock.bootEpoch + (s.uptime - s.clock.bootUptime) / 1000) % 0x1_0000_0000;
            && Step(s, Pass(ms)) == (if s.uptime + ms <= c.due then s.(uptime := s.uptime + ms) else s)
            && Step(s, FlushDue(ok)) ==
                 (if s.uptime != c.due then s
                  else s.(clock := c.(nvs := if ok then e else c.nvs, due := c.due + 60000)))
            && Step(s, Sleep(ok)) == (if c.valid && c.bootEpoch != 0 && ok then s.(clock := c.(nvs := e)) else s)
  {
    EpochCounts(s.clock, s.uptime);
  }

  function Run(s: Session, ops: seq<RtcOp>): (r: Session)
    requires s.uptime >= s.clock.bootUptime
    ensures r.uptime >= r.clock.bootUptime == s.clock.bootUptime && r.clock.bootEpoch == s.clock.bootEpoch
  {
    if ops == [] then s else Step(Run(s, ops[..|ops| - 1]), ops[|ops| - 1])
  }

  predicate WritesWork(ops: seq<RtcOp>) { forall op <- ops :: (op.FlushDue? ==> op.ok) && (op.Sleep? ==> op.ok) }

  predicate NoWrap(s: Session)
    requires s.uptime >= s.clock.bootUptime
  {
    TimestampMs(s.clock, s.uptime) / 1000 < WORD
  }

  lemma EpochIsTimestamp(c: Clock, uptime: nat)
    requires uptime >= c.bootUptime && NoWrap(Session(c, uptime))
    ensures Epoch(c, uptime) == TimestampMs(c, uptime) / 1000
  {
    var e := (uptime - c.bootUptime) / 1000;
    assert TimestampMs(c, uptime) / 1000 == c.bootEpoch + e;
  }

  lemma EpochIsTimestampUnlessWrapped(c: Clock, uptime: nat)
    requires uptime >= c.bootUptime
    ensures NoWrap(Session(c, uptime)) ==> Epoch(c, uptime) == TimestampMs(c, uptime) / 1000
  {
    if NoWrap(Session(c, uptime)) { EpochIsTimestamp(c, uptime); }
  }

  // When the stored epoch was stored

  /** A session seen from its stores alone, in milliseconds since the clock was anchored:
      the present, the next periodic flush and the last store that worked. */
  datatype Timing = Timing(up: nat, due: nat, stored: Option<nat>)

  /** `sleeps` tells whether the flush before deep sleep stores anything. */
  function Tick(m: Timing, op: RtcOp, sleeps: bool): Timing {
    match op
    case Pass(ms) => if m.up + ms <= m.due then m.(up := m.up + ms) else m
    case FlushDue(ok) => if m.up != m.due then m else Timing(m.up, m.up + FLUSH_MS, if ok then Some(m.up) else m.stored)
    case Sleep(ok) => if sleeps && ok then m.(stored := Some(m.up)) else m
  }

  /** `atBoot` is `Some(0)` when the boot has stored the epoch it anchored the clock on. */
  function Ticks(atBoot: Option<nat>, ops: seq<RtcOp>, sleeps: bool): Timing {
    if ops == [] then Timing(0, FLUSH_MS, atBoot)
    else Tick(Ticks(atBoot, ops[..|ops| - 1], sleeps), ops[|ops| - 1], sleeps)
  }

  /** A clock at boot, whose stored epoch is its own exactly if `atBoot` says so */
  predicate Anchored(c: Clock, atBoot: Option<nat>) {
    c.due == c.bootUptime + FLUSH_MS && (atBoot == None || (atBoot == Some(0) && c.nvs == c.bootEpoch))
  }

  function Sleeps(c: Clock): bool { c.valid && c.bootEpoch != 0 }

  predicate Agrees(s: Session, c: Clock, m: Timing) {
    && s.clock.bootEpoch == c.bootEpoch && s.clock.bootUptime == c.bootUptime && s.clock.valid == c.valid
    && s.uptime == c.bootUptime + m.up && s.clock.due == c.bootUptime + m.due
    && (m.stored.Some? ==> m.stored.value <= m.up && s.clock.nvs == c.bootEpoch + m.stored.value / 1000)
    && (m.stored.None? ==> s.clock.nvs == c.nvs)
  }

  lemma StepAgrees(s: Session, c: Clock, m: Timing, op: RtcOp)
    requires Agrees(s, c, m) && NoWrap(Step(s, op))
    ensures Agrees(Step(s, op), c, Tick(m, op, Sleeps(c)))
  {
    if !op.Pass? { EpochIsTimestamp(s.clock, s.uptime); }
  }

  /** The stored epoch is that of the last store that worked, whichever writes failed. */
  lemma {:induction false} StoredEpochIsLastStore(c: Clock, atBoot: Option<nat>, ops: seq<RtcOp>)
    requires Anchored(c, atBoot) && NoWrap(Run(Session(c, c.bootUptime), ops))
    ensures Agrees(Run(Session(c, c.bootUptime), ops), c, Ticks(atBoot, ops, Sleeps(c)))
  {
    if ops != [] {
      var most, op := ops[..|ops| - 1], ops[|ops| - 1];
      var r := Run(Session(c, c.bootUptime), most);
      StepIsLater(r, op);
      StoredEpochIsLastStore(c, atBoot, most);
      StepAgrees(r, c, Ticks(atBoot, most, Sleeps(c)), op);
    }
  }

  lemma StepIsLater(s: Session, op: RtcOp)
    requires s.uptime >= s.clock.bootUptime && NoWrap(Step(s, op))
    ensures NoWrap(s)
  {
  }

  /** Periodic flushes fall on whole periods since boot, and none is skipped. */
  lemma {:induction false} TicksAreTimely(atBoot: Option<nat>, ops: seq<RtcOp>, sleeps: bool)
    ensures var m := Ticks(atBoot, ops, sleeps);
            && m.due % FLUSH_MS == 0 && m.due >= FLUSH_MS && m.due - FLUSH_MS <= m.up <= m.due
            && (atBoot == None && !sleeps && m.stored.Some? ==> m.stored.value >= FLUSH_MS)
  {
    if ops != [] { TicksAreTimely(atBoot, ops[..|ops| - 1], sleeps); }
  }

  /** While the writes work, no more than one period is ever unaccounted for. */
  lemma {:induction false} WorkingWritesKeepUp(atBoot: Option<nat>, ops: seq<RtcOp>, sleeps: bool)
    requires WritesWork(ops) && (atBoot == None || atBoot == Some(0))
    ensures var m := Ticks(atBoot, ops, sleeps);
            && (atBoot.Some? || m.due > FLUSH_MS ==> m.stored.Some?)
            && (m.stored.Some? ==> m.due - FLUSH_MS <= m.stored.value <= m.up)
            && (!sleeps ==> m.stored == if atBoot.Some? || m.due > FLUSH_MS then Some(m.due - FLUSH_MS) else None)
  {
    if ops != [] {
      var most, op := ops[..|ops| - 1], ops[|ops| - 1];
      assert op in ops && forall o <- most :: o in ops;
      WorkingWritesKeepUp(atBoot, most, sleeps);
      TicksAreTimely(atBoot, most, sleeps);
    }
  }

  /** The milliseconds of a session that the stored epoch does not count */
  function Uncounted(m: Timing): int
    requires m.stored.Some?
  {
    m.up - 1000 * (m.stored.value / 1000)
  }

  lemma WholeSeconds(n: nat, f: nat)
    requires 1000 * n <= f
    ensures 1000 * n <= 1000 * (f / 1000) <= f
  {
    assert f == 1000 * (f / 1000) + f % 1000;
  }

  lemma WholePeriods(x: nat, f: nat)
    requires x % FLUSH_MS == 0 && x <= f
    ensures x <= 1000 * (f / 1000) <= f
  {
    assert x == 1000 * (60 * (x / FLUSH_MS));
    WholeSeconds(60 * (x / FLUSH_MS), f);
  }

  lemma PeriodBefore(due: nat)
    requires due % FLUSH_MS == 0 && due >= FLUSH_MS
    ensures (due - FLUSH_MS) % FLUSH_MS == 0
  {
  }

  lemma UncountedIsBounded(atBoot: Option<nat>, ops: seq<RtcOp>, sleeps: bool)
    requires WritesWork(ops) && (atBoot == None || atBoot == Some(0))
    ensures var m := Ticks(atBoot, ops, sleeps); m.stored.Some? ==> 0 <= Uncounted(m) <= FLUSH_MS
  {
    var m := Ticks(atBoot, ops, sleeps);
    TicksAreTimely(atBoot, ops, sleeps);
    WorkingWritesKeepUp(atBoot, ops, sleeps);
    if m.stored.Some? {
      PeriodBefore(m.due);
      WholePeriods(m.due - FLUSH_MS, m.stored.value);
    }
  }

  /** While the node runs and its writes work, the stored epoch is never ahead of the clock
      and lags it by at most sixty seconds. */
  lemma StoredEpochLags(c: Clock, ops: seq<RtcOp>)
    requires Anchored(c, Some(0)) && WritesWork(ops) && NoWrap(Run(Session(c, c.bootUptime), ops))
    ensures var r := Run(Session(c, c.bootUptime), ops); r.clock.nvs <= Epoch(r.clock, r.uptime) <= r.clock.nvs + 60
  {
    var r, m := Run(Session(c, c.bootUptime), ops), Ticks(Some(0), ops, Sleeps(c));
    StoredEpochIsLastStore(c, Some(0), ops);
    WorkingWritesKeepUp(Some(0), ops, Sleeps(c));
    UncountedIsBounded(Some(0), ops, Sleeps(c));
    EpochIsTimestamp(r.clock, r.uptime);
  }

  // The comparison at boot

  /** A boot reports a skew exactly when both sources are there and differ by more than 300 s. */
  lemma SkewIsReportedIff(nvs: u32, p: Probe, provision: u32, wrote: (bool, bool), uptime: nat)
    ensures Booted(nvs, p, provision, wrote, uptime).rc == ErrSkew <==>
            HwTime(p).Some? && nvs > 0 && (HwTime(p).value - nvs > 300 || nvs - HwTime(p).value > 300)
  {
  }

  function Read(e: u32): Probe { Probe(true, true, false, Some(e)) }

  /** A node that finds no time, or only the provisioning constant, counts on from there.
      The next boot with a working chip reports a skew exactly when something was stored
      and the chip is not within 300 s of it: nothing is stored before the first periodic
      flush of a node without any time, and from then on its uptime is. */
  lemma UncheckedClockSkewIff(p: Probe, provision: u32, wrote: (bool, bool), u: nat, ops: seq<RtcOp>,
                              e: u32, provision2: u32, wrote2: (bool, bool), u2: nat)
    requires HwTime(p).None? && WritesWork(ops)
    requires NoWrap(Run(Session(Booted(0, p, provision, wrote, u).clock, u), ops))
    ensures var r := Run(Session(Booted(0, p, provision, wrote, u).clock, u), ops).clock;
            && r.due >= u + FLUSH_MS
            && (Booted(r.nvs, Read(e), provision2, wrote2, u2).rc == ErrSkew <==>
                  && (r.due > u + FLUSH_MS || (provision != 0 && (wrote.0 || wrote.1)))
                  && Distance(e, provision + (r.due - FLUSH_MS - u) / 1000) > SKEW_THRESHOLD_S)
  {
    var c := Booted(0, p, provision, wrote, u).clock;
    var atBoot := if provision != 0 && (wrote.0 || wrote.1) then Some(0) else None;
    StoredEpochIsLastStore(c, atBoot, ops);
    TicksAreTimely(atBoot, ops, false);
    WorkingWritesKeepUp(atBoot, ops, false);
  }

  /** So a node without any time source makes the first boot with a working chip report a
      skew that nobody caused, if it has run for a minute. */
  lemma UnsetClockCausesFalseSkew(p: Probe, e: u32)
    requires HwTime(p).None? && e > 360
    ensures var b := Booted(0, p, 0, (true, true), 0);
            var r := Run(Session(b.clock, 0), [Pass(FLUSH_MS), FlushDue(true)]);
            b.rc == ErrHw && r.clock.nvs == 60 && Booted(r.clock.nvs, Read(e), 0, (true, true), 0).rc == ErrSkew
  {
    var b := Booted(0, p, 0, (true, true), 0);
    var ops := [Pass(FLUSH_MS), FlushDue(true)];
    var s := Session(b.clock, 0);
    assert ops[..1] == [Pass(FLUSH_MS)] && ops[..1][..0] == [];
    assert Run(s, ops[..1]) == s.(uptime := FLUSH_MS);
  }

  // The clock as it is written

  class Driver {
    var bootEpoch: u32
    var bootUptime: nat
    var rtcValid: bool
    var nvs: u32
    var due: nat

    ghost function Value(): Clock
      reads this
    {
      Clock(bootEpoch, bootUptime, rtcValid, nvs, due)
    }

    /** What a restart leaves: only the stored epoch */
    constructor (nvs: u32)
      ensures this.nvs == nvs
    {
      this.nvs := nvs;
      bootEpoch, bootUptime, rtcValid, due := 0, 0, false, 0;
    }

    method WriteSettings(epoch: u32, ok: bool)
      modifies this`nvs
      ensures nvs == if ok then epoch else old(nvs)
    {
      if ok {
        nvs := epoch;
      }
    }

    /** `lima_rtc_init` */
    method Init(p: Probe, provision: u32, wrote: (bool, bool), uptime: nat) returns (rc: Rc, sets: Option<u32>)
      modifies this
      ensures Boot(Value(), rc, sets) == Booted(old(nvs), p, provision, wrote, uptime)
    {
      rc, sets := RtcOk, None;
      var hwEpoch: u32, hwOk, nvsEpoch := 0, false, nvs;
      if p.ready {
        if p.startOk && !p.osf && p.read.Some? {
          hwEpoch, hwOk := p.read.value, true;
        }
      }
      if hwOk && nvsEpoch > 0 {
        var skew: int := if hwEpoch > nvsEpoch then hwEpoch - nvsEpoch else nvsEpoch - hwEpoch;
        if skew > SKEW_THRESHOLD_S {
          rc := ErrSkew;
        }
      }
      if hwOk {
        bootEpoch, rtcValid := hwEpoch, true;
      } else if nvsEpoch > 0 {
        bootEpoch, rtcValid, rc := nvsEpoch, true, ErrFallback;
        sets := Some(bootEpoch);
        WriteSettings(bootEpoch, wrote.0);
      } else if provision != 0 {
        bootEpoch, rtcValid, rc := provision, false, ErrFallback;
        sets := Some(bootEpoch);
        WriteSettings(bootEpoch, wrote.0);
      } else {
        bootEpoch, rtcValid, rc := 0, false, ErrHw;
      }
      bootUptime := uptime;
      if bootEpoch > 0 {
        WriteSettings(bootEpoch, wrote.1);
      }
      due := uptime + FLUSH_MS;
    }

    /** `lima_rtc_get_epoch`, in 32 bits */
    function GetEpoch(uptime: nat): (e: u32)
      requires uptime >= bootUptime
      reads this
      ensures NoWrap(Session(Value(), uptime)) ==> e == TimestampMs(Value(), uptime) / 1000
    {
      EpochIsTimestampUnlessWrapped(Value(), uptime);
      var elapsed := (uptime - bootUptime) / 1000 % WORD;
      (bootEpoch + elapsed) % WORD
    }

    /** `nvs_flush_fn`: unlike `Flush` it does not ask whether the clock was ever set. */
    method PeriodicFlush(ok: bool)
      requires due >= bootUptime
      modifies this`nvs, this`due
      ensures Session(Value(), old(due)) == Step(Session(old(Value()), old(due)), FlushDue(ok))
    {
      WriteSettings(GetEpoch(due), ok);
      due := due + FLUSH_MS;
    }

    method Flush(uptime: nat, ok: bool)
      requires uptime >= bootUptime
      modifies this`nvs
      ensures Value() == old(Value()).(nvs := if bootEpoch != 0 && ok then Epoch(old(Value()), uptime) else old(nvs))
    {
      if bootEpoch == 0 {
        return;
      }
      WriteSettings(GetEpoch(uptime), ok);
    }

    /** `lima_rtc_arm_wakeup`; where it does not arm the alarm it starts the fallback timer. */
    method ArmWakeup(uptime: nat, ready: bool, ok: bool, alarmOk: bool) returns (armed: bool)
      requires uptime >= bootUptime
      modifies this`nvs
      ensures armed == (ready && rtcValid && alarmOk)
      ensures Session(Value(), uptime) ==
              if ready then Step(Session(old(Value()), uptime), RtcOp.Sleep(ok)) else Session(old(Value()), uptime)
    {
      if !ready || !rtcValid {
        return false;
      }
      Flush(uptime, ok);
      return alarmOk;
    }
  }
}
