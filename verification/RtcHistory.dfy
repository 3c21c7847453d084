/** The skew check over any sequence of restarts: boots that can read the DS3231 and boots
    that cannot, that fall back on the stored epoch or on the provisioning constant or find
    no time at all, with every write to the chip and to storage working or failing. */
module RtcHistory {
  import opened Base
  import opened Rtc

  /** From one boot to the next. `stopped` is what the chip's register holds if its
      oscillator had stopped; the chip is written, if at all, `beforeSet` ms after the boot
      has read it, and the clock is anchored `afterSet` ms later; `off` is without power. */
  datatype Life = Life(
    ready: bool, startOk: bool, osf: bool, readOk: bool, stopped: Option<nat>,
    wrote: (bool, bool), setOk: bool, beforeSet: nat, afterSet: nat,
    ops: seq<RtcOp>, off: nat)
  {
    predicate Readable() { ready && startOk && !osf && readOk }
  }

  /** What a boot finds: the chip, which counts milliseconds and shows whole seconds, and
      the stored epoch. */
  datatype World = World(chipMs: nat, nvs: u32)

  function Found(w: World, l: Life): World { if l.stopped.Some? then w.(chipMs := 1000 * l.stopped.value) else w }

  function ProbeOf(w: World, l: Life): Probe {
    Probe(l.ready, l.startOk, l.osf, if l.readOk then Some(Found(w, l).chipMs / 1000 % WORD) else None)
  }

  function BootOf(w: World, l: Life, provision: u32): Boot { Booted(w.nvs, ProbeOf(w, l), provision, l.wrote, 0) }

  function SessionOf(w: World, l: Life, provision: u32): (r: Session)
    ensures r.clock.bootUptime == 0
  {
    Run(Session(BootOf(w, l, provision).clock, 0), l.ops)
  }

  /** What a boot and its session leave, where the boot has found `f` */
  function Left(f: World, b: Boot, r: Session, l: Life): World {
    var anchored := if b.sets.Some? && l.setOk then 1000 * b.sets.value + l.afterSet else f.chipMs + l.beforeSet + l.afterSet;
    World(anchored + r.uptime + l.off, r.clock.nvs)
  }

  /** What the next boot finds */
  function After(w: World, l: Life, provision: u32): World {
    Left(Found(w, l), BootOf(w, l, provision), SessionOf(w, l, provision), l)
  }

  function AfterAll(w: World, lives: seq<Life>, provision: u32): World {
    if lives == [] then w
    else After(AfterAll(w, lives[..|lives| - 1], provision), lives[|lives| - 1], provision)
  }

  /** 32 bits suffice for what is read and what is stored. */
  predicate Fits(w: World, l: Life, provision: u32) {
    Found(w, l).chipMs / 1000 < WORD && NoWrap(SessionOf(w, l, provision))
  }

  predicate AllFit(w: World, lives: seq<Life>, provision: u32) {
    forall i :: 0 <= i < |lives| ==> Fits(AfterAll(w, lives[..i], provision), lives[i], provision)
  }

  // The same history as an account of lost time

  /** `behind` is by how many milliseconds the stored epoch is behind the chip. */
  datatype Ledger = Ledger(chipMs: int, behind: Option<int>)

  function LedgerOf(w: World): Ledger {
    Ledger(w.chipMs, if w.nvs == 0 then None else Some(w.chipMs - 1000 * w.nvs))
  }

  /** A chip that had stopped has moved relative to the stored epoch. */
  function Moved(g: Ledger, l: Life): Ledger {
    match l.stopped
    case None => g
    case Some(v) => Ledger(1000 * v, if g.behind.Some? then Some(g.behind.value + 1000 * v - g.chipMs) else None)
  }

  datatype Source = FromChip | FromStore | FromConstant | FromNothing

  function SourceOf(l: Life, stored: bool, provision: u32): Source {
    if l.Readable() then FromChip else if stored then FromStore
    else if provision != 0 then FromConstant else FromNothing
  }

  predicate Sets(l: Life, src: Source) { l.setOk && (src.FromStore? || src.FromConstant?) }

  /** By how much the clock is behind the chip when it is anchored: the part of a second that
      the chip does not show, what the stored epoch was behind already, or nothing but the
      time since the chip was set */
  function Gap(g: Ledger, l: Life, src: Source, provision: u32): int
    requires src.FromStore? ==> g.behind.Some?
  {
    if Sets(l, src) then l.afterSet
    else
      l.beforeSet + l.afterSet +
      match src
      case FromChip => g.chipMs % 1000
      case FromStore => g.behind.value
      case FromConstant => g.chipMs - 1000 * provision
      case FromNothing => g.chipMs
  }

  function AtBoot(g: Ledger, l: Life, src: Source): Option<nat> {
    match src
    case FromChip => if g.chipMs >= 1000 && l.wrote.1 then Some(0) else None
    case FromStore => Some(0)
    case FromConstant => if l.wrote.0 || l.wrote.1 then Some(0) else None
    case FromNothing => None
  }

  function TimingOf(g: Ledger, l: Life, src: Source): Timing {
    Ticks(AtBoot(g, l, src), l.ops, (src.FromChip? && g.chipMs >= 1000) || src.FromStore?)
  }

  function ChipAtAnchor(g: Ledger, l: Life, src: Source, provision: u32): int
    requires src.FromStore? ==> g.behind.Some?
  {
    if !Sets(l, src) then g.chipMs + l.beforeSet + l.afterSet
    else if src.FromStore? then g.chipMs - g.behind.value + l.afterSet
    else 1000 * provision + l.afterSet
  }

  /** What a life adds to the account: the gap at its anchoring, the time its session left
      uncounted and the time off; or all of its time, if it has stored nothing. */
  function Charged(g: Ledger, l: Life, src: Source, m: Timing, provision: u32): Ledger
    requires src.FromStore? ==> g.behind.Some?
  {
    var end := ChipAtAnchor(g, l, src, provision) + m.up + l.off;
    Ledger(end,
           if m.stored.Some? then Some(Gap(g, l, src, provision) + Uncounted(m) + l.off)
           else if g.behind.Some? then Some(g.behind.value + end - g.chipMs)
           else None)
  }

  function Book(g0: Ledger, l: Life, provision: u32): Ledger {
    var g := Moved(g0, l);
    var src := SourceOf(l, g.behind.Some?, provision);
    Charged(g, l, src, TimingOf(g, l, src), provision)
  }

  lemma FoundIsMoved(w: World, l: Life)
    ensures LedgerOf(Found(w, l)) == Moved(LedgerOf(w), l)
  {
  }

  /** Boot `b` that finds `f` is what the account takes it for. */
  predicate Recognized(f: World, b: Boot, l: Life, src: Source, provision: u32) {
    var g, c := LedgerOf(f), b.clock;
    && (src.FromStore? ==> f.nvs > 0)
    && c.bootUptime == 0 && Anchored(c, AtBoot(g, l, src))
    && (if AtBoot(g, l, src).None? then c.nvs == f.nvs else c.bootEpoch > 0)
    && Sleeps(c) == ((src.FromChip? && g.chipMs >= 1000) || src.FromStore?)
    && b.sets == (match src case FromStore => Some(f.nvs) case FromConstant => Some(provision) case _ => None)
    && 1000 * c.bootEpoch == ChipAtAnchor(g, l, src, provision) - Gap(g, l, src, provision)
  }

  lemma BootIsRecognized(w: World, l: Life, provision: u32)
    requires Found(w, l).chipMs / 1000 < WORD
    ensures Recognized(Found(w, l), BootOf(w, l, provision), l, SourceOf(l, w.nvs > 0, provision), provision)
  {
    var f := Found(w, l);
    assert f.chipMs / 1000 % WORD == f.chipMs / 1000;
  }

  lemma ChipIsLeftAsCharged(f: World, b: Boot, r: Session, l: Life, src: Source, m: Timing, provision: u32)
    requires Recognized(f, b, l, src, provision) && Agrees(r, b.clock, m)
    ensures Left(f, b, r, l).chipMs == Charged(LedgerOf(f), l, src, m, provision).chipMs
  {
  }

  lemma StoreIsLeftAsCharged(f: World, b: Boot, r: Session, l: Life, src: Source, m: Timing, provision: u32)
    requires Recognized(f, b, l, src, provision) && Agrees(r, b.clock, m)
    requires m.stored.Some? ==> r.clock.nvs > 0
    requires m.stored.None? ==> AtBoot(LedgerOf(f), l, src).None?
    ensures LedgerOf(Left(f, b, r, l)) == Charged(LedgerOf(f), l, src, m, provision)
  {
    ChipIsLeftAsCharged(f, b, r, l, src, m, provision);
  }

  /** A store is never of zero, and a store at boot is never lost. */
  lemma {:induction false} StoresAreKept(c: Clock, atBoot: Option<nat>, ops: seq<RtcOp>, r: Session)
    requires Agrees(r, c, Ticks(atBoot, ops, Sleeps(c))) && (atBoot == None || (atBoot == Some(0) && c.bootEpoch > 0))
    ensures Ticks(atBoot, ops, Sleeps(c)).stored.Some? ==> r.clock.nvs > 0
    ensures atBoot.Some? ==> Ticks(atBoot, ops, Sleeps(c)).stored.Some?
  {
    TicksAreTimely(atBoot, ops, Sleeps(c));
    TicksKeepStore(atBoot, ops, Sleeps(c));
  }

  lemma {:induction false} TicksKeepStore(atBoot: Option<nat>, ops: seq<RtcOp>, sleeps: bool)
    ensures atBoot.Some? ==> Ticks(atBoot, ops, sleeps).stored.Some?
  {
    if ops != [] { TicksKeepStore(atBoot, ops[..|ops| - 1], sleeps); }
  }

  /** The account of one life is exact. */
  lemma BookIsExact(w: World, l: Life, provision: u32)
    requires Fits(w, l, provision)
    ensures LedgerOf(After(w, l, provision)) == Book(LedgerOf(w), l, provision)
  {
    var f, b, r := Found(w, l), BootOf(w, l, provision), SessionOf(w, l, provision);
    var g, src := LedgerOf(f), SourceOf(l, w.nvs > 0, provision);
    FoundIsMoved(w, l);
    BootIsRecognized(w, l, provision);
    StoredEpochIsLastStore(b.clock, AtBoot(g, l, src), l.ops);
    StoresAreKept(b.clock, AtBoot(g, l, src), l.ops, r);
    StoreIsLeftAsCharged(f, b, r, l, src, TimingOf(g, l, src), provision);
  }

  function BookAll(g: Ledger, lives: seq<Life>, provision: u32): Ledger {
    if lives == [] then g else Book(BookAll(g, lives[..|lives| - 1], provision), lives[|lives| - 1], provision)
  }

  lemma {:induction false} BooksAreExact(w: World, lives: seq<Life>, provision: u32)
    requires AllFit(w, lives, provision)
    ensures LedgerOf(AfterAll(w, lives, provision)) == BookAll(LedgerOf(w), lives, provision)
  {
    if lives != [] {
      var n := |lives| - 1;
      var most := lives[..n];
      forall i | 0 <= i < n ensures Fits(AfterAll(w, most[..i], provision), most[i], provision) {
        assert most[..i] == lives[..i];
      }
      BooksAreExact(w, most, provision);
      BookIsExact(AfterAll(w, most, provision), lives[n], provision);
    }
  }

  // When a skew is reported

  predicate OutOfBalance(g: Ledger) { g.behind.Some? && !(-300_000 <= g.behind.value < 301_000) }

  lemma SkewIffOutOfBalance(w: World, l: Life, provision: u32)
    requires Found(w, l).chipMs / 1000 < WORD
    ensures BootOf(w, l, provision).rc == ErrSkew <==> l.Readable() && OutOfBalance(Moved(LedgerOf(w), l))
  {
    var f := Found(w, l);
    FoundIsMoved(w, l);
    assert f.chipMs / 1000 % WORD == f.chipMs / 1000;
  }

  /** Exactly when a boot reports a skew, after any history: it can read the chip, and the
      time that the lives before it have left uncounted, added up since the clock and the
      chip last agreed, is not within the tolerance. */
  lemma SkewOverHistoriesIff(w: World, lives: seq<Life>, l: Life, provision: u32)
    requires AllFit(w, lives, provision) && Found(AfterAll(w, lives, provision), l).chipMs / 1000 < WORD
    ensures BootOf(AfterAll(w, lives, provision), l, provision).rc == ErrSkew <==>
            l.Readable() && OutOfBalance(Moved(BookAll(LedgerOf(w), lives, provision), l))
  {
    BooksAreExact(w, lives, provision);
    SkewIffOutOfBalance(AfterAll(w, lives, provision), l, provision);
  }

  // Honest histories

  const HONEST_OFF_MS := 239_001

  /** The chip keeps running, the writes to storage work, less than a second passes between
      the reading of the chip and the anchoring of the clock, and the node is without power
      for at most `HONEST_OFF_MS`. */
  predicate Honest(l: Life) {
    && l.stopped == None && WritesWork(l.ops) && l.wrote.1
    && l.beforeSet + l.afterSet <= 999 && l.off <= HONEST_OFF_MS
  }

  /** The boot reads the chip or sets it; it has something to set it to. */
  predicate Agreeing(w: World, l: Life, provision: u32) {
    l.Readable() || (l.setOk && (w.nvs > 0 || provision != 0))
  }

  lemma HonestLifeIsCounted(w: World, l: Life, provision: u32)
    requires w.chipMs >= 1000 && Honest(l) && Agreeing(w, l, provision)
    ensures var g := LedgerOf(w); var src := SourceOf(l, g.behind.Some?, provision);
            && !src.FromNothing? && 0 <= Gap(g, l, src, provision) <= 1998
            && ChipAtAnchor(g, l, src, provision) >= 1000
            && var m := TimingOf(g, l, src); m.stored.Some? && 0 <= Uncounted(m) <= FLUSH_MS
  {
    var g := LedgerOf(w);
    var src := SourceOf(l, g.behind.Some?, provision);
    UncountedIsBounded(AtBoot(g, l, src), l.ops, (src.FromChip? && g.chipMs >= 1000) || src.FromStore?);
    TicksKeepStore(AtBoot(g, l, src), l.ops, (src.FromChip? && g.chipMs >= 1000) || src.FromStore?);
  }

  /** An honest life that begins with the clock and the chip in agreement leaves no skew,
      whatever it has found and whether or not its own boot has reported one. */
  lemma HonestLifeBalances(w: World, l: Life, provision: u32)
    requires w.chipMs >= 1000 && Honest(l) && Agreeing(w, l, provision) && Fits(w, l, provision)
    ensures var d := After(w, l, provision); d.chipMs >= 1000 && d.nvs > 0 && !OutOfBalance(LedgerOf(d))
  {
    BookIsExact(w, l, provision);
    HonestLifeIsCounted(w, l, provision);
  }

  lemma HonestRestartIsClean(w: World, l: Life, next: Life, provision: u32)
    requires w.chipMs >= 1000 && Honest(l) && Agreeing(w, l, provision) && Fits(w, l, provision)
    requires next.stopped == None && After(w, l, provision).chipMs / 1000 < WORD
    ensures BootOf(After(w, l, provision), next, provision).rc != ErrSkew
  {
    HonestLifeBalances(w, l, provision);
    SkewIffOutOfBalance(After(w, l, provision), next, provision);
  }

  predicate HonestFrom(w: World, lives: seq<Life>, provision: u32) {
    forall i :: 0 <= i < |lives| ==> Honest(lives[i]) && Agreeing(AfterAll(w, lives[..i], provision), lives[i], provision)
  }

  lemma {:induction false} HonestHistoryBalances(w: World, lives: seq<Life>, provision: u32, n: nat)
    requires w.chipMs >= 1000 && !OutOfBalance(LedgerOf(w))
    requires AllFit(w, lives, provision) && HonestFrom(w, lives, provision) && n <= |lives|
    ensures var d := AfterAll(w, lives[..n], provision); d.chipMs >= 1000 && !OutOfBalance(LedgerOf(d))
  {
    if n > 0 {
      HonestHistoryBalances(w, lives, provision, n - 1);
      assert lives[..n][..n - 1] == lives[..n - 1] && lives[..n][n - 1] == lives[n - 1];
      HonestLifeBalances(AfterAll(w, lives[..n - 1], provision), lives[n - 1], provision);
    }
  }

  /** However often an honest node is restarted, no boot reports a skew. */
  lemma HonestBootsAreClean(w: World, lives: seq<Life>, provision: u32, i: nat)
    requires w.chipMs >= 1000 && !OutOfBalance(LedgerOf(w))
    requires AllFit(w, lives, provision) && HonestFrom(w, lives, provision) && i < |lives|
    ensures BootOf(AfterAll(w, lives[..i], provision), lives[i], provision).rc != ErrSkew
  {
    HonestHistoryBalances(w, lives, provision, i);
    SkewIffOutOfBalance(AfterAll(w, lives[..i], provision), lives[i], provision);
  }

  // What ends the tolerance

  /** A boot that falls back on the stored epoch and cannot set the chip starts where the
      stored epoch was, so what it leaves uncounted is added to what was behind before. */
  lemma FallbackAddsUp(w: World, l: Life, provision: u32)
    requires w.nvs > 0 && !l.Readable() && !l.setOk && l.stopped == None && Fits(w, l, provision)
    ensures var m := Ticks(Some(0), l.ops, true); var d := LedgerOf(After(w, l, provision));
            && m.stored.Some? && d.behind.Some?
            && d.behind.value == LedgerOf(w).behind.value + l.beforeSet + l.afterSet + Uncounted(m) + l.off
  {
    BookIsExact(w, l, provision);
    TicksKeepStore(Some(0), l.ops, true);
  }

  /** A life that stores at boot and then runs for `up` ms without a flush */
  function Plain(readable: bool, delay: nat, up: nat, off: nat): Life {
    Life(readable, true, false, true, None, (true, true), false, delay, 0, [Pass(up)], off)
  }

  lemma PlainLife(w: World, readable: bool, delay: nat, up: nat, off: nat)
    requires w.chipMs >= 1000 && w.chipMs / 1000 < WORD - 60 && w.nvs < WORD - 60 && w.nvs > 0 && up <= FLUSH_MS
    ensures var l := Plain(readable, delay, up, off);
            && Fits(w, l, 0)
            && After(w, l, 0) == World(w.chipMs + delay + up + off, if readable then w.chipMs / 1000 else w.nvs)
  {
    var l := Plain(readable, delay, up, off);
    var c := BootOf(w, l, 0).clock;
    assert w.chipMs / 1000 % WORD == w.chipMs / 1000;
    assert l.ops[..0] == [] && Run(Session(c, 0), l.ops) == Step(Session(c, 0), Pass(up));
    assert TimestampMs(c, up) / 1000 == c.bootEpoch + up / 1000;
  }

  lemma PlainBootReports(w: World, delay: nat, up: nat, off: nat)
    requires w.nvs > 0 && w.chipMs / 1000 < WORD && w.chipMs / 1000 > w.nvs + SKEW_THRESHOLD_S
    ensures BootOf(w, Plain(true, delay, up, off), 0).rc == ErrSkew
  {
    assert w.chipMs / 1000 % WORD == w.chipMs / 1000;
  }

  lemma PlainIsHonest(readable: bool, delay: nat, up: nat, off: nat)
    requires delay <= 999 && off <= HONEST_OFF_MS
    ensures Honest(Plain(readable, delay, up, off))
  {
  }

  /** The bound on the time off is exact. */
  lemma LongerOffCanReport()
    ensures exists w: World, l: Life, next: Life ::
              && w.chipMs >= 1000 && Fits(w, l, 0) && l.Readable() && Honest(l.(off := HONEST_OFF_MS)) && l.off == HONEST_OFF_MS + 1
              && next.stopped == None && BootOf(After(w, l, 0), next, 0).rc == ErrSkew
  {
    var w, l, next := World(1999, 1), Plain(true, 999, FLUSH_MS, HONEST_OFF_MS + 1), Plain(true, 0, 0, 0);
    PlainLife(w, true, 999, FLUSH_MS, HONEST_OFF_MS + 1);
    PlainIsHonest(true, 999, FLUSH_MS, HONEST_OFF_MS);
    PlainBootReports(After(w, l, 0), 0, 0, 0);
  }

  lemma AfterTwo(w: World, lives: seq<Life>, provision: u32)
    requires |lives| == 2
    ensures AfterAll(w, lives, provision) == After(After(w, lives[0], provision), lives[1], provision)
    ensures AllFit(w, lives, provision) <==> Fits(w, lives[0], provision) && Fits(After(w, lives[0], provision), lives[1], provision)
  {
    assert lives[..1][..0] == [] && lives[..0] == [] && lives[..1][0] == lives[0];
    assert AfterAll(w, lives[..1], provision) == After(w, lives[0], provision);
  }

  /** Two lives within the bound are too much when the second could neither read the chip
      nor set it, although the chip was left alone and all writes to storage worked. */
  lemma FallbackChainCanReport()
    ensures exists w: World, lives: seq<Life>, next: Life ::
              && |lives| == 2 && w.chipMs >= 1000 && !OutOfBalance(LedgerOf(w)) && AllFit(w, lives, 0)
              && Honest(lives[0]) && lives[0].Readable()
              && Honest(lives[1]) && !lives[1].Readable() && !lives[1].setOk
              && next.stopped == None && BootOf(AfterAll(w, lives, 0), next, 0).rc == ErrSkew
  {
    var w, l, m := World(1_000_000, 1000), Plain(true, 0, 0, HONEST_OFF_MS), Plain(false, 0, 0, HONEST_OFF_MS);
    PlainLife(w, true, 0, 0, HONEST_OFF_MS);
    PlainLife(After(w, l, 0), false, 0, 0, HONEST_OFF_MS);
    PlainIsHonest(true, 0, 0, HONEST_OFF_MS);
    PlainIsHonest(false, 0, 0, HONEST_OFF_MS);
    AfterTwo(w, [l, m], 0);
    PlainBootReports(AfterAll(w, [l, m], 0), 0, 0, 0);
  }
}
