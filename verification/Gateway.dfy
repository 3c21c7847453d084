/** The gateway: every accepted packet is checked, stored, offered to the MQTT channel and
    shown. */
module Gateway {
  import opened Base
  import opened Wire
  import opened NodeCrypto
  import opened AdStructures
  import opened HciReport
  import opened EventsTable
  import opened Debounce

  const SHOWN := 100
  const CHANNEL_DEPTH := 128

  /** The node the gateway listens to, as its address stands on the wire and as its name */
  const NODE_ADDRESS: seq<byte> := [0xB1, 0xEF, 0x12, 0x63, 0x79, 0xE3]
  const NODE_MAC := "dev_E3_79_63_12_EF_B1"

  lemma NodeMacNamesItsAddress()
    ensures FormatMac(NODE_ADDRESS) == NODE_MAC
  {
    var a := NODE_ADDRESS;
    assert a[1..] == [0xEF, 0x12, 0x63, 0x79, 0xE3] && a[2..] == [0x12, 0x63, 0x79, 0xE3];
    assert a[1..][1..] == a[2..] && a[2..][1..] == a[3..] && a[3..][1..] == a[4..] && a[4..][1..] == a[5..] && a[5..][1..] == a[6..];
    assert FormatMac(a[6..]) == "dev";
    assert FormatMac(a[5..]) == "dev_E3";
    assert FormatMac(a[4..]) == "dev_E3_79";
    assert FormatMac(a[3..]) == "dev_E3_79_63";
    assert FormatMac(a[2..]) == "dev_E3_79_63_12";
    assert FormatMac(a[1..]) == "dev_E3_79_63_12_EF";
  }

  // The signature check

  /** The frame that a manufacturer structure carries: its first two bytes travel as the
      company identifier. */
  function Reassemble(m: Manufacturer): seq<byte> { [m.id % 256, m.id / 256] + m.payload }

  function Strip(lf: seq<byte>): Manufacturer
    requires |lf| >= 2
  {
    var lo: int, hi: int := lf[0], lf[1];
    Manufacturer(lo + 256 * hi, lf[2..])
  }

  lemma ReassembleInvertsStrip(lf: seq<byte>, m: Manufacturer)
    requires |lf| >= 2
    ensures Reassemble(Strip(lf)) == lf
    ensures Strip(Reassemble(m)) == m
  {
    assert lf == [lf[0], lf[1]] + lf[2..];
    assert Reassemble(m)[2..] == m.payload;
  }

  predicate Verified(c: Crypto, m: Manufacturer) {
    |m.payload| == STRIPPED_LEN && c.verify(Reassemble(m)[..LF_SIGNED], Reassemble(m)[LF_SIGNED..])
  }

  /** `verify_outer_sig` */
  method VerifyOuterSig(c: Crypto, m: Manufacturer) returns (ok: bool)
    ensures ok == Verified(c, m)
  {
    if |m.payload| != STRIPPED_LEN {
      return false;
    }
    var full := new byte[LF_LEN](_ => 0);
    full[0] := m.id % 256;
    full[1] := m.id / 256 % 256;
    assert full[..2] == [m.id % 256, m.id / 256];
    CopyInto(full, 2, m.payload);
    assert full[..] == full[..LF_LEN] == Reassemble(m);
    assert full[..LF_SIGNED] == full[..][..LF_SIGNED] && full[LF_SIGNED..LF_SIGNED + SIG_LEN] == full[..][LF_SIGNED..];
    return c.verify(full[..LF_SIGNED], full[LF_SIGNED..LF_SIGNED + SIG_LEN]);
  }

  // The list of shown events

  function NewestFirst(history: seq<Row>): (r: seq<Row>)
    ensures |r| == if |history| < 100 then |history| else 100
    ensures forall i :: 0 <= i < |r| ==> r[i] == history[|history| - 1 - i]
  {
    if history == [] then []
    else
      var all := [history[|history| - 1]] + NewestFirst(history[..|history| - 1]);
      if |all| > SHOWN then all[..SHOWN] else all
  }

  function CountVerified(history: seq<Row>): (n: nat)
    ensures n <= |history|
  {
    if history == [] then 0
    else CountVerified(history[..|history| - 1]) + (if history[|history| - 1].sigVerified then 1 else 0)
  }

  class App {
    var events: seq<Row>
    var totalRx: nat
    var totalValid: nat
    var totalInvalid: nat
    var lastEventAt: Option<nat>
    ghost var history: seq<Row>

    ghost predicate Valid()
      reads this
    {
      && events == NewestFirst(history)
      && totalRx == |history| == totalValid + totalInvalid
      && totalValid == CountVerified(history)
      && lastEventAt == (if history == [] then None else Some(history[|history| - 1].receivedAt))
    }

    constructor ()
      ensures Valid() && history == []
    {
      events, totalRx, totalValid, totalInvalid, lastEventAt, history := [], 0, 0, 0, None, [];
    }

    method Push(rec: Row)
      requires Valid()
      modifies this
      ensures Valid() && history == old(history) + [rec]
    {
      totalRx := totalRx + 1;
      lastEventAt := Some(rec.receivedAt);
      if rec.sigVerified {
        totalValid := totalValid + 1;
      } else {
        totalInvalid := totalInvalid + 1;
      }
      events := [rec] + events;
      if |events| > SHOWN {
        events := events[..SHOWN];
      }
      history := history + [rec];
      assert history[..|history| - 1] == old(history);
    }
  }

  // The MQTT channel

  /** What is published of a verified frame */
  datatype Frame = Frame(nodeId: string, receivedAt: nat, rssi: int, lf: string)

  datatype Traffic = Offer(frame: Frame) | TakeOne

  datatype Channel = Channel(waiting: seq<Frame>, taken: seq<Frame>)

  /** `try_send` by the scan loop, which a full channel refuses, and `recv` by the publisher */
  function After(ts: seq<Traffic>): Channel {
    if ts == [] then Channel([], [])
    else
      var c := After(ts[..|ts| - 1]);
      match ts[|ts| - 1]
      case Offer(f) => if |c.waiting| < CHANNEL_DEPTH then c.(waiting := c.waiting + [f]) else c
      case TakeOne => if c.waiting == [] then c else Channel(c.waiting[1..], c.taken + [c.waiting[0]])
  }

  predicate Refused(ts: seq<Traffic>, k: nat)
    requires k < |ts|
  {
    ts[k].Offer? && |After(ts[..k]).waiting| == CHANNEL_DEPTH
  }

  /** The frames offered, without those refused */
  function Accepted(ts: seq<Traffic>): seq<Frame> {
    if ts == [] then []
    else
      var n := |ts| - 1;
      Accepted(ts[..n]) + (if ts[n].Offer? && !Refused(ts, n) then [ts[n].frame] else [])
  }

  /** Nothing is lost, doubled or reordered in the channel: what the publisher has taken and
      what waits are together the offers in their order, except those that found 128 waiting. */
  lemma {:induction false} ChannelConserves(ts: seq<Traffic>)
    ensures After(ts).taken + After(ts).waiting == Accepted(ts)
    ensures |After(ts).waiting| <= 128
  {
    if ts != [] {
      ChannelConserves(ts[..|ts| - 1]);
      var c := After(ts[..|ts| - 1]);
      if c.waiting != [] { assert c.waiting == [c.waiting[0]] + c.waiting[1..]; }
    }
  }

  function Offers(ts: seq<Traffic>): seq<Frame> {
    if ts == [] then []
    else Offers(ts[..|ts| - 1]) + (if ts[|ts| - 1].Offer? then [ts[|ts| - 1].frame] else [])
  }

  predicate NoneRefused(ts: seq<Traffic>) { forall k :: 0 <= k < |ts| ==> !Refused(ts, k) }

  lemma NoneRefusedStep(ts: seq<Traffic>, n: nat)
    requires n + 1 == |ts|
    ensures NoneRefused(ts) <==> NoneRefused(ts[..n]) && !Refused(ts, n)
  {
    forall k | 0 <= k < n ensures Refused(ts[..n], k) == Refused(ts, k) {
      assert ts[..n][..k] == ts[..k];
    }
  }

  /** Without a refusal, and only then, every offer goes through. */
  lemma {:induction false} AllAcceptedIff(ts: seq<Traffic>)
    ensures |Accepted(ts)| <= |Offers(ts)|
    ensures Accepted(ts) == Offers(ts) <==> NoneRefused(ts)
  {
    if ts != [] {
      var n := |ts| - 1;
      var a, o := Accepted(ts[..n]), Offers(ts[..n]);
      AllAcceptedIff(ts[..n]);
      NoneRefusedStep(ts, n);
      if !ts[n].Offer? {
        assert Accepted(ts) == a && Offers(ts) == o;
      } else if Refused(ts, n) {
        assert |Accepted(ts)| == |a| < |Offers(ts)|;
      } else {
        var f := ts[n].frame;
        assert Accepted(ts) == a + [f] && Offers(ts) == o + [f];
        if a + [f] == o + [f] {
          assert a == (a + [f])[..|a|] && o == (o + [f])[..|o|];
        }
      }
    }
  }

  /** An offer waits at the end, or is refused by a channel in which 128 frames wait. */
  lemma AfterOffer(ts: seq<Traffic>, f: Frame)
    ensures After(ts + [Offer(f)]).taken == After(ts).taken
    ensures After(ts + [Offer(f)]).waiting ==
              if |After(ts).waiting| < 128 then After(ts).waiting + [f] else After(ts).waiting
  {
    assert (ts + [Offer(f)])[..|ts|] == ts;
  }

  /** The publisher takes the oldest frame that waits. */
  lemma AfterTake(ts: seq<Traffic>)
    ensures var c := After(ts);
            After(ts + [TakeOne]) == if c.waiting == [] then c else Channel(c.waiting[1..], c.taken + [c.waiting[0]])
  {
    assert (ts + [TakeOne])[..|ts|] == ts;
  }

  // The scan loop

  function RecordOf(c: Crypto, f: Found, wallMs: nat): Row {
    Row(0, f.mac, wallMs, Verified(c, f.mfr), f.rssi, f.mfr.id / 256, HexEncode(f.mfr.payload), None)
  }

  function Published(r: Row): Frame { Frame(r.nodeId, r.receivedAt, r.rssi, r.rawBlob) }

  /** What the gateway has done so far: the table, the records shown, the traffic on the
      channel and the instants at which verified frames were considered for a notification. */
  datatype Gate = Gate(table: Table, history: seq<Row>, traffic: seq<Traffic>, considered: seq<Instants>)

  /** `dbOk` is false where the insertion fails. */
  function Keep(c: Crypto, g: Gate, found: Found, wallMs: nat, dbOk: bool, at: Instants): Gate {
    var r := RecordOf(c, found, wallMs);
    var rec := if dbOk then r.(rowid := g.table.lastId + 1) else r;
    Gate(if dbOk then Insert(g.table, r) else g.table, g.history + [rec],
         if r.sigVerified then g.traffic + [Offer(Published(r))] else g.traffic,
         if r.sigVerified then g.considered + [at] else g.considered)
  }

  /** One packet */
  function OnPacket(c: Crypto, mac: string, g: Gate, pkt: seq<byte>, wallMs: nat, dbOk: bool, at: Instants): Gate {
    if !IsReportEvent(pkt) then g
    else
      match Decide(HciReport.Decode(pkt[4], pkt, 5), mac)
      case None => g
      case Some(found) => Keep(c, g, found, wallMs, dbOk, at)
  }

  class Scanner {
    const crypto: Crypto
    const nodeMac: string
    const app: App
    var table: Table
    var waiting: seq<Frame>
    var lastNtfy: Option<nat>
    ghost var traffic: seq<Traffic>
    ghost var considered: seq<Instants>

    ghost predicate Valid()
      reads this, app
    {
      && app.Valid()
      && waiting == After(traffic).waiting
      && lastNtfy == LastStamp(considered, |considered|)
    }

    ghost function Value(): Gate
      reads this, app
    {
      Gate(table, app.history, traffic, considered)
    }

    constructor (crypto: Crypto, nodeMac: string)
      ensures Valid() && fresh(app) && this.crypto == crypto && this.nodeMac == nodeMac
      ensures Value() == Gate(EMPTY, [], [], [])
    {
      this.crypto, this.nodeMac := crypto, nodeMac;
      app := new App();
      table, waiting, lastNtfy, traffic, considered := EMPTY, [], None, [], [];
    }

    /** `try_send` */
    method TrySend(f: Frame)
      requires Valid()
      modifies this`waiting, this`traffic
      ensures Valid() && traffic == old(traffic) + [Offer(f)]
    {
      AfterOffer(traffic, f);
      if |waiting| < CHANNEL_DEPTH {
        waiting := waiting + [f];
      }
      traffic := traffic + [Offer(f)];
    }

    /** The publisher's `recv` */
    method Receive() returns (f: Option<Frame>)
      requires Valid()
      modifies this`waiting, this`traffic
      ensures Valid() && Value() == old(Value()).(traffic := old(traffic) + [TakeOne])
      ensures After(traffic).taken == After(old(traffic)).taken + (if f.Some? then [f.value] else [])
    {
      AfterTake(traffic);
      if waiting == [] {
        f := None;
      } else {
        f := Some(waiting[0]);
        waiting := waiting[1..];
      }
      traffic := traffic + [TakeOne];
    }

    /** Notify unless that happened a short while ago. */
    method Consider(at: Instants) returns (notify: bool)
      requires Valid()
      modifies this`lastNtfy, this`considered
      ensures Valid() && considered == old(considered) + [at]
      ensures notify == Notifies(considered, |old(considered)|)
    {
      LastStampOfPrefix(considered, at, |considered|);
      notify := Fires(lastNtfy, at.check);
      if notify {
        lastNtfy := Some(at.stamp);
      }
      considered := considered + [at];
    }

    method Process(found: Found, wallMs: nat, dbOk: bool, at: Instants)
      requires Valid()
      modifies this, app
      ensures Valid() && Value() == Keep(crypto, old(Value()), found, wallMs, dbOk, at)
    {
      var m := found.mfr;
      var sigVerified := VerifyOuterSig(crypto, m);
      var rec := Row(0, found.mac, wallMs, sigVerified, found.rssi, m.id / 256, HexEncode(m.payload), None);
      var frame := Published(rec);
      if dbOk {
        table := Insert(table, rec);
        rec := rec.(rowid := table.lastId);
      }
      if sigVerified {
        TrySend(frame);
        var notify := Consider(at);
      }
      app.Push(rec);
    }

    method HandlePacket(pkt: seq<byte>, wallMs: nat, dbOk: bool, at: Instants)
      requires Valid()
      modifies this, app
      ensures Valid() && Value() == OnPacket(crypto, nodeMac, old(Value()), pkt, wallMs, dbOk, at)
    {
      var found := ParseExtAdvReport(pkt, nodeMac);
      if found.Some? {
        Process(found.value, wallMs, dbOk, at);
      }
    }
  }

  // Runs of the gateway

  datatype GateOp = Packet(pkt: seq<byte>, wallMs: nat, dbOk: bool, at: Instants) | Publish

  function Run(c: Crypto, mac: string, ops: seq<GateOp>): Gate {
    if ops == [] then Gate(EMPTY, [], [], [])
    else
      var g := Run(c, mac, ops[..|ops| - 1]);
      match ops[|ops| - 1]
      case Packet(pkt, ms, ok, at) => OnPacket(c, mac, g, pkt, ms, ok, at)
      case Publish => g.(traffic := g.traffic + [TakeOne])
  }

  lemma RunStep(c: Crypto, mac: string, ops: seq<GateOp>, i: nat)
    requires i < |ops|
    ensures var g := Run(c, mac, ops[..i]);
            Run(c, mac, ops[..i + 1]) ==
              match ops[i]
              case Packet(pkt, ms, ok, at) => OnPacket(c, mac, g, pkt, ms, ok, at)
              case Publish => g.(traffic := g.traffic + [TakeOne])
  {
    assert ops[..i + 1][..i] == ops[..i];
  }

  // Every finding is recorded

  /** The frame is whole, and its last 64 bytes sign the 120 before them; its first two bytes
      are those of the company identifier. */
  predicate Holds(c: Crypto, m: Manufacturer) {
    |m.payload| == 182 &&
    c.verify([m.id % 256, m.id / 256] + m.payload[..118], m.payload[118..])
  }

  lemma VerifiedIffHolds(c: Crypto, m: Manufacturer)
    ensures Verified(c, m) <==> Holds(c, m)
  {
    if |m.payload| == 182 {
      var start := [m.id % 256, m.id / 256];
      assert m.payload == m.payload[..118] + m.payload[118..];
      assert (start + m.payload)[..120] == start + m.payload[..118] && (start + m.payload)[120..] == m.payload[118..];
    }
  }

  /** What the gateway finds in a packet, whatever the signature is worth */
  function FindingIn(pkt: seq<byte>, mac: string): Option<Found> {
    if |pkt| >= 5 && pkt[0] == 0x04 && pkt[1] == 0x3E && pkt[3] == 0x0D
    then Decide(HciReport.Decode(pkt[4], pkt, 5), mac) else None
  }

  /** The row says who was heard, how loud, what was sent and whether its signature holds. */
  predicate Reports(c: Crypto, r: Row, f: Found) {
    && r.nodeId == f.mac && r.rssi == f.rssi && r.frameType == f.mfr.id / 256 && r.ackedAt == None
    && HexDecode(r.rawBlob) == Some(f.mfr.payload)
    && (r.sigVerified <==> Holds(c, f.mfr))
  }

  /** Every finding leaves one record, whether its signature holds or not, and its row in the
      table if the insertion works; exactly those that hold are offered to the channel. */
  lemma EveryFindingIsRecorded(c: Crypto, mac: string, g: Gate, pkt: seq<byte>, wallMs: nat, dbOk: bool, at: Instants)
    requires FindingIn(pkt, mac).Some?
    ensures var f, d := FindingIn(pkt, mac).value, OnPacket(c, mac, g, pkt, wallMs, dbOk, at);
            && |d.history| == |g.history| + 1 && d.history[..|g.history|] == g.history
            && var r := d.history[|g.history|];
               && Reports(c, r, f) && r.receivedAt == wallMs && r.rowid == (if dbOk then g.table.lastId + 1 else 0)
               && d.table == (if dbOk then Table(g.table.rows + [r], g.table.lastId + 1) else g.table)
               && d.traffic == g.traffic + (if Holds(c, f.mfr) then [Offer(Frame(f.mac, wallMs, f.rssi, r.rawBlob))] else [])
               && d.considered == g.considered + (if Holds(c, f.mfr) then [at] else [])
  {
    var f := FindingIn(pkt, mac).value;
    VerifiedIffHolds(c, f.mfr);
    HexRoundTrip(f.mfr.payload);
    assert g.traffic + [] == g.traffic && g.considered + [] == g.considered;
  }

  /** A packet without a finding leaves nothing. */
  lemma NothingElseIsRecorded(c: Crypto, mac: string, g: Gate, pkt: seq<byte>, wallMs: nat, dbOk: bool, at: Instants)
    requires FindingIn(pkt, mac).None?
    ensures OnPacket(c, mac, g, pkt, wallMs, dbOk, at) == g
  {
  }

  /** The findings of a run in their order */
  function Findings(mac: string, ops: seq<GateOp>): seq<Found> {
    if ops == [] then []
    else
      var fs, op := Findings(mac, ops[..|ops| - 1]), ops[|ops| - 1];
      if op.Packet? && FindingIn(op.pkt, mac).Some? then fs + [FindingIn(op.pkt, mac).value] else fs
  }

  function CountFailing(c: Crypto, fs: seq<Found>): nat {
    if fs == [] then 0
    else CountFailing(c, fs[..|fs| - 1]) + if Holds(c, fs[|fs| - 1].mfr) then 0 else 1
  }

  ghost predicate AllReported(c: Crypto, history: seq<Row>, fs: seq<Found>) {
    && |history| == |fs|
    && (forall i :: 0 <= i < |fs| ==> Reports(c, history[i], fs[i]))
    && |history| - CountVerified(history) == CountFailing(c, fs)
  }

  lemma ReportedAppend(c: Crypto, history: seq<Row>, fs: seq<Found>, d: seq<Row>, f: Found)
    requires AllReported(c, history, fs)
    requires |d| == |history| + 1 && d[..|history|] == history && Reports(c, d[|history|], f)
    ensures AllReported(c, d, fs + [f])
  {
    assert (fs + [f])[..|fs|] == fs;
    forall i | 0 <= i < |fs| ensures d[i] == history[i] { assert d[..|history|][i] == history[i]; }
  }

  /** Over any run the history reports the findings one by one, and as many of its records
      are invalid as findings failed the check. */
  lemma {:induction false} HistoryReportsFindings(c: Crypto, mac: string, ops: seq<GateOp>)
    ensures AllReported(c, Run(c, mac, ops).history, Findings(mac, ops))
  {
    if ops != [] {
      var before, op := ops[..|ops| - 1], ops[|ops| - 1];
      var g, fs := Run(c, mac, before), Findings(mac, before);
      HistoryReportsFindings(c, mac, before);
      if op.Packet? {
        if FindingIn(op.pkt, mac).Some? {
          EveryFindingIsRecorded(c, mac, g, op.pkt, op.wallMs, op.dbOk, op.at);
          ReportedAppend(c, g.history, fs, OnPacket(c, mac, g, op.pkt, op.wallMs, op.dbOk, op.at).history,
                         FindingIn(op.pkt, mac).value);
        } else {
          NothingElseIsRecorded(c, mac, g, op.pkt, op.wallMs, op.dbOk, op.at);
        }
      }
    }
  }

  /** The scanner over any packets and takes, in any order, is the gateway of the run, and its
      counters are those of the findings: all of them, and those that failed the check. */
  method Operate(c: Crypto, mac: string, ops: seq<GateOp>) returns (s: Scanner)
    ensures fresh(s) && s.Valid() && s.Value() == Run(c, mac, ops)
    ensures s.app.events == NewestFirst(s.app.history) && s.waiting == After(s.traffic).waiting
    ensures s.app.totalRx == |Findings(mac, ops)| && s.app.totalInvalid == CountFailing(c, Findings(mac, ops))
  {
    s := new Scanner(c, mac);
    for i := 0 to |ops|
      invariant fresh(s) && fresh(s.app) && s.Valid() && s.crypto == c && s.nodeMac == mac
      invariant s.Value() == Run(c, mac, ops[..i])
    {
      RunStep(c, mac, ops, i);
      match ops[i] {
        case Packet(pkt, ms, ok, at) => s.HandlePacket(pkt, ms, ok, at);
        case Publish => var f := s.Receive();
      }
    }
    assert ops[..|ops|] == ops;
    HistoryReportsFindings(c, mac, ops);
  }

  function VerifiedFrames(history: seq<Row>): seq<Frame> {
    if history == [] then []
    else
      var r := history[|history| - 1];
      VerifiedFrames(history[..|history| - 1]) + (if r.sigVerified then [Published(r)] else [])
  }

  lemma RecordsAppend(history: seq<Row>, r: Row)
    ensures VerifiedFrames(history + [r]) == VerifiedFrames(history) + (if r.sigVerified then [Published(r)] else [])
    ensures CountVerified(history + [r]) == CountVerified(history) + (if r.sigVerified then 1 else 0)
  {
    assert (history + [r])[..|history|] == history;
  }

  lemma TrafficAppends(ts: seq<Traffic>, t: Traffic)
    ensures Offers(ts + [t]) == Offers(ts) + (if t.Offer? then [t.frame] else [])
  {
    assert (ts + [t])[..|ts|] == ts;
  }

  /** Over any sequence of packets, whatever the database does: the frames offered to the
      channel are the verified ones of the history, each once and in order; as many instants
      were considered for notification; and what the publisher has taken and what waits are
      those frames without the refused ones. */
  lemma {:induction false} GatewayAccounts(c: Crypto, mac: string, ops: seq<GateOp>)
    ensures var g := Run(c, mac, ops);
            && Offers(g.traffic) == VerifiedFrames(g.history)
            && |g.considered| == CountVerified(g.history)
            && After(g.traffic).taken + After(g.traffic).waiting == Accepted(g.traffic)
            && g.table.Valid()
  {
    ChannelConserves(Run(c, mac, ops).traffic);
    if ops != [] {
      var g, op := Run(c, mac, ops[..|ops| - 1]), ops[|ops| - 1];
      GatewayAccounts(c, mac, ops[..|ops| - 1]);
      if op.Publish? {
        TrafficAppends(g.traffic, TakeOne);
      } else {
        PacketAccounts(c, mac, g, op.pkt, op.wallMs, op.dbOk, op.at);
      }
    }
  }

  predicate Balanced(g: Gate) {
    Offers(g.traffic) == VerifiedFrames(g.history) && |g.considered| == CountVerified(g.history)
  }

  lemma KeepAccounts(c: Crypto, g: Gate, found: Found, wallMs: nat, dbOk: bool, at: Instants)
    requires Balanced(g)
    ensures Balanced(Keep(c, g, found, wallMs, dbOk, at))
  {
    var r := RecordOf(c, found, wallMs);
    var rec := if dbOk then r.(rowid := g.table.lastId + 1) else r;
    RecordsAppend(g.history, rec);
    if r.sigVerified { TrafficAppends(g.traffic, Offer(Published(r))); }
  }

  lemma PacketAccounts(c: Crypto, mac: string, g: Gate, pkt: seq<byte>, wallMs: nat, dbOk: bool, at: Instants)
    requires Balanced(g) && g.table.Valid()
    ensures var d := OnPacket(c, mac, g, pkt, wallMs, dbOk, at); Balanced(d) && d.table.Valid()
  {
    if IsReportEvent(pkt) {
      var found := Decide(HciReport.Decode(pkt[4], pkt, 5), mac);
      if found.Some? { KeepAccounts(c, g, found.value, wallMs, dbOk, at); }
    }
  }
}
