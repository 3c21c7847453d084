/** From the latched event on the node to the entry in the operator's list. */
module EndToEnd {
  import opened Base
  import opened Wire
  import opened Events
  import opened NodeCrypto
  import opened NodeModel
  import opened NodePipeline
  import Theorems = NodeTheorems
  import Ads = AdStructures
  import Hci = HciReport
  import Gw = Gateway
  import Debounce
  import opened EventsTable
  import opened ClientCrypto
  import ClientModel
  import ClientTheorems

  /** A report from the node whose first manufacturer structure is the frame. The node's
      advertisement has that one structure; others may stand around it. */
  ghost predicate CarriesFrame(r: Hci.Report, addr: seq<byte>, frame: seq<byte>) {
    && r.Sized() && r.address == addr && |frame| == LF_LEN
    && exists before: seq<Ads.Ad>, after: seq<Ads.Ad>, rest: seq<byte> ::
         Ads.AllFit(before) && Ads.AllFit(after) && Ads.Ends(rest)
         && (forall a <- before :: !a.IsManufacturer())
         && r.data == Ads.Serialize(before + [Ads.Ad(Ads.MANUFACTURER, frame)] + after) + rest
  }

  lemma {:induction false} FirstAfter(before: seq<Ads.Ad>, a: Ads.Ad, after: seq<Ads.Ad>)
    requires (forall b <- before :: !b.IsManufacturer()) && a.IsManufacturer()
    ensures Ads.FirstManufacturer(before + [a] + after) == Some(Gw.Strip(a.content))
  {
    if before == [] {
      assert [] + [a] + after == [a] + after;
    } else {
      FirstAfter(before[1..], a, after);
      assert (before + [a] + after)[1..] == before[1..] + [a] + after;
    }
  }

  /** The gateway finds the whole frame in such a report. */
  lemma ReportGivesFrame(r: Hci.Report, addr: seq<byte>, frame: seq<byte>)
    requires |addr| == 6 && CarriesFrame(r, addr, frame) && frame[0] == PROTO_VERSION
    ensures var found := Hci.Accept(r);
            found.Some? && found.value.mac == Hci.FormatMac(addr) && found.value.mfr == Gw.Strip(frame)
            && Gw.Reassemble(found.value.mfr) == frame
  {
    var before: seq<Ads.Ad>, after: seq<Ads.Ad>, rest: seq<byte> :|
      Ads.AllFit(before) && Ads.AllFit(after) && Ads.Ends(rest)
      && (forall a <- before :: !a.IsManufacturer())
      && r.data == Ads.Serialize(before + [Ads.Ad(Ads.MANUFACTURER, frame)] + after) + rest;
    var ads := before + [Ads.Ad(Ads.MANUFACTURER, frame)] + after;
    Ads.DecodeInvertsSerialize(r.data, ads, rest);
    FirstAfter(before, Ads.Ad(Ads.MANUFACTURER, frame), after);
    Gw.ReassembleInvertsStrip(frame, Gw.Strip(frame));
  }

  /** The row that stands for a frame that carries `ler` */
  ghost predicate RowHolds(c: Crypto, key: seq<byte>, r: Row, ler: Ler) {
    && r.sigVerified && Deliverable(r)
    && Decrypt(c, key, FrameOf(r).rawBlob, FrameOf(r).eventType) == Some(Shown(ler))
  }

  lemma FoundFrameIsStored(c: Crypto, key: seq<byte>, found: Hci.Found, frame: seq<byte>, ler: Ler, wallMs: nat)
    requires ler.Sized() && Carries(c, key, frame, ler) && found.mfr == Gw.Strip(frame) && Gw.Reassemble(found.mfr) == frame
    ensures RowHolds(c, key, Gw.RecordOf(c, found, wallMs), ler)
  {
    HexRoundTrip(frame[2..]);
    DecryptReadsWhatFrameCarries(c, key, frame, ler);
    assert found.mfr.id / 256 == frame[1];
  }

  /** A packet whose first report from the node carries the frame */
  ghost predicate Heard(pkt: seq<byte>, addr: seq<byte>, frame: seq<byte>) {
    exists rs: seq<Hci.Report>, i: nat, length: byte, tail: seq<byte> ::
      && Hci.AllSized(rs) && i < |rs| < 256 && pkt == Hci.Packet(rs, length, tail)
      && CarriesFrame(rs[i], addr, frame) && forall j :: 0 <= j < i ==> rs[j].address != addr
  }

  /** What the node's radio sends is heard: an event packet with one report, whose data are
      the one structure of length 185 and type 0xFF around the frame. */
  lemma NodeAdvertisementIsHeard(r: Hci.Report, addr: seq<byte>, frame: seq<byte>, length: byte, tail: seq<byte>)
    requires r.Sized() && r.address == addr && |frame| == 184 && r.data == [185, 0xFF] + frame
    ensures Heard([0x04, 0x3E, length, 0x0D, 1] + r.ToBytes() + tail, addr, frame)
  {
    var none: seq<Ads.Ad>, ad := [], Ads.Ad(0xFF, frame);
    assert none + [ad] + none == [ad] && Ads.Serialize([ad]) == ad.ToBytes() + Ads.Serialize([ad][1..]);
    var rest: seq<byte> := [];
    assert Ads.AllFit(none) && Ads.Ends(rest) && r.data == Ads.Serialize(none + [Ads.Ad(Ads.MANUFACTURER, frame)] + none) + rest;
    assert CarriesFrame(r, addr, frame);
    var rs := [r];
    assert Hci.Serialize(rs) == r.ToBytes() + Hci.Serialize(rs[1..]) == r.ToBytes();
    assert Hci.Packet(rs, length, tail) == [0x04, 0x3E, length, 0x0D, 1] + r.ToBytes() + tail;
    assert Hci.AllSized(rs) && CarriesFrame(rs[0], addr, frame);
  }

  lemma HeardFrameIsFound(pkt: seq<byte>, addr: seq<byte>, frame: seq<byte>)
    requires |addr| == 6 && Heard(pkt, addr, frame) && |frame| == LF_LEN && frame[0] == PROTO_VERSION
    ensures Hci.IsReportEvent(pkt)
    ensures var found := Hci.Decide(Hci.Decode(pkt[4], pkt, 5), Hci.FormatMac(addr));
            found.Some? && found.value.mac == Hci.FormatMac(addr) && found.value.mfr == Gw.Strip(frame)
            && Gw.Reassemble(found.value.mfr) == frame
  {
    var rs: seq<Hci.Report>, i: nat, length: byte, tail: seq<byte> :|
      && Hci.AllSized(rs) && i < |rs| < 256 && pkt == Hci.Packet(rs, length, tail)
      && CarriesFrame(rs[i], addr, frame) && forall j :: 0 <= j < i ==> rs[j].address != addr;
    Hci.PacketIsDecidedByFirstReport(rs, length, tail, Hci.FormatMac(addr));
    Hci.FirstReportOfNodeDecides(rs, addr, i);
    ReportGivesFrame(rs[i], addr, frame);
  }

  /** The table has one more row, and it holds `ler` for the node of that name. */
  ghost predicate Adds(c: Crypto, key: seq<byte>, t: Table, d: Table, mac: string, ler: Ler) {
    exists r: Row :: d == Insert(t, r) && r.nodeId == mac && RowHolds(c, key, r, ler)
  }

  lemma FrameIsStored(c: Crypto, key: seq<byte>, addr: seq<byte>, frame: seq<byte>, ler: Ler,
                      g: Gw.Gate, pkt: seq<byte>, wallMs: nat, at: Debounce.Instants)
    requires |addr| == 6 && ler.Sized() && Carries(c, key, frame, ler) && Heard(pkt, addr, frame)
    ensures Adds(c, key, g.table, Gw.OnPacket(c, Hci.FormatMac(addr), g, pkt, wallMs, true, at).table, Hci.FormatMac(addr), ler)
  {
    assert frame[0] == frame[..HEADER_LEN][0];
    HeardFrameIsFound(pkt, addr, frame);
    var found := Hci.Decide(Hci.Decode(pkt[4], pkt, 5), Hci.FormatMac(addr)).value;
    FoundFrameIsStored(c, key, found, frame, ler, wallMs);
    assert Insert(g.table, Gw.RecordOf(c, found, wallMs)) ==
           Gw.OnPacket(c, Hci.FormatMac(addr), g, pkt, wallMs, true, at).table;
  }

  /** Node to table: whatever frame a reachable node has put on air, a packet that carries
      it leaves a verified row that decrypts to the record of its pipeline. */
  lemma AdvertisedFrameIsStored(cfg: Config, s: Node, n: nat,
                                g: Gw.Gate, pkt: seq<byte>, wallMs: nat, at: Debounce.Instants)
    requires cfg.Valid() && Reachable(cfg, s)
    requires n < |s.pipe.log| && s.pipe.log[n].fate.Advertised?
    requires Heard(pkt, cfg.addr, s.pipe.log[n].fate.frame)
    ensures var mac := Hci.FormatMac(cfg.addr);
            Adds(cfg.crypto, cfg.key, g.table, Gw.OnPacket(cfg.crypto, mac, g, pkt, wallMs, true, at).table,
                 mac, s.pipe.log[n].ler)
  {
    var entry := s.pipe.log[n];
    Theorems.EveryFrameCarriesItsEvent(cfg, s, n);
    FrameIsStored(cfg.crypto, cfg.key, cfg.addr, entry.fate.frame, entry.ler, g, pkt, wallMs, at);
  }

  predicate ListShows(es: seq<ClientModel.Entry>, rowid: nat, mac: string, ler: Ler) {
    exists e <- es :: e.rowid == rowid && e.nodeId == mac && e.ler == Shown(ler)
  }

  /** Table to operator: a row above the client's cursor that holds `ler` is in the list
      after the next poll, showing exactly `ler`. */
  lemma StoredRowIsListed(k: ClientModel.Keys, c: ClientModel.Client, start: nat, r: Row, ler: Ler)
    requires ClientModel.Inv(k, c, start) && r in c.table.rows && r.rowid > c.cursor
    requires RowHolds(k.crypto, k.psk, r, ler)
    ensures var d := ClientModel.PollNow(k, c, true);
            ListShows(d.view.events, r.rowid, r.nodeId, ler)
  {
    var d := ClientModel.PollNow(k, c, true);
    ClientTheorems.PollDelivers(k, c, start);
    ClientTheorems.HandleAllMoves(k, c, Poll(c.table.rows, c.cursor));
    HandleAllRemovesNothing(k, c, Poll(c.table.rows, c.cursor));
    assert ClientModel.Listed(k, d.view.events, FrameOf(r));
  }

  lemma {:induction false} HandleAllRemovesNothing(k: ClientModel.Keys, c: ClientModel.Client, fs: seq<RawFrame>)
    ensures ClientModel.HandleAll(k, c, fs).removed == c.removed
  {
    if fs != [] { HandleAllRemovesNothing(k, c, fs[..|fs| - 1]); }
  }

  lemma AddedRowIsListed(k: ClientModel.Keys, c: ClientModel.Client, start: nat, d: Table, mac: string, ler: Ler)
    requires ClientModel.Inv(k, c, start) && Adds(k.crypto, k.psk, c.table, d, mac, ler)
    ensures ListShows(ClientModel.PollNow(k, c.(table := d), true).view.events, d.lastId, mac, ler)
  {
    var r: Row :| d == Insert(c.table, r) && r.nodeId == mac && RowHolds(k.crypto, k.psk, r, ler);
    ClientTheorems.InsertKeeps(k, c, start, r);
    StoredRowIsListed(k, c.(table := d), start, d.rows[|c.table.rows|], ler);
  }

  /** The list has an entry under that key and name whose fields are those of the event. */
  predicate ListShowsEvent(es: seq<ClientModel.Entry>, rowid: nat, mac: string, addr: seq<byte>, sequence: u32, e: Event) {
    exists x <- es :: x.rowid == rowid && x.nodeId == mac && ShowsEvent(x.ler, addr, sequence, e)
  }

  predicate ShowsEvent(l: ClientLer, addr: seq<byte>, sequence: u32, e: Event) {
    Records(Ler(l.nodeId, l.eventType, 0, l.sequence, l.timestampMs, l.accelG, l.deltaPa), addr, sequence, e)
  }

  lemma ShownRecordShowsEvent(es: seq<ClientModel.Entry>, rowid: nat, mac: string, ler: Ler,
                              addr: seq<byte>, sequence: u32, e: Event)
    requires ListShows(es, rowid, mac, ler) && Records(ler, addr, sequence, e)
    ensures ListShowsEvent(es, rowid, mac, addr, sequence, e)
  {
    var x :| x in es && x.rowid == rowid && x.nodeId == mac && x.ler == Shown(ler);
    assert ShowsEvent(x.ler, addr, sequence, e);
  }

  /** End to end, for every run of the node, every state of the gateway and every state of a
      client that shares the gateway's table: the operator sees an entry that says of the
      event that the node latched which of the four breaches it was, when it happened, its
      number, and the value of the sensor that set it off. */
  lemma OperatorSeesTheLatchedEvent(cfg: Config, s: Node, n: nat,
                                    g: Gw.Gate, pkt: seq<byte>, wallMs: nat, at: Debounce.Instants,
                                    c: ClientModel.Client, start: nat)
    requires cfg.Valid() && Reachable(cfg, s)
    requires n < |s.pipe.log| && s.pipe.log[n].fate.Advertised?
    requires Heard(pkt, cfg.addr, s.pipe.log[n].fate.frame)
    requires ClientModel.Inv(ClientModel.Keys(cfg.crypto, cfg.key), c, start) && c.table == g.table
    ensures var mac, event := Hci.FormatMac(cfg.addr), s.pipe.log[n].event;
            var t := Gw.OnPacket(cfg.crypto, mac, g, pkt, wallMs, true, at).table;
            var shown := ClientModel.PollNow(ClientModel.Keys(cfg.crypto, cfg.key), c.(table := t), true).view.events;
            && Theorems.IsOneOfFour(event.kind)
            && ListShowsEvent(shown, t.lastId, mac, cfg.addr, (n + 1) % 0x1_0000_0000, event)
  {
    var mac, entry := Hci.FormatMac(cfg.addr), s.pipe.log[n];
    var keys, t := ClientModel.Keys(cfg.crypto, cfg.key), Gw.OnPacket(cfg.crypto, mac, g, pkt, wallMs, true, at).table;
    AdvertisedFrameIsStored(cfg, s, n, g, pkt, wallMs, at);
    AddedRowIsListed(keys, c, start, t, mac, entry.ler);
    Theorems.EveryFrameCarriesItsEvent(cfg, s, n);
    Theorems.OnlyBreachesAreRecorded(cfg, s, n);
    ShownRecordShowsEvent(ClientModel.PollNow(keys, c.(table := t), true).view.events, t.lastId, mac, entry.ler,
                          cfg.addr, (n + 1) % 0x1_0000_0000, entry.event);
  }
}
