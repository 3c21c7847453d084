/** LE Extended Advertising Report events (section 7.7.65.13 of Bluetooth Core 5.4,
    Volume 4 Part E) as the gateway reads them from the raw socket. */
module HciReport {
  import opened Base
  import opened Wire
  import opened AdStructures

  const EVENT_PACKET: byte := 0x04
  const LE_META: byte := 0x3E
  const EXT_ADV_REPORT: byte := 0x0D
  const REPORT_HEADER := 24
  const NO_RSSI: byte := 0x7F

  datatype Report = Report(
    eventType: seq<byte>, addressType: byte, address: seq<byte>,
    primaryPhy: byte, secondaryPhy: byte, sid: byte, txPower: byte, rssi: byte,
    interval: seq<byte>, directType: byte, direct: seq<byte>, data: seq<byte>)
  {
    predicate Sized() {
      |eventType| == 2 && |address| == 6 && |interval| == 2 && |direct| == 6 && |data| < 256
    }

    function HeaderBytes(): (h: seq<byte>)
      requires Sized()
      ensures |h| == REPORT_HEADER
    {
      eventType + [addressType] + address + [primaryPhy, secondaryPhy, sid, txPower, rssi]
      + interval + [directType] + direct + [|data|]
    }

    function ToBytes(): seq<byte>
      requires Sized()
    {
      HeaderBytes() + data
    }
  }

  function ReportFrom(h: seq<byte>, data: seq<byte>): Report
    requires |h| == REPORT_HEADER
  {
    Report(h[0..2], h[2], h[3..9], h[9], h[10], h[11], h[12], h[13], h[14..16], h[16], h[17..23], data)
  }

  /** A report byte by byte: a header of 24 bytes, of which the last is the length of the data */
  lemma ReportLayout(r: Report)
    requires r.Sized()
    ensures var b := r.ToBytes();
            && |b| == 24 + |r.data| && b[0..2] == r.eventType && b[2] == r.addressType && b[3..9] == r.address
            && b[9] == r.primaryPhy && b[10] == r.secondaryPhy && b[11] == r.sid && b[12] == r.txPower && b[13] == r.rssi
            && b[14..16] == r.interval && b[16] == r.directType && b[17..23] == r.direct && b[23] == |r.data|
            && b[24..] == r.data
  {
    var b, h := r.ToBytes(), r.HeaderBytes();
    assert h[0..2] == r.eventType && h[3..9] == r.address && h[14..16] == r.interval && h[17..23] == r.direct;
    assert b[0..2] == h[0..2] && b[3..9] == h[3..9] && b[14..16] == h[14..16] && b[17..23] == h[17..23];
  }

  predicate AllSized(rs: seq<Report>) { forall r <- rs :: r.Sized() }

  function Serialize(rs: seq<Report>): seq<byte>
    requires AllSized(rs)
  {
    if rs == [] then [] else rs[0].ToBytes() + Serialize(rs[1..])
  }

  /** No whole report stands at `o`. */
  predicate CutOff(d: seq<byte>, o: nat) {
    |d| < o + REPORT_HEADER || |d| < o + REPORT_HEADER + d[o + 23]
  }

  function End(d: seq<byte>, o: nat): (end: nat)
    requires !CutOff(d, o)
    ensures o + REPORT_HEADER <= end <= |d|
  {
    o + REPORT_HEADER + d[o + 23]
  }

  /** The complete reports among the first `n` from `o` on */
  function Decode(n: nat, d: seq<byte>, o: nat): (rs: seq<Report>)
    ensures AllSized(rs) && |rs| <= n
    decreases n
  {
    if n == 0 || CutOff(d, o) then []
    else [ReportFrom(d[o..o + REPORT_HEADER], d[o + REPORT_HEADER..End(d, o)])] + Decode(n - 1, d, End(d, o))
  }

  lemma ReportRoundTrip(h: seq<byte>, data: seq<byte>, r: Report)
    requires |h| == REPORT_HEADER && |data| == h[REPORT_HEADER - 1] && r.Sized()
    ensures ReportFrom(h, data).Sized() && ReportFrom(h, data).ToBytes() == h + data
    ensures ReportFrom(r.HeaderBytes(), r.data) == r
  {
    assert h == h[0..2] + [h[2]] + h[3..9] + [h[9], h[10], h[11], h[12], h[13]] + h[14..16] + [h[16]] + h[17..23] + [h[23]];
    var b := r.HeaderBytes();
    assert b[0..2] == r.eventType && b[3..9] == r.address && b[14..16] == r.interval && b[17..23] == r.direct;
  }

  lemma ReportStands(d: seq<byte>, o: nat, r: Report, rest: seq<byte>)
    requires o <= |d| && r.Sized() && d[o..] == r.ToBytes() + rest
    ensures !CutOff(d, o) && d[End(d, o)..] == rest
    ensures d[o..o + REPORT_HEADER] == r.HeaderBytes() && d[o + REPORT_HEADER..End(d, o)] == r.data
  {
    var s, n := d[o..], |r.data|;
    assert s[..REPORT_HEADER] == r.HeaderBytes() && s[REPORT_HEADER..REPORT_HEADER + n] == r.data && s[REPORT_HEADER + n..] == rest;
    assert d[o + 23] == s[23] == n;
  }

  /** Reports come back as they were serialised, whatever follows them. */
  lemma {:induction false} DecodeInvertsSerialize(rs: seq<Report>, d: seq<byte>, o: nat, tail: seq<byte>)
    requires AllSized(rs) && o <= |d| && d[o..] == Serialize(rs) + tail
    ensures Decode(|rs|, d, o) == rs
  {
    if rs != [] {
      Regroup(rs[0].ToBytes(), Serialize(rs[1..]), tail);
      ReportStands(d, o, rs[0], Serialize(rs[1..]) + tail);
      ReportRoundTrip(rs[0].HeaderBytes(), rs[0].data, rs[0]);
      DecodeInvertsSerialize(rs[1..], d, End(d, o), tail);
      assert rs == [rs[0]] + rs[1..];
    }
  }

  /** On any bytes, what is decoded is what stands there, and decoding stops early only
      where a report is cut off. */
  lemma {:induction false} SerializeInvertsDecode(n: nat, d: seq<byte>, o: nat)
    requires o <= |d|
    ensures var rs := Decode(n, d, o); var end := o + |Serialize(rs)|;
            end <= |d| && d[o..end] == Serialize(rs) && (|rs| < n ==> CutOff(d, end))
  {
    if n > 0 && !CutOff(d, o) {
      var h, data := d[o..o + REPORT_HEADER], d[o + REPORT_HEADER..End(d, o)];
      SerializeInvertsDecode(n - 1, d, End(d, o));
      ReportRoundTrip(h, data, ReportFrom(h, data));
      var rs := Decode(n, d, o);
      assert rs[1..] == Decode(n - 1, d, End(d, o));
      assert Serialize(rs) == (h + data) + Serialize(rs[1..]);
    }
  }

  // Addresses as text

  function HexByte(b: byte): (s: string)
    ensures |s| == 2
  {
    [UpperDigit(b / 16), UpperDigit(b % 16)]
  }

  /** The name of a node: "dev", then the bytes of its address, which the wire carries
      least significant first, in the opposite order with "_" before each. */
  function FormatMac(a: seq<byte>): (s: string)
    ensures |s| == 3 + 3 * |a|
  {
    if a == [] then "dev" else FormatMac(a[1..]) + ("_" + HexByte(a[0]))
  }

  /** The name letter by letter: the last byte of the address comes first. */
  lemma {:induction false} MacSpells(a: seq<byte>, i: nat)
    requires i < |a|
    ensures var s, b := FormatMac(a), a[|a| - 1 - i];
            && s[..3] == "dev" && s[3 + 3 * i] == '_'
            && s[4 + 3 * i] == "0123456789ABCDEF"[b / 16] && s[5 + 3 * i] == "0123456789ABCDEF"[b % 16]
  {
    var s, n := FormatMac(a), 3 * |a|;
    assert s[..n] == FormatMac(a[1..]) && s[n..] == "_" + HexByte(a[0]);
    if i == |a| - 1 {
      DigitIs(a[0] / 16);
      DigitIs(a[0] % 16);
      assert s[n] == s[n..][0] && s[n + 1] == s[n..][1] && s[n + 2] == s[n..][2];
      StartsWithDev(a);
    } else {
      MacSpells(a[1..], i);
      assert a[1..][|a[1..]| - 1 - i] == a[|a| - 1 - i];
    }
  }

  lemma {:induction false} StartsWithDev(a: seq<byte>)
    ensures FormatMac(a)[..3] == "dev"
  {
    if a != [] {
      StartsWithDev(a[1..]);
      assert FormatMac(a)[..3] == FormatMac(a[1..])[..3];
    }
  }

  lemma HexByteIsInjective(b: byte, c: byte)
    requires "_" + HexByte(b) == "_" + HexByte(c)
    ensures b == c
  {
    assert ("_" + HexByte(b))[1] == ("_" + HexByte(c))[1] && ("_" + HexByte(b))[2] == ("_" + HexByte(c))[2];
  }

  lemma {:induction false} MacIsInjective(a: seq<byte>, b: seq<byte>)
    requires |a| == |b| && FormatMac(a) == FormatMac(b)
    ensures a == b
  {
    if a != [] {
      var n, s := 3 * |a|, FormatMac(a);
      assert s[..n] == FormatMac(a[1..]) && s[n..] == "_" + HexByte(a[0]);
      assert s[..n] == FormatMac(b[1..]) && s[n..] == "_" + HexByte(b[0]);
      HexByteIsInjective(a[0], b[0]);
      MacIsInjective(a[1..], b[1..]);
    }
  }

  // What the gateway makes of a packet

  /** `rssi` is signed; 0 stands for unknown. */
  datatype Found = Found(mac: string, rssi: int, mfr: Manufacturer)

  function SignedByte(b: byte): int { if b < 128 then b else b - 256 }

  function Extract(mac: string, rssi: byte, data: seq<byte>): Option<Found> {
    match FirstManufacturer(AdStructures.Decode(data).ads)
    case None => None
    case Some(m) =>
      if m.id % 256 == PROTO_VERSION then Some(Found(mac, if rssi == NO_RSSI then 0 else SignedByte(rssi), m)) else None
  }

  function Accept(r: Report): Option<Found>
    requires r.Sized()
  {
    Extract(FormatMac(r.address), r.rssi, r.data)
  }

  /** What is accepted: data of protocol version 2, with the name of the sender and the
      strength of the signal as a signed byte, of which 127 means that it is not known. */
  lemma AcceptsVersionTwo(r: Report)
    requires r.Sized()
    ensures var m := FirstManufacturer(AdStructures.Decode(r.data).ads);
            Accept(r) ==
              if m.None? || m.value.id % 256 != 2 then None
              else Some(Found(FormatMac(r.address),
                              if r.rssi < 127 then r.rssi else if r.rssi == 127 then 0 else r.rssi - 256, m.value))
  {
  }

  /** The first report of the node decides; later ones are not looked at. */
  function Decide(rs: seq<Report>, nodeMac: string): Option<Found>
    requires AllSized(rs)
  {
    if rs == [] then None
    else
      var r := rs[0];
      assert r.Sized();
      if FormatMac(r.address) == nodeMac then Accept(r) else Decide(rs[1..], nodeMac)
  }

  lemma {:induction false} FirstReportOfNodeDecides(rs: seq<Report>, node: seq<byte>, k: nat)
    requires AllSized(rs) && |node| == 6
    ensures (forall r <- rs :: r.address != node) ==> Decide(rs, FormatMac(node)) == None
    ensures k < |rs| && rs[k].address == node && (forall j :: 0 <= j < k ==> rs[j].address != node) ==>
              Decide(rs, FormatMac(node)) == Accept(rs[k])
  {
    if rs != [] {
      assert rs[0].Sized();
      if FormatMac(rs[0].address) == FormatMac(node) {
        MacIsInjective(rs[0].address, node);
      } else if k > 0 {
        FirstReportOfNodeDecides(rs[1..], node, k - 1);
      } else {
        FirstReportOfNodeDecides(rs[1..], node, 0);
      }
    }
  }

  predicate IsReportEvent(pkt: seq<byte>) {
    |pkt| >= 5 && pkt[0] == EVENT_PACKET && pkt[1] == LE_META && pkt[3] == EXT_ADV_REPORT
  }

  /** What one report, wherever it stands, has the gateway do */
  datatype Turn = CutShort | Skip(end: nat) | Settled(result: Option<Found>)

  function TurnAt(pkt: seq<byte>, o: nat, nodeMac: string): (t: Turn)
    ensures t.Skip? ==> t.end <= |pkt|
  {
    if CutOff(pkt, o) then CutShort
    else
      var mac := FormatMac(pkt[o + 3..o + 9]);
      if mac == nodeMac then Settled(Extract(mac, pkt[o + 13], pkt[o + REPORT_HEADER..End(pkt, o)])) else Skip(End(pkt, o))
  }

  lemma FieldsAt(pkt: seq<byte>, o: nat)
    requires !CutOff(pkt, o)
    ensures var r := ReportFrom(pkt[o..o + REPORT_HEADER], pkt[o + REPORT_HEADER..End(pkt, o)]);
            r.address == pkt[o + 3..o + 9] && r.rssi == pkt[o + 13]
  {
    SliceOfSlice(pkt, o, o + REPORT_HEADER, 3, 9);
  }

  lemma DecideByTurns(n: nat, pkt: seq<byte>, o: nat, nodeMac: string)
    requires n > 0
    ensures Decide(Decode(n, pkt, o), nodeMac) ==
              match TurnAt(pkt, o, nodeMac)
              case CutShort => None
              case Skip(end) => Decide(Decode(n - 1, pkt, end), nodeMac)
              case Settled(r) => r
  {
    if !CutOff(pkt, o) {
      FieldsAt(pkt, o);
      assert Decode(n, pkt, o)[1..] == Decode(n - 1, pkt, End(pkt, o));
    }
  }

  method ReadReport(pkt: seq<byte>, offset: nat, nodeMac: string) returns (t: Turn)
    requires offset <= |pkt|
    ensures t == TurnAt(pkt, offset, nodeMac)
  {
    if |pkt| < offset + REPORT_HEADER {
      return CutShort;
    }
    var rssiRaw := pkt[offset + 13];
    var rssi := if rssiRaw == NO_RSSI then 0 else SignedByte(rssiRaw);
    var mac := FormatMac(pkt[offset + 3..offset + 9]);
    var dataLength: int := pkt[offset + 23];
    if |pkt| < offset + REPORT_HEADER + dataLength {
      return CutShort;
    }
    var adData := pkt[offset + REPORT_HEADER..offset + REPORT_HEADER + dataLength];
    if mac != nodeMac {
      return Skip(offset + REPORT_HEADER + dataLength);
    }
    var m := ParseAdManufacturer(adData);
    if m.Some? && m.value.id % 256 == PROTO_VERSION {
      return Settled(Some(Found(mac, rssi, m.value)));
    }
    return Settled(None);
  }

  /** `parse_ext_adv_report` */
  method ParseExtAdvReport(pkt: seq<byte>, nodeMac: string) returns (r: Option<Found>)
    ensures r == if IsReportEvent(pkt) then Decide(Decode(pkt[4], pkt, 5), nodeMac) else None
  {
    if |pkt| < 5 || pkt[0] != EVENT_PACKET || pkt[1] != LE_META || pkt[3] != EXT_ADV_REPORT {
      return None;
    }
    var numReports: int := pkt[4];
    var offset := 5;
    ghost var verdict := Decide(Decode(pkt[4], pkt, 5), nodeMac);
    for k := 0 to numReports
      invariant offset <= |pkt|
      invariant verdict == Decide(Decode(numReports - k, pkt, offset), nodeMac)
    {
      DecideByTurns(numReports - k, pkt, offset, nodeMac);
      var t := ReadReport(pkt, offset, nodeMac);
      match t {
        case CutShort => return None;
        case Skip(end) => offset := end;
        case Settled(found) => return found;
      }
    }
    return None;
  }

  /** A well-formed event packet with the given reports; the third byte is not looked at. */
  function Packet(rs: seq<Report>, length: byte, tail: seq<byte>): seq<byte>
    requires AllSized(rs) && |rs| < 256
  {
    [EVENT_PACKET, LE_META, length, EXT_ADV_REPORT, |rs|] + Serialize(rs) + tail
  }

  /** For every list of reports the gateway takes the manufacturer data of the first report
      that has the node's address, if that report has any of protocol version 2. */
  lemma PacketIsDecidedByFirstReport(rs: seq<Report>, length: byte, tail: seq<byte>, nodeMac: string)
    requires AllSized(rs) && |rs| < 256
    ensures var pkt := Packet(rs, length, tail);
            IsReportEvent(pkt) && Decide(Decode(pkt[4], pkt, 5), nodeMac) == Decide(rs, nodeMac)
  {
    var pkt := Packet(rs, length, tail);
    assert pkt[5..] == Serialize(rs) + tail;
    DecodeInvertsSerialize(rs, pkt, 5, tail);
  }
}
