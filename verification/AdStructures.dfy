/** Advertising data structures (section 11 of Bluetooth Core 5.4, Volume 3 Part C): each is
    a length byte, a type byte and content; a zero length ends the significant part. */
module AdStructures {
  import opened Base

  const MANUFACTURER: byte := 0xFF

  datatype Ad = Ad(typ: byte, content: seq<byte>) {
    predicate Fits() { |content| <= 254 }
    predicate IsManufacturer() { typ == MANUFACTURER && |content| >= 2 }

    function ToBytes(): seq<byte>
      requires Fits()
    {
      [1 + |content|, typ] + content
    }
  }

  datatype Manufacturer = Manufacturer(id: u16, payload: seq<byte>)

  predicate AllFit(ads: seq<Ad>) { forall a <- ads :: a.Fits() }

  function Serialize(ads: seq<Ad>): seq<byte>
    requires AllFit(ads)
  {
    if ads == [] then [] else ads[0].ToBytes() + Serialize(ads[1..])
  }

  /** No further structure can be read at `o`: the data is used up, terminated or cut off. */
  predicate EndsAt(d: seq<byte>, o: nat) { o >= |d| || d[o] == 0 || o + 1 + d[o] > |d| }

  predicate Ends(d: seq<byte>) { EndsAt(d, 0) }

  function Next(d: seq<byte>, o: nat): (n: nat)
    requires !EndsAt(d, o)
    ensures o + 2 <= n <= |d|
  {
    o + 1 + d[o]
  }

  datatype Decoded = Decoded(ads: seq<Ad>, rest: seq<byte>)

  function AdAt(d: seq<byte>, o: nat): (a: Ad)
    requires !EndsAt(d, o)
    ensures a.Fits()
  {
    Ad(d[o + 1], d[o + 2..Next(d, o)])
  }

  /** A structure byte by byte, and where the reading of structures ends */
  lemma Layout(a: Ad, d: seq<byte>)
    requires a.Fits()
    ensures var b := a.ToBytes(); |b| == 2 + |a.content| && b[0] == |b| - 1 && b[1] == a.typ && b[2..] == a.content
    ensures Ends(d) <==> d == [] || d[0] == 0 || |d| <= d[0]
  {
  }

  /** The structures from `o` on, and what is left */
  function DecodeFrom(d: seq<byte>, o: nat): (r: Decoded)
    requires o <= |d|
    ensures AllFit(r.ads)
    decreases |d| - o
  {
    if EndsAt(d, o) then Decoded([], d[o..])
    else
      var next := DecodeFrom(d, Next(d, o));
      Decoded([AdAt(d, o)] + next.ads, next.rest)
  }

  function Decode(d: seq<byte>): Decoded { DecodeFrom(d, 0) }

  /** Decoding finds `ads` before `rest` exactly in the data that serialises `ads` and goes
      on with a `rest` in which nothing more can be read. */
  lemma DecodeInvertsSerialize(d: seq<byte>, ads: seq<Ad>, rest: seq<byte>)
    ensures Decode(d) == Decoded(ads, rest) <==> AllFit(ads) && Ends(rest) && d == Serialize(ads) + rest
  {
    SerializeInvertsDecode(d, 0);
    RestEnds(d, 0);
    assert d[0..] == d;
    if AllFit(ads) && Ends(rest) && d == Serialize(ads) + rest { DecodeSerialized(d, 0, ads, rest); }
  }

  lemma {:induction false} RestEnds(d: seq<byte>, o: nat)
    requires o <= |d|
    ensures Ends(DecodeFrom(d, o).rest)
    decreases |d| - o
  {
    if !EndsAt(d, o) { RestEnds(d, Next(d, o)); }
  }

  lemma SerializeStep(d: seq<byte>, o: nat)
    requires !EndsAt(d, o)
    ensures d[o..] == AdAt(d, o).ToBytes() + d[Next(d, o)..]
  {
    var n := Next(d, o);
    assert AdAt(d, o).ToBytes() == [d[o], d[o + 1]] + d[o + 2..n];
  }

  lemma SerializeCons(a: Ad, ads: seq<Ad>)
    requires a.Fits() && AllFit(ads)
    ensures Serialize([a] + ads) == a.ToBytes() + Serialize(ads)
  {
    assert ([a] + ads)[1..] == ads;
  }

  lemma {:induction false} SerializeInvertsDecode(d: seq<byte>, o: nat)
    requires o <= |d|
    ensures d[o..] == Serialize(DecodeFrom(d, o).ads) + DecodeFrom(d, o).rest
    decreases |d| - o
  {
    if !EndsAt(d, o) {
      var a, next := AdAt(d, o), DecodeFrom(d, Next(d, o));
      SerializeInvertsDecode(d, Next(d, o));
      SerializeStep(d, o);
      SerializeCons(a, next.ads);
      Regroup(a.ToBytes(), Serialize(next.ads), next.rest);
    }
  }

  lemma AdStands(d: seq<byte>, o: nat, a: Ad, s: seq<byte>)
    requires o <= |d| && a.Fits() && d[o..] == a.ToBytes() + s
    ensures !EndsAt(d, o) && AdAt(d, o) == a && d[Next(d, o)..] == s
  {
    var t, n := d[o..], 2 + |a.content|;
    assert t[0] == n - 1 && t[1] == a.typ && t[2..n] == a.content && t[n..] == s;
    assert d[o] == t[0] && d[o + 1] == t[1];
    assert d[o + 2..o + n] == t[2..n] && d[o + n..] == t[n..];
  }

  lemma {:induction false} DecodeSerialized(d: seq<byte>, o: nat, ads: seq<Ad>, rest: seq<byte>)
    requires AllFit(ads) && Ends(rest) && o <= |d| && d[o..] == Serialize(ads) + rest
    ensures DecodeFrom(d, o) == Decoded(ads, rest)
    decreases |ads|
  {
    if ads == [] {
      assert d[o..] == rest;
    } else {
      var s := Serialize(ads[1..]) + rest;
      assert d[o..] == ads[0].ToBytes() + s;
      AdStands(d, o, ads[0], s);
      DecodeSerialized(d, Next(d, o), ads[1..], rest);
      assert ads == [ads[0]] + ads[1..];
    }
  }

  /** The company identifier and the data of the first manufacturer structure */
  function FirstManufacturer(ads: seq<Ad>): Option<Manufacturer> {
    if ads == [] then None
    else if ads[0].IsManufacturer() then
      var c := ads[0].content;
      var lo: int, hi: int := c[0], c[1];
      Some(Manufacturer(lo + 256 * hi, c[2..]))
    else FirstManufacturer(ads[1..])
  }

  lemma {:induction false} FirstManufacturerIsFirst(ads: seq<Ad>, m: Manufacturer)
    ensures FirstManufacturer(ads) == Some(m) <==>
            exists k :: 0 <= k < |ads| && ads[k].typ == 0xFF
                        && ads[k].content == [m.id % 256, m.id / 256] + m.payload
                        && forall j :: 0 <= j < k ==> ads[j].typ != 0xFF || |ads[j].content| < 2
    ensures FirstManufacturer(ads) == None <==> forall a <- ads :: a.typ != 0xFF || |a.content| < 2
  {
    if ads != [] {
      var c := ads[0].content;
      if ads[0].IsManufacturer() {
        assert c == [c[0], c[1]] + c[2..];
        if c == [m.id % 256, m.id / 256] + m.payload { assert m.payload == c[2..]; }
      } else {
        FirstManufacturerIsFirst(ads[1..], m);
        forall k | 0 < k < |ads| ensures ads[k] == ads[1..][k - 1] {}
        if FirstManufacturer(ads) == Some(m) {
          var k :| 0 <= k < |ads[1..]| && ads[1..][k].IsManufacturer()
                   && ads[1..][k].content == [m.id % 256, m.id / 256] + m.payload
                   && forall j :: 0 <= j < k ==> !ads[1..][j].IsManufacturer();
          assert ads[k + 1] == ads[1..][k];
          forall j | 0 <= j < k + 1 ensures !ads[j].IsManufacturer() {
            if j > 0 { assert ads[j] == ads[1..][j - 1]; }
          }
        }
      }
    }
  }

  /** `parse_ad_manufacturer` */
  method ParseAdManufacturer(ad: seq<byte>) returns (r: Option<Manufacturer>)
    ensures r == FirstManufacturer(Decode(ad).ads)
  {
    var i := 0;
    while i < |ad|
      invariant 0 <= i <= |ad|
      invariant FirstManufacturer(Decode(ad).ads) == FirstManufacturer(DecodeFrom(ad, i).ads)
    {
      var length: int := ad[i];
      if length == 0 {
        break;
      }
      if i + 1 + length > |ad| {
        break;
      }
      var typ := ad[i + 1];
      var content := ad[i + 2..i + 1 + length];
      assert AdAt(ad, i) == Ad(typ, content);
      assert DecodeFrom(ad, i).ads[1..] == DecodeFrom(ad, i + 1 + length).ads;
      if typ == MANUFACTURER && |content| >= 2 {
        var lo: int, hi: int := content[0], content[1];
        return Some(Manufacturer(lo + 256 * hi, content[2..]));
      }
      i := i + 1 + length;
    }
    return None;
  }
}
