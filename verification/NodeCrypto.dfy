/** How the node turns an event into a frame: build the record, sign it, encrypt record
    and signature together, sign the result. ECDSA and AES-GCM are abstract. */
module NodeCrypto {
  import opened Base
  import opened Wire
  import opened Events

  type Sig = s: seq<byte> | |s| == SIG_LEN witness seq(64, _ => 0)
  type Nonce = s: seq<byte> | |s| == NONCE_LEN witness seq(12, _ => 0)

  /** `sign` takes the randomness of the signature as its second argument; `seal` and
      `unseal` take key, nonce, additional data and message. */
  datatype Crypto = Crypto(
    sign: (seq<byte>, nat) -> Sig,
    verify: (seq<byte>, seq<byte>) -> bool,
    seal: (seq<byte>, Nonce, seq<byte>, seq<byte>) -> seq<byte>,
    unseal: (seq<byte>, Nonce, seq<byte>, seq<byte>) -> Option<seq<byte>>)
  {
    /** All that is assumed of the primitives. The second and third line are what sections
        7.1 and 7.2 of NIST SP 800-38D give for a 16-byte tag. */
    ghost predicate Correct() {
      && (forall m, r :: verify(m, sign(m, r)))
      && (forall k, n, a, p :: |seal(k, n, a, p)| == |p| + TAG_LEN)
      && (forall k, n, a, p :: unseal(k, n, a, seal(k, n, a, p)) == Some(p))
    }
  }

  lemma CorrectCryptoExists()
    ensures exists c: Crypto :: c.Correct()
  {
    var c := Crypto((m, r) => Zeros(SIG_LEN), (m, s) => true,
                    (k, n, a, p) => p + Zeros(TAG_LEN),
                    (k, n, a, m) => if |m| >= TAG_LEN then Some(m[..|m| - TAG_LEN]) else None);
    assert c.Correct();
  }

  // The record

  /** `addr` is the device address as the Bluetooth stack holds it, least significant
      byte first; `sequence` is the already incremented counter. */
  function BuildLer(addr: seq<byte>, sequence: u32, e: Event): Ler {
    Ler(addr, Code(e.kind), 0, sequence, e.timestampMs,
        if e.kind == MotionDetected || e.kind == DualBreach then e.data[..4] else Zeros(4),
        if e.kind == PressureBreach then e.data[..4] else Zeros(4))
  }

  /** What a record says of an event, byte by byte: the node's address, the event's time and
      code, and the sensor value that set the event off in the field of that sensor. */
  predicate Records(r: Ler, addr: seq<byte>, sequence: u32, e: Event) {
    && r.nodeId == addr && r.reserved == 0 && r.sequence == sequence && r.timestampMs == e.timestampMs
    && match e.kind
       case PressureBreach => r.eventType == 0x01 && r.accelG == [0, 0, 0, 0] && r.deltaPa == e.data[..4]
       case MotionDetected => r.eventType == 0x02 && r.accelG == e.data[..4] && r.deltaPa == [0, 0, 0, 0]
       case DualBreach => r.eventType == 0x03 && r.accelG == e.data[..4] && r.deltaPa == [0, 0, 0, 0]
       case TamperDetected => r.eventType == 0x05 && r.accelG == [0, 0, 0, 0] && r.deltaPa == [0, 0, 0, 0]
       case _ => r.accelG == [0, 0, 0, 0] && r.deltaPa == [0, 0, 0, 0]
  }

  lemma RecordOfEvent(addr: seq<byte>, sequence: u32, e: Event)
    ensures Records(BuildLer(addr, sequence, e), addr, sequence, e)
  {
    assert Zeros(4) == [0, 0, 0, 0];
  }

  // The frame

  /** What the hardware answers while a frame is being built. */
  datatype LfHw = LfHw(
    signKeyReady: bool, aesKeyReady: bool,
    rngOk: bool, nonce: Nonce,
    aeadOk: bool,
    outerOk: bool, outerRnd: nat)

  datatype BuildRc = Done | Einval | Ecanceled | Eio

  function Header(ler: Ler): seq<byte> { [PROTO_VERSION, ler.eventType, 0, 0] }

  /** The return code of the build and the frame buffer it leaves, given the buffer `prev`
      it found. A buffer left by a failed build is never advertised. */
  function BuildLf(c: Crypto, key: seq<byte>, ler: Ler, innerSig: Sig, innerLen: nat, hw: LfHw, prev: seq<byte>)
    : (BuildRc, seq<byte>)
  {
    if innerLen != SIG_LEN then (Einval, prev)
    else if !hw.aesKeyReady || !hw.signKeyReady then (Ecanceled, prev)
    else
      var start := Header(ler) + hw.nonce;
      var sealed := c.seal(key, hw.nonce, Header(ler), ler.ToBytes() + innerSig);
      if !hw.rngOk || !hw.aeadOk || |sealed| != PLAINTEXT_LEN + TAG_LEN then
        (Eio, start + Zeros(PLAINTEXT_LEN + TAG_LEN + SIG_LEN))
      else if !hw.outerOk then
        (Eio, start + sealed + Zeros(SIG_LEN))
      else
        (Done, start + sealed + c.sign(start + sealed, hw.outerRnd))
  }

  /** What a frame is for, said without reference to how it was made: its outer signature
      holds, its header announces the record's event type, and the holder of the key
      finds in the plaintext exactly the record's 24 bytes and a signature of them. */
  predicate Carries(c: Crypto, key: seq<byte>, lf: seq<byte>, ler: Ler) {
    && |lf| == LF_LEN
    && lf[..HEADER_LEN] == [PROTO_VERSION, ler.eventType, 0, 0]
    && c.verify(lf[..LF_SIGNED], lf[LF_SIGNED..])
    && var plain := c.unseal(key, lf[4..16], lf[..HEADER_LEN], lf[16..LF_SIGNED]);
       && plain.Some? && |plain.value| == PLAINTEXT_LEN && plain.value[..LER_LEN] == ler.ToBytes()
       && c.verify(plain.value[..24], plain.value[24..])
  }

  /** A built frame, byte range by byte range: version, event type, reserved, nonce, the
      sealed record and signature, and the signature of the 120 bytes before it. */
  lemma BuiltFrameIsExact(c: Crypto, key: seq<byte>, ler: Ler, innerSig: Sig, innerLen: nat, hw: LfHw, prev: seq<byte>)
    requires c.Correct() && ler.Sized()
    requires BuildLf(c, key, ler, innerSig, innerLen, hw, prev).0 == Done
    ensures var lf := BuildLf(c, key, ler, innerSig, innerLen, hw, prev).1;
            && |lf| == 184 && lf[..4] == [0x02, ler.eventType, 0, 0] && lf[4..16] == hw.nonce
            && c.unseal(key, hw.nonce, lf[..4], lf[16..120]) == Some(ler.ToBytes() + innerSig)
            && lf[120..] == c.sign(lf[..120], hw.outerRnd)
  {
    LerRoundTrip(ler, Zeros(LER_LEN));
    var sealed := c.seal(key, hw.nonce, Header(ler), ler.ToBytes() + innerSig);
    var signed := Header(ler) + hw.nonce + sealed;
    var sig := c.sign(signed, hw.outerRnd);
    var lf := signed + sig;
    assert lf[..120] == signed && lf[120..] == sig;
    assert lf[..4] == Header(ler) && lf[4..16] == hw.nonce && lf[16..120] == sealed;
  }

  lemma BuiltFrameCarries(c: Crypto, key: seq<byte>, ler: Ler, innerSig: Sig, innerLen: nat, hw: LfHw, prev: seq<byte>)
    requires c.Correct() && ler.Sized() && c.verify(ler.ToBytes(), innerSig)
    requires BuildLf(c, key, ler, innerSig, innerLen, hw, prev).0 == Done
    ensures Carries(c, key, BuildLf(c, key, ler, innerSig, innerLen, hw, prev).1, ler)
  {
    LerRoundTrip(ler, Zeros(LER_LEN));
    BuiltFrameIsExact(c, key, ler, innerSig, innerLen, hw, prev);
    var lf, plain := BuildLf(c, key, ler, innerSig, innerLen, hw, prev).1, ler.ToBytes() + innerSig;
    assert c.verify(lf[..120], c.sign(lf[..120], hw.outerRnd));
    assert plain[..24] == ler.ToBytes() && plain[24..] == innerSig;
  }

  /** Under the hypotheses the build succeeds exactly when every device it asks answers; a
      signature of the wrong length and a missing key have codes of their own and leave the
      buffer alone. */
  lemma BuildSucceedsIff(c: Crypto, key: seq<byte>, ler: Ler, innerSig: Sig, innerLen: nat, hw: LfHw, prev: seq<byte>)
    requires c.Correct() && ler.Sized()
    ensures var (rc, lf) := BuildLf(c, key, ler, innerSig, innerLen, hw, prev);
            && (rc == Done <==>
                  innerLen == 64 && hw.aesKeyReady && hw.signKeyReady && hw.rngOk && hw.aeadOk && hw.outerOk)
            && (rc == Einval <==> innerLen != 64)
            && (rc == Ecanceled <==> innerLen == 64 && !(hw.aesKeyReady && hw.signKeyReady))
            && (rc == Einval || rc == Ecanceled ==> lf == prev)
  {
    LerRoundTrip(ler, Zeros(LER_LEN));
    assert |c.seal(key, hw.nonce, Header(ler), ler.ToBytes() + innerSig)| == PLAINTEXT_LEN + TAG_LEN;
  }

  /** `lima_crypto_build_lf`: fill the frame buffer in place. */
  method BuildLfInPlace(c: Crypto, key: seq<byte>, ler: Ler, innerSig: Sig, innerLen: nat, hw: LfHw, out: array<byte>)
    returns (rc: BuildRc)
    requires out.Length == LF_LEN
    modifies out
    ensures (rc, out[..]) == BuildLf(c, key, ler, innerSig, innerLen, hw, old(out[..]))
  {
    if innerLen != SIG_LEN {
      return Einval;
    }
    if !hw.aesKeyReady || !hw.signKeyReady {
      return Ecanceled;
    }

    // Zero the frame, then the header; the reserved bytes stay zero
    CopyInto(out, 0, Zeros(LF_LEN));
    assert out[..] == out[..LF_LEN] == Zeros(LF_LEN);
    out[0] := PROTO_VERSION;
    out[1] := ler.eventType;
    assert out[..HEADER_LEN] == Header(ler);

    CopyInto(out, 4, hw.nonce);
    assert out[16..] == Zeros(PLAINTEXT_LEN + TAG_LEN + SIG_LEN);
    if !hw.rngOk {
      assert out[..] == out[..16] + out[16..];
      return Eio;
    }
    rc := SealInPlace(c, key, ler, innerSig, innerLen, hw, out, old(out[..]));
  }

  /** Steps 3 and 4 of it: encrypt behind header and nonce, and sign all that */
  method SealInPlace(c: Crypto, key: seq<byte>, ler: Ler, innerSig: Sig, innerLen: nat, hw: LfHw, out: array<byte>,
                     ghost prev: seq<byte>)
    returns (rc: BuildRc)
    requires innerLen == SIG_LEN && hw.aesKeyReady && hw.signKeyReady && hw.rngOk && out.Length == LF_LEN
    requires out[..16] == Header(ler) + hw.nonce && out[16..] == Zeros(PLAINTEXT_LEN + TAG_LEN + SIG_LEN)
    modifies out
    ensures (rc, out[..]) == BuildLf(c, key, ler, innerSig, innerLen, hw, prev)
  {
    ghost var start := Header(ler) + hw.nonce;
    assert start[..HEADER_LEN] == Header(ler);
    assert out[..HEADER_LEN] == out[..16][..HEADER_LEN];
    var sealed := c.seal(key, hw.nonce, out[..HEADER_LEN], ler.ToBytes() + innerSig);
    if !hw.aeadOk || |sealed| != PLAINTEXT_LEN + TAG_LEN {
      assert out[..] == out[..16] + out[16..];
      return Eio;
    }
    assert sealed == sealed[..PLAINTEXT_LEN] + sealed[PLAINTEXT_LEN..];
    CopyInto(out, 16, sealed[..PLAINTEXT_LEN]);
    assert out[..104] == start + sealed[..PLAINTEXT_LEN];
    assert out[104..] == Zeros(TAG_LEN + SIG_LEN);
    CopyInto(out, 104, sealed[PLAINTEXT_LEN..]);
    Regroup(start, sealed[..PLAINTEXT_LEN], sealed[PLAINTEXT_LEN..]);
    assert out[..LF_SIGNED] == start + sealed;
    assert out[LF_SIGNED..] == Zeros(SIG_LEN);
    if !hw.outerOk {
      assert out[..] == out[..LF_SIGNED] + out[LF_SIGNED..];
      return Eio;
    }
    CopyInto(out, LF_SIGNED, c.sign(out[..LF_SIGNED], hw.outerRnd));
    assert out[..] == out[..LF_LEN];
    return Done;
  }
}
