/** The client's side of the wire: rebuild the frame from a stored blob, decrypt it and
    read the record. */
module ClientCrypto {
  import opened Base
  import opened Wire
  import opened NodeCrypto

  /** The record as the client keeps it, without the reserved byte */
  datatype ClientLer = ClientLer(
    nodeId: seq<byte>, eventType: byte, sequence: u32, timestampMs: u32, accelG: seq<byte>, deltaPa: seq<byte>)

  /** What the operator is to see of a record */
  function Shown(r: Ler): ClientLer {
    ClientLer(r.nodeId, r.eventType, r.sequence, r.timestampMs, r.accelG, r.deltaPa)
  }

  function ParseLer(b: seq<byte>): (r: Option<ClientLer>)
    ensures r.Some? <==> |b| == LER_LEN
  {
    if |b| != LER_LEN then None
    else Some(ClientLer(b[0..6], b[6], LeValue(b[8..12]), LeValue(b[12..16]), b[16..20], b[20..24]))
  }

  lemma ParseInvertsToBytes(r: Ler)
    requires r.Sized()
    ensures ParseLer(r.ToBytes()) == Some(Shown(r))
  {
    LerRoundTrip(r, Zeros(LER_LEN));
    assert ParseLer(r.ToBytes()) == Some(Shown(LerFromBytes(r.ToBytes())));
  }

  /** The frame a stored blob stands for: the version is fixed and the event type comes from
      its own column. */
  function Restored(stripped: seq<byte>, eventType: byte): Option<seq<byte>> {
    if |stripped| != STRIPPED_LEN then None else Some([PROTO_VERSION, eventType] + stripped)
  }

  /** `reconstruct_lf` */
  method ReconstructLf(stripped: seq<byte>, eventType: byte) returns (lf: array?<byte>)
    ensures lf == null <==> |stripped| != STRIPPED_LEN
    ensures lf != null ==> fresh(lf) && lf.Length == LF_LEN && Restored(stripped, eventType) == Some(lf[..])
  {
    if |stripped| != STRIPPED_LEN {
      return null;
    }
    var full := new byte[LF_LEN](_ => 0);
    full[0] := PROTO_VERSION;
    full[1] := eventType;
    assert full[..2] == [PROTO_VERSION, eventType];
    CopyInto(full, 2, stripped);
    assert full[..] == full[..LF_LEN];
    return full;
  }

  /** The record that a blob holds for the owner of the key, if it is one of a frame */
  function Decrypt(c: Crypto, key: seq<byte>, blob: seq<byte>, eventType: byte): Option<ClientLer> {
    match Restored(blob, eventType)
    case None => None
    case Some(lf) =>
      match c.unseal(key, lf[4..16], lf[..HEADER_LEN], lf[16..LF_SIGNED])
      case None => None
      case Some(plain) => if |plain| != PLAINTEXT_LEN then None else ParseLer(plain[..LER_LEN])
  }

  /** What is decrypted, in the blob's own bytes: the nonce is its bytes 2 to 13, the sealed
      text its bytes 14 to 117, and the header is made of the version, the event type of the
      row and the blob's first two bytes. */
  lemma DecryptsFrom(c: Crypto, key: seq<byte>, blob: seq<byte>, eventType: byte, l: ClientLer)
    ensures Decrypt(c, key, blob, eventType) == Some(l) <==>
              |blob| == 182 &&
              var plain := c.unseal(key, blob[2..14], [2, eventType, blob[0], blob[1]], blob[14..118]);
              && plain.Some? && |plain.value| == 88
              && var b := plain.value;
                 l == ClientLer(b[0..6], b[6], LeValue(b[8..12]), LeValue(b[12..16]), b[16..20], b[20..24])
  {
    if |blob| == 182 {
      var lf := [2, eventType] + blob;
      assert lf[4..16] == blob[2..14] && lf[..4] == [2, eventType, blob[0], blob[1]] && lf[16..120] == blob[14..118];
      var plain := c.unseal(key, lf[4..16], lf[..4], lf[16..120]);
      if plain.Some? && |plain.value| == 88 { HeadReads(plain.value); }
    }
  }

  lemma HeadReads(b: seq<byte>)
    requires |b| == 88
    ensures ParseLer(b[..24]) ==
              Some(ClientLer(b[0..6], b[6], LeValue(b[8..12]), LeValue(b[12..16]), b[16..20], b[20..24]))
  {
    var h := b[..24];
    assert h[0..6] == b[0..6] && h[8..12] == b[8..12] && h[12..16] == b[12..16] && h[16..20] == b[16..20] && h[20..24] == b[20..24];
  }

  /** `decrypt_ler` */
  method DecryptLer(c: Crypto, key: seq<byte>, blob: seq<byte>, eventType: byte) returns (r: Option<ClientLer>)
    ensures r == Decrypt(c, key, blob, eventType)
  {
    var lf := ReconstructLf(blob, eventType);
    if lf == null {
      return None;
    }
    var aad, nonce, ciphertext, tag := lf[..HEADER_LEN], lf[4..16], lf[16..104], lf[104..LF_SIGNED];
    var sealed := ciphertext + tag;
    assert sealed == lf[..][16..LF_SIGNED] && aad == lf[..][..HEADER_LEN] && nonce == lf[..][4..16];
    var plain := c.unseal(key, nonce, aad, sealed);
    if plain.None? || |plain.value| != PLAINTEXT_LEN {
      return None;
    }
    return ParseLer(plain.value[..LER_LEN]);
  }

  /** The blob and the event type of a frame that carries a record give back that record. */
  lemma DecryptReadsWhatFrameCarries(c: Crypto, key: seq<byte>, lf: seq<byte>, ler: Ler)
    requires ler.Sized() && Carries(c, key, lf, ler)
    ensures Decrypt(c, key, lf[2..], lf[1]) == Some(Shown(ler))
  {
    assert lf[0] == lf[..HEADER_LEN][0];
    assert [PROTO_VERSION, lf[1]] + lf[2..] == lf;
    ParseInvertsToBytes(ler);
  }
}
