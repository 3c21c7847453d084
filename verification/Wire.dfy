/** The two records of the wire format: the 24-byte event record (LER) that the node
    signs and encrypts, and the 184-byte frame (LF) that it advertises. */
module Wire {
  import opened Base

  const LER_LEN := 24
  const SIG_LEN := 64
  const PLAINTEXT_LEN := 88
  const HEADER_LEN := 4
  const NONCE_LEN := 12
  const TAG_LEN := 16
  const LF_LEN := 184
  const LF_SIGNED := 120
  const STRIPPED_LEN := 182 // the frame without the two bytes that travel as company identifier
  const PROTO_VERSION: byte := 0x02

  /** Floats are carried as their four bytes. */
  datatype Ler = Ler(
    nodeId: seq<byte>,
    eventType: byte,
    reserved: byte,
    sequence: u32,
    timestampMs: u32,
    accelG: seq<byte>,
    deltaPa: seq<byte>)
  {
    predicate Sized() { |nodeId| == 6 && |accelG| == 4 && |deltaPa| == 4 }

    function ToBytes(): seq<byte> {
      nodeId + [eventType, reserved] + LeBytes(sequence) + LeBytes(timestampMs) + accelG + deltaPa
    }
  }

  function LerFromBytes(d: seq<byte>): Ler
    requires |d| == LER_LEN
  {
    Ler(d[0..6], d[6], d[7], LeValue(d[8..12]), LeValue(d[12..16]), d[16..20], d[20..24])
  }

  lemma LerRoundTrip(r: Ler, d: seq<byte>)
    requires r.Sized() && |d| == LER_LEN
    ensures |r.ToBytes()| == LER_LEN && LerFromBytes(r.ToBytes()) == r
    ensures LerFromBytes(d).Sized() && LerFromBytes(d).ToBytes() == d
  {
    var b := r.ToBytes();
    assert b[8..12] == LeBytes(r.sequence) && b[12..16] == LeBytes(r.timestampMs);
    assert b[0..6] == r.nodeId && b[16..20] == r.accelG && b[20..24] == r.deltaPa;
    LeRoundTrip(r.sequence, d[8..12]);
    LeRoundTrip(r.timestampMs, d[12..16]);
    assert d == d[0..6] + [d[6], d[7]] + d[8..12] + d[12..16] + d[16..20] + d[20..24];
  }

  /** The record byte by byte; numbers stand least significant byte first. */
  lemma LerLayout(r: Ler)
    requires r.Sized()
    ensures var b := r.ToBytes();
            && |b| == 24 && b[0..6] == r.nodeId && b[6] == r.eventType && b[7] == r.reserved
            && b[8..12] == [r.sequence % 256, r.sequence / 256 % 256, r.sequence / 65536 % 256, r.sequence / 16777216]
            && b[12..16] == [r.timestampMs % 256, r.timestampMs / 256 % 256, r.timestampMs / 65536 % 256, r.timestampMs / 16777216]
            && b[16..20] == r.accelG && b[20..24] == r.deltaPa
  {
    LeOrder(r.sequence);
    LeOrder(r.timestampMs);
    var b := r.ToBytes();
    assert b[0..6] == r.nodeId && b[8..12] == LeBytes(r.sequence) && b[12..16] == LeBytes(r.timestampMs);
  }

  lemma LeOrder(n: u32)
    ensures LeBytes(n) == [n % 256, n / 256 % 256, n / 65536 % 256, n / 16777216]
  {
    assert n / 256 / 256 == n / 65536 && n / 256 / 256 / 256 == n / 16777216;
  }

  datatype Lf = Lf(
    protoVersion: byte,
    eventType: byte,
    reserved: seq<byte>,
    nonce: seq<byte>,
    ciphertext: seq<byte>,
    gcmTag: seq<byte>,
    outerSig: seq<byte>)
  {
    predicate Sized() {
      |reserved| == 2 && |nonce| == NONCE_LEN && |ciphertext| == PLAINTEXT_LEN &&
      |gcmTag| == TAG_LEN && |outerSig| == SIG_LEN
    }

    function Header(): seq<byte> { [protoVersion, eventType] + reserved }

    /** What the outer signature covers */
    function SignedBytes(): seq<byte> { Header() + nonce + ciphertext + gcmTag }

    function ToBytes(): seq<byte> { SignedBytes() + outerSig }
  }

  function LfFromBytes(d: seq<byte>): Lf
    requires |d| == LF_LEN
  {
    Lf(d[0], d[1], d[2..4], d[4..16], d[16..104], d[104..120], d[120..184])
  }

  lemma LfRoundTrip(f: Lf, d: seq<byte>)
    requires f.Sized() && |d| == LF_LEN
    ensures |f.ToBytes()| == LF_LEN && LfFromBytes(f.ToBytes()) == f
    ensures f.ToBytes()[..LF_SIGNED] == f.SignedBytes()
    ensures LfFromBytes(d).Sized() && LfFromBytes(d).ToBytes() == d
    ensures LfFromBytes(d).SignedBytes() == d[..LF_SIGNED]
  {
    var b := f.ToBytes();
    assert b[2..4] == f.reserved && b[4..16] == f.nonce && b[16..104] == f.ciphertext;
    assert b[104..120] == f.gcmTag && b[120..184] == f.outerSig;
    assert d == [d[0], d[1]] + d[2..4] + d[4..16] + d[16..104] + d[104..120] + d[120..184];
  }

  /** The frame byte by byte, and what of it the outer signature covers */
  lemma LfLayout(f: Lf)
    requires f.Sized()
    ensures var b := f.ToBytes();
            && |b| == 184 && b[0] == f.protoVersion && b[1] == f.eventType && b[2..4] == f.reserved && b[4..16] == f.nonce
            && b[16..104] == f.ciphertext && b[104..120] == f.gcmTag && b[120..184] == f.outerSig
            && f.SignedBytes() == b[..120] && f.Header() == b[..4]
  {
    var b := f.ToBytes();
    assert b[..120] == f.SignedBytes() && b[..4] == f.Header();
  }

  /** The gateway library's serialiser: one buffer filled field by field. */
  method LfToArray(f: Lf) returns (buf: array<byte>)
    requires f.Sized()
    ensures buf.Length == LF_LEN && buf[..] == f.ToBytes()
  {
    buf := new byte[LF_LEN](_ => 0);
    buf[0] := f.protoVersion;
    buf[1] := f.eventType;
    assert buf[..2] == [f.protoVersion, f.eventType];
    CopyInto(buf, 2, f.reserved);
    CopyInto(buf, 4, f.nonce);
    CopyInto(buf, 16, f.ciphertext);
    CopyInto(buf, 104, f.gcmTag);
    CopyInto(buf, 120, f.outerSig);
    assert buf[..] == buf[..184];
  }

  method LerToArray(r: Ler) returns (buf: array<byte>)
    requires r.Sized()
    ensures buf.Length == LER_LEN && buf[..] == r.ToBytes()
  {
    buf := new byte[LER_LEN](_ => 0);
    CopyInto(buf, 0, r.nodeId);
    assert buf[..6] == r.nodeId;
    buf[6] := r.eventType;
    assert buf[..7] == r.nodeId + [r.eventType];
    buf[7] := r.reserved;
    assert buf[..8] == r.nodeId + [r.eventType] + [r.reserved];
    CopyInto(buf, 8, LeBytes(r.sequence));
    CopyInto(buf, 12, LeBytes(r.timestampMs));
    CopyInto(buf, 16, r.accelG);
    CopyInto(buf, 20, r.deltaPa);
    assert buf[..] == buf[..LER_LEN];
    assert r.nodeId + [r.eventType] + [r.reserved] == r.nodeId + [r.eventType, r.reserved];
  }

  /** What `signed_bytes` copies out is what the signature covers. */
  method SignedToArray(f: Lf) returns (out: array<byte>)
    requires f.Sized()
    ensures out.Length == LF_SIGNED && out[..] == f.SignedBytes()
  {
    var full := LfToArray(f);
    LfRoundTrip(f, Zeros(LF_LEN));
    out := new byte[LF_SIGNED](_ => 0);
    CopyInto(out, 0, full[..LF_SIGNED]);
    assert out[..] == out[..LF_SIGNED];
  }
}
