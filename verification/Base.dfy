/** Bytes, machine words and the little-endian and hexadecimal encodings shared by
    the node, the gateway and the client. */
module Base {

  datatype Option<+T> = None | Some(value: T)

  type byte = b: int | 0 <= b < 256
  type u16 = n: int | 0 <= n < 0x1_0000
  type u32 = n: int | 0 <= n < 0x1_0000_0000

  const WORD := 0x1_0000_0000

  function Zeros(n: nat): (s: seq<byte>)
    ensures |s| == n && forall i :: 0 <= i < n ==> s[i] == 0
  {
    seq(n, _ => 0)
  }

  lemma SliceOfSlice<T>(s: seq<T>, a: nat, b: nat, i: nat, j: nat)
    requires a <= b <= |s| && i <= j <= b - a
    ensures s[a..b][i..j] == s[a + i..a + j]
  {
    var t := s[a..b];
    forall k | 0 <= k < j - i ensures t[i..j][k] == s[a + i..a + j][k] {
      assert t[i..j][k] == t[i + k] == s[a + (i + k)];
    }
  }

  lemma Regroup<T>(a: seq<T>, b: seq<T>, c: seq<T>)
    ensures a + (b + c) == (a + b) + c
  {
  }

  /** `u32::to_le_bytes` */
  function LeBytes(n: u32): (s: seq<byte>)
    ensures |s| == 4
  {
    [n % 256, n / 256 % 256, n / 256 / 256 % 256, n / 256 / 256 / 256]
  }

  /** `u32::from_le_bytes` */
  function LeValue(s: seq<byte>): u32
    requires |s| == 4
  {
    var a: int, b: int, c: int, d: int := s[0], s[1], s[2], s[3];
    a + 256 * (b + 256 * (c + 256 * d))
  }

  lemma LeRoundTrip(n: u32, s: seq<byte>)
    requires |s| == 4
    ensures LeValue(LeBytes(n)) == n
    ensures LeBytes(LeValue(s)) == s
  {
    var v := LeValue(s);
    var b: int, c: int, d: int := s[1], s[2], s[3];
    assert v / 256 == b + 256 * (c + 256 * d);
    assert v / 256 / 256 == c + 256 * d;
  }

  /** `copy_from_slice` and `memcpy`: overwrite `src`'s length of `buf` from `at` on. */
  method CopyInto(buf: array<byte>, at: nat, src: seq<byte>)
    requires at + |src| <= buf.Length
    modifies buf
    ensures buf[..at + |src|] == old(buf[..at]) + src
    ensures buf[at + |src|..] == old(buf[at + |src|..])
  {
    for i := 0 to |src|
      invariant buf[..at + i] == old(buf[..at]) + src[..i]
      invariant buf[at + i..] == old(buf[at + i..])
    {
      ghost var rest := buf[at + i..];
      buf[at + i] := src[i];
      assert buf[at + i + 1..] == rest[1..];
    }
  }

  // Hexadecimal text

  function Digit(n: int): (c: char)
    requires 0 <= n < 16
  {
    if n < 10 then '0' + n as char else 'a' + (n - 10) as char
  }

  /** `{:02X}` writes digits of this case */
  function UpperDigit(n: int): (c: char)
    requires 0 <= n < 16
  {
    if n < 10 then '0' + n as char else 'A' + (n - 10) as char
  }

  function DigitValue(c: char): Option<int> {
    if '0' <= c <= '9' then Some(c as int - '0' as int)
    else if 'a' <= c <= 'f' then Some(c as int - 'a' as int + 10)
    else if 'A' <= c <= 'F' then Some(c as int - 'A' as int + 10)
    else None
  }

  /** `hex::encode` */
  function HexEncode(s: seq<byte>): (t: string)
    ensures |t| == 2 * |s|
  {
    if s == [] then [] else [Digit(s[0] / 16), Digit(s[0] % 16)] + HexEncode(s[1..])
  }

  /** `hex::decode`: no value for text of odd length or with a character that is no digit */
  function HexDecode(t: string): Option<seq<byte>> {
    if t == [] then Some([])
    else if |t| == 1 then None
    else
      var hi, lo := DigitValue(t[0]), DigitValue(t[1]);
      match HexDecode(t[2..])
      case None => None
      case Some(rest) =>
        if hi.Some? && lo.Some? && 0 <= hi.value < 16 && 0 <= lo.value < 16
        then Some([16 * hi.value + lo.value] + rest) else None
  }

  lemma DigitsAre(n: int, c: char)
    requires 0 <= n < 16
    ensures Digit(n) == "0123456789abcdef"[n] && UpperDigit(n) == "0123456789ABCDEF"[n]
    ensures DigitValue(c) == Some(n) <==> c == "0123456789abcdef"[n] || c == "0123456789ABCDEF"[n]
  {
    DigitIs(n);
    if DigitValue(c) == Some(n) { assert c == Digit(n) || c == UpperDigit(n); }
  }

  lemma DigitIs(n: int)
    requires 0 <= n < 16
    ensures Digit(n) == "0123456789abcdef"[n] && UpperDigit(n) == "0123456789ABCDEF"[n]
  {
    if n < 10 {
      assert "0123456789abcdef"[n] == "0123456789"[n] == "0123456789ABCDEF"[n];
    } else {
      assert "0123456789abcdef"[n] == "abcdef"[n - 10] && "0123456789ABCDEF"[n] == "ABCDEF"[n - 10];
    }
  }

  /** The bytes are decoded pair by pair, and from nothing but pairs of digits. */
  lemma {:induction false} HexDecodesPairs(t: string, s: seq<byte>)
    ensures HexDecode(t) == Some(s) <==>
              |t| == 2 * |s| &&
              forall i :: 0 <= i < |s| ==> DigitValue(t[2 * i]) == Some(s[i] / 16) && DigitValue(t[2 * i + 1]) == Some(s[i] % 16)
  {
    if |t| >= 2 && s != [] {
      var hi, lo := DigitValue(t[0]), DigitValue(t[1]);
      HexDecodesPairs(t[2..], s[1..]);
      assert s == [s[0]] + s[1..];
      if HexDecode(t) == Some(s) {
        forall i | 0 <= i < |s|
          ensures DigitValue(t[2 * i]) == Some(s[i] / 16) && DigitValue(t[2 * i + 1]) == Some(s[i] % 16)
        {
          if i > 0 { assert t[2..][2 * (i - 1)] == t[2 * i] && t[2..][2 * (i - 1) + 1] == t[2 * i + 1]; }
        }
      }
      if |t| == 2 * |s| &&
         forall i :: 0 <= i < |s| ==> DigitValue(t[2 * i]) == Some(s[i] / 16) && DigitValue(t[2 * i + 1]) == Some(s[i] % 16) {
        forall i | 0 <= i < |s[1..]|
          ensures DigitValue(t[2..][2 * i]) == Some(s[1..][i] / 16) && DigitValue(t[2..][2 * i + 1]) == Some(s[1..][i] % 16)
        {
          assert t[2..][2 * i] == t[2 * (i + 1)] && t[2..][2 * i + 1] == t[2 * (i + 1) + 1];
        }
        assert HexDecode(t[2..]) == Some(s[1..]);
      }
    }
  }

  lemma {:induction false} HexRoundTrip(s: seq<byte>)
    ensures HexDecode(HexEncode(s)) == Some(s)
  {
    if s != [] {
      HexRoundTrip(s[1..]);
      var t := HexEncode(s);
      assert t[2..] == HexEncode(s[1..]);
      assert DigitValue(t[0]) == Some(s[0] / 16) && DigitValue(t[1]) == Some(s[0] % 16);
      assert [s[0]] + s[1..] == s;
    }
  }
}
