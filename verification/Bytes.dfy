/** Bytes and the big-endian conversions of the handshake. */
module Bytes {

  type byte = b: int | 0 <= b < 256

  function Zeros(n: nat): (s: seq<byte>)
    ensures |s| == n
  {
    seq(n, i => 0)
  }

  function Pow256(n: nat): (r: nat)
    ensures r > 0
  {
    if n == 0 then 1 else 256 * Pow256(n - 1)
  }

  function Pow2(n: nat): (r: nat)
    ensures r > 0
  {
    if n == 0 then 1 else 2 * Pow2(n - 1)
  }

  /** `BigUint::from_bytes_be`. */
  function FromBytes(s: seq<byte>): nat {
    if |s| == 0 then 0 else FromBytes(s[..|s| - 1]) * 256 + s[|s| - 1]
  }

  /** `BigUint::to_bytes_be`: no leading zero byte, and [0] for zero. */
  function MinBytes(n: nat): (s: seq<byte>)
    ensures |s| > 0 && FromBytes(s) == n
  {
    if n < 256 then [n] else
      var s := MinBytes(n / 256) + [n % 256];
      assert s[..|s| - 1] == MinBytes(n / 256);
      s
  }

  /** `to_bytes_be_padded`. */
  function ToBytes(n: nat, len: nat): (s: seq<byte>)
    ensures |s| == len
  {
    var bytes := MinBytes(n);
    if |bytes| >= len then bytes[|bytes| - len..] else Zeros(len - |bytes|) + bytes
  }

  lemma {:induction false} FromBytesAppend(s: seq<byte>, t: seq<byte>)
    ensures FromBytes(s + t) == FromBytes(s) * Pow256(|t|) + FromBytes(t)
    decreases |t|
  {
    if |t| == 0 {
      assert s + t == s;
    } else {
      var t' := t[..|t| - 1];
      FromBytesAppend(s, t');
      assert (s + t)[..|s + t| - 1] == s + t';
      assert FromBytes(s) * (256 * Pow256(|t'|)) == FromBytes(s) * Pow256(|t'|) * 256;
    }
  }

  lemma {:induction false} FromBytesZeros(n: nat)
    ensures FromBytes(Zeros(n)) == 0
  {
    if n > 0 {
      FromBytesZeros(n - 1);
      assert Zeros(n)[..n - 1] == Zeros(n - 1);
    }
  }

  lemma {:induction false} FromBytesBound(s: seq<byte>)
    ensures FromBytes(s) < Pow256(|s|)
  {
    if |s| > 0 { FromBytesBound(s[..|s| - 1]); }
  }

  /** Splitting off the low bytes is division with remainder by a power of 256. */
  lemma LowBytes(s: seq<byte>, len: nat)
    requires len <= |s|
    ensures FromBytes(s[|s| - len..]) == FromBytes(s) % Pow256(len)
  {
    var hi, lo := s[..|s| - len], s[|s| - len..];
    assert hi + lo == s;
    FromBytesAppend(hi, lo);
    FromBytesBound(lo);
    RemainderUnique(FromBytes(s), FromBytes(hi), FromBytes(lo), Pow256(len));
  }

  lemma RemainderUnique(x: int, q: int, r: int, m: int)
    requires 0 <= r < m && x == q * m + r
    ensures x % m == r
  {
    var d := x / m - q;
    assert x == m * (x / m) + x % m;
    assert d * m == r - x % m by { assert d * m == m * (x / m) - q * m; }
    assert d >= 1 ==> d * m >= m;
    assert d <= -1 ==> d * m <= -m;
  }

  /** Padding and truncation keep the number modulo 256^len. */
  lemma ToBytesValue(n: nat, len: nat)
    ensures FromBytes(ToBytes(n, len)) == n % Pow256(len)
    ensures n < Pow256(len) ==> FromBytes(ToBytes(n, len)) == n
  {
    hide Pow256; hide FromBytes; hide MinBytes;
    var bytes := MinBytes(n);
    if |bytes| >= len {
      LowBytes(bytes, len);
    } else {
      FromBytesAppend(Zeros(len - |bytes|), bytes);
      FromBytesZeros(len - |bytes|);
      LowBytes(ToBytes(n, len), len);
      assert ToBytes(n, len)[0..] == ToBytes(n, len);
    }
    if n < Pow256(len) { RemainderUnique(n, 0, n, Pow256(len)); }
  }

  /** The number determines the padded bytes. */
  lemma {:induction false} FromBytesInjective(s: seq<byte>, t: seq<byte>)
    requires |s| == |t| && FromBytes(s) == FromBytes(t)
    ensures s == t
    decreases |s|
  {
    if |s| > 0 {
      FromBytesInjective(s[..|s| - 1], t[..|t| - 1]);
      assert s == s[..|s| - 1] + [s[|s| - 1]];
      assert t == t[..|t| - 1] + [t[|t| - 1]];
    }
  }
}
