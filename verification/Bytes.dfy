/** Octets and big-endian numbers. */
module Bytes {

  type byte = n: int | 0 <= n < 256

  type bytes = seq<byte>

  /** The low k octets of n, most significant first. */
  function BigEndian(n: nat, k: nat): (b: bytes)
    ensures |b| == k
    decreases k, n
  {
    if k == 0 then [] else BigEndian(n / 256, k - 1) + [n % 256]
  }

  function FromBigEndian(b: bytes): nat {
    if b == [] then 0 else FromBigEndian(b[..|b| - 1]) * 256 + b[|b| - 1]
  }

  function Pow256(k: nat): nat {
    if k == 0 then 1 else 256 * Pow256(k - 1)
  }

  lemma Pow256Positive(k: nat)
    ensures Pow256(k) > 0
  {
  }

  lemma ModUnique(n: nat, q: nat, r: nat, m: nat)
    requires m > 0 && r < m && n == q * m + r
    ensures n % m == r
  {
    var d := n / m - q;
    assert n == (n / m) * m + n % m;
    assert d * m == r - n % m by {
      assert (n / m - q) * m == (n / m) * m - q * m;
    }
    assert d >= 1 ==> d * m >= m;
    assert d <= -1 ==> d * m + m <= 0;
  }

  lemma ModStep(n: nat, m: nat)
    requires m > 0
    ensures n % (256 * m) == (n / 256) % m * 256 + n % 256
  {
    var q, r := (n / 256) / m, (n / 256) % m;
    assert n / 256 == q * m + r;
    assert 256 * (q * m) == q * (256 * m);
    ModUnique(n, q, 256 * r + n % 256, 256 * m);
  }

  /** k octets hold a number modulo 256^k. */
  lemma {:induction false} BigEndianLow(n: nat, k: nat)
    ensures Pow256(k) > 0
    ensures FromBigEndian(BigEndian(n, k)) == n % Pow256(k)
    decreases k
  {
    Pow256Positive(k);
    if k > 0 {
      var m := Pow256(k - 1);
      Pow256Positive(k - 1);
      BigEndianLow(n / 256, k - 1);
      var b := BigEndian(n, k);
      assert b[..|b| - 1] == BigEndian(n / 256, k - 1);
      ModStep(n, m);
    }
  }

  lemma BigEndianRoundTrip(n: nat, k: nat)
    requires n < Pow256(k)
    ensures FromBigEndian(BigEndian(n, k)) == n
  {
    BigEndianLow(n, k);
  }

  function U16(n: nat): bytes {
    BigEndian(n, 2)
  }

  function GetU16(b: bytes): nat
    requires |b| >= 2
  {
    FromBigEndian(b[..2])
  }

  lemma U16RoundTrip(n: nat, tail: bytes)
    requires n < 65536
    ensures GetU16(U16(n) + tail) == n
  {
    BigEndianRoundTrip(n, 2);
    assert (U16(n) + tail)[..2] == U16(n);
  }

  lemma GetU16Range(b: bytes)
    requires |b| >= 2
    ensures GetU16(b) < 65536
  {
    var c := b[..2];
    assert c[..1][..0] == [];
    assert FromBigEndian(c[..1]) == c[0];
  }
}
