/** Byte strings as little-endian numbers. */
module LittleEndian {

  type Byte = b: int | 0 <= b < 256

  function Pow256(k: nat): (p: nat)
    ensures p > 0
  {
    if k == 0 then 1 else 256 * Pow256(k - 1)
  }

  /** The `k` low bytes of `v`, least significant first. */
  function ToBytes(v: nat, k: nat): (s: seq<Byte>)
    ensures |s| == k
  {
    if k == 0 then [] else [v % 256] + ToBytes(v / 256, k - 1)
  }

  function FromBytes(s: seq<Byte>): nat {
    if s == [] then 0 else s[0] + 256 * FromBytes(s[1..])
  }

  /** Only the low bytes survive: the number comes back modulo the range of `k` bytes. */
  lemma {:induction false} FromToBytes(v: nat, k: nat)
    ensures FromBytes(ToBytes(v, k)) == v % Pow256(k)
    ensures v < Pow256(k) ==> FromBytes(ToBytes(v, k)) == v
  {
    if k > 0 {
      FromToBytes(v / 256, k - 1);
      assert ToBytes(v, k)[1..] == ToBytes(v / 256, k - 1);
      LowByte(v, Pow256(k - 1));
    }
  }

  lemma LowByte(v: nat, p: nat)
    requires p > 0
    ensures v % (256 * p) == v % 256 + 256 * ((v / 256) % p)
  {
    var q, m := (v / 256) / p, (v / 256) % p;
    assert v / 256 == q * p + m;
    assert v == (256 * p) * q + (v % 256 + 256 * m);
    Remainder(v, 256 * p, q, v % 256 + 256 * m);
  }

  lemma Multiple(d: int, x: int)
    requires d > 0 && x != 0
    ensures d * x >= d || d * x <= -d
  {
  }

  lemma Remainder(v: int, d: int, q: int, r: int)
    requires d > 0 && v == d * q + r && 0 <= r < d
    ensures v % d == r
  {
    var x := v / d - q;
    assert d * x == r - v % d;
    if x != 0 {
      Multiple(d, x);
    }
  }

  lemma {:induction false} ToFromBytes(s: seq<Byte>)
    ensures FromBytes(s) < Pow256(|s|)
    ensures ToBytes(FromBytes(s), |s|) == s
  {
    if s != [] {
      ToFromBytes(s[1..]);
      var v := FromBytes(s);
      assert v % 256 == s[0] && v / 256 == FromBytes(s[1..]);
      assert s == [s[0]] + s[1..];
    }
  }

  lemma {:induction false} FromBytesAppend(a: seq<Byte>, b: seq<Byte>)
    ensures FromBytes(a + b) == FromBytes(a) + Pow256(|a|) * FromBytes(b)
  {
    if a == [] {
      assert a + b == b;
    } else {
      FromBytesAppend(a[1..], b);
      assert (a + b)[1..] == a[1..] + b;
      Distribute(FromBytes(a[1..]), Pow256(|a| - 1), FromBytes(b));
    }
  }

  lemma Distribute(x: int, p: int, y: int)
    ensures 256 * (x + p * y) == 256 * x + (256 * p) * y
  {
  }

  function Zeros(n: nat): (s: seq<Byte>)
    ensures |s| == n && forall i :: 0 <= i < n ==> s[i] == 0
  {
    if n == 0 then [] else [0] + Zeros(n - 1)
  }

  lemma {:induction false} ZerosAreNothing(s: seq<Byte>, n: nat)
    ensures FromBytes(Zeros(n)) == 0
    ensures FromBytes(s + Zeros(n)) == FromBytes(s)
  {
    if n > 0 {
      ZerosAreNothing(s, n - 1);
      assert Zeros(n)[1..] == Zeros(n - 1);
    }
    FromBytesAppend(s, Zeros(n));
  }
}
