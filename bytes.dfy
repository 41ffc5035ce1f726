/** Bytes and the big-endian integer encodings every packet header of the system uses. */
module Bytes {
  type byte = x: int | 0 <= x < 256
  type bytes = seq<byte>

  function Pow256(k: nat): (r: nat)
    ensures r >= 1
  {
    if k == 0 then 1 else 256 * Pow256(k - 1)
  }

  /** The k low-order bytes of n in network order. A negative n is written in two's
      complement, because Euclidean division by 256 floors. */
  function BE(n: int, k: nat): (r: bytes)
    ensures |r| == k
    decreases k
  {
    if k == 0 then [] else BE(n / 256, k - 1) + [n % 256]
  }

  /** The unsigned value of a big-endian byte string. */
  function FromBE(bs: bytes): (n: nat)
    ensures n < Pow256(|bs|)
  {
    if bs == [] then 0 else FromBE(bs[..|bs| - 1]) * 256 + bs[|bs| - 1]
  }

  /** Euclidean remainders are unique. */
  lemma ModUnique(n: int, d: int, a: int, m: int)
    requires d > 0 && n == d * a + m && 0 <= m < d
    ensures n % d == m
  {
    var x := n / d - a;
    assert d * x == m - n % d;
    if x >= 1 {
      assert false;
    } else if x <= -1 {
      assert false;
    }
  }

  lemma ModStep(n: int, q: int, r: int, p: nat)
    requires p >= 1 && n == 256 * q + r && 0 <= r < 256
    ensures n % (256 * p) == 256 * (q % p) + r
  {
    var a, b := q / p, q % p;
    assert q == p * a + b;
    assert n == (256 * p) * a + (256 * b + r);
    assert 0 <= 256 * b + r < 256 * p;
    ModUnique(n, 256 * p, a, 256 * b + r);
  }

  /** Decoding the encoding gives back n reduced modulo 256^k. */
  lemma {:induction false} FromBEOfBE(n: int, k: nat)
    ensures FromBE(BE(n, k)) == n % Pow256(k)
    decreases k
  {
    if k > 0 {
      var s := BE(n, k);
      assert s[..|s| - 1] == BE(n / 256, k - 1);
      FromBEOfBE(n / 256, k - 1);
      ModStep(n, n / 256, n % 256, Pow256(k - 1));
    }
  }

  /** Encoding the decoded value of a byte string gives the string back. */
  lemma {:induction false} BEOfFromBE(bs: bytes)
    ensures BE(FromBE(bs), |bs|) == bs
  {
    if bs != [] {
      var init, last := bs[..|bs| - 1], bs[|bs| - 1];
      var n := FromBE(bs);
      assert n / 256 == FromBE(init) && n % 256 == last;
      BEOfFromBE(init);
      assert bs == init + [last];
    }
  }

  lemma {:induction false} BEInRange(n: int, k: nat)
    requires 0 <= n < Pow256(k)
    ensures FromBE(BE(n, k)) == n
  {
    FromBEOfBE(n, k);
    ModUnique(n, Pow256(k), 0, n);
  }

  /** The parts joined in order. */
  function Concat(parts: seq<bytes>): bytes
  {
    if parts == [] then [] else parts[0] + Concat(parts[1..])
  }

  lemma {:induction false} ConcatAppend(a: seq<bytes>, b: seq<bytes>)
    ensures Concat(a + b) == Concat(a) + Concat(b)
  {
    if a != [] {
      assert (a + b)[0] == a[0] && (a + b)[1..] == a[1..] + b;
      ConcatAppend(a[1..], b);
    } else {
      assert a + b == b;
    }
  }
}
