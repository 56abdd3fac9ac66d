/** Bit-level reading of integers. JavaScript's `&` converts both operands to
    32-bit two's-complement words; `Unpack(x, 32)` is that word for an
    integral `x`, least significant bit first, and `Pack` reads bits back as
    an unsigned number. */
module Bits {

  function Pow2(k: nat): (r: nat)
    ensures r >= 1
  {
    if k == 0 then 1 else 2 * Pow2(k - 1)
  }

  /** The low `n` bits of `x` (two's complement when `x` is negative),
      least significant first. */
  function Unpack(x: int, n: nat): (r: seq<bool>)
    ensures |r| == n
    decreases n
  {
    if n == 0 then [] else [x % 2 == 1] + Unpack(x / 2, n - 1)
  }

  /** The unsigned number whose bits, least significant first, are `bits`. */
  function Pack(bits: seq<bool>): (r: nat)
  {
    if |bits| == 0 then 0 else (if bits[0] then 1 else 0) + 2 * Pack(bits[1..])
  }

  /** Bitwise conjunction of two equally long bit strings. */
  function AndBits(a: seq<bool>, b: seq<bool>): (r: seq<bool>)
    requires |a| == |b|
    ensures |r| == |a|
    ensures forall i :: 0 <= i < |r| ==> r[i] == (a[i] && b[i])
  {
    seq(|a|, i requires 0 <= i < |a| => a[i] && b[i])
  }

  /** JavaScript's `x & y` for integral `x` and `y`, read as an unsigned
      word (it agrees with the signed reading whenever bit 31 is clear). */
  function BitAnd(x: int, y: int): nat
  {
    Pack(AndBits(Unpack(x, 32), Unpack(y, 32)))
  }

  lemma {:induction false} PackBound(bits: seq<bool>)
    ensures Pack(bits) < Pow2(|bits|)
  {
    if |bits| > 0 {
      PackBound(bits[1..]);
    }
  }

  /** Unpacking a packed bit string gives the bit string back. */
  lemma {:induction false} UnpackPack(bits: seq<bool>)
    ensures Unpack(Pack(bits), |bits|) == bits
  {
    if |bits| > 0 {
      var p := Pack(bits);
      assert p % 2 == 1 <==> bits[0];
      assert p / 2 == Pack(bits[1..]);
      UnpackPack(bits[1..]);
      assert bits == [bits[0]] + bits[1..];
    }
  }

  /** Reducing modulo an even modulus keeps the lowest bit and halves the
      modulus for the remaining bits. */
  lemma ModHalf(x: int, p: nat)
    requires p > 0
    ensures (x % (2 * p)) % 2 == x % 2
    ensures (x % (2 * p)) / 2 == (x / 2) % p
  {
    var q := x / (2 * p);
    var r := x % (2 * p);
    assert x == 2 * p * q + r;
    assert x / 2 == p * q + r / 2;
    DivModUnique(x / 2, p, q, r / 2);
  }

  lemma DivModUnique(a: int, p: nat, q: int, s: int)
    requires p > 0 && 0 <= s < p && a == p * q + s
    ensures a / p == q && a % p == s
  {
    var q' := a / p;
    var s' := a % p;
    assert p * q' + s' == p * q + s;
    if q' < q {
      var d := q - q';
      assert p * d == s' - s;
      MulAtLeast(p, d);
    } else if q' > q {
      var d := q' - q;
      assert p * d == s - s';
      MulAtLeast(p, d);
    }
  }

  lemma MulAtLeast(p: nat, d: int)
    requires d >= 1
    ensures p * d >= p
  {
    var e := d - 1;
    assert p * d == p * e + p;
  }

  /** Halving and then dividing by `p` is dividing by `2 p`. */
  lemma DivHalf(x: int, p: nat)
    requires p > 0
    ensures (x / 2) / p == x / (2 * p)
  {
    var q := x / (2 * p);
    var r := x % (2 * p);
    assert x == 2 * p * q + r;
    assert x / 2 == p * q + r / 2;
    DivModUnique(x / 2, p, q, r / 2);
  }

  /** Packing the low `n` bits gives the remainder modulo 2^n. */
  lemma {:induction false} PackUnpack(x: int, n: nat)
    ensures Pack(Unpack(x, n)) == x % Pow2(n)
    decreases n
  {
    if n > 0 {
      var bits := Unpack(x, n);
      assert bits[1..] == Unpack(x / 2, n - 1);
      PackUnpack(x / 2, n - 1);
      ModHalf(x, Pow2(n - 1));
      assert x % Pow2(n) == x % 2 + 2 * ((x % Pow2(n)) / 2);
    }
  }

  /** The low `n` bits depend only on `x` modulo 2^m, for any `m >= n`. */
  lemma {:induction false} UnpackMod(x: int, n: nat, m: nat)
    requires n <= m
    ensures Unpack(x % Pow2(m), n) == Unpack(x, n)
    decreases n
  {
    if n > 0 {
      ModHalf(x, Pow2(m - 1));
      UnpackMod(x / 2, n - 1, m - 1);
    }
  }

  /** Fewer bits are a prefix of more bits. */
  lemma {:induction false} UnpackPrefix(x: int, n: nat, m: nat)
    requires n <= m
    ensures Unpack(x, m)[..n] == Unpack(x, n)
    decreases n
  {
    if n > 0 {
      UnpackPrefix(x / 2, n - 1, m - 1);
      assert Unpack(x, m)[..n] == [x % 2 == 1] + Unpack(x / 2, m - 1)[..n - 1];
    }
  }

  /** Bit `k` is the parity of `x` divided by 2^k (rounding down). */
  lemma {:induction false} UnpackBit(x: int, n: nat, k: nat)
    requires k < n
    ensures Unpack(x, n)[k] <==> (x / Pow2(k)) % 2 == 1
    decreases k
  {
    if k > 0 {
      UnpackBit(x / 2, n - 1, k - 1);
      DivHalf(x, Pow2(k - 1));
    }
  }

  lemma {:induction false} UnpackZero(n: nat)
    ensures forall i :: 0 <= i < n ==> !Unpack(0, n)[i]
  {
    if n > 0 {
      UnpackZero(n - 1);
    }
  }

  /** The power of two 2^k has exactly bit `k` set. */
  lemma {:induction false} UnpackPow2(k: nat, n: nat)
    requires k < n
    ensures forall i :: 0 <= i < n ==> (Unpack(Pow2(k), n)[i] <==> i == k)
  {
    if k == 0 {
      UnpackZero(n - 1);
    } else {
      UnpackPow2(k - 1, n - 1);
    }
  }

  /** A bit string packs to zero exactly when no bit is set. */
  lemma {:induction false} PackZero(bits: seq<bool>)
    ensures Pack(bits) == 0 <==> forall i :: 0 <= i < |bits| ==> !bits[i]
  {
    if |bits| > 0 {
      PackZero(bits[1..]);
      assert forall i :: 1 <= i < |bits| ==> bits[i] == bits[1..][i - 1];
    }
  }

  /** `x & 2^k` is non-zero exactly when bit `k` of `x`'s 32-bit word is set. */
  lemma MaskTest(x: int, k: nat)
    requires k < 32
    ensures BitAnd(x, Pow2(k)) != 0 <==> Unpack(x, 32)[k]
  {
    UnpackPow2(k, 32);
    var r := AndBits(Unpack(x, 32), Unpack(Pow2(k), 32));
    PackZero(r);
    assert r[k] == Unpack(x, 32)[k];
  }

  /** For a bit below `n`, the mask test reads bit `k` of the low `n` bits. */
  lemma MaskTestLow(x: int, k: nat, n: nat)
    requires k < n <= 32
    ensures BitAnd(x, Pow2(k)) != 0 <==> Unpack(x, n)[k]
  {
    MaskTest(x, k);
    UnpackPrefix(x, n, 32);
    assert Unpack(x, 32)[..n][k] == Unpack(x, 32)[k];
  }
}
