/** Unsigned machine words as naturals, with the bitwise operators spelled out bit by bit. */
module Words {
  import opened Polynomials

  type Byte = b: nat | b < 256

  function Power(n: nat): nat {
    if n == 0 then 1 else 2 * Power(n - 1)
  }

  function BitXor(a: nat, b: nat): nat
    decreases a + b
  {
    if a == 0 && b == 0 then 0 else (if a % 2 == b % 2 then 0 else 1) + 2 * BitXor(a / 2, b / 2)
  }

  function BitOr(a: nat, b: nat): nat
    decreases a + b
  {
    if a == 0 && b == 0 then 0 else (if a % 2 == 0 && b % 2 == 0 then 0 else 1) + 2 * BitOr(a / 2, b / 2)
  }

  lemma {:induction false} XorIsZeroOnlyForEquals(a: nat, b: nat)
    ensures BitXor(a, b) == 0 <==> a == b
    decreases a + b
  {
    if a != 0 || b != 0 {
      XorIsZeroOnlyForEquals(a / 2, b / 2);
    }
  }

  lemma {:induction false} OrIsZeroOnlyForZeros(a: nat, b: nat)
    ensures BitOr(a, b) == 0 <==> a == 0 && b == 0
    decreases a + b
  {
    if a != 0 || b != 0 {
      OrIsZeroOnlyForZeros(a / 2, b / 2);
    }
  }

  // ---------- Words as bits ----------

  /** The low `n` bits of a word, lowest first. */
  function Register(c: nat, n: nat): (r: Bits)
    ensures |r| == n
    decreases n, c
  {
    if n == 0 then [] else [c % 2 == 1] + Register(c / 2, n - 1)
  }

  lemma XorHalves(a: nat, b: nat)
    ensures BitXor(a, b) / 2 == BitXor(a / 2, b / 2)
    ensures BitXor(a, b) % 2 == 1 <==> a % 2 != b % 2
  {
  }

  lemma {:induction false} XorFits(a: nat, b: nat, n: nat)
    requires a < Power(n) && b < Power(n)
    ensures BitXor(a, b) < Power(n)
    decreases n
  {
    if n > 0 {
      XorHalves(a, b);
      XorFits(a / 2, b / 2, n - 1);
    }
  }

  lemma {:induction false} RegisterOfXor(a: nat, b: nat, n: nat)
    ensures Register(BitXor(a, b), n) == Xor(Register(a, n), Register(b, n))
    decreases n
  {
    if n > 0 {
      XorHalves(a, b);
      RegisterOfXor(a / 2, b / 2, n - 1);
    }
  }

  lemma {:induction false} RegisterOfHalf(c: nat, n: nat)
    requires n >= 1 && c < Power(n)
    ensures Register(c / 2, n) == Register(c, n)[1..] + [false]
    decreases n
  {
    if n > 1 {
      RegisterOfHalf(c / 2, n - 1);
    } else {
      assert Power(1) == 2 * Power(0);
    }
  }

  lemma {:induction false} RegisterIsInjective(c: nat, d: nat, n: nat)
    requires c < Power(n) && d < Power(n) && Register(c, n) == Register(d, n)
    ensures c == d
    decreases n
  {
    if n > 0 {
      var x, y := Register(c, n), Register(d, n);
      assert x[0] == y[0] && x[1..] == Register(c / 2, n - 1) && y[1..] == Register(d / 2, n - 1);
      RegisterIsInjective(c / 2, d / 2, n - 1);
    }
  }

  /** A word that fits `k` bits, seen in a wider register. */
  lemma {:induction false} RegisterOfNarrow(c: nat, k: nat, n: nat)
    requires k <= n && c < Power(k)
    ensures Register(c, n) == Register(c, k) + Zeros(n - k)
    decreases n
  {
    if k > 0 {
      RegisterOfNarrow(c / 2, k - 1, n - 1);
    } else if n > 0 {
      RegisterOfNarrow(0, 0, n - 1);
    }
  }

  /** A word put together from a low part of `k` bits and a high part. */
  lemma {:induction false} RegisterOfJoin(low: nat, k: nat, high: nat, n: nat)
    requires low < Power(k)
    ensures Register(low + Power(k) * high, k + n) == Register(low, k) + Register(high, n)
    decreases k
  {
    if k > 0 {
      var half := Power(k - 1) * high;
      Doubled(Power(k - 1), high);
      RegisterOfJoin(low / 2, k - 1, high, n);
      JoinHalves(low, half, k + n);
      assert Register(low, k) == [low % 2 == 1] + Register(low / 2, k - 1);
    }
  }

  lemma Doubled(p: nat, high: nat)
    ensures (2 * p) * high == 2 * (p * high)
  {
  }

  lemma JoinHalves(low: nat, half: nat, n: nat)
    requires n >= 1
    ensures Register(low + 2 * half, n) == [low % 2 == 1] + Register(low / 2 + half, n - 1)
  {
    assert (low + 2 * half) / 2 == low / 2 + half;
  }

  /** The word a register holds. */
  function Value(r: Bits): (c: nat)
    ensures c < Power(|r|)
    decreases |r|
  {
    if r == [] then 0 else (if r[0] then 1 else 0) + 2 * Value(r[1..])
  }

  lemma {:induction false} RegisterOfValue(r: Bits)
    ensures Register(Value(r), |r|) == r
    decreases |r|
  {
    if r != [] {
      RegisterOfValue(r[1..]);
    }
  }

  lemma {:induction false} TopBit(c: nat, n: nat)
    requires n >= 1 && Power(n - 1) <= c < Power(n)
    ensures Register(c, n)[n - 1]
    decreases n
  {
    if n > 1 {
      TopBit(c / 2, n - 1);
    }
  }

  lemma PowerValues()
    ensures Power(8) == 0x100 && Power(15) == 0x8000 && Power(16) == 0x10000
    ensures Power(31) == 0x80000000 && Power(32) == 0x100000000
  {
    assert Power(8) == 0x100;
    assert Power(16) == 0x10000;
    assert Power(24) == 0x1000000;
  }
}
