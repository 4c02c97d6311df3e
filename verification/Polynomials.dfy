/**
 Reflected shift registers over bits, of any width, and division of bit strings by a generator.

 A register of width w is a sequence of w bits, lowest first. A generator of degree w is given by
 the w bits it feeds back; bit strings are in order of transmission.
 */
module Polynomials {
  type Bits = seq<bool>

  function Xor(a: Bits, b: Bits): (c: Bits)
    requires |a| == |b|
  {
    seq(|a|, i requires 0 <= i < |a| => a[i] != b[i])
  }

  function Zeros(n: nat): Bits {
    seq(n, _ => false)
  }

  /** Add `r` to the first bits of `d`. */
  function Added(r: Bits, d: Bits): (e: Bits)
    requires |r| <= |d|
    ensures |e| == |d|
  {
    seq(|d|, i requires 0 <= i < |d| => d[i] != (i < |r| && r[i]))
  }

  /** The feedback leaves from the lowest bit and enters at the highest. */
  predicate IsGenerator(poly: Bits) {
    |poly| >= 1 && poly[|poly| - 1]
  }

  function Shift(poly: Bits, r: Bits): (s: Bits)
    requires |poly| == |r| >= 1
    ensures |s| == |r|
    ensures forall i :: 0 <= i < |r| ==> s[i] == ((i + 1 < |r| && r[i + 1]) != (r[0] && poly[i]))
  {
    var moved := r[1..] + [false];
    if r[0] then Xor(moved, poly) else moved
  }

  function Flip(r: Bits, bit: bool): Bits
    requires |r| >= 1
  {
    r[0 := r[0] != bit]
  }

  /** The bit-serial register: every transmitted bit is added to the lowest bit before the shift. */
  function Feed(poly: Bits, r: Bits, bits: Bits): (s: Bits)
    requires |poly| == |r| >= 1
    ensures |s| == |r|
    decreases |bits|
  {
    if bits == [] then r else Feed(poly, Shift(poly, Flip(r, bits[0])), bits[1..])
  }

  lemma {:induction false} FeedAppend(poly: Bits, r: Bits, a: Bits, b: Bits)
    requires |poly| == |r| >= 1
    ensures Feed(poly, r, a + b) == Feed(poly, Feed(poly, r, a), b)
    decreases |a|
  {
    if a == [] {
      assert a + b == b;
    } else {
      FeedAppend(poly, Shift(poly, Flip(r, a[0])), a[1..], b);
      assert (a + b)[1..] == a[1..] + b;
    }
  }

  // ---------- Invertibility ----------

  /** Two registers with the bits still to come agree once the bits are added in. */
  predicate Aligned(a: Bits, x: Bits, b: Bits, y: Bits)
    requires |a| == |b| && |x| == |y| <= |a|
  {
    forall i :: 0 <= i < |a| ==> (a[i] != (i < |x| && x[i])) == (b[i] != (i < |y| && y[i]))
  }

  lemma AlignedSameBits(a: Bits, b: Bits, x: Bits)
    requires |a| == |b| && |x| <= |a| && Aligned(a, x, b, x)
    ensures a == b
  {
    assert forall i :: 0 <= i < |a| ==> a[i] == b[i];
  }

  lemma AlignedSameRegister(s: Bits, x: Bits, y: Bits)
    requires |x| == |y| <= |s| && Aligned(s, x, s, y)
    ensures x == y
  {
    assert forall i :: 0 <= i < |x| ==> x[i] == y[i];
  }

  lemma StepAligns(poly: Bits, a: Bits, x: Bits, b: Bits, y: Bits)
    requires IsGenerator(poly) && |a| == |b| == |poly| && 1 <= |x| == |y| <= |a|
    ensures Aligned(Shift(poly, Flip(a, x[0])), x[1..], Shift(poly, Flip(b, y[0])), y[1..]) <==> Aligned(a, x, b, y)
  {
    var w := |a|;
    var p, q := Flip(a, x[0]), Flip(b, y[0]);
    var s, t := Shift(poly, p), Shift(poly, q);
    if Aligned(s, x[1..], t, y[1..]) {
      assert s[w - 1] == t[w - 1];
      assert p[0] == q[0];
      forall i | 0 <= i < w ensures (a[i] != (i < |x| && x[i])) == (b[i] != (i < |y| && y[i])) {
        if i > 0 {
          assert s[i - 1] == (a[i] != (p[0] && poly[i - 1])) && t[i - 1] == (b[i] != (q[0] && poly[i - 1]));
        }
      }
    }
    if Aligned(a, x, b, y) {
      assert p[0] == q[0];
    }
  }

  /** Within one register width, the register afterwards forgets nothing of what went in. */
  lemma {:induction false} FeedIsExact(poly: Bits, a: Bits, x: Bits, b: Bits, y: Bits)
    requires IsGenerator(poly) && |a| == |b| == |poly| && |x| == |y| <= |a|
    ensures Feed(poly, a, x) == Feed(poly, b, y) <==> Aligned(a, x, b, y)
    decreases |x|
  {
    if x != [] {
      StepAligns(poly, a, x, b, y);
      FeedIsExact(poly, Shift(poly, Flip(a, x[0])), x[1..], Shift(poly, Flip(b, y[0])), y[1..]);
    }
  }

  lemma {:induction false} FeedKeepsApart(poly: Bits, a: Bits, b: Bits, bits: Bits)
    requires IsGenerator(poly) && |a| == |b| == |poly| && a != b
    ensures Feed(poly, a, bits) != Feed(poly, b, bits)
    decreases |bits|
  {
    if bits != [] {
      var one := bits[..1];
      FeedIsExact(poly, a, one, b, one);
      if Aligned(a, one, b, one) {
        AlignedSameBits(a, b, one);
      }
      FeedAppend(poly, a, one, bits[1..]);
      FeedAppend(poly, b, one, bits[1..]);
      assert one + bits[1..] == bits;
      FeedKeepsApart(poly, Feed(poly, a, one), Feed(poly, b, one), bits[1..]);
    }
  }

  /** A byte-wise implementation: add the bits all at once, then only shift. */
  lemma AddThenShift(poly: Bits, r: Bits, x: Bits)
    requires IsGenerator(poly) && |r| == |poly| && |x| <= |r|
    ensures Feed(poly, Added(x, r), Zeros(|x|)) == Feed(poly, r, x)
  {
    FeedIsExact(poly, Added(x, r), Zeros(|x|), r, x);
  }

  lemma OneMoreShift(poly: Bits, r: Bits, n: nat)
    requires |r| == |poly| >= 1
    ensures Feed(poly, r, Zeros(n + 1)) == Shift(poly, Feed(poly, r, Zeros(n)))
  {
    var s := Feed(poly, r, Zeros(n));
    assert Zeros(n + 1) == Zeros(n) + [false];
    FeedAppend(poly, r, Zeros(n), [false]);
    assert Flip(s, false) == s;
    assert [false][1..] == [];
  }

  // ---------- Bursts ----------

  /** Two strings of one length that agree outside the window of `width` bits starting at `at`. */
  predicate DifferWithin(u: Bits, v: Bits, at: nat, width: nat) {
    |u| == |v| && forall k :: 0 <= k < |u| && !(at <= k < at + width) ==> u[k] == v[k]
  }

  lemma Surround(u: Bits, start: nat, end: nat)
    requires start <= end <= |u|
    ensures u == u[..start] + (u[start..end] + u[end..])
  {
    assert u[start..] == u[start..end] + u[end..];
  }

  /** Theorem: a register at least as wide as the burst never misses it, wherever it falls. */
  lemma BurstIsDetected(poly: Bits, r: Bits, u: Bits, v: Bits, at: nat)
    requires IsGenerator(poly) && |r| == |poly|
    requires DifferWithin(u, v, at, |r|) && u != v
    ensures Feed(poly, r, u) != Feed(poly, r, v)
  {
    var start := if at <= |u| then at else |u|;
    var end := if at + |r| <= |u| then at + |r| else |u|;
    var head, x, y, tail := u[..start], u[start..end], v[start..end], u[end..];
    Surround(u, start, end);
    Surround(v, start, end);
    assert head == v[..start] && tail == v[end..];
    FeedAppend(poly, r, head, x + tail);
    FeedAppend(poly, r, head, y + tail);
    WindowIsDetected(poly, Feed(poly, r, head), x, y, tail);
  }

  lemma WindowIsDetected(poly: Bits, s: Bits, x: Bits, y: Bits, tail: Bits)
    requires IsGenerator(poly) && |s| == |poly| && |x| == |y| <= |s| && x != y
    ensures Feed(poly, s, x + tail) != Feed(poly, s, y + tail)
  {
    FeedIsExact(poly, s, x, s, y);
    if Aligned(s, x, s, y) {
      AlignedSameRegister(s, x, y);
    }
    FeedKeepsApart(poly, Feed(poly, s, x), Feed(poly, s, y), tail);
    FeedAppend(poly, s, x, tail);
    FeedAppend(poly, s, y, tail);
  }

  // ---------- The trailer ----------

  /** Feeding a register to itself empties it from below. */
  lemma {:induction false} RestClears(poly: Bits, r: Bits, n: nat)
    requires |poly| == |r| >= 1 && n <= |r|
    requires forall i :: n <= i < |r| ==> !r[i]
    ensures Feed(poly, r, r[..n]) == Zeros(|r|)
    decreases n
  {
    if n > 0 {
      var s := Shift(poly, Flip(r, r[0]));
      assert r[..n][1..] == s[..n - 1];
      RestClears(poly, s, n - 1);
    } else {
      assert r == Zeros(|r|);
    }
  }

  lemma ClearedByItself(poly: Bits, s: Bits, trailer: Bits)
    requires IsGenerator(poly) && |s| == |poly| == |trailer|
    ensures Feed(poly, s, trailer) == Zeros(|s|) <==> trailer == s
  {
    RestClears(poly, s, |s|);
    assert s[..|s|] == s;
    FeedIsExact(poly, s, trailer, s, s);
    if Aligned(s, trailer, s, s) {
      AlignedSameRegister(s, trailer, s);
    }
  }

  /** Theorem: of all trailers of the register's width, exactly the register itself clears it. */
  lemma OnlyTheRegisterClearsItself(poly: Bits, r: Bits, data: Bits, trailer: Bits)
    requires IsGenerator(poly) && |r| == |poly| == |trailer|
    ensures Feed(poly, r, data + trailer) == Zeros(|r|) <==> trailer == Feed(poly, r, data)
  {
    var s := Feed(poly, r, data);
    FeedAppend(poly, r, data, trailer);
    ClearedByItself(poly, s, trailer);
  }

  // ---------- Division ----------

  /** The generator, leading coefficient first in transmission, or nothing. */
  function Multiple(poly: Bits, take: bool, length: nat): Bits
    requires length > |poly|
  {
    if take then [true] + poly + Zeros(length - 1 - |poly|) else Zeros(length)
  }

  /** The product of a quotient and the generator, over the field of two elements. */
  function Times(poly: Bits, q: Bits): (product: Bits)
    requires |poly| >= 1
    ensures |product| == |q| + |poly|
    decreases |q|
  {
    if q == [] then Zeros(|poly|)
    else Xor(Multiple(poly, q[0], |q| + |poly|), [false] + Times(poly, q[1..]))
  }

  /** One step of the register is one step of long division. */
  lemma DivisionStep(poly: Bits, r: Bits, d: Bits)
    requires |poly| == |r| >= 1 && |d| > |r|
    ensures var p := Flip(r, d[0]);
            Added(r, d) == Xor(Multiple(poly, p[0], |d|), [false] + Added(Shift(poly, p), d[1..]))
  {
    var p := Flip(r, d[0]);
    var rest := Added(Shift(poly, p), d[1..]);
    var m := Multiple(poly, p[0], |d|);
    forall i | 0 <= i < |d| ensures Added(r, d)[i] == (m[i] != ([false] + rest)[i]) {
      if i > 0 {
        assert ([false] + rest)[i] == rest[i - 1];
      }
    }
  }

  lemma NothingLeft(r: Bits, d: Bits)
    requires |r| == |d| && Added(r, d) == Zeros(|d|)
    ensures r == d
  {
    forall i | 0 <= i < |d| ensures r[i] == d[i] {
      assert Added(r, d)[i] == Zeros(|d|)[i];
    }
  }

  /** The leading bit decides whether the generator was taken away, so the rests agree as well. */
  lemma SameFirstStep(poly: Bits, a: bool, x: Bits, b: bool, y: Bits)
    requires |x| == |y| >= |poly|
    requires Xor(Multiple(poly, a, |x| + 1), [false] + x) == Xor(Multiple(poly, b, |y| + 1), [false] + y)
    ensures a == b && x == y
  {
    var u, v := Xor(Multiple(poly, a, |x| + 1), [false] + x), Xor(Multiple(poly, b, |y| + 1), [false] + y);
    assert u[0] == a && v[0] == b;
    forall i | 0 <= i < |x| ensures x[i] == y[i] {
      assert u[i + 1] == v[i + 1];
    }
  }

  lemma {:induction false} ClearsOnMultiples(poly: Bits, r: Bits, d: Bits, q: Bits)
    requires |poly| == |r| >= 1 && |d| == |r| + |q|
    ensures Added(r, d) == Times(poly, q) ==> Feed(poly, r, d) == Zeros(|r|)
    decreases |q|
  {
    if q == [] {
      if Added(r, d) == Times(poly, q) {
        NothingLeft(r, d);
        RestClears(poly, r, |r|);
        assert r[..|r|] == r;
      }
    } else if Added(r, d) == Times(poly, q) {
      var p := Flip(r, d[0]);
      DivisionStep(poly, r, d);
      SameFirstStep(poly, p[0], Added(Shift(poly, p), d[1..]), q[0], Times(poly, q[1..]));
      ClearsOnMultiples(poly, Shift(poly, p), d[1..], q[1..]);
    }
  }

  /** The bits that leave the register are the quotient. */
  function Quotient(poly: Bits, r: Bits, d: Bits): (q: Bits)
    requires |poly| == |r| >= 1 && |d| >= |r|
    ensures |q| == |d| - |r|
    decreases |d|
  {
    if |d| == |r| then [] else [Flip(r, d[0])[0]] + Quotient(poly, Shift(poly, Flip(r, d[0])), d[1..])
  }

  lemma {:induction false} QuotientIsExact(poly: Bits, r: Bits, d: Bits)
    requires IsGenerator(poly) && |poly| == |r| && |d| >= |r|
    requires Feed(poly, r, d) == Zeros(|r|)
    ensures Added(r, d) == Times(poly, Quotient(poly, r, d))
    decreases |d|
  {
    if |d| == |r| {
      OnlyTheRegisterClearsItself(poly, r, [], d);
      assert [] + d == d;
      assert r == d;
      assert Added(r, d) == Zeros(|r|);
    } else {
      DivisionStep(poly, r, d);
      QuotientIsExact(poly, Shift(poly, Flip(r, d[0])), d[1..]);
    }
  }

  lemma {:induction false} FeedIsLinear(poly: Bits, a: Bits, b: Bits, u: Bits, v: Bits)
    requires |poly| == |a| == |b| >= 1 && |u| == |v|
    ensures Feed(poly, Xor(a, b), Xor(u, v)) == Xor(Feed(poly, a, u), Feed(poly, b, v))
    decreases |u|
  {
    if u != [] {
      var p, q := Flip(a, u[0]), Flip(b, v[0]);
      assert Flip(Xor(a, b), Xor(u, v)[0]) == Xor(p, q);
      assert Shift(poly, Xor(p, q)) == Xor(Shift(poly, p), Shift(poly, q));
      assert Xor(u, v)[1..] == Xor(u[1..], v[1..]);
      FeedIsLinear(poly, Shift(poly, p), Shift(poly, q), u[1..], v[1..]);
    }
  }

  /** Theorem: an error of any shape goes unnoticed exactly when it is a multiple of the generator. */
  lemma UnnoticedExactlyWhenDivisible(poly: Bits, r: Bits, u: Bits, v: Bits)
    requires IsGenerator(poly) && |r| == |poly| && |u| == |v| >= |r|
    ensures Feed(poly, r, u) == Feed(poly, r, v) <==>
            exists q: Bits :: |q| == |u| - |r| && Xor(u, v) == Times(poly, q)
  {
    var z, d := Zeros(|r|), Xor(u, v);
    FeedIsLinear(poly, r, r, u, v);
    assert Xor(r, r) == z;
    assert Added(z, d) == d;
    var a, b := Feed(poly, r, u), Feed(poly, r, v);
    if a == b {
      assert Xor(a, b) == z;
      QuotientIsExact(poly, z, d);
      assert d == Times(poly, Quotient(poly, z, d));
    }
    if q: Bits :| |q| == |u| - |r| && d == Times(poly, q) {
      ClearsOnMultiples(poly, z, d, q);
      forall i | 0 <= i < |r| ensures a[i] == b[i] {
        assert Xor(a, b)[i] == z[i];
      }
    }
  }
}
