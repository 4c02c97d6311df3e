/** The two reflected cyclic redundancy checks of the foundation library, and the errors they catch. */
module Crc {
  import opened Polynomials
  import opened Words

  /** A checksum of `8 * bytes` bits: the reflected generator and the value the register starts from. */
  datatype Code = Code(poly: nat, initial: nat, bytes: nat) {
    function Width(): nat {
      8 * bytes
    }

    predicate Wf() {
      bytes >= 1 && Power(Width() - 1) <= poly < Power(Width()) && initial < Power(Width())
    }

    function Generator(): Bits {
      Register(poly, Width())
    }
  }

  const CRC16 := Code(0x8408, 0x6363, 2)
  const CRC32 := Code(0xEDB88320, 0xFFFFFFFF, 4)

  lemma BothAreWf()
    ensures CRC16.Wf() && CRC32.Wf()
  {
    PowerValues();
  }

  /** The bits of a message in order of transmission: least significant bit of each byte first. */
  function Transmitted(data: seq<Byte>): (bits: Bits)
    ensures |bits| == 8 * |data|
    decreases |data|
  {
    if data == [] then [] else Transmitted(data[..|data| - 1]) + Register(data[|data| - 1], 8)
  }

  /** The register after the message, fed bit by bit. */
  function Remainder(code: Code, data: seq<Byte>): (r: Bits)
    requires code.Wf()
    ensures |r| == code.Width()
  {
    Feed(code.Generator(), Register(code.initial, code.Width()), Transmitted(data))
  }

  function Checksum(code: Code, data: seq<Byte>): (r: nat)
    requires code.Wf()
    ensures r < Power(code.Width())
  {
    Value(Remainder(code, data))
  }

  lemma ChecksumIsTheRemainder(code: Code, u: seq<Byte>, v: seq<Byte>)
    requires code.Wf()
    ensures Checksum(code, u) == Checksum(code, v) <==> Remainder(code, u) == Remainder(code, v)
  {
    RegisterOfValue(Remainder(code, u));
    RegisterOfValue(Remainder(code, v));
  }

  lemma IsGeneratorCode(code: Code)
    requires code.Wf()
    ensures IsGenerator(code.Generator())
  {
    TopBit(code.poly, code.Width());
  }

  // ---------- The byte-wise loops ----------

  /** Shift, and reduce when a one falls out. */
  lemma ReduceIsShift(poly: nat, c: nat, next: nat, n: nat)
    requires n >= 1 && c < Power(n) && poly < Power(n)
    requires next == if c % 2 != 0 then BitXor(c / 2, poly) else c / 2
    ensures next < Power(n)
    ensures Register(next, n) == Shift(Register(poly, n), Register(c, n))
  {
    RegisterOfHalf(c, n);
    if c % 2 != 0 {
      XorFits(c / 2, poly, n);
      RegisterOfXor(c / 2, poly, n);
    }
  }

  lemma XorIsAdded(c: nat, byte: Byte, n: nat)
    requires n >= 8 && c < Power(n)
    ensures BitXor(c, byte) < Power(n)
    ensures Register(BitXor(c, byte), n) == Added(Register(byte, 8), Register(c, n))
  {
    PowerValues();
    PowerGrows(8, n);
    XorFits(c, byte, n);
    RegisterOfXor(c, byte, n);
    RegisterOfNarrow(byte, 8, n);
  }

  lemma PowerGrows(k: nat, n: nat)
    requires k <= n
    ensures Power(k) <= Power(n)
  {
  }

  lemma OneMoreByte(code: Code, data: seq<Byte>, n: nat)
    requires code.Wf() && n < |data|
    ensures Feed(code.Generator(), Added(Register(data[n], 8), Remainder(code, data[..n])), Zeros(8)) ==
            Remainder(code, data[..n + 1])
  {
    var x := Register(data[n], 8);
    IsGeneratorCode(code);
    AddThenShift(code.Generator(), Remainder(code, data[..n]), x);
    FeedAppend(code.Generator(), Register(code.initial, code.Width()), Transmitted(data[..n]), x);
    TransmittedNext(data, n);
  }

  lemma TransmittedNext(data: seq<Byte>, n: nat)
    requires n < |data|
    ensures Transmitted(data[..n + 1]) == Transmitted(data[..n]) + Register(data[n], 8)
  {
    assert data[..n + 1][..n] == data[..n];
  }

  /** Narrowing to sixteen bits. */
  function Truncated16(c: nat): (r: nat)
    ensures c < Power(16) ==> r == c
  {
    PowerValues();
    c % 0x10000
  }

  method Crc16(data: seq<Byte>) returns (r: nat)
    ensures CRC16.Wf() && r == Checksum(CRC16, data) && CRC16 == Code(0x8408, 0x6363, 2)
  {
    BothAreWf();
    PowerValues();
    var checksum: nat := 0x6363;
    for n := 0 to |data|
      invariant checksum < Power(16) && Register(checksum, 16) == Remainder(CRC16, data[..n])
    {
      XorIsAdded(checksum, data[n], 16);
      checksum := BitXor(checksum, data[n]);
      ghost var start := Register(checksum, 16);
      for bit := 0 to 8
        invariant checksum < Power(16) && Register(checksum, 16) == Feed(CRC16.Generator(), start, Zeros(bit))
      {
        ghost var before := checksum;
        if checksum % 2 != 0 {
          checksum := BitXor(checksum / 2, 0x8408);
        } else {
          checksum := checksum / 2;
        }
        ReduceIsShift(0x8408, before, checksum, 16);
        OneMoreShift(CRC16.Generator(), start, bit);
      }
      OneMoreByte(CRC16, data, n);
    }
    assert data[..|data|] == data;
    RegisterOfValue(Remainder(CRC16, data));
    RegisterIsInjective(checksum, Checksum(CRC16, data), 16);
    r := Truncated16(checksum);
  }

  method Crc32(data: seq<Byte>) returns (r: nat)
    ensures CRC32.Wf() && r == Checksum(CRC32, data) && CRC32 == Code(0xEDB88320, 0xFFFFFFFF, 4)
  {
    BothAreWf();
    PowerValues();
    var checksum: nat := 0xFFFFFFFF;
    for n := 0 to |data|
      invariant checksum < Power(32) && Register(checksum, 32) == Remainder(CRC32, data[..n])
    {
      XorIsAdded(checksum, data[n], 32);
      checksum := BitXor(checksum, data[n]);
      ghost var start := Register(checksum, 32);
      for bit := 0 to 8
        invariant checksum < Power(32) && Register(checksum, 32) == Feed(CRC32.Generator(), start, Zeros(bit))
      {
        ghost var before := checksum;
        if checksum % 2 != 0 {
          checksum := BitXor(checksum / 2, 0xEDB88320);
        } else {
          checksum := checksum / 2;
        }
        ReduceIsShift(0xEDB88320, before, checksum, 32);
        OneMoreShift(CRC32.Generator(), start, bit);
      }
      OneMoreByte(CRC32, data, n);
    }
    assert data[..|data|] == data;
    RegisterOfValue(Remainder(CRC32, data));
    RegisterIsInjective(checksum, Checksum(CRC32, data), 32);
    r := checksum;
  }

  // ---------- Bytes are bits ----------

  lemma {:induction false} TransmittedAt(data: seq<Byte>, k: nat)
    requires k < |data|
    ensures Transmitted(data)[8 * k..8 * k + 8] == Register(data[k], 8)
    decreases |data|
  {
    var last := |data| - 1;
    var before, end := Transmitted(data[..last]), Register(data[last], 8);
    assert Transmitted(data) == before + end;
    if k < last {
      TransmittedAt(data[..last], k);
      assert (before + end)[8 * k..8 * k + 8] == before[8 * k..8 * k + 8];
    } else {
      assert (before + end)[8 * k..8 * k + 8] == end;
    }
  }

  lemma TransmittedIsInjective(u: seq<Byte>, v: seq<Byte>)
    requires Transmitted(u) == Transmitted(v)
    ensures u == v
  {
    assert 8 * |u| == 8 * |v|;
    forall k | 0 <= k < |u| ensures u[k] == v[k] {
      TransmittedAt(u, k);
      TransmittedAt(v, k);
      PowerValues();
      RegisterIsInjective(u[k], v[k], 8);
    }
  }

  /** Two messages of one length that agree outside the `count` bytes starting at `at`. */
  predicate BytesDifferWithin(u: seq<Byte>, v: seq<Byte>, at: nat, count: nat) {
    |u| == |v| && forall k :: 0 <= k < |u| && !(at <= k < at + count) ==> u[k] == v[k]
  }

  lemma ByteWindowIsBitWindow(u: seq<Byte>, v: seq<Byte>, at: nat, count: nat)
    requires BytesDifferWithin(u, v, at, count)
    ensures DifferWithin(Transmitted(u), Transmitted(v), 8 * at, 8 * count)
  {
    forall k | 0 <= k < 8 * |u| && !(8 * at <= k < 8 * at + 8 * count) ensures Transmitted(u)[k] == Transmitted(v)[k] {
      var b := k / 8;
      TransmittedAt(u, b);
      TransmittedAt(v, b);
      assert u[b] == v[b];
      assert Transmitted(u)[k] == Transmitted(u)[8 * b..8 * b + 8][k - 8 * b];
      assert Transmitted(v)[k] == Transmitted(v)[8 * b..8 * b + 8][k - 8 * b];
    }
  }

  // ---------- What the checksums catch ----------

  /** Theorem: an error confined to as many consecutive transmitted bits as the checksum has is always caught. */
  lemma BitBurstIsDetected(code: Code, u: seq<Byte>, v: seq<Byte>, at: nat)
    requires code.Wf() && u != v && DifferWithin(Transmitted(u), Transmitted(v), at, code.Width())
    ensures Checksum(code, u) != Checksum(code, v)
  {
    if Transmitted(u) == Transmitted(v) {
      TransmittedIsInjective(u, v);
    }
    IsGeneratorCode(code);
    BurstIsDetected(code.Generator(), Register(code.initial, code.Width()), Transmitted(u), Transmitted(v), at);
    ChecksumIsTheRemainder(code, u, v);
  }

  /** Theorem: so two messages differing inside two bytes differ in CRC16, and inside four in CRC32. */
  lemma ByteBurstIsDetected(u: seq<Byte>, v: seq<Byte>, at: nat)
    requires u != v
    ensures CRC16.Wf() && CRC32.Wf()
    ensures BytesDifferWithin(u, v, at, 2) ==> Checksum(CRC16, u) != Checksum(CRC16, v)
    ensures BytesDifferWithin(u, v, at, 4) ==> Checksum(CRC32, u) != Checksum(CRC32, v)
  {
    BothAreWf();
    if BytesDifferWithin(u, v, at, 2) {
      ByteWindowIsBitWindow(u, v, at, 2);
      BitBurstIsDetected(CRC16, u, v, 8 * at);
    }
    if BytesDifferWithin(u, v, at, 4) {
      ByteWindowIsBitWindow(u, v, at, 4);
      BitBurstIsDetected(CRC32, u, v, 8 * at);
    }
  }

  /** Theorem: messages of one length collide exactly when the generator divides their difference. */
  lemma CollidesExactlyWhenDivisible(code: Code, u: seq<Byte>, v: seq<Byte>)
    requires code.Wf() && |u| == |v| >= code.bytes
    ensures Checksum(code, u) == Checksum(code, v) <==>
            exists q: Bits ::
              |q| == 8 * |u| - code.Width() && Xor(Transmitted(u), Transmitted(v)) == Times(code.Generator(), q)
  {
    IsGeneratorCode(code);
    ChecksumIsTheRemainder(code, u, v);
    var initial := Register(code.initial, code.Width());
    UnnoticedExactlyWhenDivisible(code.Generator(), initial, Transmitted(u), Transmitted(v));
  }

  // ---------- Where the checksums start and what a bit contributes ----------

  lemma ChecksumFrom(code: Code, data: seq<Byte>, c: nat)
    requires code.Wf() && c < Power(code.Width()) && Remainder(code, data) == Register(c, code.Width())
    ensures Checksum(code, data) == c
  {
    RegisterOfValue(Remainder(code, data));
    RegisterIsInjective(Checksum(code, data), c, code.Width());
  }

  /** Feeding one bit or its opposite differs by the generator. */
  lemma OneBitFed(g: Bits, r: Bits)
    requires |g| == |r| >= 1
    ensures Xor(Feed(g, r, [false]), Feed(g, r, [true])) == g
  {
    assert [true][1..] == [false][1..] == [];
    assert Feed(g, r, [false]) == Shift(g, Flip(r, false)) && Feed(g, r, [true]) == Shift(g, Flip(r, true));
  }

  lemma TopBitIsLast(data: seq<Byte>, b: Byte, low: nat, bit: bool)
    requires low < 128 && b == low + if bit then 128 else 0
    ensures Transmitted(data + [b]) == Transmitted(data) + Register(low, 7) + [bit]
  {
    PowerValues();
    var high := if bit then 1 else 0;
    RegisterOfJoin(low, 7, high, 1);
    assert Register(high, 1) == [bit] + Register(high / 2, 0);
    assert (data + [b])[..|data|] == data;
    assert Transmitted(data) + (Register(low, 7) + [bit]) == Transmitted(data) + Register(low, 7) + [bit];
  }

  /**
   Theorem: the empty message has the start value for its checksum, and the bit transmitted last, which is the
   highest of the last byte, contributes the generator.
   */
  lemma StartAndLastBit(code: Code, data: seq<Byte>, low: nat)
    requires code.Wf() && low < 128
    ensures Checksum(code, []) == code.initial
    ensures BitXor(Checksum(code, data + [low]), Checksum(code, data + [low + 128])) == code.poly
  {
    var g, start, n := code.Generator(), Register(code.initial, code.Width()), code.Width();
    ChecksumFrom(code, [], code.initial);
    var u, v := data + [low], data + [low + 128];
    var before := Transmitted(data) + Register(low, 7);
    TopBitIsLast(data, low, low, false);
    TopBitIsLast(data, low + 128, low, true);
    FeedAppend(g, start, before, [false]);
    FeedAppend(g, start, before, [true]);
    OneBitFed(g, Feed(g, start, before));
    var a, b := Checksum(code, u), Checksum(code, v);
    RegisterOfValue(Remainder(code, u));
    RegisterOfValue(Remainder(code, v));
    RegisterOfXor(a, b, n);
    XorFits(a, b, n);
    RegisterIsInjective(BitXor(a, b), code.poly, n);
  }

  // ---------- The trailer ----------

  function LittleEndian(c: nat, count: nat): (bytes: seq<Byte>)
    ensures |bytes| == count
    decreases count
  {
    if count == 0 then [] else [c % 256] + LittleEndian(c / 256, count - 1)
  }

  lemma {:induction false} TransmittedAppend(a: seq<Byte>, b: seq<Byte>)
    ensures Transmitted(a + b) == Transmitted(a) + Transmitted(b)
    decreases |b|
  {
    if b == [] {
      assert a + b == a;
    } else {
      var last := |b| - 1;
      TransmittedAppend(a, b[..last]);
      assert (a + b)[..|a| + last] == a + b[..last];
    }
  }

  lemma {:induction false} TransmittedLittleEndian(c: nat, count: nat)
    ensures Transmitted(LittleEndian(c, count)) == Register(c, 8 * count)
    decreases count
  {
    if count > 0 {
      var low: Byte := c % 256;
      var rest := LittleEndian(c / 256, count - 1);
      PowerValues();
      TransmittedLittleEndian(c / 256, count - 1);
      TransmittedAppend([low], rest);
      TransmittedNext([low], 0);
      assert [low][..1] == [low];
      RegisterOfJoin(low, 8, c / 256, 8 * (count - 1));
    }
  }

  lemma {:induction false} ZeroRegister(n: nat)
    ensures Value(Zeros(n)) == 0 && Register(0, n) == Zeros(n)
  {
    if n > 0 {
      ZeroRegister(n - 1);
      assert Zeros(n)[1..] == Zeros(n - 1);
    }
  }

  /** Theorem: of all trailers of the checksum's length, exactly the checksum, low byte first, gives zero. */
  lemma TrailerGivesZero(code: Code, data: seq<Byte>, trailer: seq<Byte>)
    requires code.Wf() && |trailer| == code.bytes
    ensures Checksum(code, data + trailer) == 0 <==> trailer == LittleEndian(Checksum(code, data), code.bytes)
  {
    var n, r := code.Width(), Remainder(code, data);
    var whole := Remainder(code, data + trailer);
    var good := LittleEndian(Checksum(code, data), code.bytes);
    IsGeneratorCode(code);
    TransmittedAppend(data, trailer);
    OnlyTheRegisterClearsItself(code.Generator(), Register(code.initial, n), Transmitted(data), Transmitted(trailer));
    RegisterOfValue(r);
    TransmittedLittleEndian(Checksum(code, data), code.bytes);
    if Transmitted(trailer) == Transmitted(good) {
      TransmittedIsInjective(trailer, good);
    }
    RegisterOfValue(whole);
    ZeroRegister(n);
  }
}
