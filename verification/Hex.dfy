/** Hexadecimal text, and comparison without an early exit. Text is a sequence of unsigned characters. */
module Hex {
  import opened Results
  import opened Words

  const ZERO: Byte := 48
  const UPPER_A: Byte := 65
  const LOWER_A: Byte := 97

  predicate IsHexDigit(c: Byte) {
    ZERO <= c < ZERO + 10 || LOWER_A <= c < LOWER_A + 6 || UPPER_A <= c < UPPER_A + 6
  }

  /** The value of a digit, or -1. */
  function DigitOf(c: Byte): (d: int)
    ensures -1 <= d < 16 && (d >= 0 <==> IsHexDigit(c))
  {
    if ZERO <= c < ZERO + 10 then c - ZERO
    else if LOWER_A <= c < LOWER_A + 6 then c - LOWER_A + 10
    else if UPPER_A <= c < UPPER_A + 6 then c - UPPER_A + 10
    else -1
  }

  function DigitFor(nibble: nat): (c: Byte)
    requires nibble < 16
    ensures DigitOf(c) == nibble
  {
    if nibble < 10 then ZERO + nibble else LOWER_A + nibble - 10
  }

  lemma DigitForMeans(nibble: nat)
    requires nibble < 16
    ensures DigitFor(nibble) == "0123456789abcdef"[nibble] as int
  {
  }

  function Lowered(c: Byte): Byte {
    if UPPER_A <= c < UPPER_A + 26 then c + 32 else c
  }

  /** The lookup table, filled as the initializer fills it. */
  method MakeDigitTable() returns (table: array<int>)
    ensures fresh(table) && table.Length == 256
    ensures forall c: Byte :: table[c] == DigitOf(c)
    ensures forall c: Byte ::
              table[c] == if '0' as int <= c <= '9' as int then c - '0' as int
                          else if 'a' as int <= c <= 'f' as int then c - 'a' as int + 10
                          else if 'A' as int <= c <= 'F' as int then c - 'A' as int + 10
                          else -1
  {
    table := new int[256](_ => -1);
    for digit := 0 to 10
      invariant forall c: Byte :: table[c] == if ZERO <= c < ZERO + digit then c - ZERO else -1
    {
      table[ZERO + digit] := digit;
    }
    for digit := 0 to 6
      invariant forall c: Byte ::
          table[c] == if ZERO <= c < ZERO + 10 then c - ZERO
                      else if LOWER_A <= c < LOWER_A + digit then c - LOWER_A + 10
                      else if UPPER_A <= c < UPPER_A + digit then c - UPPER_A + 10
                      else -1
    {
      table[LOWER_A + digit] := 10 + digit;
      table[UPPER_A + digit] := 10 + digit;
    }
  }

  /** Exactly the text that denotes bytes. */
  predicate Denotes(text: seq<Byte>) {
    |text| % 2 == 0 && forall i :: 0 <= i < |text| ==> IsHexDigit(text[i])
  }

  function Encoded(data: seq<Byte>): (text: seq<Byte>)
    ensures |text| == 2 * |data|
  {
    seq(2 * |data|, i requires 0 <= i < 2 * |data| =>
      DigitFor(if i % 2 == 0 then data[i / 2] / 16 else data[i / 2] % 16))
  }

  function Decoded(text: seq<Byte>): (data: seq<Byte>)
    requires Denotes(text)
    ensures |data| == |text| / 2
  {
    seq(|text| / 2, i requires 0 <= i < |text| / 2 => 16 * DigitOf(text[2 * i]) + DigitOf(text[2 * i + 1]))
  }

  method FromHex(text: seq<Byte>) returns (r: Result<seq<Byte>>)
    ensures r == if Denotes(text) then Ok(Decoded(text)) else Err(Error(InvalidArgument))
    ensures r.Ok? <==> && |text| % 2 == 0
                       && forall i :: 0 <= i < |text| ==>
                            || '0' as int <= text[i] <= '9' as int || 'a' as int <= text[i] <= 'f' as int
                            || 'A' as int <= text[i] <= 'F' as int
    // The digit written first is the high one.
    ensures r.Ok? ==>
              && |text| == 2 * |r.value|
              && forall i :: 0 <= i < |r.value| ==>
                   r.value[i] / 16 == DigitOf(text[2 * i]) && r.value[i] % 16 == DigitOf(text[2 * i + 1])
  {
    if |text| % 2 != 0 {
      return Err(Error(InvalidArgument));
    }
    var table := MakeDigitTable();
    var decoded: seq<Byte> := [];
    var offset := 0;
    while offset < |text|
      invariant 0 <= offset <= |text| && offset == 2 * |decoded|
      invariant forall i :: 0 <= i < offset ==> IsHexDigit(text[i])
      invariant forall i :: 0 <= i < |decoded| ==> decoded[i] == 16 * DigitOf(text[2 * i]) + DigitOf(text[2 * i + 1])
    {
      var high, low := table[text[offset]], table[text[offset + 1]];
      if high < 0 || low < 0 {
        return Err(Error(InvalidArgument));
      }
      decoded := decoded + [16 * high + low];
      offset := offset + 2;
    }
    assert Denotes(text) && decoded == Decoded(text);
    r := Ok(decoded);
  }

  method ToHex(data: seq<Byte>) returns (text: seq<Byte>)
    ensures text == Encoded(data)
    // The digit written first is the high one.
    ensures |text| == 2 * |data|
    ensures forall i :: 0 <= i < |data| ==>
              && text[2 * i] == "0123456789abcdef"[data[i] / 16] as int
              && text[2 * i + 1] == "0123456789abcdef"[data[i] % 16] as int
  {
    text := [];
    for n := 0 to |data|
      invariant |text| == 2 * n && forall i :: 0 <= i < 2 * n ==> text[i] == Encoded(data)[i]
    {
      text := text + [DigitFor(data[n] / 16)];
      text := text + [DigitFor(data[n] % 16)];
    }
    forall i | 0 <= i < |data|
      ensures text[2 * i] == "0123456789abcdef"[data[i] / 16] as int
      ensures text[2 * i + 1] == "0123456789abcdef"[data[i] % 16] as int
    {
      DigitForMeans(data[i] / 16);
      DigitForMeans(data[i] % 16);
    }
  }

  /** Theorem: decoding an encoding gives the bytes back. */
  lemma DecodedEncoded(data: seq<Byte>)
    ensures Denotes(Encoded(data)) && Decoded(Encoded(data)) == data
  {
    var text := Encoded(data);
    forall i | 0 <= i < |data| ensures Decoded(text)[i] == data[i] {
      assert DigitOf(text[2 * i]) == data[i] / 16 && DigitOf(text[2 * i + 1]) == data[i] % 16;
    }
  }

  /** Theorem: encoding a decoding gives the text back in lower case. */
  lemma EncodedDecoded(text: seq<Byte>)
    requires Denotes(text)
    ensures |Encoded(Decoded(text))| == |text|
    ensures forall i :: 0 <= i < |text| ==> Encoded(Decoded(text))[i] == Lowered(text[i])
  {
    forall i | 0 <= i < |text| ensures Encoded(Decoded(text))[i] == Lowered(text[i]) {
      var k := i / 2;
      var high, low := DigitOf(text[2 * k]), DigitOf(text[2 * k + 1]);
      assert Decoded(text)[k] / 16 == high && Decoded(text)[k] % 16 == low;
    }
  }

  /** Theorem: two texts decode to the same bytes exactly when they differ in case alone. */
  lemma DecodingForgetsOnlyCase(s: seq<Byte>, t: seq<Byte>)
    requires Denotes(s) && Denotes(t)
    ensures Decoded(s) == Decoded(t) <==> |s| == |t| && forall i :: 0 <= i < |s| ==> Lowered(s[i]) == Lowered(t[i])
  {
    EncodedDecoded(s);
    EncodedDecoded(t);
    if |s| == |t| && forall i :: 0 <= i < |s| ==> Lowered(s[i]) == Lowered(t[i]) {
      assert Encoded(Decoded(s)) == Encoded(Decoded(t));
      DecodedEncoded(Decoded(s));
      DecodedEncoded(Decoded(t));
    }
  }

  /** All differences are collected before the answer is formed. */
  method ConstantTimeEqual(left: seq<Byte>, right: seq<Byte>) returns (equal: bool)
    ensures equal <==> left == right
  {
    if |left| != |right| {
      return false;
    }
    var differences := 0;
    for index := 0 to |left|
      invariant differences == 0 <==> left[..index] == right[..index]
    {
      var difference := BitXor(left[index], right[index]);
      XorIsZeroOnlyForEquals(left[index], right[index]);
      OrIsZeroOnlyForZeros(differences, difference);
      assert left[..index + 1] == left[..index] + [left[index]];
      assert right[..index + 1] == right[..index] + [right[index]];
      differences := BitOr(differences, difference);
    }
    assert left[..|left|] == left && right[..|right|] == right;
    equal := differences == 0;
  }
}
