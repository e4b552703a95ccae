/** CRC-32C (section 12.1 of RFC 3720): the bitwise definition, the table-driven update, and how the
checksum of a whole follows from the checksums of its parts. */
module Crc32c {
  import opened Objects

  type word = bv32

  /** The generator 0x11EDC6F41, reflected. */
  const POLY: word := 0x82F6_3B78

  // The operations on words are named, so that a proof need not look into them.

  function Xor(a: word, b: word): word {
    a ^ b
  }

  function Not(a: word): word {
    !a
  }

  function Half(a: word): word {
    a >> 1
  }

  predicate Odd(a: word) {
    a & 1 == 1
  }

  /** One bit through the shift register. */
  function Bit(c: word): word {
    if Odd(c) then Xor(Half(c), POLY) else Half(c)
  }

  function Bits8(c: word): word {
    Bit(Bit(Bit(Bit(Bit(Bit(Bit(Bit(c))))))))
  }

  /** The register after some bytes, least significant bit first: the definition. */
  function Register(c: word, data: seq<byte>): word
    decreases |data|
  {
    if data == [] then c
    else Bits8(Xor(Register(c, data[..|data| - 1]), data[|data| - 1] as word))
  }

  const ONES: word := 0xFFFF_FFFF

  /** The checksum: the register starts with all ones and is complemented at the end. */
  function Crc(data: seq<byte>): word {
    Not(Register(ONES, data))
  }

  // ------------------------------------------------------------------ words

  lemma XorAssoc(a: word, b: word, c: word)
    ensures Xor(Xor(a, b), c) == Xor(a, Xor(b, c))
  {
  }

  lemma NotLaws(a: word, b: word)
    ensures Not(Not(a)) == a && Not(a) == Xor(a, ONES)
    ensures Not(Xor(a, b)) == Xor(a, Not(b))
    ensures Not(ONES) == 0
  {
  }

  lemma HalfLinear(a: word, b: word)
    ensures Half(Xor(a, b)) == Xor(Half(a), Half(b))
    ensures Odd(Xor(a, b)) <==> Odd(a) != Odd(b)
  {
    OddOr(a);
    OddOr(b);
  }

  lemma OddOr(a: word)
    ensures a & 1 == if Odd(a) then 1 else 0
  {
  }

  lemma PolyTwice(x: word, y: word)
    ensures Xor(Xor(x, POLY), Xor(y, POLY)) == Xor(x, y)
  {
  }

  lemma PolyLeft(x: word, y: word)
    ensures Xor(Xor(x, POLY), y) == Xor(Xor(x, y), POLY)
  {
  }

  lemma BitLinear(a: word, b: word)
    ensures Bit(Xor(a, b)) == Xor(Bit(a), Bit(b))
  {
    hide Xor, Half, Odd;
    HalfLinear(a, b);
    PolyTwice(Half(a), Half(b));
    PolyLeft(Half(a), Half(b));
    XorAssoc(Half(a), Half(b), POLY);
  }

  lemma Bits8Linear(a: word, b: word)
    ensures Bits8(Xor(a, b)) == Xor(Bits8(a), Bits8(b))
  {
    hide Bit, Xor;
    var a1, b1 := Bit(a), Bit(b);
    var a2, b2 := Bit(a1), Bit(b1);
    var a3, b3 := Bit(a2), Bit(b2);
    var a4, b4 := Bit(a3), Bit(b3);
    var a5, b5 := Bit(a4), Bit(b4);
    var a6, b6 := Bit(a5), Bit(b5);
    var a7, b7 := Bit(a6), Bit(b6);
    BitLinear(a, b);
    BitLinear(a1, b1);
    BitLinear(a2, b2);
    BitLinear(a3, b3);
    BitLinear(a4, b4);
    BitLinear(a5, b5);
    BitLinear(a6, b6);
    BitLinear(a7, b7);
  }

  // ------------------------------------------------------------------ the table

  function Low(c: word): byte {
    (c & 0xFF) as byte
  }

  function High(c: word): word {
    c & 0xFFFF_FF00
  }

  function Shift8(c: word): word {
    c >> 8
  }

  /** An entry of the table, and the step that uses it. */
  function TableEntry(i: byte): word {
    Bits8(i as word)
  }

  function TableStep(c: word, v: byte): word {
    Xor(TableEntry(Low(c) ^ v), Shift8(c))
  }

  /** Halving eight times is shifting by eight. */
  lemma EightHalves(d: word)
    ensures Half(Half(Half(Half(Half(Half(Half(Half(d)))))))) == Shift8(d)
  {
  }

  lemma EvenUpTo4(d: word)
    requires d & 0xFF == 0
    ensures !Odd(d) && !Odd(Half(d)) && !Odd(Half(Half(d))) && !Odd(Half(Half(Half(d))))
    ensures Half(Half(Half(Half(d)))) & 0xF == 0
  {
  }

  lemma EvenFrom4(d: word)
    requires d & 0xF == 0
    ensures !Odd(d) && !Odd(Half(d)) && !Odd(Half(Half(d))) && !Odd(Half(Half(Half(d))))
  {
  }

  /** Words whose low eight bits are zero just move down. */
  lemma EvenBits(d: word)
    requires d & 0xFF == 0
    ensures Bits8(d) == Shift8(d)
  {
    hide Xor, Half, Odd, Shift8;
    EvenUpTo4(d);
    EvenFrom4(Half(Half(Half(Half(d)))));
    EightHalves(d);
  }

  lemma LowHigh(c: word, v: byte)
    ensures Xor(c, v as word) == Xor((Low(c) ^ v) as word, High(c))
    ensures Shift8(High(c)) == Shift8(c) && High(c) & 0xFF == 0
  {
  }

  /** A step of the table is eight bits of the definition. */
  lemma TableStepIsBits(c: word, v: byte)
    ensures TableStep(c, v) == Bits8(Xor(c, v as word))
  {
    hide Bits8, Xor, Low, High, Shift8;
    LowHigh(c, v);
    Bits8Linear((Low(c) ^ v) as word, High(c));
    EvenBits(High(c));
  }

  /** The update that the checksum readers use: it takes and gives a finished checksum. */
  method Update(crc: word, data: seq<byte>) returns (r: word)
    ensures r == Not(Register(Not(crc), data))
  {
    hide Bits8, Xor, Low, High, Shift8, Not, TableStep;
    var c := Not(crc);
    var k := 0;
    while k < |data|
      invariant k <= |data| && c == Register(Not(crc), data[..k])
    {
      TableStepIsBits(c, data[k]);
      assert data[..k + 1][..k] == data[..k];
      c := TableStep(c, data[k]);
      k := k + 1;
    }
    assert data[..|data|] == data;
    r := Not(c);
  }

  // ------------------------------------------------------------------ parts

  lemma {:induction false} RegisterConcat(c: word, a: seq<byte>, b: seq<byte>)
    ensures Register(c, a + b) == Register(Register(c, a), b)
    decreases |b|
  {
    hide Bits8, Xor;
    if b == [] {
      assert a + b == a;
    } else {
      var init := b[..|b| - 1];
      RegisterConcat(c, a, init);
      assert (a + b)[..|a + b| - 1] == a + init;
    }
  }

  /** Updating piece by piece is updating at once, and starts with 0. */
  lemma UpdateInPieces(a: seq<byte>, b: seq<byte>)
    ensures Crc(a + b) == Not(Register(Not(Crc(a)), b))
    ensures Crc([]) == 0
  {
    hide Bits8, Xor, Not;
    RegisterConcat(ONES, a, b);
    NotLaws(Register(ONES, a), 0);
  }

  /** The effect of `n` zero bytes. */
  function ZeroShift(c: word, n: nat): word {
    if n == 0 then c else Bits8(ZeroShift(c, n - 1))
  }

  /** Combining two checksums, given the length of what the second one covers. */
  function Combine(crc1: word, crc2: word, len2: nat): word {
    Xor(ZeroShift(crc1, len2), crc2)
  }

  /** The register is linear: a difference in its start shifts through, whatever the data. */
  lemma {:induction false} RegisterLinear(x: word, y: word, data: seq<byte>)
    ensures Register(Xor(x, y), data) == Xor(ZeroShift(x, |data|), Register(y, data))
    decreases |data|
  {
    hide Bits8, Xor;
    if data != [] {
      var init, v := data[..|data| - 1], data[|data| - 1] as word;
      RegisterLinear(x, y, init);
      XorAssoc(ZeroShift(x, |init|), Register(y, init), v);
      Bits8Linear(ZeroShift(x, |init|), Xor(Register(y, init), v));
    }
  }

  /** The checksum of a whole is the combination of the checksums of its two parts. */
  lemma CombineIsConcat(a: seq<byte>, b: seq<byte>)
    ensures Crc(a + b) == Combine(Crc(a), Crc(b), |b|)
  {
    hide Bits8, Xor, Not, Register, ZeroShift;
    UpdateInPieces(a, b);
    NotLaws(Crc(a), 0);
    RegisterLinear(Crc(a), ONES, b);
    NotLaws(ZeroShift(Crc(a), |b|), Register(ONES, b));
  }

  // ------------------------------------------------------------------ what a checksum cannot miss

  lemma BitOnto(d: word)
    ensures Bit(d) == 0 ==> d == 0
  {
  }

  lemma Bits8Onto(d: word)
    ensures Bits8(d) == 0 ==> d == 0
  {
    hide Bit;
    var d1 := Bit(d);
    var d2 := Bit(d1);
    var d3 := Bit(d2);
    var d4 := Bit(d3);
    var d5 := Bit(d4);
    var d6 := Bit(d5);
    var d7 := Bit(d6);
    BitOnto(d);
    BitOnto(d1);
    BitOnto(d2);
    BitOnto(d3);
    BitOnto(d4);
    BitOnto(d5);
    BitOnto(d6);
    BitOnto(d7);
  }

  lemma XorSelf(a: word)
    ensures Xor(a, a) == 0
  {
  }

  lemma ZeroXor(a: word)
    ensures Xor(0, a) == a && Xor(a, 0) == a
  {
  }

  lemma XorZero(a: word, b: word)
    ensures Xor(a, b) == 0 <==> a == b
  {
    hide Xor;
    XorAssoc(a, b, b);
    XorSelf(b);
    ZeroXor(a);
    ZeroXor(b);
  }

  lemma XorDiffers(a: word, b: word, c: word)
    requires a != b
    ensures Xor(a, c) != Xor(b, c)
    ensures Xor(c, a) != Xor(c, b)
  {
  }

  /** Different registers stay different, whatever follows. */
  lemma {:induction false} RegisterInjective(x: word, y: word, data: seq<byte>)
    requires x != y
    ensures Register(x, data) != Register(y, data)
    decreases |data|
  {
    hide Bits8, Xor;
    if data != [] {
      var init, v := data[..|data| - 1], data[|data| - 1] as word;
      RegisterInjective(x, y, init);
      XorDiffers(Register(x, init), Register(y, init), v);
      StepInjective(Register(x, init), Register(y, init), v, v);
    }
  }

  lemma StepInjective(x: word, y: word, v: word, w: word)
    requires Xor(x, v) != Xor(y, w)
    ensures Bits8(Xor(x, v)) != Bits8(Xor(y, w))
  {
    hide Bits8, Xor;
    Bits8Linear(Xor(x, v), Xor(y, w));
    Bits8Onto(Xor(Xor(x, v), Xor(y, w)));
    XorZero(Xor(x, v), Xor(y, w));
    XorZero(Bits8(Xor(x, v)), Bits8(Xor(y, w)));
  }

  /** A change of a single byte changes the checksum. */
  lemma OneByteDetected(a: seq<byte>, v: byte, w: byte, b: seq<byte>)
    requires v != w
    ensures Crc(a + [v] + b) != Crc(a + [w] + b)
  {
    hide Bits8, Xor, Not;
    var c := Register(ONES, a);
    RegisterConcat(ONES, a + [v], b);
    RegisterConcat(ONES, a + [w], b);
    assert (a + [v])[..|a|] == a == (a + [w])[..|a|];
    WordsDiffer(v, w);
    XorDiffers(v as word, w as word, c);
    StepInjective(c, c, v as word, w as word);
    RegisterInjective(Register(ONES, a + [v]), Register(ONES, a + [w]), b);
    NotLaws(Register(ONES, a + [v] + b), 0);
    NotLaws(Register(ONES, a + [w] + b), 0);
  }

  lemma WordsDiffer(v: byte, w: byte)
    requires v != w
    ensures v as word != w as word
  {
  }

  // ------------------------------------------------------------------ the check value

  /** The register after one more byte. */
  lemma Digit(data: seq<byte>, b: byte, was: word, now: word)
    requires Register(ONES, data) == was && Bits8(Xor(was, b as word)) == now
    ensures Register(ONES, data + [b]) == now
  {
    assert (data + [b])[..|data|] == data;
  }

  lemma FirstDigits(data: seq<byte>)
    requires Register(ONES, data) == 0xFFFF_FFFF
    ensures Register(ONES, data + [0x31] + [0x32] + [0x33]) == 0xEF84_D04D
  {
    hide Register;
    Digit(data, 0x31, 0xFFFF_FFFF, 0x6F0A_661C);
    Digit(data + [0x31], 0x32, 0x6F0A_661C, 0x8CAA_3B9F);
    Digit(data + [0x31] + [0x32], 0x33, 0x8CAA_3B9F, 0xEF84_D04D);
  }

  lemma NextDigits(data: seq<byte>)
    requires Register(ONES, data) == 0xEF84_D04D
    ensures Register(ONES, data + [0x34] + [0x35] + [0x36]) == 0xBECA_8E79
  {
    hide Register;
    Digit(data, 0x34, 0xEF84_D04D, 0x09C5_0B11);
    Digit(data + [0x34], 0x35, 0x09C5_0B11, 0xE72E_DCCA);
    Digit(data + [0x34] + [0x35], 0x36, 0xE72E_DCCA, 0xBECA_8E79);
  }

  lemma LastDigits(data: seq<byte>)
    requires Register(ONES, data) == 0xBECA_8E79
    ensures Register(ONES, data + [0x37] + [0x38] + [0x39]) == 0x1CF9_6D7C
  {
    hide Register;
    Digit(data, 0x37, 0xBECA_8E79, 0xEDBD_6815);
    Digit(data + [0x37], 0x38, 0xEDBD_6815, 0x9F78_7F65);
    Digit(data + [0x37] + [0x38], 0x39, 0x9F78_7F65, 0x1CF9_6D7C);
  }

  /** The checksum of the nine digits, which tells this code from others. */
  lemma CheckValue(data: seq<byte>)
    requires data == [0x31, 0x32, 0x33, 0x34, 0x35, 0x36, 0x37, 0x38, 0x39]
    ensures Crc(data) == 0xE306_9283
  {
    var none: seq<byte> := [];
    FirstDigits(none);
    hide Register;
    var three := none + [0x31] + [0x32] + [0x33];
    NextDigits(three);
    var six := three + [0x34] + [0x35] + [0x36];
    LastDigits(six);
    assert six + [0x37] + [0x38] + [0x39] == data;
  }
}
