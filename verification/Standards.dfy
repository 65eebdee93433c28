/** What ties the codec to its standards: the letters of section 6 of RFC 4648 bit by bit, the
    generator polynomial of section 8 of RFC 1952, and a checksum worked out. */
module Standards {
  import opened Basics
  import opened Bits
  import opened Base32
  import opened Crc32
  import opened Token
  import opened TokenLaws

  // ---- base32 ----

  /** Bit `p` of a byte sequence, the highest bit of the first byte first, with zeros behind. */
  function BitAt(b: seq<Byte>, p: nat): (bit: nat)
    ensures bit < 2
  {
    if p < 8 * |b| then b[p / 8] / Pow2(7 - p % 8) % 2 else 0
  }

  lemma ByteBitAt(b: seq<Byte>, p: nat)
    requires p < 8 * |b|
    ensures ByteBits(b)[p] <==> BitAt(b, p) == 1
  {
    hide BitsOf, ByteBits;
    var k, j := p / 8, p % 8;
    ByteBit(b, k, j);
    BitOf(b[k], 8, j);
  }

  lemma QuintetBits(d: Quintet)
    ensures BitsOf(d, 5) == [d / 16 % 2 == 1, d / 8 % 2 == 1, d / 4 % 2 == 1, d / 2 % 2 == 1, d % 2 == 1]
  {
    assert Pow2(0) == 1 && Pow2(1) == 2 && Pow2(2) == 4 && Pow2(3) == 8 && Pow2(4) == 16;
    forall j | 0 <= j < 5 {
      BitOf(d, 5, j);
    }
  }

  /** The number that bits `5 k` to `5 k + 4` stand for. */
  function GroupAt(b: seq<Byte>, k: nat): (d: Quintet) {
    16 * BitAt(b, 5 * k) + 8 * BitAt(b, 5 * k + 1) + 4 * BitAt(b, 5 * k + 2) + 2 * BitAt(b, 5 * k + 3) + BitAt(b, 5 * k + 4)
  }

  /** Each letter printed is the one that its five bits name. */
  lemma EncodedAt(b: seq<Byte>, k: nat)
    requires k < |Encoded(b)|
    ensures Encoded(b)[k] == "ABCDEFGHIJKLMNOPQRSTUVWXYZ234567"[GroupAt(b, k)]
  {
    hide GroupAt, Quintets, ByteBits;
    GroupIs(b, k);
  }

  lemma GroupIs(b: seq<Byte>, k: nat)
    requires k < |Quintets(ByteBits(b))|
    ensures GroupAt(b, k) == Quintets(ByteBits(b))[k]
  {
    hide BitAt, Quintets, ByteBits, BitsOf;
    GroupBit(b, k, 0);
    GroupBit(b, k, 1);
    GroupBit(b, k, 2);
    GroupBit(b, k, 3);
    GroupBit(b, k, 4);
    var d: Quintet := Quintets(ByteBits(b))[k];
    QuintetBits(d);
    FiveMake(d);
  }

  lemma FiveMake(d: Quintet)
    ensures 16 * (d / 16 % 2) + 8 * (d / 8 % 2) + 4 * (d / 4 % 2) + 2 * (d / 2 % 2) + d % 2 == d
  {
    assert d / 4 == d / 2 / 2 && d / 8 == d / 2 / 2 / 2 && d / 16 == d / 2 / 2 / 2 / 2;
  }

  lemma GroupBit(b: seq<Byte>, k: nat, j: nat)
    requires k < |Quintets(ByteBits(b))| && j < 5
    ensures BitsOf(Quintets(ByteBits(b))[k], 5)[j] <==> BitAt(b, 5 * k + j) == 1
  {
    hide BitsOf, ByteBits, Quintets, DigitBits, BitAt;
    DigitBit(Quintets(ByteBits(b)), k, j);
    QuintetsInverse(ByteBits(b));
    var p := 5 * k + j;
    if p < 8 * |b| {
      ByteBitAt(b, p);
    } else {
      PastEnd(b, p);
    }
  }

  lemma PastEnd(b: seq<Byte>, p: nat)
    requires 8 * |b| <= p
    ensures BitAt(b, p) == 0
  {
  }

  /** Read back, letter `d` of the alphabet gives the five bits of `d`; bits that do not fill
      a byte are dropped. */
  lemma DecodedAt(s: string, p: nat, d: Quintet)
    requires p < 8 * |Decoded(s)|
    requires p / 5 < |OnlyLetters(s)| ==> OnlyLetters(s)[p / 5] == "ABCDEFGHIJKLMNOPQRSTUVWXYZ234567"[d]
    ensures |Decoded(s)| == 5 * |OnlyLetters(s)| / 8 && p / 5 < |OnlyLetters(s)|
    ensures BitAt(Decoded(s), p) == 1 <==> d / Pow2(4 - p % 5) % 2 == 1
  {
    hide BitAt, BitsOf, ByteBits, DigitBits, Octets, OnlyLetters;
    var ds := Digits(OnlyLetters(s));
    ByteBitsOfOctets(DigitBits(ds));
    ByteBitAt(Decoded(s), p);
    DigitBit(ds, p / 5, p % 5);
    IndexLetter(d);
    BitOf(d, 5, p % 5);
  }

  // ---- the checksum ----

  lemma EightBitsAre(x: Byte)
    ensures BitsOf(x, 8) == [x / 128 % 2 == 1, x / 64 % 2 == 1, x / 32 % 2 == 1, x / 16 % 2 == 1,
                             x / 8 % 2 == 1, x / 4 % 2 == 1, x / 2 % 2 == 1, x % 2 == 1]
  {
    assert Pow2(0) == 1 && Pow2(1) == 2 && Pow2(2) == 4 && Pow2(3) == 8;
    assert Pow2(4) == 16 && Pow2(5) == 32 && Pow2(6) == 64 && Pow2(7) == 128;
    forall j | 0 <= j < 8 {
      BitOf(x, 8, j);
    }
  }

  /** The generator, reflected: the powers of x below x^32 that it contains. */
  lemma Generator(i: nat)
    requires i < 32
    ensures POLYNOMIAL[i] <==> i in {0, 1, 2, 4, 5, 7, 8, 10, 11, 12, 16, 22, 23, 26}
  {
    hide BitsOf, Pow2;
    EightBitsAre(0xED);
    EightBitsAre(0xB8);
    EightBitsAre(0x83);
    EightBitsAre(0x20);
  }

  lemma StepAt(c: Word, i: nat)
    requires i < 32
    ensures Step(c)[i] == ((i > 0 && c[i - 1]) != (c[31] && POLYNOMIAL[i]))
  {
    hide POLYNOMIAL, BitsOf;
    ShiftAt(c, i);
    if c[31] {
      assert Step(c) == Xor(ShiftRight(c, 1), POLYNOMIAL);
    }
  }

  lemma ShiftAt(c: Word, i: nat)
    requires i < 32
    ensures ShiftRight(c, 1)[i] == (i > 0 && c[i - 1])
  {
  }

  /** The byte 0x7F inverts all but the highest bit of the low byte of the full register:
      seven rounds shift zeros out, and the eighth a one. */
  lemma RegisterOf7F(i: nat)
    requires i < 32
    ensures Crc([0x7F])[i] == ((i < 8) != POLYNOMIAL[i])
  {
    hide Step, POLYNOMIAL, BitsOf;
    var c := Xor(Not(Zeros(32)), Low(0x7F));
    EightBitsAre(0x7F);
    assert forall k :: 0 <= k < 32 ==> (c[k] <==> k < 25);
    StepsShift(7, c);
    StepsAdd(1, 7, c);
    assert Steps(1, Steps(7, c)) == Step(Steps(0, Steps(7, c)));
    StepAt(ShiftRight(c, 7), i);
    assert [0x7F as Byte][..0] == [];
    assert Run(Not(Zeros(32)), [0x7F]) == Steps(8, c);
  }

  /** The checksum of the one byte 0x7F is 0x12B88320. */
  lemma ChecksumOf7F()
    ensures CrcBytes(Crc([0x7F])) == [0x12, 0xB8, 0x83, 0x20]
  {
    hide Crc, BitsOf, CrcBytes;
    var answer := [0x12 as Byte, 0xB8, 0x83, 0x20];
    FourBytes(0x12, 0xB8, 0x83, 0x20);
    EightBitsAre(0x12);
    EightBitsAre(0xED);
    forall i | 0 <= i < 32 ensures WordOf(answer)[i] == Crc([0x7F])[i] {
      RegisterOf7F(i);
    }
    CrcBytesUnique(answer, Crc([0x7F]));
  }
}
