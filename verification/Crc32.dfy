/** Reflected CRC-32 of src/cloud/agent-connection-codec.ts, on 32-bit words, with the
    table-driven form of section 8 of RFC 1952 and the error-detection guarantee. */
module Crc32 {
  import opened Basics
  import opened Bits
  import opened Base32

  /** 0xEDB88320 */
  const POLYNOMIAL: Word := BitsOf(0xED, 8) + BitsOf(0xB8, 8) + BitsOf(0x83, 8) + BitsOf(0x20, 8)

  lemma PolynomialTop()
    ensures POLYNOMIAL[0]
  {
    assert BitsOf(0xED, 8)[0];
  }

  function Xor(a: Word, b: Word): (r: Word)
    ensures forall i :: 0 <= i < 32 ==> r[i] == (a[i] != b[i])
  {
    seq(32, i requires 0 <= i < 32 => a[i] != b[i])
  }

  function Not(a: Word): (r: Word)
    ensures forall i :: 0 <= i < 32 ==> r[i] == !a[i]
  {
    seq(32, i requires 0 <= i < 32 => !a[i])
  }

  /** A byte in the low eight bits of a word. */
  function Low(x: Byte): (r: Word) {
    Zeros(24) + BitsOf(x, 8)
  }

  /** `c >>> k`. */
  function ShiftRight(c: Word, k: nat): (r: Word)
    requires k <= 32
  {
    Zeros(k) + c[..32 - k]
  }

  /** One round of the inner loop. */
  function Step(c: Word): (r: Word) {
    if c[31] then Xor(ShiftRight(c, 1), POLYNOMIAL) else ShiftRight(c, 1)
  }

  function Steps(k: nat, c: Word): (r: Word) {
    if k == 0 then c else Step(Steps(k - 1, c))
  }

  /** The register after a byte sequence has been fed to it. */
  function Run(c: Word, bytes: seq<Byte>): (r: Word) {
    if bytes == [] then c
    else Steps(8, Xor(Run(c, bytes[..|bytes| - 1]), Low(bytes[|bytes| - 1])))
  }

  function Crc(bytes: seq<Byte>): (r: Word) {
    Not(Run(Not(Zeros(32)), bytes))
  }

  /** `crc32Bytes`: the word as four bytes, the highest first. */
  function CrcBytes(crc: Word): (b: seq<Byte>)
    ensures |b| == 4
  {
    [EightBits(crc[..8]), EightBits(crc[8..16]), EightBits(crc[16..24]), EightBits(crc[24..])]
  }

  lemma CrcBytesBits(crc: Word)
    ensures ByteBits(CrcBytes(crc)) == crc
  {
    BitsOfNum(crc[..8]);
    BitsOfNum(crc[8..16]);
    BitsOfNum(crc[16..24]);
    BitsOfNum(crc[24..]);
    var b := CrcBytes(crc);
    FourBytes(b[0], b[1], b[2], b[3]);
  }

  lemma FourBytes(a: Byte, b: Byte, c: Byte, d: Byte)
    ensures ByteBits([a, b, c, d]) == BitsOf(a, 8) + BitsOf(b, 8) + BitsOf(c, 8) + BitsOf(d, 8)
  {
    OneByte(a);
    OneByte(b);
    OneByte(c);
    OneByte(d);
    assert [a, b, c, d] == ([a] + [b]) + ([c] + [d]);
    ByteBitsConcat([a] + [b], [c] + [d]);
    ByteBitsConcat([a], [b]);
    ByteBitsConcat([c], [d]);
  }

  /** The word that four checksum bytes stand for. */
  function WordOf(b: seq<Byte>): (w: Word)
    requires |b| == 4
  {
    ByteBits(b)
  }

  method Crc32(bytes: seq<Byte>) returns (crc: Word)
    ensures crc == Crc(bytes)
  {
    var c: Word := Not(Zeros(32));
    for i := 0 to |bytes|
      invariant c == Run(Not(Zeros(32)), bytes[..i])
    {
      ghost var before := c;
      c := Xor(c, Low(bytes[i]));
      for k := 0 to 8
        invariant c == Steps(k, Xor(before, Low(bytes[i])))
      {
        c := if c[31] then Xor(ShiftRight(c, 1), POLYNOMIAL) else ShiftRight(c, 1);
      }
      assert bytes[..i + 1][..i] == bytes[..i];
    }
    assert bytes[..|bytes|] == bytes;
    crc := Not(c);
  }

  // ---- a round is linear and loses nothing ----

  lemma StepBit(c: Word, i: nat)
    requires i < 32
    ensures Step(c)[i] == ((i > 0 && c[i - 1]) != (c[31] && POLYNOMIAL[i]))
  {
  }

  lemma StepLinear(a: Word, b: Word)
    ensures Step(Xor(a, b)) == Xor(Step(a), Step(b))
  {
    forall i | 0 <= i < 32 ensures Step(Xor(a, b))[i] == Xor(Step(a), Step(b))[i] {
      StepBit(a, i);
      StepBit(b, i);
      StepBit(Xor(a, b), i);
    }
  }

  lemma {:induction false} StepsLinear(k: nat, a: Word, b: Word)
    ensures Steps(k, Xor(a, b)) == Xor(Steps(k, a), Steps(k, b))
  {
    if k > 0 {
      StepsLinear(k - 1, a, b);
      StepLinear(Steps(k - 1, a), Steps(k - 1, b));
    }
  }

  lemma StepInjective(a: Word, b: Word)
    requires Step(a) == Step(b)
    ensures a == b
  {
    ReadOutBit(a);
    ReadOutBit(b);
    forall i | 0 <= i < 31 ensures a[i] == b[i] {
      PreviousBit(a, b, i);
    }
  }

  lemma ReadOutBit(c: Word)
    ensures Step(c)[0] == c[31]
  {
    PolynomialTop();
    StepBit(c, 0);
  }

  lemma PreviousBit(a: Word, b: Word, i: nat)
    requires i < 31 && a[31] == b[31] && Step(a)[i + 1] == Step(b)[i + 1]
    ensures a[i] == b[i]
  {
    StepBit(a, i + 1);
    StepBit(b, i + 1);
  }

  lemma {:induction false} StepsInjective(k: nat, a: Word, b: Word)
    requires Steps(k, a) == Steps(k, b)
    ensures a == b
  {
    if k > 0 {
      StepInjective(Steps(k - 1, a), Steps(k - 1, b));
      StepsInjective(k - 1, a, b);
    }
  }

  lemma {:induction false} StepsAdd(j: nat, k: nat, c: Word)
    ensures Steps(j, Steps(k, c)) == Steps(j + k, c)
  {
    if j > 0 {
      StepsAdd(j - 1, k, c);
    }
  }

  /** While only zero bits come out, a round is a plain shift. */
  lemma {:induction false} StepsShift(k: nat, c: Word)
    requires k <= 32 && forall i :: 32 - k <= i < 32 ==> !c[i]
    ensures Steps(k, c) == ShiftRight(c, k)
  {
    if k > 0 {
      StepsShift(k - 1, c);
      var s := ShiftRight(c, k - 1);
      assert s[31] == c[32 - k];
      assert ShiftRight(s, 1) == ShiftRight(c, k);
    }
  }

  lemma XorAssoc(a: Word, b: Word, c: Word)
    ensures Xor(Xor(a, b), c) == Xor(a, Xor(b, c))
  {
  }

  lemma XorCancel(a: Word, b: Word, c: Word)
    requires Xor(a, b) == Xor(a, c)
    ensures b == c
  {
    forall i | 0 <= i < 32 ensures b[i] == c[i] {
      assert Xor(a, b)[i] == Xor(a, c)[i];
    }
  }

  // ---- the table-driven form ----

  /** `crc_table[n]` of RFC 1952: eight rounds on a byte. */
  function Table(n: Byte): (r: Word) {
    Steps(8, Low(n))
  }

  /** One table lookup per byte, `crc_table[(c ^ x) & 0xff] ^ (c >> 8)`, is the same as
      eight rounds of the loop. */
  lemma TableDriven(c: Word, x: Byte)
    ensures Steps(8, Xor(c, Low(x))) == Xor(Table(EightBits(Xor(c, Low(x))[24..])), ShiftRight(c, 8))
  {
    var y := Xor(c, Low(x));
    var low := Low(EightBits(y[24..]));
    BitsOfNum(y[24..]);
    var high: Word := c[..24] + Zeros(8);
    assert y == Xor(low, high) by {
      forall i | 0 <= i < 32 ensures y[i] == Xor(low, high)[i] {
      }
    }
    StepsLinear(8, low, high);
    StepsShift(8, high);
    assert ShiftRight(high, 8) == ShiftRight(c, 8);
  }

  // ---- windows of up to four bytes ----

  /** Up to four bytes side by side, the first one lowest. */
  function Tail(w: seq<Byte>): (s: seq<bool>)
    ensures |s| == 8 * |w|
  {
    if w == [] then [] else BitsOf(w[|w| - 1], 8) + Tail(w[..|w| - 1])
  }

  function Place(w: seq<Byte>): (r: Word)
    requires |w| <= 4
  {
    Zeros(32 - 8 * |w|) + Tail(w)
  }

  lemma {:induction false} TailInjective(a: seq<Byte>, b: seq<Byte>)
    requires |a| == |b| && Tail(a) == Tail(b)
    ensures a == b
  {
    if a != [] {
      var n := |a| - 1;
      assert Tail(a)[..8] == BitsOf(a[n], 8) && Tail(b)[..8] == BitsOf(b[n], 8);
      assert Tail(a)[8..] == Tail(a[..n]) && Tail(b)[8..] == Tail(b[..n]);
      SameByte(a[n], b[n]);
      TailInjective(a[..n], b[..n]);
      assert a == a[..n] + [a[n]] && b == b[..n] + [b[n]];
    }
  }

  lemma SameByte(x: Byte, y: Byte)
    requires BitsOf(x, 8) == BitsOf(y, 8)
    ensures x == y
  {
    assert Pow2(8) == 256;
    NumBitsOf(x, 8);
    NumBitsOf(y, 8);
  }

  /** A byte in position `k` of a word, counted from the low end. */
  function At(x: Byte, k: nat): (r: Word)
    requires k < 4
  {
    Zeros(24 - 8 * k) + BitsOf(x, 8) + Zeros(8 * k)
  }

  lemma PlaceSnoc(w: seq<Byte>, x: Byte)
    requires |w| < 4
    ensures Place(w + [x]) == Xor(Place(w), At(x, |w|))
  {
    assert (w + [x])[..|w|] == w;
    var n := 8 * |w|;
    assert Place(w + [x]) == Zeros(24 - n) + BitsOf(x, 8) + Tail(w);
    forall i | 0 <= i < 32 ensures Place(w + [x])[i] == Xor(Place(w), At(x, |w|))[i] {
      if i < 24 - n {
      } else if i < 32 - n {
      } else {
      }
    }
  }

  lemma AtShift(x: Byte, k: nat)
    requires k < 4
    ensures Steps(8 * k, At(x, k)) == Low(x)
  {
    StepsShift(8 * k, At(x, k));
    assert ShiftRight(At(x, k), 8 * k) == Low(x);
  }

  /** Feeding up to four bytes is one linear transform of the register with the bytes laid in. */
  lemma {:induction false} RunWindow(c: Word, w: seq<Byte>)
    requires |w| <= 4
    ensures Run(c, w) == Steps(8 * |w|, Xor(c, Place(w)))
  {
    if w == [] {
      assert Place(w) == Zeros(32);
      assert Xor(c, Zeros(32)) == c;
    } else {
      var n := |w| - 1;
      var front, x := w[..n], w[n];
      assert w == front + [x];
      RunWindow(c, front);
      AtShift(x, n);
      var laid := Xor(c, Place(front));
      StepsLinear(8 * n, laid, At(x, n));
      XorAssoc(c, Place(front), At(x, n));
      PlaceSnoc(front, x);
      StepsAdd(8, 8 * n, Xor(c, Place(w)));
    }
  }

  lemma {:induction false} RunConcat(c: Word, a: seq<Byte>, b: seq<Byte>)
    ensures Run(c, a + b) == Run(Run(c, a), b)
  {
    if b == [] {
      assert a + b == a;
    } else {
      var front := b[..|b| - 1];
      assert (a + b)[..|a + b| - 1] == a + front;
      RunConcat(c, a, front);
    }
  }

  lemma {:induction false} RunInjective(c: Word, d: Word, s: seq<Byte>)
    requires Run(c, s) == Run(d, s)
    ensures c == d
  {
    if s != [] {
      var front, x := s[..|s| - 1], Low(s[|s| - 1]);
      StepsInjective(8, Xor(Run(c, front), x), Xor(Run(d, front), x));
      XorCommute(Run(c, front), x);
      XorCommute(Run(d, front), x);
      XorCancel(x, Run(c, front), Run(d, front));
      RunInjective(c, d, front);
    }
  }

  lemma XorCommute(a: Word, b: Word)
    ensures Xor(a, b) == Xor(b, a)
  {
  }

  /** Two bodies that differ only inside a window of at most four consecutive bytes
      never have the same checksum. */
  lemma WindowDetected(prefix: seq<Byte>, a: seq<Byte>, b: seq<Byte>, suffix: seq<Byte>)
    requires |a| == |b| <= 4 && a != b
    ensures Crc(prefix + a + suffix) != Crc(prefix + b + suffix)
  {
    if Crc(prefix + a + suffix) == Crc(prefix + b + suffix) {
      var start := Not(Zeros(32));
      NotInjective(Run(start, prefix + a + suffix), Run(start, prefix + b + suffix));
      RunConcat(start, prefix + a, suffix);
      RunConcat(start, prefix + b, suffix);
      RunInjective(Run(start, prefix + a), Run(start, prefix + b), suffix);
      RunConcat(start, prefix, a);
      RunConcat(start, prefix, b);
      var c := Run(start, prefix);
      RunWindow(c, a);
      RunWindow(c, b);
      StepsInjective(8 * |a|, Xor(c, Place(a)), Xor(c, Place(b)));
      XorCancel(c, Place(a), Place(b));
      assert Place(a)[32 - 8 * |a|..] == Tail(a) && Place(b)[32 - 8 * |b|..] == Tail(b);
      TailInjective(a, b);
    }
  }

  lemma NotInjective(a: Word, b: Word)
    requires Not(a) == Not(b)
    ensures a == b
  {
    forall i | 0 <= i < 32 ensures a[i] == b[i] {
      assert Not(a)[i] == Not(b)[i];
    }
  }
}
