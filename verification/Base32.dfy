/** Unpadded base32 of src/cloud/agent-connection-codec.ts: the two loops over an
    unmasked 32-bit accumulator, the RFC 4648 bit-string reading they are proved
    against, and the round trips between them. */
module Base32 {
  import opened Basics
  import opened Bits

  const ALPHABET := "ABCDEFGHIJKLMNOPQRSTUVWXYZ234567"

  /** A 32-bit machine word, most significant bit first. */
  type Word = w: seq<bool> | |w| == 32 witness Zeros(32)

  predicate IsLetter(c: char) {
    'A' <= c <= 'Z' || '2' <= c <= '7'
  }

  function Letter(d: Quintet): (c: char)
    ensures IsLetter(c)
  {
    ALPHABET[d]
  }

  /** `BASE32_ALPHABET.indexOf(c)` for a letter of the alphabet. */
  function Index(c: char): (d: Quintet)
    requires IsLetter(c)
    ensures Letter(d) == c
  {
    if c <= '7' then c as int - '2' as int + 26 else c as int - 'A' as int
  }

  lemma IndexLetter(d: Quintet)
    ensures Index(Letter(d)) == d
  {
  }

  function Letters(ds: seq<Quintet>): (s: string)
    ensures |s| == |ds|
    ensures forall i :: 0 <= i < |s| ==> s[i] == Letter(ds[i])
  {
    seq(|ds|, i requires 0 <= i < |ds| => Letter(ds[i]))
  }

  /** The letters of `s`, everything else dropped: what the decoder reads. */
  function OnlyLetters(s: string): (t: string)
    ensures forall c :: c in t ==> IsLetter(c)
  {
    if s == "" then ""
    else
      var rest := OnlyLetters(s[..|s| - 1]);
      if IsLetter(s[|s| - 1]) then rest + [s[|s| - 1]] else rest
  }

  function Digits(s: string): (ds: seq<Quintet>)
    requires forall c :: c in s ==> IsLetter(c)
    ensures |ds| == |s|
    ensures forall i :: 0 <= i < |s| ==> ds[i] == Index(s[i])
  {
    seq(|s|, i requires 0 <= i < |s| => Index(s[i]))
  }

  // ---- the bit-string reading of RFC 4648, sections 3.5 and 6 ----

  function ByteBits(b: seq<Byte>): (s: seq<bool>)
    ensures |s| == 8 * |b|
  {
    if b == [] then [] else ByteBits(b[..|b| - 1]) + BitsOf(b[|b| - 1], 8)
  }

  function DigitBits(ds: seq<Quintet>): (s: seq<bool>)
    ensures |s| == 5 * |ds|
  {
    if ds == [] then [] else DigitBits(ds[..|ds| - 1]) + BitsOf(ds[|ds| - 1], 5)
  }

  /** Cut into groups of five bits, the last one filled with zero bits. */
  function Quintets(s: seq<bool>): (ds: seq<Quintet>)
    ensures |s| <= 5 * |ds| < |s| + 5
  {
    if s == [] then []
    else if |s| < 5 then [FiveBits(s + Zeros(5 - |s|))]
    else [FiveBits(s[..5])] + Quintets(s[5..])
  }

  function FiveBits(s: seq<bool>): Quintet
    requires |s| == 5
  {
    Five(s); Num(s)
  }

  function EightBits(s: seq<bool>): Byte
    requires |s| == 8
  {
    Eight(s); Num(s)
  }

  lemma Five(s: seq<bool>)
    requires |s| == 5
    ensures Num(s) < 32
  {
    assert Pow2(5) == 32;
  }

  lemma Eight(s: seq<bool>)
    requires |s| == 8
    ensures Num(s) < 256
  {
    assert Pow2(8) == 256;
  }

  /** Cut into whole octets; a short remainder is dropped. */
  function Octets(s: seq<bool>): (b: seq<Byte>)
    ensures 8 * |b| <= |s| < 8 * |b| + 8
  {
    if |s| < 8 then [] else [EightBits(s[..8])] + Octets(s[8..])
  }

  /** What the encoder prints. */
  function Encoded(b: seq<Byte>): (s: string)
    ensures 8 * |b| <= 5 * |s| < 8 * |b| + 5  // the ceiling of 8 |b| / 5
    ensures forall c :: c in s ==> IsLetter(c)
  {
    Letters(Quintets(ByteBits(b)))
  }

  /** What the decoder reads back. */
  function Decoded(s: string): (b: seq<Byte>)
  {
    Octets(DigitBits(Digits(OnlyLetters(s))))
  }

  // ---- small facts about the bit strings ----

  lemma {:induction false} QuintetsSplit(s: seq<bool>, t: seq<bool>, n: nat)
    requires |s| == 5 * n
    ensures Quintets(s + t) == Quintets(s) + Quintets(t)
  {
    if n == 0 {
      assert s + t == t;
    } else {
      assert (s + t)[..5] == s[..5];
      assert (s + t)[5..] == s[5..] + t;
      QuintetsSplit(s[5..], t, n - 1);
    }
  }

  lemma {:induction false} OctetsSplit(s: seq<bool>, t: seq<bool>, n: nat)
    requires |s| == 8 * n
    ensures Octets(s + t) == Octets(s) + Octets(t)
  {
    if n == 0 {
      assert s + t == t;
    } else {
      assert (s + t)[..8] == s[..8];
      assert (s + t)[8..] == s[8..] + t;
      OctetsSplit(s[8..], t, n - 1);
    }
  }

  lemma {:induction false} DigitBitsConcat(a: seq<Quintet>, b: seq<Quintet>)
    ensures DigitBits(a + b) == DigitBits(a) + DigitBits(b)
  {
    hide BitsOf;
    if b == [] {
      assert a + b == a;
    } else {
      var front, last := b[..|b| - 1], BitsOf(b[|b| - 1], 5);
      assert (a + b)[..|a + b| - 1] == a + front;
      DigitBitsConcat(a, front);
      assert (DigitBits(a) + DigitBits(front)) + last == DigitBits(a) + (DigitBits(front) + last);
    }
  }

  lemma {:induction false} ByteBitsConcat(a: seq<Byte>, b: seq<Byte>)
    ensures ByteBits(a + b) == ByteBits(a) + ByteBits(b)
  {
    hide BitsOf;
    if b == [] {
      assert a + b == a;
    } else {
      var front, last := b[..|b| - 1], BitsOf(b[|b| - 1], 8);
      assert (a + b)[..|a + b| - 1] == a + front;
      ByteBitsConcat(a, front);
      assert (ByteBits(a) + ByteBits(front)) + last == ByteBits(a) + (ByteBits(front) + last);
    }
  }

  lemma OneDigit(d: Quintet)
    ensures DigitBits([d]) == BitsOf(d, 5)
  {
    assert [d][..0] == [];
  }

  lemma OneByte(b: Byte)
    ensures ByteBits([b]) == BitsOf(b, 8)
  {
    assert [b][..0] == [];
  }

  /** Reading the groups back gives the bits and at most four zero bits more. */
  lemma {:induction false} QuintetsInverse(s: seq<bool>)
    ensures DigitBits(Quintets(s)) == s + Zeros(5 * |Quintets(s)| - |s|)
  {
    hide FiveBits, BitsOf, DigitBits;
    if s == [] {
      NoDigits();
    } else if |s| < 5 {
      LastGroup(s);
    } else {
      QuintetsInverse(s[5..]);
      FirstGroup(s[..5], Quintets(s[5..]));
      assert s == s[..5] + s[5..];
    }
  }

  lemma NoDigits()
    ensures DigitBits([]) == []
  {
  }

  lemma LastGroup(s: seq<bool>)
    requires 0 < |s| < 5
    ensures DigitBits(Quintets(s)) == s + Zeros(5 - |s|)
  {
    OneDigit(FiveBits(s + Zeros(5 - |s|)));
    BitsOfNum(s + Zeros(5 - |s|));
  }

  lemma FirstGroup(s: seq<bool>, rest: seq<Quintet>)
    requires |s| == 5
    ensures DigitBits([FiveBits(s)] + rest) == s + DigitBits(rest)
  {
    OneDigit(FiveBits(s));
    BitsOfNum(s);
    DigitBitsConcat([FiveBits(s)], rest);
  }

  lemma EightBitsOf(b: Byte)
    ensures EightBits(BitsOf(b, 8)) == b
  {
    assert Pow2(8) == 256;
    NumBitsOf(b, 8);
  }

  lemma OctetsFirst(b: Byte, rest: seq<bool>)
    ensures Octets(BitsOf(b, 8) + rest) == [b] + Octets(rest)
  {
    hide EightBits, BitsOf;
    EightBitsOf(b);
    var all := BitsOf(b, 8) + rest;
    assert all[..8] == BitsOf(b, 8) && all[8..] == rest;
  }

  lemma {:induction false} OctetsInverse(b: seq<Byte>, tail: seq<bool>)
    requires |tail| < 8
    ensures Octets(ByteBits(b) + tail) == b
  {
    hide BitsOf, EightBits;
    if b == [] {
      assert ByteBits(b) + tail == tail;
    } else {
      FirstByte(b);
      hide Octets, ByteBits;
      assert ByteBits(b) + tail == BitsOf(b[0], 8) + (ByteBits(b[1..]) + tail);
      OctetsFirst(b[0], ByteBits(b[1..]) + tail);
      OctetsInverse(b[1..], tail);
    }
  }

  lemma FirstByte(b: seq<Byte>)
    requires b != []
    ensures ByteBits(b) == BitsOf(b[0], 8) + ByteBits(b[1..])
  {
    hide BitsOf;
    ByteBitsConcat(b[..1], b[1..]);
    assert b == b[..1] + b[1..] && b[..1] == [b[0]];
    OneByte(b[0]);
  }

  /** The octets read from `s` hold its whole octets, bit for bit. */
  lemma {:induction false} ByteBitsOfOctets(s: seq<bool>)
    ensures ByteBits(Octets(s)) == s[..8 * |Octets(s)|]
  {
    if |s| >= 8 {
      var rest := s[8..];
      ByteBitsOfOctets(rest);
      FirstOctet(s[..8], Octets(rest));
      var n := |Octets(rest)|;
      assert |Octets(s)| == n + 1;
      TakeApart(s, 8, 8 * n);
    }
  }

  lemma FirstOctet(s: seq<bool>, rest: seq<Byte>)
    requires |s| == 8
    ensures ByteBits([EightBits(s)] + rest) == s + ByteBits(rest)
  {
    OneByte(EightBits(s));
    BitsOfNum(s);
    ByteBitsConcat([EightBits(s)], rest);
  }

  lemma TakeApart<T>(s: seq<T>, i: nat, j: nat)
    requires i + j <= |s|
    ensures s[..i + j] == s[..i] + s[i..][..j]
  {
  }

  lemma {:induction false} OnlyLettersId(s: string)
    requires forall c :: c in s ==> IsLetter(c)
    ensures OnlyLetters(s) == s
  {
    if s != "" {
      OnlyLettersId(s[..|s| - 1]);
    }
  }

  lemma DigitsOfLetters(ds: seq<Quintet>)
    ensures Digits(Letters(ds)) == ds
  {
    forall i | 0 <= i < |ds| ensures Digits(Letters(ds))[i] == ds[i] {
      IndexLetter(ds[i]);
    }
  }

  lemma LettersOfDigits(s: string)
    requires forall c :: c in s ==> IsLetter(c)
    ensures Letters(Digits(s)) == s
  {
  }

  // ---- round trips ----

  /** Decoding an encoding gives the bytes back, for every byte sequence. */
  lemma DecodeEncode(b: seq<Byte>)
    ensures Decoded(Encoded(b)) == b
  {
    var bits := ByteBits(b);
    OnlyLettersId(Encoded(b));
    DigitsOfLetters(Quintets(bits));
    QuintetsInverse(bits);
    OctetsInverse(b, Zeros(5 * |Quintets(bits)| - |bits|));
  }

  lemma EncodedInjective(a: seq<Byte>, b: seq<Byte>)
    requires Encoded(a) == Encoded(b)
    ensures a == b
  {
    DecodeEncode(a);
    DecodeEncode(b);
  }

  /** Section 3.5 of RFC 4648: fewer than five bits are left over and they are zero. */
  ghost predicate Canonical(s: string)
    requires forall c :: c in s ==> IsLetter(c)
  {
    var bits := DigitBits(Digits(s));
    var whole := 8 * |Octets(bits)|;
    |bits| - whole < 5 && bits[whole..] == Zeros(|bits| - whole)
  }

  /** Re-encoding a decoded string gives it back exactly when it is canonical. */
  lemma EncodeDecode(s: string)
    requires forall c :: c in s ==> IsLetter(c)
    ensures Encoded(Decoded(s)) == s <==> Canonical(s)
  {
    OnlyLettersId(s);
    LettersOfDigits(s);
    var bits := DigitBits(Digits(s));
    ByteBitsOfOctets(bits);
    var again := Quintets(bits[..8 * |Octets(bits)|]);
    DigitsOfLetters(again);
    assert Encoded(Decoded(s)) == Letters(again);
    TakeApart(bits, 8 * |Octets(bits)|, |bits| - 8 * |Octets(bits)|);
    RegroupPrefix(Digits(s), bits[..8 * |Octets(bits)|], bits[8 * |Octets(bits)|..]);
  }

  /** Grouping a prefix of a digit string's bits again gives the digits back exactly
      when the bits left over are too few for a digit and are zero. */
  lemma RegroupPrefix(ds: seq<Quintet>, kept: seq<bool>, left: seq<bool>)
    requires DigitBits(ds) == kept + left
    ensures Quintets(kept) == ds <==> |left| < 5 && left == Zeros(|left|)
  {
    var again := Quintets(kept);
    QuintetsInverse(kept);
    if again == ds {
      assert (kept + left)[|kept|..] == left;
    } else if |left| < 5 && left == Zeros(|left|) {
      assert |again| == |ds|;
      DigitBitsInjective(again, ds);
    }
  }

  lemma SameDigit(x: Quintet, y: Quintet)
    requires BitsOf(x, 5) == BitsOf(y, 5)
    ensures x == y
  {
    assert Pow2(5) == 32;
    NumBitsOf(x, 5);
    NumBitsOf(y, 5);
  }

  lemma {:induction false} DigitBitsInjective(a: seq<Quintet>, b: seq<Quintet>)
    requires |a| == |b| && DigitBits(a) == DigitBits(b)
    ensures a == b
  {
    if a != [] {
      var n := |a| - 1;
      assert DigitBits(a)[..5 * n] == DigitBits(a[..n]) && DigitBits(b)[..5 * n] == DigitBits(b[..n]);
      DigitBitsInjective(a[..n], b[..n]);
      assert DigitBits(a)[5 * n..] == BitsOf(a[n], 5) && DigitBits(b)[5 * n..] == BitsOf(b[n], 5);
      SameDigit(a[n], b[n]);
      assert a == a[..n] + [a[n]] && b == b[..n] + [b[n]];
    }
  }

  // ---- the loops ----

  /** JavaScript `value << |low| | low`: the highest bits of the word fall off. */
  function ShiftIn(value: Word, low: seq<bool>): (r: Word)
    requires |low| <= 32
  {
    value[|low|..] + low
  }

  /** JavaScript `value >>> shift & (2^width - 1)`, as bits. */
  function Window(value: Word, shift: nat, width: nat): (r: seq<bool>)
    requires shift + width <= 32
    ensures |r| == width
  {
    value[32 - shift - width..32 - shift]
  }

  /** The inner loop: print every whole group the accumulator holds. */
  method EmitGroups(printed: string, value: Word, held: nat, ghost before: seq<Quintet>, ghost read: seq<bool>)
      returns (out: string, bits: nat, ghost digits: seq<Quintet>)
    requires held <= 12 && printed == Letters(before)
    requires EncodeProgress(read, before, value[32 - held..])
    ensures bits < 5 && out == Letters(digits)
    ensures EncodeProgress(read, digits, value[32 - bits..])
  {
    hide *;
    out, bits, digits := printed, held, before;
    while bits >= 5
      invariant bits <= 12
      invariant out == Letters(digits)
      invariant EncodeProgress(read, digits, value[32 - bits..])
    {
      out := out + [Letter(FiveBits(Window(value, bits - 5, 5)))];
      EncodeEmit(read, digits, value, bits);
      LettersSnoc(digits, FiveBits(Window(value, bits - 5, 5)));
      digits := digits + [FiveBits(Window(value, bits - 5, 5))];
      bits := bits - 5;
    }
  }

  method Encode(bytes: seq<Byte>) returns (out: string)
    ensures out == Encoded(bytes)
  {
    var bits: nat, value: Word := 0, Zeros(32);
    ghost var digits: seq<Quintet> := [];
    hide *;
    out := "";
    EncodeStart(value);
    assert bytes[..0] == [];
    for i := 0 to |bytes|
      invariant bits < 5
      invariant out == Letters(digits)
      invariant EncodeProgress(ByteBits(bytes[..i]), digits, value[32 - bits..])
    {
      ghost var read := ByteBits(bytes[..i + 1]);
      ByteBitsSnoc(bytes, i);
      EncodeShift(ByteBits(bytes[..i]), digits, value, bits, BitsOf(bytes[i], 8));
      value := ShiftIn(value, BitsOf(bytes[i], 8));
      bits := bits + 8;
      out, bits, digits := EmitGroups(out, value, bits, digits, read);
    }
    assert bytes[..|bytes|] == bytes;
    EncodedText(bytes);
    out := EmitRest(out, value, bits, digits, ByteBits(bytes));
  }

  /** After the loop: fill the last group with zero bits. */
  method EmitRest(printed: string, value: Word, bits: nat, ghost digits: seq<Quintet>, ghost read: seq<bool>)
      returns (out: string)
    requires bits < 5 && printed == Letters(digits) && EncodeProgress(read, digits, value[32 - bits..])
    ensures out == Letters(Quintets(read))
  {
    hide *;
    EncodeEnd(read, digits, value, bits);
    out := printed;
    if bits > 0 {
      LettersSnoc(digits, FiveBits(Window(ShiftIn(value, Zeros(5 - bits)), 0, 5)));
      out := out + [Letter(FiveBits(Window(ShiftIn(value, Zeros(5 - bits)), 0, 5)))];
    }
  }

  /** The bits read so far are the groups already printed and the bits still held. */
  ghost predicate EncodeProgress(read: seq<bool>, digits: seq<Quintet>, pending: seq<bool>) {
    exists done: seq<bool> :: read == done + pending && |done| == 5 * |digits| && Quintets(done) == digits
  }

  lemma EncodeStart(value: Word)
    ensures EncodeProgress(ByteBits([]), [], value[32..]) && Letters([]) == ""
  {
    assert ByteBits([]) == [] + value[32..];
  }

  lemma ByteBitsSnoc(bytes: seq<Byte>, i: nat)
    requires i < |bytes|
    ensures ByteBits(bytes[..i + 1]) == ByteBits(bytes[..i]) + BitsOf(bytes[i], 8)
  {
    assert bytes[..i + 1][..i] == bytes[..i];
  }

  lemma EncodedText(bytes: seq<Byte>)
    ensures Encoded(bytes) == Letters(Quintets(ByteBits(bytes)))
  {
  }

  lemma EncodeShift(read: seq<bool>, digits: seq<Quintet>, value: Word, bits: nat, more: seq<bool>)
    requires bits + |more| <= 32
    requires EncodeProgress(read, digits, value[32 - bits..])
    ensures EncodeProgress(read + more, digits, ShiftIn(value, more)[32 - (bits + |more|)..])
  {
    var pending := value[32 - bits..];
    var done :| read == done + pending && |done| == 5 * |digits| && Quintets(done) == digits;
    assert ShiftIn(value, more)[32 - (bits + |more|)..] == pending + more;
    assert read + more == done + (pending + more);
  }

  lemma OneGroup(s: seq<bool>)
    requires |s| == 5
    ensures Quintets(s) == [FiveBits(s)]
  {
    assert s[..5] == s && s[5..] == [];
  }

  lemma OneOctet(s: seq<bool>)
    requires |s| == 8
    ensures Octets(s) == [EightBits(s)]
  {
    assert s[..8] == s && s[8..] == [];
  }

  lemma EncodeEmit(read: seq<bool>, digits: seq<Quintet>, value: Word, bits: nat)
    requires 5 <= bits <= 32 && EncodeProgress(read, digits, value[32 - bits..])
    ensures EncodeProgress(read, digits + [FiveBits(Window(value, bits - 5, 5))], value[32 - (bits - 5)..])
  {
    hide Quintets, FiveBits;
    var pending := value[32 - bits..];
    var group := Window(value, bits - 5, 5);
    var done :| read == done + pending && |done| == 5 * |digits| && Quintets(done) == digits;
    QuintetsSplit(done, group, |digits|);
    OneGroup(group);
    assert pending == group + value[32 - (bits - 5)..];
    assert read == (done + group) + value[32 - (bits - 5)..];
  }

  lemma EncodeEnd(read: seq<bool>, digits: seq<Quintet>, value: Word, bits: nat)
    requires bits < 5 && EncodeProgress(read, digits, value[32 - bits..])
    ensures bits == 0 ==> Quintets(read) == digits
    ensures bits > 0 ==> Quintets(read) == digits + [FiveBits(Window(ShiftIn(value, Zeros(5 - bits)), 0, 5))]
  {
    var pending := value[32 - bits..];
    var done :| read == done + pending && |done| == 5 * |digits| && Quintets(done) == digits;
    QuintetsSplit(done, pending, |digits|);
    assert Quintets(read) == digits + Quintets(pending);
    if bits > 0 {
      LastWindow(value, bits);
    }
  }

  lemma LastWindow(value: Word, bits: nat)
    requires 0 < bits < 5
    ensures Quintets(value[32 - bits..]) == [FiveBits(Window(ShiftIn(value, Zeros(5 - bits)), 0, 5))]
  {
    assert Window(ShiftIn(value, Zeros(5 - bits)), 0, 5) == value[32 - bits..] + Zeros(5 - bits);
  }

  lemma LettersSnoc(ds: seq<Quintet>, d: Quintet)
    ensures Letters(ds + [d]) == Letters(ds) + [Letter(d)]
  {
  }

  method Decode(s: string) returns (out: seq<Byte>)
    ensures out == Decoded(s)
  {
    var bits: nat, value: Word := 0, Zeros(32);
    hide *;
    out := [];
    DecodeStart(value);
    assert s[..0] == "";
    for i := 0 to |s|
      invariant bits < 8
      invariant DecodeProgress(LetterBits(s[..i]), out, value[32 - bits..])
    {
      LetterBitsSnoc(s, i);
      if IsLetter(s[i]) {
        DecodeShift(LetterBits(s[..i]), out, value, bits, BitsOf(Index(s[i]), 5));
        value := ShiftIn(value, BitsOf(Index(s[i]), 5));
        bits := bits + 5;
        if bits >= 8 {
          DecodeEmit(LetterBits(s[..i + 1]), out, value, bits);
          out := out + [EightBits(Window(value, bits - 8, 8))];
          bits := bits - 8;
        }
      } else {
        SameBits(LetterBits(s[..i]));
      }
    }
    assert s[..|s|] == s;
    DecodeEnd(LetterBits(s), out, value[32 - bits..]);
    DecodedBits(s);
  }

  lemma SameBits(bits: seq<bool>)
    ensures bits + [] == bits
  {
  }

  lemma DecodeStart(value: Word)
    ensures DecodeProgress(LetterBits(""), [], value[32..])
  {
    assert LetterBits("") == [] + value[32..];
  }

  lemma DecodedBits(s: string)
    ensures Decoded(s) == Octets(LetterBits(s))
  {
  }

  ghost function LetterBits(s: string): seq<bool> {
    DigitBits(Digits(OnlyLetters(s)))
  }

  lemma LetterBitsSnoc(s: string, i: nat)
    requires i < |s|
    ensures LetterBits(s[..i + 1]) == LetterBits(s[..i]) + if IsLetter(s[i]) then BitsOf(Index(s[i]), 5) else []
  {
    assert s[..i + 1][..i] == s[..i];
    if IsLetter(s[i]) {
      DigitsSnoc(OnlyLetters(s[..i]), s[i]);
    }
  }

  lemma DigitsSnoc(s: string, c: char)
    requires IsLetter(c) && forall x :: x in s ==> IsLetter(x)
    ensures forall x :: x in s + [c] ==> IsLetter(x)
    ensures DigitBits(Digits(s + [c])) == DigitBits(Digits(s)) + BitsOf(Index(c), 5)
  {
    assert Digits(s + [c]) == Digits(s) + [Index(c)];
    assert (Digits(s) + [Index(c)])[..|s|] == Digits(s);
  }

  ghost predicate DecodeProgress(read: seq<bool>, out: seq<Byte>, pending: seq<bool>) {
    exists done: seq<bool> :: read == done + pending && |done| == 8 * |out| && Octets(done) == out
  }

  lemma DecodeShift(read: seq<bool>, out: seq<Byte>, value: Word, bits: nat, more: seq<bool>)
    requires bits + |more| <= 32
    requires DecodeProgress(read, out, value[32 - bits..])
    ensures DecodeProgress(read + more, out, ShiftIn(value, more)[32 - (bits + |more|)..])
  {
    var pending := value[32 - bits..];
    var done :| read == done + pending && |done| == 8 * |out| && Octets(done) == out;
    assert ShiftIn(value, more)[32 - (bits + |more|)..] == pending + more;
    assert read + more == done + (pending + more);
  }

  lemma DecodeEmit(read: seq<bool>, out: seq<Byte>, value: Word, bits: nat)
    requires 8 <= bits <= 32 && DecodeProgress(read, out, value[32 - bits..])
    ensures DecodeProgress(read, out + [EightBits(Window(value, bits - 8, 8))], value[32 - (bits - 8)..])
  {
    hide Octets, EightBits;
    var pending := value[32 - bits..];
    var group := Window(value, bits - 8, 8);
    var done :| read == done + pending && |done| == 8 * |out| && Octets(done) == out;
    OctetsSplit(done, group, |out|);
    OneOctet(group);
    assert pending == group + value[32 - (bits - 8)..];
    assert read == (done + group) + value[32 - (bits - 8)..];
  }

  lemma DecodeEnd(read: seq<bool>, out: seq<Byte>, pending: seq<bool>)
    requires DecodeProgress(read, out, pending) && |pending| < 8
    ensures Octets(read) == out
  {
    var done :| read == done + pending && |done| == 8 * |out| && Octets(done) == out;
    OctetsSplit(done, pending, |out|);
  }
}
