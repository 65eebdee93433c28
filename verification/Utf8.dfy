/** UTF-8 twice: the grammar of section 4 of RFC 3629 read over a whole buffer, and the
    byte-at-a-time decoder a stream is fed to. They agree on every byte sequence. */
module Utf8 {
  import opened Basics

  /** A UTF-16 code unit. */
  type Unit = x: int | 0 <= x < 0x10000

  // ---- the grammar ----

  predicate Tail(b: Byte) {
    0x80 <= b <= 0xBF
  }

  predicate Two(b: seq<Byte>) {
    |b| >= 2 && 0xC2 <= b[0] <= 0xDF && Tail(b[1])
  }

  predicate Three(b: seq<Byte>) {
    |b| >= 3 && Tail(b[2]) &&
    ((b[0] == 0xE0 && 0xA0 <= b[1] <= 0xBF) || (0xE1 <= b[0] <= 0xEC && Tail(b[1])) ||
     (b[0] == 0xED && 0x80 <= b[1] <= 0x9F) || (0xEE <= b[0] <= 0xEF && Tail(b[1])))
  }

  predicate Four(b: seq<Byte>) {
    |b| >= 4 && Tail(b[2]) && Tail(b[3]) &&
    ((b[0] == 0xF0 && 0x90 <= b[1] <= 0xBF) || (0xF1 <= b[0] <= 0xF3 && Tail(b[1])) ||
     (b[0] == 0xF4 && 0x80 <= b[1] <= 0x8F))
  }

  /** The length of the character at the front, zero if there is none. */
  function HeadLength(b: seq<Byte>): (n: nat)
    ensures n <= |b| && n <= 4
  {
    if |b| >= 1 && b[0] <= 0x7F then 1
    else if Two(b) then 2
    else if Three(b) then 3
    else if Four(b) then 4
    else 0
  }

  /** The character number at the front. */
  function HeadPoint(b: seq<Byte>): (c: nat)
    requires HeadLength(b) > 0
    ensures c < 0x110000
    ensures HeadLength(b) == 4 <==> c >= 0x10000
  {
    if b[0] <= 0x7F then b[0]
    else if Two(b) then (b[0] as int - 0xC0) * 0x40 + Low(b[1])
    else if Three(b) then ((b[0] as int - 0xE0) * 0x40 + Low(b[1])) * 0x40 + Low(b[2])
    else (((b[0] as int - 0xF0) * 0x40 + Low(b[1])) * 0x40 + Low(b[2])) * 0x40 + Low(b[3])
  }

  /** The six bits a tail byte carries. */
  function Low(b: Byte): (n: nat)
    requires Tail(b)
    ensures n < 0x40
  {
    b as int - 0x80
  }

  /** A character as UTF-16: one unit, or a surrogate pair. */
  function Units(c: nat): (u: seq<Unit>)
    requires c < 0x110000
    ensures |u| == if c < 0x10000 then 1 else 2
  {
    if c < 0x10000 then [c] else [0xD800 + (c - 0x10000) / 0x400, 0xDC00 + (c - 0x10000) % 0x400]
  }

  /** The text of a whole buffer, if the buffer is valid. */
  function Whole(b: seq<Byte>): (t: Option<seq<Unit>>)
    decreases |b|
  {
    if b == [] then Some([])
    else
      var n := HeadLength(b);
      if n == 0 then None
      else
        var rest := Whole(b[n..]);
        if rest.None? then None else Some(Units(HeadPoint(b)) + rest.value)
  }

  // ---- the decoder ----

  /** Bits gathered so far, bytes still needed, and the range of the next one. */
  datatype Decoder = Decoder(point: nat, needed: nat, lower: nat, upper: nat)
  datatype Fed = Fed(decoder: Decoder, text: seq<Unit>) | Malformed

  const IDLE := Decoder(0, 0, 0x80, 0xBF)

  function Lead(b: Byte): (f: Fed) {
    if b <= 0x7F then Fed(IDLE, [b])
    else if 0xC2 <= b <= 0xDF then Fed(Decoder(b % 0x20, 1, 0x80, 0xBF), [])
    else if 0xE0 <= b <= 0xEF then
      Fed(Decoder(b % 0x10, 2, if b == 0xE0 then 0xA0 else 0x80, if b == 0xED then 0x9F else 0xBF), [])
    else if 0xF0 <= b <= 0xF4 then
      Fed(Decoder(b % 0x08, 3, if b == 0xF0 then 0x90 else 0x80, if b == 0xF4 then 0x8F else 0xBF), [])
    else Malformed
  }

  function Step(d: Decoder, b: Byte): (f: Fed) {
    if d.needed == 0 then Lead(b)
    else if !(d.lower <= b <= d.upper) then Malformed
    else
      var point := d.point * 0x40 + b % 0x40;
      if d.needed > 1 then Fed(Decoder(point, d.needed - 1, 0x80, 0xBF), [])
      else if point < 0x110000 then Fed(IDLE, Units(point))
      else Malformed
  }

  function Feed(d: Decoder, b: seq<Byte>): (f: Fed)
    decreases |b|
  {
    if b == [] then Fed(d, [])
    else
      var first := Step(d, b[0]);
      if first.Malformed? then Malformed
      else
        var rest := Feed(first.decoder, b[1..]);
        if rest.Malformed? then Malformed else Fed(rest.decoder, first.text + rest.text)
  }

  /** `decode()` at the end: a character cut short is an error. */
  function Finish(f: Fed): (t: Option<seq<Unit>>) {
    if f.Malformed? || f.decoder.needed > 0 then None else Some(f.text)
  }

  // ---- they agree ----

  lemma {:induction false} FeedConcat(d: Decoder, a: seq<Byte>, b: seq<Byte>)
    ensures var f := Feed(d, a);
            Feed(d, a + b) ==
              if f.Malformed? then Malformed
              else
                var g := Feed(f.decoder, b);
                if g.Malformed? then Malformed else Fed(g.decoder, f.text + g.text)
    decreases |a|
  {
    if a == [] {
      assert a + b == b;
    } else {
      assert (a + b)[0] == a[0] && (a + b)[1..] == a[1..] + b;
      var first := Step(d, a[0]);
      if !first.Malformed? {
        FeedConcat(first.decoder, a[1..], b);
      }
    }
  }

  lemma FeedOne(d: Decoder, a: Byte)
    ensures Feed(d, [a]) == Step(d, a)
  {
    assert [a][1..] == [];
    var f := Step(d, a);
    if f.Fed? {
      assert f.text + [] == f.text;
    }
  }

  lemma FeedTwo(d: Decoder, a: Byte, b: Byte)
    requires Step(d, a).Fed? && Step(d, a).text == []
    ensures Feed(d, [a, b]) == Step(Step(d, a).decoder, b)
  {
    assert [a, b] == [a] + [b];
    FeedConcat(d, [a], [b]);
    FeedOne(d, a);
    FeedOne(Step(d, a).decoder, b);
    var g := Step(Step(d, a).decoder, b);
    if g.Fed? {
      assert [] + g.text == g.text;
    }
  }

  lemma FeedThree(d: Decoder, a: Byte, b: Byte, c: Byte)
    requires Step(d, a).Fed? && Step(d, a).text == []
    requires var e := Step(d, a).decoder; Step(e, b).Fed? && Step(e, b).text == []
    ensures Feed(d, [a, b, c]) == Step(Step(Step(d, a).decoder, b).decoder, c)
  {
    assert [a, b, c] == [a] + [b, c];
    FeedConcat(d, [a], [b, c]);
    FeedOne(d, a);
    FeedTwo(Step(d, a).decoder, b, c);
    var g := Feed(Step(d, a).decoder, [b, c]);
    if g.Fed? {
      assert [] + g.text == g.text;
    }
  }

  lemma FeedFour(d: Decoder, a: Byte, b: Byte, c: Byte, e: Byte)
    requires Step(d, a).Fed? && Step(d, a).text == []
    requires var x := Step(d, a).decoder;
             Step(x, b).Fed? && Step(x, b).text == [] &&
             Step(Step(x, b).decoder, c).Fed? && Step(Step(x, b).decoder, c).text == []
    ensures Feed(d, [a, b, c, e]) == Step(Step(Step(Step(d, a).decoder, b).decoder, c).decoder, e)
  {
    assert [a, b, c, e] == [a] + [b, c, e];
    FeedConcat(d, [a], [b, c, e]);
    FeedOne(d, a);
    FeedThree(Step(d, a).decoder, b, c, e);
    var g := Feed(Step(d, a).decoder, [b, c, e]);
    if g.Fed? {
      assert [] + g.text == g.text;
    }
  }

  /** The decoder reads a character of the grammar and is idle again. */
  lemma FeedHead(b: seq<Byte>)
    requires HeadLength(b) > 0
    ensures Feed(IDLE, b[..HeadLength(b)]) == Fed(IDLE, Units(HeadPoint(b)))
  {
    var n := HeadLength(b);
    if n == 1 {
      assert b[..n] == [b[0]];
      FeedOne(IDLE, b[0]);
    } else if n == 2 {
      assert b[..n] == [b[0], b[1]];
      FeedTwo(IDLE, b[0], b[1]);
      LowBits(b[1]);
    } else if n == 3 {
      assert b[..n] == [b[0], b[1], b[2]];
      ThreeSteps(b);
      FeedThree(IDLE, b[0], b[1], b[2]);
    } else {
      assert b[..n] == [b[0], b[1], b[2], b[3]];
      FourSteps(b);
      FeedFour(IDLE, b[0], b[1], b[2], b[3]);
    }
  }

  lemma ThreeSteps(b: seq<Byte>)
    requires HeadLength(b) == 3
    ensures Three(b) && Step(IDLE, b[0]).Fed? && Step(IDLE, b[0]).text == []
    ensures var x := Step(IDLE, b[0]).decoder;
            Step(x, b[1]).Fed? && Step(x, b[1]).text == [] &&
            Step(Step(x, b[1]).decoder, b[2]) == Fed(IDLE, Units(HeadPoint(b)))
  {
    hide Units;
    var p0 := b[0] as int - 0xE0;
    assert Step(IDLE, b[0]) == Fed(Decoder(p0, 2, if b[0] == 0xE0 then 0xA0 else 0x80, if b[0] == 0xED then 0x9F else 0xBF), []);
    var p1 := p0 * 0x40 + Low(b[1]);
    LowBits(b[1]);
    LowBits(b[2]);
    assert Step(Step(IDLE, b[0]).decoder, b[1]) == Fed(Decoder(p1, 1, 0x80, 0xBF), []);
    assert HeadPoint(b) == p1 * 0x40 + Low(b[2]);
  }

  lemma FourSteps(b: seq<Byte>)
    requires HeadLength(b) == 4
    ensures Four(b) && Step(IDLE, b[0]).Fed? && Step(IDLE, b[0]).text == []
    ensures var x := Step(IDLE, b[0]).decoder;
            Step(x, b[1]).Fed? && Step(x, b[1]).text == [] &&
            Step(Step(x, b[1]).decoder, b[2]).Fed? && Step(Step(x, b[1]).decoder, b[2]).text == [] &&
            Step(Step(Step(x, b[1]).decoder, b[2]).decoder, b[3]) == Fed(IDLE, Units(HeadPoint(b)))
  {
    hide Units;
    assert Four(b) && b[0] >= 0xF0;
    var p0 := b[0] as int - 0xF0;
    assert Step(IDLE, b[0]) == Fed(Decoder(p0, 3, if b[0] == 0xF0 then 0x90 else 0x80, if b[0] == 0xF4 then 0x8F else 0xBF), []);
    var p1 := p0 * 0x40 + Low(b[1]);
    LowBits(b[1]);
    LowBits(b[2]);
    LowBits(b[3]);
    assert Step(Step(IDLE, b[0]).decoder, b[1]) == Fed(Decoder(p1, 2, 0x80, 0xBF), []);
    var p2 := p1 * 0x40 + Low(b[2]);
    assert Step(Decoder(p1, 2, 0x80, 0xBF), b[2]) == Fed(Decoder(p2, 1, 0x80, 0xBF), []);
    assert HeadPoint(b) == p2 * 0x40 + Low(b[3]);
  }

  lemma LowBits(b: Byte)
    requires Tail(b)
    ensures b % 0x40 == Low(b)
  {
  }

  /** Where the grammar finds no character, the decoder fails or is left short. */
  lemma FeedNoHead(b: seq<Byte>)
    requires b != [] && HeadLength(b) == 0
    ensures Finish(Feed(IDLE, b)).None?
  {
    var f := Step(IDLE, b[0]);
    if f.Fed? && |b| >= 2 {
      assert b == [b[0]] + b[1..];
      FeedNoSecond(f.decoder, b[1..], b);
    }
  }

  lemma FeedNoSecond(d: Decoder, rest: seq<Byte>, b: seq<Byte>)
    requires |b| >= 2 && b == [b[0]] + rest && rest != [] && HeadLength(b) == 0 && Step(IDLE, b[0]) == Fed(d, [])
    requires d.needed > 0
    ensures Finish(Feed(d, rest)).None?
  {
    hide Units, HeadPoint;
    assert b[1] == rest[0];
    var f := Step(d, rest[0]);
    if f.Fed? && |rest| >= 2 {
      assert b[2] == rest[1] && |b| >= 3;
      FeedNoThird(d, rest, b);
    }
  }

  lemma FeedNoThird(d: Decoder, rest: seq<Byte>, b: seq<Byte>)
    requires |rest| >= 2 && |b| >= 3 && b == [b[0]] + rest && HeadLength(b) == 0 && Step(IDLE, b[0]) == Fed(d, [])
    requires d.needed > 0 && Step(d, rest[0]).Fed?
    ensures Feed(Step(d, rest[0]).decoder, rest[1..]).Malformed? || Finish(Feed(Step(d, rest[0]).decoder, rest[1..])).None?
    ensures d.needed > 1
  {
    hide Units, HeadPoint;
    assert b[1] == rest[0] && b[2] == rest[1];
    var f := Step(d, rest[0]);
    assert d.needed > 1;
    var g := Step(f.decoder, rest[1]);
    if g.Fed? {
      assert d.needed == 3;
      if |rest| >= 3 {
        assert b[3] == rest[2] && |b| >= 4;
        assert Step(g.decoder, rest[2]).Malformed?;
        assert rest[1..][1..][0] == rest[2];
      }
    }
  }

  /** Fed in one piece, the decoder gives the text of the grammar, or refuses with it. */
  lemma {:induction false} DecoderAgrees(b: seq<Byte>)
    ensures Finish(Feed(IDLE, b)) == Whole(b)
    decreases |b|
  {
    if b != [] {
      var n := HeadLength(b);
      if n == 0 {
        FeedNoHead(b);
      } else {
        FeedHead(b);
        assert b == b[..n] + b[n..];
        FeedConcat(IDLE, b[..n], b[n..]);
        DecoderAgrees(b[n..]);
      }
    }
  }

  /** Between one and three bytes stand behind each UTF-16 unit of a valid text. */
  lemma {:induction false} WholeLength(b: seq<Byte>)
    requires Whole(b).Some?
    ensures |Whole(b).value| <= |b| <= 3 * |Whole(b).value|
    decreases |b|
  {
    if b != [] {
      WholeLength(b[HeadLength(b)..]);
    }
  }

  // ---- the encoding ----

  /** A Unicode scalar value: any character number but the surrogates. */
  predicate Scalar(c: nat) {
    c <= 0x10FFFF && !(0xD800 <= c <= 0xDFFF)
  }

  /** Section 3 of RFC 3629. */
  function CodeOf(c: nat): (b: seq<Byte>)
    requires Scalar(c)
    ensures 1 <= |b| <= 4
  {
    if c <= 0x7F then [c]
    else if c <= 0x7FF then [0xC0 + c / 0x40, 0x80 + c % 0x40]
    else if c <= 0xFFFF then [0xE0 + c / 0x1000, 0x80 + c / 0x40 % 0x40, 0x80 + c % 0x40]
    else [0xF0 + c / 0x40000, 0x80 + c / 0x1000 % 0x40, 0x80 + c / 0x40 % 0x40, 0x80 + c % 0x40]
  }

  /** UTF-16 by what its units stand for: one unit its own number, or a high and a low
      surrogate with ten bits each. */
  ghost predicate Stands(u: seq<Unit>, c: nat) {
    || (|u| == 1 && u[0] == c)
    || (|u| == 2 && 0xD800 <= u[0] <= 0xDBFF && 0xDC00 <= u[1] <= 0xDFFF &&
        c == 0x10000 + (u[0] as int - 0xD800) * 0x400 + (u[1] as int - 0xDC00))
  }

  /** `b` encodes the characters that the units of `t` stand for. */
  ghost predicate Encodes(b: seq<Byte>, t: seq<Unit>, cs: seq<nat>)
    decreases |cs|
  {
    if cs == [] then b == [] && t == []
    else
      && Scalar(cs[0]) && CodeOf(cs[0]) <= b
      && exists u :: u <= t && Stands(u, cs[0]) && Encodes(b[|CodeOf(cs[0])|..], t[|u|..], cs[1..])
  }

  lemma UnitsStand(c: nat, u: seq<Unit>)
    requires Scalar(c)
    ensures Stands(u, c) <==> u == Units(c)
  {
    if Stands(u, c) && |u| == 2 {
      assert c - 0x10000 == (u[0] as int - 0xD800) * 0x400 + (u[1] as int - 0xDC00);
    }
  }

  /** The digits of a number to the base 64. */
  lemma Digits64(a: nat, x: nat, y: nat)
    requires x < 0x40 && y < 0x40
    ensures var c := (a * 0x40 + x) * 0x40 + y;
            c % 0x40 == y && c / 0x40 == a * 0x40 + x && c / 0x40 % 0x40 == x && c / 0x1000 == a
  {
    var c := (a * 0x40 + x) * 0x40 + y;
    assert c / 0x1000 == c / 0x40 / 0x40;
  }

  lemma Digits64Back(c: nat)
    ensures c == (c / 0x1000 * 0x40 + c / 0x40 % 0x40) * 0x40 + c % 0x40
    ensures c / 0x1000 == c / 0x40000 * 0x40 + c / 0x1000 % 0x40
  {
    assert c / 0x1000 == c / 0x40 / 0x40;
    assert c / 0x40000 == c / 0x1000 / 0x40;
  }

  lemma HeadIsCoded(b: seq<Byte>)
    requires HeadLength(b) > 0
    ensures Scalar(HeadPoint(b)) && CodeOf(HeadPoint(b)) == b[..HeadLength(b)]
  {
    if b[0] <= 0x7F {
    } else if Two(b) {
      Digits64(0, b[0] as int - 0xC0, Low(b[1]));
    } else if Three(b) {
      ThreeCoded(b);
    } else {
      FourCoded(b);
    }
  }

  lemma ThreeCoded(b: seq<Byte>)
    requires HeadLength(b) == 3
    ensures Scalar(HeadPoint(b)) && CodeOf(HeadPoint(b)) == b[..3]
  {
    Digits64(b[0] as int - 0xE0, Low(b[1]), Low(b[2]));
  }

  lemma FourCoded(b: seq<Byte>)
    requires HeadLength(b) == 4
    ensures Scalar(HeadPoint(b)) && CodeOf(HeadPoint(b)) == b[..4]
  {
    var h := (b[0] as int - 0xF0) * 0x40 + Low(b[1]);
    Digits64(h, Low(b[2]), Low(b[3]));
    assert HeadPoint(b) / 0x40000 == h / 0x40;
  }

  lemma CodedIsHead(b: seq<Byte>, c: nat)
    requires Scalar(c) && CodeOf(c) <= b
    ensures HeadLength(b) == |CodeOf(c)| && HeadPoint(b) == c
  {
    Digits64Back(c);
    var code := CodeOf(c);
    assert forall i :: 0 <= i < |code| ==> b[i] == code[i];
  }

  /** A buffer has a text exactly when it encodes scalar values, and they are its text. */
  lemma {:induction false} WholeExactly(b: seq<Byte>, t: seq<Unit>)
    ensures Whole(b) == Some(t) <==> exists cs :: Encodes(b, t, cs)
    decreases |b|
  {
    if Whole(b) == Some(t) {
      var cs := WholeEncodes(b);
    }
    forall cs | Encodes(b, t, cs) ensures Whole(b) == Some(t) {
      EncodesWhole(b, t, cs);
    }
  }

  lemma {:induction false} WholeEncodes(b: seq<Byte>) returns (cs: seq<nat>)
    requires Whole(b).Some?
    ensures Encodes(b, Whole(b).value, cs)
    decreases |b|
  {
    hide HeadLength, HeadPoint, Units, CodeOf, Scalar, Stands;
    if b == [] {
      cs := [];
    } else {
      var n, c := HeadLength(b), HeadPoint(b);
      HeadIsCoded(b);
      UnitsStand(c, Units(c));
      var rest := WholeEncodes(b[n..]);
      cs := [c] + rest;
      assert cs[1..] == rest;
      assert Whole(b).value[|Units(c)|..] == Whole(b[n..]).value;
    }
  }

  lemma {:induction false} EncodesWhole(b: seq<Byte>, t: seq<Unit>, cs: seq<nat>)
    requires Encodes(b, t, cs)
    ensures Whole(b) == Some(t)
    decreases |cs|
  {
    hide HeadLength, HeadPoint, Units, CodeOf, Scalar, Stands;
    if cs != [] {
      var c := cs[0];
      var n := |CodeOf(c)|;
      var u :| u <= t && Stands(u, c) && Encodes(b[n..], t[|u|..], cs[1..]);
      UnitsStand(c, u);
      CodedIsHead(b, c);
      EncodesWhole(b[n..], t[|u|..], cs[1..]);
      assert t == u + t[|u|..];
    }
  }
}
