/** The bounded reader of src/cli.ts: chunks of a stream, cut into slices, decoded strictly
    and refused as early as possible, against decoding the whole buffer and measuring it. */
module BoundedReader {
  import opened Basics
  import opened Utf8

  const SLICE := 4096

  datatype Outcome = Text(text: seq<Unit>) | InvalidUtf8 | TooLarge | Unreadable

  /** At most one trailing newline, LF or CR LF, is removed. */
  function Strip(t: seq<Unit>): (r: seq<Unit>) {
    if |t| >= 2 && t[|t| - 2] == 0x0D && t[|t| - 1] == 0x0A then t[..|t| - 2]
    else if |t| >= 1 && t[|t| - 1] == 0x0A then t[..|t| - 1]
    else t
  }

  function Flat(chunks: seq<seq<Byte>>): (b: seq<Byte>) {
    if chunks == [] then [] else Flat(chunks[..|chunks| - 1]) + chunks[|chunks| - 1]
  }

  /** `r` is `t` without its one trailing newline, CR LF or LF alone, if it ends in one. */
  ghost predicate Stripped(t: seq<Unit>, r: seq<Unit>) {
    || t == r + [0x0D, 0x0A]
    || (t == r + [0x0A] && (r != [] ==> r[|r| - 1] != 0x0D))
    || (t == r && (t != [] ==> t[|t| - 1] != 0x0A))
  }

  lemma StripExactly(t: seq<Unit>, r: seq<Unit>)
    ensures Stripped(t, r) <==> r == Strip(t)
  {
    if |t| >= 2 && t[|t| - 2] == 0x0D && t[|t| - 1] == 0x0A {
      assert t == t[..|t| - 2] + [0x0D, 0x0A];
    } else if |t| >= 1 && t[|t| - 1] == 0x0A {
      assert t == t[..|t| - 1] + [0x0A];
    }
  }

  lemma StrippedOnce(t: seq<Unit>)
    ensures forall r :: Stripped(t, r) <==> r == Strip(t)
  {
    forall r ensures Stripped(t, r) <==> r == Strip(t) {
      StripExactly(t, r);
    }
  }

  /** What the reader is for: valid UTF-8 whose text fits once stripped. */
  ghost predicate Acceptable(b: seq<Byte>, maxChars: nat) {
    Whole(b).Some? && exists r :: Stripped(Whole(b).value, r) && |r| <= maxChars
  }

  lemma FlatSnoc(chunks: seq<seq<Byte>>, i: nat)
    requires i < |chunks|
    ensures Flat(chunks[..i + 1]) == Flat(chunks[..i]) + chunks[i]
  {
    assert chunks[..i + 1][..i] == chunks[..i];
  }

  lemma {:induction false} FlatPrefix(chunks: seq<seq<Byte>>, i: nat) returns (more: seq<Byte>)
    requires i <= |chunks|
    ensures Flat(chunks) == Flat(chunks[..i]) + more
    decreases |chunks| - i
  {
    if i == |chunks| {
      assert chunks[..i] == chunks;
      more := [];
    } else {
      FlatSnoc(chunks, i);
      var rest := FlatPrefix(chunks, i + 1);
      more := chunks[i] + rest;
    }
  }

  /** What a prefix already shows about the whole buffer. */
  lemma PrefixTells(read: seq<Byte>, more: seq<Byte>)
    ensures Feed(IDLE, read).Malformed? ==> Whole(read + more).None?
    ensures Feed(IDLE, read).Fed? && Whole(read + more).Some? ==>
              |Feed(IDLE, read).text| <= |Whole(read + more).value|
  {
    FeedConcat(IDLE, read, more);
    DecoderAgrees(read + more);
  }

  /** Text in range of the cap never needs more bytes than the cap, nor more units. */
  lemma AcceptableIsShort(b: seq<Byte>, maxChars: nat)
    requires Acceptable(b, maxChars)
    ensures |b| <= (maxChars + 2) * 4 && |Whole(b).value| <= maxChars + 2
  {
    WholeLength(b);
  }

  datatype Progress = Grown(decoder: Decoder, decoded: seq<Unit>) | Stopped(why: Outcome)

  /** The inner loop: decode one chunk in slices, never letting the text pass the limit. */
  method DecodeChunk(decoder: Decoder, decoded: seq<Unit>, chunk: seq<Byte>, maxChars: nat) returns (p: Progress)
    requires |decoded| <= maxChars + 2
    ensures p.Grown? ==> |p.decoded| <= maxChars + 2
    ensures p.Grown? ==> exists text :: Feed(decoder, chunk) == Fed(p.decoder, text) && p.decoded == decoded + text
    ensures p.Stopped? ==> p.why == InvalidUtf8 || p.why == TooLarge
    ensures p.Stopped? ==> exists n :: 0 <= n <= |chunk| && StopsAt(decoder, decoded, chunk[..n], maxChars, p.why)
  {
    var d, text := decoder, decoded;
    ghost var grown: seq<Unit> := [];
    var offset := 0;
    while offset < |chunk|
      invariant 0 <= offset <= |chunk|
      invariant |text| <= maxChars + 2 && text == decoded + grown
      invariant Feed(decoder, chunk[..offset]) == Fed(d, grown)
    {
      var end := if offset + SLICE <= |chunk| then offset + SLICE else |chunk|;
      var slice := chunk[offset..end];
      var f := Feed(d, slice);
      assert chunk[..end] == chunk[..offset] + slice;
      FeedConcat(decoder, chunk[..offset], slice);
      if f.Malformed? {
        assert StopsAt(decoder, decoded, chunk[..end], maxChars, InvalidUtf8);
        return Stopped(InvalidUtf8);
      }
      if |text| + |f.text| > maxChars + 2 {
        assert StopsAt(decoder, decoded, chunk[..end], maxChars, TooLarge);
        return Stopped(TooLarge);
      }
      assert decoded + grown + f.text == decoded + (grown + f.text);
      text := text + f.text;
      grown := grown + f.text;
      d := f.decoder;
      offset := end;
    }
    assert chunk[..|chunk|] == chunk;
    p := Grown(d, text);
  }

  /** The bytes fed so far are malformed, or their text is over the limit. */
  ghost predicate StopsAt(decoder: Decoder, decoded: seq<Unit>, fed: seq<Byte>, maxChars: nat, why: Outcome) {
    var f := Feed(decoder, fed);
    if why == InvalidUtf8 then f.Malformed?
    else why == TooLarge && f.Fed? && |decoded| + |f.text| > maxChars + 2
  }

  /** A stop inside a chunk condemns every buffer that starts with what was read. */
  lemma StopCondemns(read: seq<Byte>, decoder: Decoder, decoded: seq<Unit>, fed: seq<Byte>, more: seq<Byte>,
                     maxChars: nat, why: Outcome)
    requires Feed(IDLE, read) == Fed(decoder, decoded) && StopsAt(decoder, decoded, fed, maxChars, why)
    ensures !Acceptable(read + fed + more, maxChars)
    ensures why == InvalidUtf8 ==> Whole(read + fed + more).None?
  {
    FeedConcat(IDLE, read, fed);
    PrefixTells(read + fed, more);
    if Acceptable(read + fed + more, maxChars) {
      AcceptableIsShort(read + fed + more, maxChars);
    }
  }

  lemma NothingRead(chunks: seq<seq<Byte>>)
    ensures Flat(chunks[..0]) == [] && Feed(IDLE, []) == Fed(IDLE, [])
  {
  }

  /** `broken` says that the stream fails after its last chunk instead of ending. */
  method ReadBounded(chunks: seq<seq<Byte>>, broken: bool, maxChars: nat) returns (r: Outcome)
    ensures r.Text? <==> !broken && Acceptable(Flat(chunks), maxChars)
    ensures r.Text? ==> Stripped(Whole(Flat(chunks)).value, r.text)
    ensures r.InvalidUtf8? ==> Whole(Flat(chunks)).None?
    ensures r.TooLarge? ==> !Acceptable(Flat(chunks), maxChars)
    ensures r.Unreadable? ==> broken
  {
    hide Feed, Whole, Stripped, Acceptable, StopsAt;
    NothingRead(chunks);
    var maxStreamBytes := (maxChars + 2) * 4;
    var totalBytes, decoder, decoded := 0, IDLE, [];
    for i := 0 to |chunks|
      invariant totalBytes == |Flat(chunks[..i])| <= maxStreamBytes
      invariant |decoded| <= maxChars + 2
      invariant Feed(IDLE, Flat(chunks[..i])) == Fed(decoder, decoded)
    {
      FlatSnoc(chunks, i);
      ghost var more := FlatPrefix(chunks, i + 1);
      if |chunks[i]| > maxStreamBytes || totalBytes + |chunks[i]| > maxStreamBytes {
        if Acceptable(Flat(chunks), maxChars) {
          AcceptableIsShort(Flat(chunks), maxChars);
        }
        return TooLarge;
      }
      totalBytes := totalBytes + |chunks[i]|;
      var p := DecodeChunk(decoder, decoded, chunks[i], maxChars);
      if p.Stopped? {
        ghost var n :| 0 <= n <= |chunks[i]| && StopsAt(decoder, decoded, chunks[i][..n], maxChars, p.why);
        StopCondemns(Flat(chunks[..i]), decoder, decoded, chunks[i][..n], chunks[i][n..] + more, maxChars, p.why);
        assert Flat(chunks) == Flat(chunks[..i]) + chunks[i][..n] + (chunks[i][n..] + more);
        return p.why;
      }
      FeedConcat(IDLE, Flat(chunks[..i]), chunks[i]);
      decoder, decoded := p.decoder, p.decoded;
    }
    assert chunks[..|chunks|] == chunks;
    if broken {
      return Unreadable;
    }
    r := Conclude(Flat(chunks), decoder, decoded, maxChars);
  }

  /** After the stream: the final flush, the last bound and the strip. */
  method Conclude(ghost read: seq<Byte>, decoder: Decoder, decoded: seq<Unit>, maxChars: nat) returns (r: Outcome)
    requires Feed(IDLE, read) == Fed(decoder, decoded) && |decoded| <= maxChars + 2
    ensures r.Text? <==> Acceptable(read, maxChars)
    ensures r.Text? ==> Stripped(Whole(read).value, r.text)
    ensures r.InvalidUtf8? ==> Whole(read).None?
    ensures r.TooLarge? ==> !Acceptable(read, maxChars)
    ensures !r.Unreadable?
  {
    DecoderAgrees(read);
    if decoder.needed > 0 {
      return InvalidUtf8;
    }
    var stripped := Strip(decoded);
    StrippedOnce(decoded);
    if |stripped| > maxChars {
      return TooLarge;
    }
    r := Text(stripped);
  }
}
