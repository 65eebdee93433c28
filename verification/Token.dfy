/** Connection tokens: the printer of src/cloud/agent-connection-codec.ts and the scanner of
    src/cloud/agent-connection-token.ts, up to the checked body bytes. Text is ASCII. */
module Token {
  import opened Basics
  import opened Base32
  import opened Crc32

  const MARKER := "CSWARMA."

  datatype Refusal = MarkerMissing | ShapeInvalid | ChecksumInvalid
  datatype Result = Ok(body: seq<Byte>) | Refused(why: Refusal)

  // ---- characters ----

  predicate Space(c: char) {
    c == ' ' || '\t' <= c <= '\r'
  }

  predicate Format(c: char) {
    c == '*' || c == '_' || c == '\\' || c == '`'
  }

  predicate Noise(c: char) {
    Space(c) || Format(c)
  }

  predicate Terminator(c: char) {
    Space(c) || c == ')' || c == ']' || c == '>' || c == '\'' || c == '\"' || c == '`'
  }

  function Upper(c: char): (u: char) {
    if 'a' <= c <= 'z' then c - 'a' + 'A' else c
  }

  /** A character that survives `normalizeTokenCandidate`. */
  predicate Kept(c: char) {
    IsLetter(Upper(c)) || c == '.'
  }

  lemma NoiseIsDropped(c: char)
    requires Noise(c)
    ensures !Kept(c)
  {
  }

  /** `normalizeTokenCandidate`: upper case, letters of the alphabet and dots only. */
  function Normalize(s: string): (t: string) {
    if s == "" then ""
    else
      var rest := Normalize(s[..|s| - 1]);
      if Kept(s[|s| - 1]) then rest + [Upper(s[|s| - 1])] else rest
  }

  lemma {:induction false} NormalizeConcat(a: string, b: string)
    ensures Normalize(a + b) == Normalize(a) + Normalize(b)
  {
    if b == "" {
      assert a + b == a;
    } else {
      assert (a + b)[..|a + b| - 1] == a + b[..|b| - 1];
      NormalizeConcat(a, b[..|b| - 1]);
    }
  }

  lemma NormalizeSnoc(s: string, i: nat)
    requires i < |s|
    ensures Normalize(s[..i + 1]) == Normalize(s[..i]) + if Kept(s[i]) then [Upper(s[i])] else ""
  {
    assert s[..i + 1][..i] == s[..i];
  }

  // ---- printing ----

  function Printed(b: seq<Byte>): (t: string) {
    MARKER + Encoded(b) + "." + Encoded(CrcBytes(Crc(b)))
  }

  method EncodeToken(bytes: seq<Byte>) returns (t: string)
    ensures t == Printed(bytes)
  {
    var crc := Crc32.Crc32(bytes);
    var body := Encode(bytes);
    var check := Encode(CrcBytes(crc));
    t := MARKER + body + "." + check;
  }

  // ---- the marker ----

  /** Match the rest of the marker, from its character `k` on, at position `i`. */
  function MatchMarker(s: string, i: nat, k: nat): (end: Option<nat>)
    requires i <= |s| && k <= 8
    ensures end.Some? ==> i <= end.value <= |s|
    decreases |s| - i
  {
    if k == 8 then Some(i)
    else if i == |s| then None
    else if Upper(s[i]) == MARKER[k] then MatchMarker(s, i + 1, k + 1)
    else if k > 0 && Noise(s[i]) then MatchMarker(s, i + 1, k)
    else None
  }

  /** The leftmost match at or after position `i`. */
  function FirstMarker(s: string, i: nat): (m: Option<(nat, nat)>)
    requires i <= |s|
    ensures m.Some? ==> i <= m.value.0 <= m.value.1 <= |s|
    decreases |s| - i
  {
    var here := MatchMarker(s, i, 0);
    if here.Some? then Some((i, here.value))
    else if i == |s| then None
    else FirstMarker(s, i + 1)
  }

  lemma MarkerNoise(c: char, k: nat)
    requires k < 8 && Noise(c)
    ensures Upper(c) != MARKER[k] && !Kept(c)
  {
  }

  lemma MarkerKept(c: char, k: nat)
    requires k < 8 && Upper(c) == MARKER[k]
    ensures Kept(c)
  {
  }

  /** What a match consumed is the marker, once normalized. */
  lemma {:induction false} MarkerSound(s: string, start: nat, i: nat, k: nat)
    requires start <= i <= |s| && k <= 8
    requires Normalize(s[start..i]) == MARKER[..k] && MatchMarker(s, i, k).Some?
    ensures Normalize(s[start..MatchMarker(s, i, k).value]) == MARKER
    decreases |s| - i
  {
    if k < 8 {
      assert s[start..i + 1] == s[start..][..i + 1 - start] && s[start..i] == s[start..][..i - start];
      NormalizeSnoc(s[start..], i - start);
      if Upper(s[i]) == MARKER[k] {
        MarkerKept(s[i], k);
        MarkerSound(s, start, i + 1, k + 1);
      } else {
        MarkerNoise(s[i], k);
        MarkerSound(s, start, i + 1, k);
      }
    }
  }

  // ---- the scanner ----

  datatype Scan = Scan(body: string, crc: string, inCrc: bool, extra: nat, stop: Option<nat>)

  const START := Scan("", "", false, 0, None)

  /** The first character at or after `j` that is not formatting. */
  function NextPlain(s: string, j: nat): (c: Option<char>)
    requires j <= |s|
    decreases |s| - j
  {
    if j == |s| then None else if Format(s[j]) then NextPlain(s, j + 1) else Some(s[j])
  }

  predicate Terminated(s: string, j: nat)
    requires j <= |s|
  {
    var next := NextPlain(s, j);
    next.None? || Terminator(next.value)
  }

  /** What the scanner does with the character at `i`. */
  function ScanStep(s: string, i: nat, st: Scan): (r: Scan)
    requires i < |s|
    ensures r.stop.Some? ==> r.stop == st.stop || r.stop == Some(i + 1)
  {
    if s[i] == '.' then
      if !st.inCrc then st.(inCrc := true) else st.(extra := st.extra + 1)
    else if !IsLetter(Upper(s[i])) || st.extra > 0 then st
    else if !st.inCrc then st.(body := st.body + [Upper(s[i])])
    else
      var crc := st.crc + [Upper(s[i])];
      if |crc| == 7 && Terminated(s, i + 1) then st.(crc := crc, stop := Some(i + 1))
      else st.(crc := crc)
  }

  function ScanFrom(s: string, i: nat, st: Scan): (r: Scan)
    requires i <= |s| && st.stop.None?
    ensures r.stop.Some? ==> i <= r.stop.value <= |s|
    decreases |s| - i
  {
    if i == |s| then st
    else
      var next := ScanStep(s, i, st);
      if next.stop.Some? then next else ScanFrom(s, i + 1, next)
  }

  /** Where the scanned text ends. */
  function End(s: string, r: Scan): nat {
    if r.stop.Some? then r.stop.value else |s|
  }

  /** The parts as normalized text. */
  function Render(st: Scan): string {
    st.body + if st.inCrc then "." + st.crc else ""
  }

  lemma ScanStepRenders(s: string, i: nat, st: Scan)
    requires i < |s| && st.extra == 0 && (!st.inCrc ==> st.crc == "")
    ensures var r := ScanStep(s, i, st);
            (r.extra == 0 ==> Render(r) == Render(st) + if Kept(s[i]) then [Upper(s[i])] else "")
            && (!r.inCrc ==> r.crc == "")
  {
  }

  lemma {:induction false} ScanSound(s: string, i: nat, st: Scan)
    requires i <= |s| && st.stop.None? && (!st.inCrc ==> st.crc == "")
    requires st.extra == 0 ==> Render(st) == Normalize(s[..i])
    ensures var r := ScanFrom(s, i, st);
            r.extra == 0 ==> i <= End(s, r) <= |s| && Render(r) == Normalize(s[..End(s, r)])
    decreases |s| - i
  {
    if i < |s| {
      NormalizeSnoc(s, i);
      var next := ScanStep(s, i, st);
      if st.extra == 0 {
        ScanStepRenders(s, i, st);
      }
      if next.stop.None? {
        ScanSound(s, i + 1, next);
      }
    } else {
      assert s[..i] == s;
    }
  }

  // ---- the checks on the scanned parts ----

  function Checked(body: string, crc: string): (r: Result)
  {
    if body == "" || crc == "" then Refused(ShapeInvalid)
    else if |crc| != 7 then Refused(ChecksumInvalid)
    else
      var bytes, want := Decoded(body), Decoded(crc);
      if |want| != 4 then Refused(ChecksumInvalid)
      else if Encoded(want) != crc || Encoded(bytes) != body then Refused(ChecksumInvalid)
      else if Crc(bytes) != WordOf(want) then Refused(ChecksumInvalid)
      else Ok(bytes)
  }

  function Outcome(raw: string): (r: Result)
  {
    var m := FirstMarker(raw, 0);
    if m.None? then Refused(MarkerMissing)
    else
      var st := ScanFrom(raw[m.value.1..], 0, START);
      if st.extra > 0 then Refused(ShapeInvalid) else Checked(st.body, st.crc)
  }

  lemma CrcBytesUnique(want: seq<Byte>, w: Word)
    requires |want| == 4
    ensures WordOf(want) == w <==> want == CrcBytes(w)
  {
    CrcBytesBits(w);
    OctetsInverse(want, []);
    OctetsInverse(CrcBytes(w), []);
    assert ByteBits(want) + [] == ByteBits(want);
    assert ByteBits(CrcBytes(w)) + [] == w;
  }

  /** The checks pass exactly for the two parts that the printer prints. */
  lemma CheckedExactly(body: string, crc: string, b: seq<Byte>)
    ensures Checked(body, crc) == Ok(b) <==> b != [] && body == Encoded(b) && crc == Encoded(CrcBytes(Crc(b)))
    ensures Checked(body, crc) == Refused(ShapeInvalid) <==> body == "" || crc == ""
    ensures Checked(body, crc) != Refused(MarkerMissing)
  {
    if b != [] && body == Encoded(b) && crc == Encoded(CrcBytes(Crc(b))) {
      DecodeEncode(b);
      DecodeEncode(CrcBytes(Crc(b)));
      CrcBytesUnique(CrcBytes(Crc(b)), Crc(b));
    }
    if Checked(body, crc) == Ok(b) {
      CrcBytesUnique(Decoded(crc), Crc(b));
      assert Encoded([]) == "";
    }
  }

  method Decode(raw: string) returns (r: Result)
    ensures r == Outcome(raw)
  {
    var start := 0;
    var found := MatchMarker(raw, 0, 0);
    while found.None? && start < |raw|
      invariant start <= |raw|
      invariant found == MatchMarker(raw, start, 0)
      invariant FirstMarker(raw, start) == FirstMarker(raw, 0)
    {
      start := start + 1;
      found := MatchMarker(raw, start, 0);
    }
    if found.None? {
      return Refused(MarkerMissing);
    }
    var st := ScanText(raw[found.value..]);
    if st.extra > 0 {
      return Refused(ShapeInvalid);
    }
    r := Check(st.body, st.crc);
  }

  method ScanText(s: string) returns (r: Scan)
    ensures r == ScanFrom(s, 0, START)
  {
    var body, crc, inCrc, extra := "", "", false, 0;
    var i := 0;
    while i < |s|
      invariant i <= |s|
      invariant ScanFrom(s, i, Scan(body, crc, inCrc, extra, None)) == ScanFrom(s, 0, START)
      decreases |s| - i
    {
      var ch := s[i];
      if ch == '.' {
        if !inCrc {
          inCrc := true;
        } else {
          extra := extra + 1;
        }
      } else if IsLetter(Upper(ch)) && extra == 0 {
        if !inCrc {
          body := body + [Upper(ch)];
        } else {
          crc := crc + [Upper(ch)];
          if |crc| == 7 {
            var j := i + 1;
            while j < |s| && Format(s[j])
              invariant i < j <= |s| && NextPlain(s, j) == NextPlain(s, i + 1)
            {
              j := j + 1;
            }
            if j == |s| || Terminator(s[j]) {
              return Scan(body, crc, inCrc, extra, Some(i + 1));
            }
          }
        }
      }
      i := i + 1;
    }
    r := Scan(body, crc, inCrc, extra, None);
  }

  method Check(body: string, crc: string) returns (r: Result)
    ensures r == Checked(body, crc)
  {
    if body == "" || crc == "" {
      return Refused(ShapeInvalid);
    }
    if |crc| != 7 {
      return Refused(ChecksumInvalid);
    }
    var bytes := Base32.Decode(body);
    var want := Base32.Decode(crc);
    if |want| != 4 {
      return Refused(ChecksumInvalid);
    }
    var wantAgain := Encode(want);
    var bodyAgain := Encode(bytes);
    if wantAgain != crc || bodyAgain != body {
      return Refused(ChecksumInvalid);
    }
    var got := Crc32.Crc32(bytes);
    if got != WordOf(want) {
      return Refused(ChecksumInvalid);
    }
    r := Ok(bytes);
  }
}
