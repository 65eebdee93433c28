/** What the connection-token scanner promises: it accepts nothing but printed tokens,
    ignores formatting noise and letter case, and refuses every one-letter change. */
module TokenLaws {
  import opened Basics
  import opened Bits
  import opened Base32
  import opened Crc32
  import opened Token

  /** Accepted text contains, once normalized, exactly what the printer prints for its body. */
  lemma AcceptedIsPrinted(raw: string) returns (i: nat, j: nat)
    requires Outcome(raw).Ok?
    ensures i <= j <= |raw| && Normalize(raw[i..j]) == Printed(Outcome(raw).body)
  {
    var m := FirstMarker(raw, 0).value;
    FirstMarkerMatches(raw, 0);
    assert raw[m.0..m.0] == "";
    MarkerSound(raw, m.0, m.0, 0);
    var end := ScannedIsPrinted(raw[m.1..], Outcome(raw).body);
    i, j := m.0, m.1 + end;
    PrintedStretch(raw, m.0, m.1, j, Outcome(raw).body);
  }

  lemma PrintedStretch(raw: string, i: nat, k: nat, j: nat, b: seq<Byte>)
    requires i <= k <= j <= |raw| && Normalize(raw[i..k]) == MARKER
    requires Normalize(raw[k..][..j - k]) == Encoded(b) + "." + Encoded(CrcBytes(Crc(b)))
    ensures Normalize(raw[i..j]) == Printed(b)
  {
    assert raw[i..j] == raw[i..k] + raw[k..][..j - k];
    NormalizeConcat(raw[i..k], raw[k..][..j - k]);
    TextAssociates(Encoded(b), Encoded(CrcBytes(Crc(b))));
  }

  lemma TextAssociates(body: string, crc: string)
    ensures MARKER + (body + "." + crc) == MARKER + body + "." + crc
  {
  }

  lemma ScannedIsPrinted(s: string, b: seq<Byte>) returns (end: nat)
    requires var st := ScanFrom(s, 0, START); st.extra == 0 && Checked(st.body, st.crc) == Ok(b)
    ensures end <= |s| && Normalize(s[..end]) == Encoded(b) + "." + Encoded(CrcBytes(Crc(b)))
  {
    var st := ScanFrom(s, 0, START);
    assert s[..0] == "";
    ScanSound(s, 0, START);
    CheckedExactly(st.body, st.crc, b);
    CrcSeen(s, 0, START);
    end := End(s, st);
  }

  lemma {:induction false} FirstMarkerMatches(s: string, i: nat)
    requires i <= |s| && FirstMarker(s, i).Some?
    ensures var m := FirstMarker(s, i).value; MatchMarker(s, m.0, 0) == Some(m.1)
    decreases |s| - i
  {
    if MatchMarker(s, i, 0).None? {
      FirstMarkerMatches(s, i + 1);
    }
  }

  lemma {:induction false} CrcSeen(s: string, i: nat, st: Scan)
    requires i <= |s| && st.stop.None? && (st.crc != "" ==> st.inCrc)
    ensures ScanFrom(s, i, st).crc != "" ==> ScanFrom(s, i, st).inCrc
    decreases |s| - i
  {
    if i < |s| {
      var next := ScanStep(s, i, st);
      if next.stop.None? {
        CrcSeen(s, i + 1, next);
      }
    }
  }

  // ---- noise ----

  /** Which characters are noise, which count, and which may end a token. */
  lemma Characters(c: char)
    ensures Noise(c) <==> c in " \t\n\U{B}\U{C}\r*_\\`"
    ensures Terminator(c) <==> c in " \t\n\U{B}\U{C}\r)]>'\"`"
    ensures Kept(c) <==> 'A' <= c <= 'Z' || 'a' <= c <= 'z' || '2' <= c <= '7' || c == '.'
    ensures Kept(c) ==> Upper(c) as int == c as int - if 'a' <= c <= 'z' then 32 else 0
  {
    assert forall x :: x in " \t\n\U{B}\U{C}\r" <==> Space(x);
  }

  /** `t` is `token` with noise inserted anywhere and the case of letters changed. */
  ghost predicate Dressed(t: string, token: string) {
    (forall i :: 0 <= i < |t| ==> Noise(t[i]) || Kept(t[i])) && Normalize(t) == token
  }

  predicate Ends(suffix: string) {
    suffix == "" || (Terminator(suffix[0]) && !Format(suffix[0]))
  }

  predicate AllLetters(s: string) {
    forall i :: 0 <= i < |s| ==> IsLetter(s[i])
  }

  /** The stretch of `s` from `p` to `n` holds only noise and the text `x`. */
  ghost predicate Spells(s: string, p: nat, n: nat, x: string)
    requires p <= n <= |s|
  {
    Dressed(s[p..n], x)
  }

  lemma SpellsSomething(s: string, p: nat, n: nat, x: string)
    requires p <= n <= |s| && Spells(s, p, n, x) && |x| > 0
    ensures p < n
  {
  }

  lemma SpellsHead(s: string, p: nat, n: nat, x: string)
    requires p < n <= |s| && Spells(s, p, n, x)
    ensures Noise(s[p]) && !Kept(s[p]) ==> Spells(s, p + 1, n, x)
    ensures Kept(s[p]) ==> x != "" && x[0] == Upper(s[p]) && Spells(s, p + 1, n, x[1..])
    ensures Noise(s[p]) || Kept(s[p])
  {
    var t := s[p..n];
    assert t == [t[0]] + s[p + 1..n];
    assert t[0] == s[p];
    NormalizeConcat([t[0]], s[p + 1..n]);
    assert [t[0]][..0] == "";
    var u := s[p + 1..n];
    forall i | 0 <= i < |u| ensures Noise(u[i]) || Kept(u[i]) {
      assert u[i] == t[i + 1];
    }
    assert Normalize([t[0]]) == if Kept(s[p]) then [Upper(s[p])] else "";
  }

  lemma {:induction false} SpellsMarker(s: string, p: nat, n: nat, k: nat, rest: string)
    requires p <= n <= |s| && 1 <= k <= 8 && Spells(s, p, n, MARKER[k..] + rest)
    ensures MatchMarker(s, p, k).Some?
    ensures var q := MatchMarker(s, p, k).value; q <= n && Spells(s, q, n, rest)
    decreases n - p
  {
    if k == 8 {
      assert MARKER[k..] + rest == rest;
    } else {
      SpellsSomething(s, p, n, MARKER[k..] + rest);
      SpellsHead(s, p, n, MARKER[k..] + rest);
      if Noise(s[p]) {
        MarkerNoise(s[p], k);
        SpellsMarker(s, p + 1, n, k, rest);
      } else {
        assert (MARKER[k..] + rest)[1..] == MARKER[k + 1..] + rest;
        SpellsMarker(s, p + 1, n, k + 1, rest);
      }
    }
  }

  lemma {:induction false} SpellsFirstMarker(s: string, p: nat, n: nat, rest: string) returns (q: nat)
    requires p <= n <= |s| && Spells(s, p, n, MARKER + rest)
    ensures FirstMarker(s, p).Some? && FirstMarker(s, p).value.1 == q
    ensures q <= n && Spells(s, q, n, rest)
    decreases n - p
  {
    SpellsSomething(s, p, n, MARKER + rest);
    SpellsHead(s, p, n, MARKER + rest);
    if Noise(s[p]) {
      MarkerNoise(s[p], 0);
      q := SpellsFirstMarker(s, p + 1, n, rest);
    } else {
      assert (MARKER + rest)[1..] == MARKER[1..] + rest;
      SpellsMarker(s, p + 1, n, 1, rest);
      q := MatchMarker(s, p + 1, 1).value;
    }
  }

  // ---- the marker ----

  /** A marker from `i` to `j`: from a C to a dot, with nothing but noise between its letters. */
  ghost predicate MarkerAt(s: string, i: nat, j: nat) {
    && i < j <= |s| && (s[i] == 'C' || s[i] == 'c') && s[j - 1] == '.'
    && Dressed(s[i..j], "CSWARMA.")
  }

  ghost predicate NoMarkerIn(s: string) {
    forall i: nat, j: nat :: !MarkerAt(s, i, j)
  }

  lemma {:induction false} MatchShape(s: string, i: nat, k: nat)
    requires i <= |s| && k <= 8 && MatchMarker(s, i, k).Some?
    ensures var q := MatchMarker(s, i, k).value;
            && (forall x :: i <= x < q ==> Noise(s[x]) || Kept(s[x]))
            && (k < 8 ==> i < q && s[q - 1] == '.')
    decreases |s| - i
  {
    if k < 8 {
      if Upper(s[i]) == MARKER[k] {
        MarkerKept(s[i], k);
        MatchShape(s, i + 1, k + 1);
      } else {
        MatchShape(s, i + 1, k);
      }
    }
  }

  /** The matcher finds exactly the markers. */
  lemma MatchExactly(s: string, i: nat, j: nat)
    requires i <= |s|
    ensures MatchMarker(s, i, 0) == Some(j) <==> MarkerAt(s, i, j)
  {
    if MatchMarker(s, i, 0) == Some(j) {
      MatchShape(s, i, 0);
      assert s[i..i] == "";
      MarkerSound(s, i, i, 0);
      assert forall x :: 0 <= x < j - i ==> s[i..j][x] == s[i + x];
    }
    if MarkerAt(s, i, j) {
      MarkerIsMatched(s, i, j);
    }
  }

  lemma MarkerIsMatched(s: string, i: nat, j: nat)
    requires MarkerAt(s, i, j)
    ensures i < |s| && MatchMarker(s, i, 0) == Some(j)
  {
    hide Dressed, Normalize;
    SpellsHead(s, i, j, MARKER);
    assert Spells(s, i, j, MARKER) && MARKER[1..] + "" == MARKER[1..];
    SpellsMarker(s, i + 1, j, 1, "");
    var q := MatchMarker(s, i + 1, 1).value;
    if q < j {
      DotIsSpelled(s, q, j);
    }
  }

  lemma DotIsSpelled(s: string, q: nat, j: nat)
    requires q < j <= |s| && s[j - 1] == '.'
    ensures !Spells(s, q, j, "")
  {
    assert s[q..j][..j - q - 1] + ['.'] == s[q..j];
    assert Kept('.');
  }

  /** The search returns the marker that starts first, and fails only where there is none. */
  lemma {:induction false} LeastMarker(s: string, i: nat)
    requires i <= |s|
    ensures match FirstMarker(s, i)
            case Some(m) => i <= m.0 && MarkerAt(s, m.0, m.1) && forall a: nat, b: nat :: i <= a < m.0 ==> !MarkerAt(s, a, b)
            case None => forall a: nat, b: nat :: i <= a ==> !MarkerAt(s, a, b)
    decreases |s| - i
  {
    hide MarkerAt, MatchMarker;
    forall b: nat ensures MatchMarker(s, i, 0) == Some(b) <==> MarkerAt(s, i, b) {
      MatchExactly(s, i, b);
    }
    if MatchMarker(s, i, 0).None? {
      if i < |s| {
        LeastMarker(s, i + 1);
      } else {
        forall a: nat, b: nat | i <= a ensures !MarkerAt(s, a, b) {
          MarkerInside(s, a, b);
        }
      }
    }
  }

  lemma MarkerInside(s: string, a: nat, b: nat)
    ensures MarkerAt(s, a, b) ==> a < b <= |s|
  {
  }

  /** Text is refused for want of a marker exactly when no position of it starts one. */
  lemma MissingExactly(raw: string)
    ensures Outcome(raw) == Refused(MarkerMissing) <==> NoMarkerIn(raw)
  {
    hide MarkerAt, ScanFrom;
    LeastMarker(raw, 0);
  }

  /** Text after which a marker begins never completes a marker begun before. */
  lemma {:induction false} MarkerCutOff(s: string, p: nat, n: nat, k: nat, rest: string)
    requires p <= n <= |s| && 1 <= k < 8 && Spells(s, p, n, MARKER + rest)
    ensures MatchMarker(s, p, k).None?
    decreases n - p
  {
    SpellsSomething(s, p, n, MARKER + rest);
    SpellsHead(s, p, n, MARKER + rest);
    if Noise(s[p]) {
      MarkerNoise(s[p], k);
      MarkerCutOff(s, p + 1, n, k, rest);
    }
  }

  lemma {:induction false} LeadUnmatched(lead: string, s: string, n: nat, rest: string, i: nat, k: nat)
    requires i <= |lead| <= n <= |s| && s[..|lead|] == lead && 1 <= k <= 8
    requires Spells(s, |lead|, n, MARKER + rest) && MatchMarker(lead, i, k).None?
    ensures MatchMarker(s, i, k).None?
    decreases |lead| - i
  {
    if i == |lead| {
      MarkerCutOff(s, i, n, k, rest);
    } else {
      assert s[i] == lead[i];
      if Upper(s[i]) == MARKER[k] {
        LeadUnmatched(lead, s, n, rest, i + 1, k + 1);
      } else if Noise(s[i]) {
        LeadUnmatched(lead, s, n, rest, i + 1, k);
      }
    }
  }

  lemma {:induction false} LeadSkipped(lead: string, s: string, n: nat, rest: string, i: nat)
    requires i <= |lead| <= n <= |s| && s[..|lead|] == lead && NoMarkerIn(lead)
    requires Spells(s, |lead|, n, MARKER + rest)
    ensures FirstMarker(s, i) == FirstMarker(s, |lead|)
    decreases |lead| - i
  {
    hide Spells;
    if i < |lead| {
      assert s[i] == lead[i];
      if MatchMarker(lead, i, 0).Some? {
        MatchExactly(lead, i, MatchMarker(lead, i, 0).value);
      }
      if Upper(s[i]) == MARKER[0] {
        LeadUnmatched(lead, s, n, rest, i + 1, 1);
      }
      LeadSkipped(lead, s, n, rest, i + 1);
    }
  }

  lemma {:induction false} TerminatedAfterNoise(s: string, j: nat, n: nat)
    requires j <= n <= |s| && Spells(s, j, n, "") && Ends(s[n..])
    ensures Terminated(s, j)
    decreases n - j
  {
    if j < n {
      SpellsHead(s, j, n, "");
      TerminatedAfterNoise(s, j + 1, n);
    }
  }

  /** Through the body and its dot. */
  lemma {:induction false} SpellsBody(s: string, i: nat, n: nat, st: Scan, body: string, crc: string) returns (j: nat)
    requires i <= n <= |s| && st.stop.None? && !st.inCrc && st.extra == 0
    requires AllLetters(body) && Spells(s, i, n, body + "." + crc)
    ensures j <= n && Spells(s, j, n, crc)
    ensures ScanFrom(s, i, st) == ScanFrom(s, j, st.(body := st.body + body, inCrc := true))
    decreases n - i
  {
    var x := body + "." + crc;
    SpellsSomething(s, i, n, x);
    SpellsHead(s, i, n, x);
    if Noise(s[i]) {
      NoiseIsDropped(s[i]);
      j := SpellsBody(s, i + 1, n, st, body, crc);
    } else if body == "" {
      assert x[1..] == crc;
      assert st.body + body == st.body;
      j := i + 1;
    } else {
      assert x[1..] == body[1..] + "." + crc;
      assert IsLetter(body[0]);
      assert st.body + body == (st.body + [Upper(s[i])]) + body[1..];
      j := SpellsBody(s, i + 1, n, st.(body := st.body + [Upper(s[i])]), body[1..], crc);
    }
  }

  /** Through the checksum, to its seventh letter. */
  lemma {:induction false} SpellsCrc(s: string, i: nat, n: nat, st: Scan, crc: string)
    requires i <= n <= |s| && st.stop.None? && st.inCrc && st.extra == 0
    requires AllLetters(crc) && 0 < |crc| && |st.crc| + |crc| == 7
    requires Spells(s, i, n, crc) && Ends(s[n..])
    ensures var r := ScanFrom(s, i, st); r.body == st.body && r.crc == st.crc + crc && r.extra == 0
    decreases n - i
  {
    SpellsSomething(s, i, n, crc);
    SpellsHead(s, i, n, crc);
    if Noise(s[i]) {
      NoiseIsDropped(s[i]);
      SpellsCrc(s, i + 1, n, st, crc);
    } else {
      assert IsLetter(crc[0]);
      if |crc| == 1 {
        assert crc[1..] == "";
        TerminatedAfterNoise(s, i + 1, n);
      } else {
        assert st.crc + crc == (st.crc + [Upper(s[i])]) + crc[1..];
        SpellsCrc(s, i + 1, n, st.(crc := st.crc + [Upper(s[i])]), crc[1..]);
      }
    }
  }

  /** Lead text in which no marker starts, a dressed-up token, then nothing or a terminator:
      the scanner comes down to the checks on the two parts. */
  lemma DressedOutcome(lead: string, t: string, suffix: string, body: string, crc: string)
    requires NoMarkerIn(lead)
    requires AllLetters(body) && AllLetters(crc) && |crc| == 7
    requires Dressed(t, MARKER + body + "." + crc) && Ends(suffix)
    ensures Outcome(lead + t + suffix) == Checked(body, crc)
  {
    var raw := lead + t + suffix;
    var n := |lead| + |t|;
    assert raw[|lead|..n] == t;
    assert MARKER + body + "." + crc == MARKER + (body + "." + crc);
    assert raw[..|lead|] == lead;
    LeadSkipped(lead, raw, n, body + "." + crc, 0);
    var q := SpellsFirstMarker(raw, |lead|, n, body + "." + crc);
    assert raw[n..] == suffix;
    DressedScan(raw, q, n, body, crc);
  }

  lemma DressedScan(raw: string, q: nat, n: nat, body: string, crc: string)
    requires q <= n <= |raw| && Spells(raw, q, n, body + "." + crc) && Ends(raw[n..])
    requires AllLetters(body) && AllLetters(crc) && |crc| == 7
    ensures var st := ScanFrom(raw[q..], 0, START); st.body == body && st.crc == crc && st.extra == 0
  {
    var s := raw[q..];
    assert s[0..n - q] == raw[q..n];
    assert s[n - q..] == raw[n..];
    var j := SpellsBody(s, 0, n - q, START, body, crc);
    SpellsCrc(s, j, n - q, START.(body := "" + body, inCrc := true), crc);
  }

  lemma ChecksumLength(w: Word)
    ensures |Encoded(CrcBytes(w))| == 7
  {
  }

  lemma EncodedLetters(b: seq<Byte>)
    ensures AllLetters(Encoded(b))
  {
  }

  /** Inserting whitespace, `*`, `_`, backslashes or backticks anywhere in a printed token,
      changing the case of its letters, putting any text in front in which no marker starts,
      and appending text that starts with a terminator leave the decoded body unchanged.
      Only the empty body does not come back. */
  lemma NoiseIgnored(lead: string, t: string, suffix: string, b: seq<Byte>)
    requires NoMarkerIn(lead)
    requires Dressed(t, Printed(b)) && Ends(suffix)
    ensures Outcome(lead + t + suffix) == if b == [] then Refused(ShapeInvalid) else Ok(b)
  {
    ChecksumLength(Crc(b));
    EncodedLetters(b);
    EncodedLetters(CrcBytes(Crc(b)));
    DressedOutcome(lead, t, suffix, Encoded(b), Encoded(CrcBytes(Crc(b))));
    CheckedExactly(Encoded(b), Encoded(CrcBytes(Crc(b))), b);
    if b == [] {
      assert Encoded(b) == "";
    }
  }

  lemma {:induction false} NormalizedStays(s: string)
    requires forall i :: 0 <= i < |s| ==> Kept(s[i]) && Upper(s[i]) == s[i]
    ensures Normalize(s) == s
  {
    if s != "" {
      NormalizedStays(s[..|s| - 1]);
    }
  }

  /** A clean token decodes to its body exactly when the body is not empty. */
  lemma RoundTrip(b: seq<Byte>)
    ensures Outcome(Printed(b)) == Ok(b) <==> b != []
  {
    ChecksumLength(Crc(b));
    EncodedLetters(b);
    EncodedLetters(CrcBytes(Crc(b)));
    CleanOutcome(Printed(b), Encoded(b), Encoded(CrcBytes(Crc(b))));
    CheckedExactly(Encoded(b), Encoded(CrcBytes(Crc(b))), b);
  }

  lemma TextIsNormal(body: string, crc: string)
    requires AllLetters(body) && AllLetters(crc)
    ensures var t := MARKER + body + "." + crc; forall i :: 0 <= i < |t| ==> Kept(t[i]) && Upper(t[i]) == t[i]
  {
    var t := MARKER + body + "." + crc;
    forall i | 0 <= i < |t| ensures Kept(t[i]) && Upper(t[i]) == t[i] {
      if i < 8 {
      } else if i < 8 + |body| {
        assert t[i] == body[i - 8];
      } else if i == 8 + |body| {
      } else {
        assert t[i] == crc[i - 9 - |body|];
      }
    }
  }

  // ---- text that runs on ----

  /** The scanner past the seventh letter of a checksum that no terminator follows. */
  lemma {:induction false} RunsOn(s: string, i: nat, st: Scan)
    requires i <= |s| && st.stop.None? && st.inCrc && st.extra == 0
    requires |st.crc| >= 7
    ensures var r := ScanFrom(s, i, st);
            && (r.extra > 0 <==> exists x :: i <= x < |s| && s[x] == '.')
            && r.body == st.body && st.crc <= r.crc
            && (r.crc == st.crc <== forall x :: i <= x < |s| ==> !Kept(s[x]))
            && (r.extra == 0 && (exists x :: i <= x < |s| && Kept(s[x])) ==> r.crc != st.crc)
    decreases |s| - i
  {
    if i < |s| {
      var next := ScanStep(s, i, st);
      if next.extra > 0 {
        ExtraStays(s, i + 1, next);
      } else {
        RunsOn(s, i + 1, next);
      }
    }
  }

  lemma {:induction false} ExtraStays(s: string, i: nat, st: Scan)
    requires i <= |s| && st.stop.None? && st.inCrc && st.extra > 0
    ensures ScanFrom(s, i, st).extra > 0
    ensures ScanFrom(s, i, st).body == st.body && ScanFrom(s, i, st).crc == st.crc
    decreases |s| - i
  {
    if i < |s| {
      ExtraStays(s, i + 1, ScanStep(s, i, st));
    }
  }

  /** Formatting alone, then nothing or a terminator: the token is over. */
  predicate OverAt(suffix: string, m: nat) {
    && m <= |suffix| && (forall x :: 0 <= x < m ==> suffix[x] in "*_\\`")
    && (m < |suffix| ==> Space(suffix[m]) || suffix[m] in ")]>'\"")
  }

  lemma {:induction false} TerminatedMeans(s: string, j: nat)
    requires j <= |s|
    ensures Terminated(s, j) <==> exists m :: OverAt(s[j..], m)
    decreases |s| - j
  {
    var t := s[j..];
    if t == "" || !Format(t[0]) {
      assert Terminated(s, j) ==> OverAt(t, 0);
    } else {
      TerminatedMeans(s, j + 1);
      var u := s[j + 1..];
      assert t == [t[0]] + u;
      forall m: nat | OverAt(u, m) ensures OverAt(t, m + 1) {
        assert forall x :: 0 < x < m + 1 ==> t[x] == u[x - 1];
      }
      forall m: nat | OverAt(t, m) ensures m > 0 && OverAt(u, m - 1) {
        assert forall x :: 0 <= x < m - 1 ==> u[x] == t[x + 1];
      }
    }
  }

  /** Through the checksum, to the letter that ends the token. */
  lemma {:induction false} SpellsCrcTo(s: string, i: nat, n: nat, st: Scan, crc: string)
    requires i < n <= |s| && Kept(s[n - 1]) && st.stop.None? && st.inCrc && st.extra == 0
    requires AllLetters(crc) && |st.crc| + |crc| == 7 && Spells(s, i, n, crc)
    ensures var full := st.(crc := st.crc + crc);
            ScanFrom(s, i, st) == if Terminated(s, n) then full.(stop := Some(n)) else ScanFrom(s, n, full)
    decreases n - i
  {
    SpellsHead(s, i, n, crc);
    if Noise(s[i]) {
      NoiseIsDropped(s[i]);
      SpellsCrcTo(s, i + 1, n, st, crc);
    } else {
      assert IsLetter(crc[0]);
      var next := st.(crc := st.crc + [Upper(s[i])]);
      assert st.crc + crc == next.crc + crc[1..];
      if i + 1 < n {
        LastIsSpelled(s, i + 1, n, crc[1..]);
        SpellsCrcTo(s, i + 1, n, next, crc[1..]);
      } else {
        assert s[n..n] == "" && Normalize("") == "";
        assert crc[1..] == "" && |next.crc| == 7;
        assert next.crc == st.crc + crc;
        assert ScanStep(s, i, st) == if Terminated(s, n) then next.(stop := Some(n)) else next;
      }
    }
  }

  lemma LastIsSpelled(s: string, q: nat, j: nat, x: string)
    requires q < j <= |s| && Kept(s[j - 1]) && Spells(s, q, j, x)
    ensures x != ""
  {
    assert s[q..j][..j - q - 1] + [s[j - 1]] == s[q..j];
  }

  /** What the scanner is left with, for any text after the token. */
  ghost predicate Parts(st: Scan, body: string, crc: string, suffix: string) {
    && st.body == body && crc <= st.crc
    && (st.extra > 0 <==> !(exists m :: OverAt(suffix, m)) && '.' in suffix)
    && (st.extra == 0 ==>
          (st.crc != crc <==> !(exists m :: OverAt(suffix, m)) && exists x :: 0 <= x < |suffix| && Kept(suffix[x])))
  }

  lemma DressedParts(lead: string, t: string, suffix: string, body: string, crc: string) returns (st: Scan)
    requires NoMarkerIn(lead) && t != "" && Kept(t[|t| - 1])
    requires AllLetters(body) && AllLetters(crc) && |crc| == 7
    requires Dressed(t, MARKER + body + "." + crc)
    ensures Outcome(lead + t + suffix) == if st.extra > 0 then Refused(ShapeInvalid) else Checked(st.body, st.crc)
    ensures Parts(st, body, crc, suffix)
  {
    hide Checked, NoMarkerIn, OverAt, Parts, ScanFrom, Terminated;
    var raw := lead + t + suffix;
    var n := |lead| + |t|;
    assert raw[|lead|..n] == t;
    assert MARKER + body + "." + crc == MARKER + (body + "." + crc);
    assert raw[..|lead|] == lead;
    LeadSkipped(lead, raw, n, body + "." + crc, 0);
    var q := SpellsFirstMarker(raw, |lead|, n, body + "." + crc);
    var s := raw[q..];
    assert s[0..n - q] == raw[q..n];
    assert s[n - q..] == suffix;
    st := ScanFrom(s, 0, START);
    PartsScanned(s, n - q, body, crc);
  }

  lemma PartsScanned(s: string, n: nat, body: string, crc: string)
    requires 0 < n <= |s| && Kept(s[n - 1])
    requires AllLetters(body) && AllLetters(crc) && |crc| == 7 && Spells(s, 0, n, body + "." + crc)
    ensures Parts(ScanFrom(s, 0, START), body, crc, s[n..])
  {
    hide ScanFrom, Terminated, OverAt, Spells, Terminator;
    var j := SpellsBody(s, 0, n, START, body, crc);
    var mid := START.(body := "" + body, inCrc := true);
    assert "" + body == body && "" + crc == crc;
    if j == n {
      assert Spells(s, n, n, crc);
      SpellsSomething(s, n, n, crc);
    }
    SpellsCrcTo(s, j, n, mid, crc);
    TerminatedMeans(s, n);
    var full := mid.(crc := crc);
    if !Terminated(s, n) {
      RunsOn(s, n, full);
      assert forall x :: 0 <= x < |s| - n ==> s[n..][x] == s[n + x];
      assert forall x :: n <= x < |s| ==> s[x] == s[n..][x - n];
    }
  }

  lemma OutcomeOfParts(st: Scan, body: string, crc: string, suffix: string)
    requires Parts(st, body, crc, suffix) && body != "" && |crc| == 7
    ensures st.extra == 0 && st.crc != crc ==> Checked(st.body, st.crc) == Refused(ChecksumInvalid)
  {
  }

  /** What follows the last letter of a dressed-up token decides: it is over where only
      formatting stands before the end of the text or a terminator. Where it runs on, a dot
      is a wrong shape, a letter a wrong checksum, and anything else changes nothing. */
  lemma AfterToken(lead: string, t: string, suffix: string, b: seq<Byte>)
    requires NoMarkerIn(lead) && t != "" && Dressed(t, Printed(b)) && Kept(t[|t| - 1])
    ensures Outcome(lead + t + suffix) ==
            if b == [] then Refused(ShapeInvalid)
            else if exists m :: OverAt(suffix, m) then Ok(b)
            else if '.' in suffix then Refused(ShapeInvalid)
            else if exists x :: 0 <= x < |suffix| && Kept(suffix[x]) then Refused(ChecksumInvalid)
            else Ok(b)
  {
    hide Outcome, Encoded, Crc, CrcBytes, Dressed, OverAt, Checked, NoMarkerIn, Kept;
    var body, crc := Encoded(b), Encoded(CrcBytes(Crc(b)));
    ChecksumLength(Crc(b));
    EncodedLetters(b);
    EncodedLetters(CrcBytes(Crc(b)));
    CheckedExactly(body, crc, b);
    var st := DressedParts(lead, t, suffix, body, crc);
    if b == [] {
      EmptyRefused(st.crc);
    } else {
      BodyNotEmpty(b);
      OutcomeOfParts(st, body, crc, suffix);
    }
  }

  lemma EmptyRefused(crc: string)
    ensures Encoded([]) == "" && Checked("", crc) == Refused(ShapeInvalid)
  {
  }

  lemma BodyNotEmpty(b: seq<Byte>)
    requires b != []
    ensures Encoded(b) != ""
  {
    EmptyRefused("");
    if Encoded(b) == "" {
      EncodedInjective(b, []);
    }
  }

  // ---- one changed letter ----

  lemma {:induction false} DigitBit(ds: seq<Quintet>, k: nat, j: nat)
    requires k < |ds| && j < 5
    ensures DigitBits(ds)[5 * k + j] == BitsOf(ds[k], 5)[j]
  {
    if k < |ds| - 1 {
      DigitBit(ds[..|ds| - 1], k, j);
    }
  }

  lemma {:induction false} ByteBit(b: seq<Byte>, k: nat, j: nat)
    requires k < |b| && j < 8
    ensures ByteBits(b)[8 * k + j] == BitsOf(b[k], 8)[j]
  {
    if k < |b| - 1 {
      ByteBit(b[..|b| - 1], k, j);
    }
  }

  /** The bits of a body are the first bits of its letters. */
  lemma BodyBits(b: seq<Byte>)
    ensures ByteBits(b) == DigitBits(Digits(Encoded(b)))[..8 * |b|]
  {
    var q := Quintets(ByteBits(b));
    DigitsOfLetters(q);
    QuintetsInverse(ByteBits(b));
  }

  /** A letter reaches into two bytes at most: bodies whose encodings differ in letter `i`
      only agree on every other byte. */
  lemma OtherBytesAgree(a: seq<Byte>, b: seq<Byte>, i: nat, k: nat)
    requires |a| == |b| && i < |Encoded(a)| && |Encoded(a)| == |Encoded(b)|
    requires forall x :: 0 <= x < |Encoded(a)| && x != i ==> Encoded(a)[x] == Encoded(b)[x]
    requires k < |a| && (8 * k + 8 <= 5 * i || 5 * i + 5 <= 8 * k)
    ensures a[k] == b[k]
  {
    forall j | 0 <= j < 8 ensures BitsOf(a[k], 8)[j] == BitsOf(b[k], 8)[j] {
      SharedBit(a, b, i, k, j);
    }
    assert BitsOf(a[k], 8) == BitsOf(b[k], 8);
    SameByte(a[k], b[k]);
  }

  lemma SharedBit(a: seq<Byte>, b: seq<Byte>, i: nat, k: nat, j: nat)
    requires |a| == |b| && i < |Encoded(a)| && |Encoded(a)| == |Encoded(b)|
    requires forall x :: 0 <= x < |Encoded(a)| && x != i ==> Encoded(a)[x] == Encoded(b)[x]
    requires k < |a| && j < 8 && (8 * k + 8 <= 5 * i || 5 * i + 5 <= 8 * k)
    ensures BitsOf(a[k], 8)[j] == BitsOf(b[k], 8)[j]
  {
    hide Encoded, Digits, ByteBits, DigitBits, BitsOf;
    var p := 8 * k + j;
    var x, y := p / 5, p % 5;
    assert p == 5 * x + y && x != i;
    BodyBits(a);
    BodyBits(b);
    ByteBit(a, k, j);
    ByteBit(b, k, j);
    assert p < 8 * |a|;
    assert x < |Encoded(a)|;
    DigitBit(Digits(Encoded(a)), x, y);
    DigitBit(Digits(Encoded(b)), x, y);
    assert Digits(Encoded(a))[x] == Digits(Encoded(b))[x];
  }

  /** Bodies that differ only in bytes `k` and `k + 1` have different checksums. */
  lemma TwoBytesDetected(a: seq<Byte>, b: seq<Byte>, k: nat)
    requires |a| == |b| && k < |a| && a != b
    requires forall x :: 0 <= x < |a| && x != k && x != k + 1 ==> a[x] == b[x]
    ensures Crc(a) != Crc(b)
  {
    var n := if k + 2 <= |a| then k + 2 else |a|;
    assert a == a[..k] + a[k..n] + a[n..];
    assert b == a[..k] + b[k..n] + a[n..];
    WindowDetected(a[..k], a[k..n], b[k..n], a[n..]);
  }

  /** Changing one letter of the body part of a printed token is refused. */
  lemma BodyLetterRefused(b: seq<Byte>, i: nat, c: char)
    requires i < |Encoded(b)| && IsLetter(c) && c != Encoded(b)[i]
    ensures Checked(Encoded(b)[i := c], Encoded(CrcBytes(Crc(b)))) == Refused(ChecksumInvalid)
  {
    hide Encoded, Crc, CrcBytes, WordOf, Decoded;
    var crc := Encoded(CrcBytes(Crc(b)));
    var r := Checked(Encoded(b)[i := c], crc);
    ChecksumLength(Crc(b));
    if r.Ok? {
      var a := r.body;
      CheckedExactly(Encoded(b)[i := c], crc, a);
      assert Encoded(a) == Encoded(b)[i := c];
      EncodedInjective(CrcBytes(Crc(a)), CrcBytes(Crc(b)));
      CrcBytesUnique(CrcBytes(Crc(a)), Crc(a));
      CrcBytesUnique(CrcBytes(Crc(b)), Crc(b));
      assert |a| == |b|;
      var k := 5 * i / 8;
      assert 8 * k <= 5 * i < 8 * k + 8;
      LetterWindow(a, b, i, k);
      assert a != b;
      TwoBytesDetected(a, b, k);
    }
  }

  lemma LetterWindow(a: seq<Byte>, b: seq<Byte>, i: nat, k: nat)
    requires |a| == |b| && i < |Encoded(a)| && |Encoded(a)| == |Encoded(b)|
    requires forall x :: 0 <= x < |Encoded(a)| && x != i ==> Encoded(a)[x] == Encoded(b)[x]
    requires 8 * k <= 5 * i < 8 * k + 8
    ensures k < |a| && forall x :: 0 <= x < |a| && x != k && x != k + 1 ==> a[x] == b[x]
  {
    forall x | 0 <= x < |a| && x != k && x != k + 1 ensures a[x] == b[x] {
      OtherBytesAgree(a, b, i, x);
    }
  }

  /** Changing one letter of the checksum part of a printed token is refused. */
  lemma ChecksumLetterRefused(b: seq<Byte>, i: nat, c: char)
    requires b != [] && i < 7 && IsLetter(c) && |Encoded(CrcBytes(Crc(b)))| == 7
    requires c != Encoded(CrcBytes(Crc(b)))[i]
    ensures Checked(Encoded(b), Encoded(CrcBytes(Crc(b)))[i := c]) == Refused(ChecksumInvalid)
  {
    var crc := Encoded(CrcBytes(Crc(b)));
    var r := Checked(Encoded(b), crc[i := c]);
    if r.Ok? {
      CheckedExactly(Encoded(b), crc[i := c], r.body);
      EncodedInjective(b, r.body);
    }
  }

  /** Replacing any one letter after the marker of a printed token by another letter of the
      alphabet is always refused as a checksum failure, with noise, any letter case, any text
      before it in which no marker starts and text after it that starts with a terminator. */
  lemma OneLetterRefused(lead: string, t: string, suffix: string, b: seq<Byte>, i: nat, c: char)
    requires b != [] && 8 <= i < |Printed(b)| && Printed(b)[i] != '.'
    requires IsLetter(c) && c != Printed(b)[i]
    requires NoMarkerIn(lead)
    requires Dressed(t, Printed(b)[i := c]) && Ends(suffix)
    ensures Outcome(lead + t + suffix) == Refused(ChecksumInvalid)
  {
    hide Outcome, Checked, Encoded, Crc, CrcBytes, Dressed, Ends;
    var body, crc := Encoded(b), Encoded(CrcBytes(Crc(b)));
    ChecksumLength(Crc(b));
    EncodedLetters(b);
    EncodedLetters(CrcBytes(Crc(b)));
    var k := i - 8;
    if k < |body| {
      BodyLetterRefused(b, k, c);
      TextUpdate(body, crc, i, c);
      DressedOutcome(lead, t, suffix, body[k := c], crc);
    } else {
      assert k > |body|;
      ChecksumLetterRefused(b, k - |body| - 1, c);
      TextUpdate(body, crc, i, c);
      DressedOutcome(lead, t, suffix, body, crc[k - |body| - 1 := c]);
    }
  }

  lemma TextUpdate(body: string, crc: string, i: nat, c: char)
    requires 8 <= i < 9 + |body| + |crc| && i != 8 + |body|
    ensures (MARKER + body + "." + crc)[i := c] ==
            if i < 8 + |body| then MARKER + body[i - 8 := c] + "." + crc
            else MARKER + body + "." + crc[i - 9 - |body| := c]
  {
  }

  lemma CleanOutcome(t: string, body: string, crc: string)
    requires AllLetters(body) && AllLetters(crc) && |crc| == 7 && t == MARKER + body + "." + crc
    ensures Outcome(t) == Checked(body, crc)
  {
    hide Outcome, Checked, Normalize;
    TextIsNormal(body, crc);
    NormalizedStays(t);
    DressedOutcome("", t, "", body, crc);
    assert "" + t + "" == t;
  }
}
