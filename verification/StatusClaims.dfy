/** What a status row claims, spelled out without the parser, and that a publisher whose
    context holds nothing but earlier results of other runs does publish. */
module StatusClaims {
  import opened Basics
  import opened StatusHistory
  import opened StatusDecision
  import opened StatusReconcile

  // ---- descriptions ----

  /** `text` is a run, the word `exit`, one to three digits and perhaps a time. */
  ghost predicate Spelled(text: string, p: Parsed, digits: string) {
    && |p.runId| == 37 && p.runId[..5] == "csci-" && (forall i :: 5 <= i < 37 ==> p.runId[i] in "0123456789abcdef")
    && 1 <= |digits| <= 3 && (forall i :: 0 <= i < |digits| ==> '0' <= digits[i] <= '9')
    && p.code == (if |digits| == 1 then Figure(digits[0])
                  else if |digits| == 2 then 10 * Figure(digits[0]) + Figure(digits[1])
                  else 100 * Figure(digits[0]) + 10 * Figure(digits[1]) + Figure(digits[2]))
    && (p.ended.Some? ==> p.ended.value != "" && '\n' !in p.ended.value)
    && text == p.runId + " exit " + digits + (if p.ended.Some? then " ended " + p.ended.value else "")
  }

  ghost predicate Reads(text: string, p: Parsed) {
    exists digits :: Spelled(text, p, digits)
  }

  function Figure(c: char): int {
    c as int - '0' as int
  }

  lemma RunIdSpelled(s: string)
    ensures RunId(s) <==> |s| == 37 && s[..5] == "csci-" && forall i :: 5 <= i < 37 ==> s[i] in "0123456789abcdef"
  {
    assert forall c: char :: HexDigit(c) <==> c in "0123456789abcdef";
  }

  lemma ValueSpelled(digits: string)
    requires 1 <= |digits| <= 3 && forall i :: 0 <= i < |digits| ==> Digit(digits[i])
    ensures Value(digits) == (if |digits| == 1 then Figure(digits[0])
                              else if |digits| == 2 then 10 * Figure(digits[0]) + Figure(digits[1])
                              else 100 * Figure(digits[0]) + 10 * Figure(digits[1]) + Figure(digits[2]))
  {
    var d := digits;
    assert Value([]) == 0;
    assert d[..|d| - 1][..|d[..|d| - 1]|] == d[..|d| - 1];
    if |d| >= 2 {
      assert d[..|d| - 1][..|d| - 2] == d[..|d| - 2];
    }
    if |d| == 3 {
      assert d[..2][..1] == d[..1];
    }
  }

  /** The parser reads exactly such texts. */
  lemma ParseExactly(text: string, p: Parsed)
    ensures Parse(text) == Some(p) <==> Reads(text, p)
  {
    if Parse(text) == Some(p) {
      var digits := ParsedIsSpelled(text, p);
    }
    forall digits | Spelled(text, p, digits) ensures Parse(text) == Some(p) {
      SpelledIsParsed(text, p, digits);
    }
  }

  lemma ParsedIsSpelled(text: string, p: Parsed) returns (digits: string)
    requires Parse(text) == Some(p)
    ensures Spelled(text, p, digits)
  {
    hide RunId, Value, DigitRun;
    var tail := text[ID_LENGTH + 6..];
    var n := DigitRun(tail);
    digits := tail[..n];
    RunIdSpelled(text[..ID_LENGTH]);
    ValueSpelled(digits);
    assert text == text[..ID_LENGTH] + text[ID_LENGTH..ID_LENGTH + 6] + tail;
    assert tail == digits + tail[n..];
    if tail[n..] != "" {
      assert tail[n..] == tail[n..][..7] + tail[n..][7..];
    }
  }

  lemma SpelledIsParsed(text: string, p: Parsed, digits: string)
    requires Spelled(text, p, digits)
    ensures Parse(text) == Some(p)
  {
    hide RunId, Value, DigitRun;
    RunIdSpelled(p.runId);
    ValueSpelled(digits);
    var rest := if p.ended.Some? then " ended " + p.ended.value else "";
    var tail := digits + rest;
    assert text == p.runId + " exit " + digits + rest;
    assert text[..ID_LENGTH] == p.runId && text[ID_LENGTH..ID_LENGTH + 6] == " exit ";
    assert text[ID_LENGTH + 6..] == tail;
    DigitRunExact(digits, rest);
    assert tail[..|digits|] == digits && tail[|digits|..] == rest;
    if p.ended.Some? {
      assert rest[..7] == " ended " && rest[7..] == p.ended.value;
    }
  }

  /** `text` is what the publisher prints for `a`, with its completion time or, as it once
      did, without. */
  ghost predicate Prints(text: string, a: Item, timed: bool) {
    exists digits :: PrintedWith(text, a, timed, digits)
  }

  ghost predicate PrintedWith(text: string, a: Item, timed: bool, digits: string) {
    Spelled(text, Parsed(a.runId, a.code, if timed then Some(a.endedText) else None), digits) &&
    (|digits| > 1 ==> digits[0] != '0')
  }

  lemma DecimalSpelled(n: nat)
    requires n <= 255
    ensures var d := Decimal(n);
            && 1 <= |d| <= 3 && (|d| > 1 ==> d[0] != '0')
            && n == (if |d| == 1 then Figure(d[0]) else if |d| == 2 then 10 * Figure(d[0]) + Figure(d[1])
                     else 100 * Figure(d[0]) + 10 * Figure(d[1]) + Figure(d[2]))
  {
    if 10 <= n {
      assert Decimal(n) == Decimal(n / 10) + [('0' as int + n % 10) as char];
      if 100 <= n {
        assert Decimal(n / 10) == Decimal(n / 10 / 10) + [('0' as int + n / 10 % 10) as char];
      }
    }
  }

  lemma SameDigits(d: string, e: string)
    requires 1 <= |d| <= 3 && 1 <= |e| <= 3 && (|d| > 1 ==> d[0] != '0') && (|e| > 1 ==> e[0] != '0')
    requires forall i :: 0 <= i < |d| ==> Digit(d[i])
    requires forall i :: 0 <= i < |e| ==> Digit(e[i])
    requires Value(d) == Value(e)
    ensures d == e
  {
    hide Value;
    ValueSpelled(d);
    ValueSpelled(e);
  }

  lemma DescriptionPrints(a: Item, text: string, timed: bool)
    requires RunId(a.runId) && a.code <= 255 && a.endedText != "" && '\n' !in a.endedText
    ensures text == (if timed then Description(a) else LegacyDescription(a)) <==> Prints(text, a, timed)
  {
    hide Decimal, RunId, Spelled;
    DecimalSpelled(a.code);
    RunIdSpelled(a.runId);
    var rest := if timed then " ended " + a.endedText else "";
    var want := if timed then Description(a) else LegacyDescription(a);
    assert want == a.runId + " exit " + Decimal(a.code) + rest;
    WithDigits(a, timed, want, rest);
    if text == want {
      assert PrintedWith(text, a, timed, Decimal(a.code));
    }
    if Prints(text, a, timed) {
      var digits :| PrintedWith(text, a, timed, digits);
      DigitsGiven(a, timed, text, rest, digits);
      ValueDecimal(a.code);
      SameDigits(digits, Decimal(a.code));
    }
  }

  lemma WithDigits(a: Item, timed: bool, text: string, rest: string)
    requires RunId(a.runId) && a.code <= 255 && a.endedText != "" && '\n' !in a.endedText
    requires rest == if timed then " ended " + a.endedText else ""
    requires text == a.runId + " exit " + Decimal(a.code) + rest
    ensures Spelled(text, Parsed(a.runId, a.code, if timed then Some(a.endedText) else None), Decimal(a.code))
  {
    hide Decimal, RunId;
    DecimalSpelled(a.code);
    RunIdSpelled(a.runId);
  }

  lemma DigitsGiven(a: Item, timed: bool, text: string, rest: string, digits: string)
    requires Spelled(text, Parsed(a.runId, a.code, if timed then Some(a.endedText) else None), digits)
    requires rest == if timed then " ended " + a.endedText else ""
    ensures 1 <= |digits| <= 3 && (forall i :: 0 <= i < |digits| ==> Digit(digits[i])) && Value(digits) == a.code
    ensures text == a.runId + " exit " + digits + rest
  {
    hide Value;
    ValueSpelled(digits);
  }

  // ---- claims ----

  /** This run's own row, in the new form or the old. */
  ghost predicate Own(item: Item, row: Row) {
    row.state == item.state && (Prints(Text(row), item, true) || Prints(Text(row), item, false))
  }

  /** A finished row of another run, with its time. */
  ghost predicate OtherTimed(w: World, item: Item, row: Row, c: Claim) {
    && c.runId != item.runId && c.signature.state == row.state && !row.state.Pending? && c.signature.code <= 255
    && exists time ::
         Reads(Text(row), Parsed(c.runId, c.signature.code, Some(time))) &&
         time in w.times && w.times[time] == c.signature.completed
  }

  /** A row of another run without a time, vouched for by that run's receipt. */
  ghost predicate OtherLegacy(w: World, item: Item, row: Row, c: Claim) {
    && c.runId != item.runId && c.runId in w.receipts && c.signature.state == row.state
    && Reads(Text(row), Parsed(c.runId, c.signature.code, None))
    && var prior := w.receipts[c.runId];
       && prior.sha == item.sha && prior.context == item.context
       && prior.code == c.signature.code && prior.state == row.state && prior.ended == c.signature.completed
  }

  ghost predicate Claims(w: World, item: Item, row: Row, c: Claim) {
    || (Own(item, row) && c == Claim(item.runId, Signature(item.code, item.state, item.ended)))
    || OtherTimed(w, item, row, c)
    || OtherLegacy(w, item, row, c)
  }

  /** A row makes exactly these claims; any other row is refused. */
  lemma ClaimExactly(w: World, item: Item, row: Row, c: Claim)
    requires WellFormed(w, item)
    ensures ClaimOf(w, item, row) == Some(c) <==> Claims(w, item, row, c)
  {
    hide Parse, Description, LegacyDescription, RunId, Prints, Reads;
    var text := Text(row);
    DescriptionPrints(item, text, true);
    DescriptionPrints(item, text, false);
    ParseDescription(w, item);
    forall p ensures Parse(text) == Some(p) <==> Reads(text, p) {
      ParseExactly(text, p);
    }
    if Claims(w, item, row, c) && !Own(item, row) {
      if OtherLegacy(w, item, row, c) {
        assert Parse(text) == Some(Parsed(c.runId, c.signature.code, None));
      } else {
        var time :|
          Reads(text, Parsed(c.runId, c.signature.code, Some(time))) &&
          time in w.times && w.times[time] == c.signature.completed;
        assert Parse(text) == Some(Parsed(c.runId, c.signature.code, Some(time)));
      }
    }
  }

  /** What the publisher printed for another finished result claims that result. */
  lemma FinishedClaims(w: World, a: Item, b: Item, row: Row)
    requires WellFormed(w, a) && WellFormed(w, b) && a.runId != b.runId
    requires Prints(Text(row), a, true) && row.state == a.state
    ensures ClaimOf(w, b, row) == Some(Claim(a.runId, Signature(a.code, a.state, a.ended)))
  {
    hide ClaimOf, Spelled, RunId;
    var digits :| PrintedWith(Text(row), a, true, digits);
    var c := Claim(a.runId, Signature(a.code, a.state, a.ended));
    assert Reads(Text(row), Parsed(a.runId, a.code, Some(a.endedText)));
    assert OtherTimed(w, b, row, c);
    ClaimExactly(w, b, row, c);
  }

  /** Without a time it does so while its receipt names this commit and context. */
  lemma LegacyClaims(w: World, a: Item, b: Item, row: Row)
    requires WellFormed(w, a) && WellFormed(w, b) && a.runId != b.runId
    requires Prints(Text(row), a, false) && row.state == a.state
    requires a.runId in w.receipts && w.receipts[a.runId] == a && a.sha == b.sha && a.context == b.context
    ensures ClaimOf(w, b, row) == Some(Claim(a.runId, Signature(a.code, a.state, a.ended)))
  {
    hide ClaimOf, Spelled, RunId;
    var digits :| PrintedWith(Text(row), a, false, digits);
    var c := Claim(a.runId, Signature(a.code, a.state, a.ended));
    assert Reads(Text(row), Parsed(a.runId, a.code, None));
    assert OtherLegacy(w, b, row, c);
    ClaimExactly(w, b, row, c);
  }

  lemma OwnClaims(w: World, b: Item, row: Row)
    requires WellFormed(w, b) && (Prints(Text(row), b, true) || Prints(Text(row), b, false)) && row.state == b.state
    ensures ClaimOf(w, b, row) == Some(Claim(b.runId, Signature(b.code, b.state, b.ended)))
  {
    hide ClaimOf, Prints, RunId;
    ClaimExactly(w, b, row, Claim(b.runId, Signature(b.code, b.state, b.ended)));
  }

  /** An own row of another state or wording; a pending row of another run, one with a code
      over 255 or a time that is none; an old row whose receipt is missing or differs. */
  ghost predicate Conflicting(w: World, b: Item, row: Row, p: Parsed) {
    if p.runId == b.runId then
      row.state != b.state || (!Prints(Text(row), b, true) && !Prints(Text(row), b, false))
    else if p.ended.Some? then
      row.state.Pending? || p.code > 255 || p.ended.value !in w.times
    else if p.runId in w.receipts then
      var a := w.receipts[p.runId];
      a.sha != b.sha || a.context != b.context || a.code != p.code || a.state != row.state
    else true
  }

  /** Exactly the rows that cannot be read, or that conflict, are refused. */
  lemma RowRefused(w: World, b: Item, row: Row)
    requires WellFormed(w, b)
    ensures ClaimOf(w, b, row).None? <==> forall p :: Reads(Text(row), p) ==> Conflicting(w, b, row, p)
  {
    hide ClaimOf, Reads, Prints, RunId;
    if ClaimOf(w, b, row).Some? {
      ClaimExactly(w, b, row, ClaimOf(w, b, row).value);
      var q := ClaimReads(w, b, row, ClaimOf(w, b, row).value);
    } else {
      forall p | Reads(Text(row), p) ensures Conflicting(w, b, row, p) {
        if !Conflicting(w, b, row, p) {
          var c := ClaimMade(w, b, row, p);
          ClaimExactly(w, b, row, c);
        }
      }
    }
  }

  lemma ClaimReads(w: World, b: Item, row: Row, c: Claim) returns (q: Parsed)
    requires Claims(w, b, row, c)
    ensures Reads(Text(row), q) && !Conflicting(w, b, row, q)
  {
    hide Reads, RunId, Parse, Spelled;
    if OtherTimed(w, b, row, c) {
      var time :| Reads(Text(row), Parsed(c.runId, c.signature.code, Some(time))) && time in w.times;
      q := Parsed(c.runId, c.signature.code, Some(time));
    } else if OtherLegacy(w, b, row, c) {
      q := Parsed(c.runId, c.signature.code, None);
    } else {
      var timed := Prints(Text(row), b, true);
      var digits :| PrintedWith(Text(row), b, timed, digits);
      q := Parsed(b.runId, b.code, if timed then Some(b.endedText) else None);
      SpelledReads(Text(row), q, digits);
    }
  }

  lemma SpelledReads(text: string, p: Parsed, digits: string)
    requires Spelled(text, p, digits)
    ensures Reads(text, p)
  {
  }

  lemma ClaimMade(w: World, b: Item, row: Row, p: Parsed) returns (c: Claim)
    requires Reads(Text(row), p) && !Conflicting(w, b, row, p)
    ensures Claims(w, b, row, c)
  {
    hide Reads, Prints;
    if p.runId == b.runId {
      c := Claim(b.runId, Signature(b.code, b.state, b.ended));
    } else if p.ended.Some? {
      c := Claim(p.runId, Signature(p.code, row.state, w.times[p.ended.value]));
      assert p == Parsed(c.runId, c.signature.code, Some(p.ended.value));
      assert OtherTimed(w, b, row, c);
    } else {
      c := Claim(p.runId, Signature(p.code, row.state, w.receipts[p.runId].ended));
      assert p == Parsed(c.runId, c.signature.code, None);
    }
  }

  // ---- the decision ----

  /** The history is in order exactly if every row of the context claims something, no other
      run shares this one's completion time, two rows of one run agree, and two runs have
      two times. It settles this result exactly if a row is its own or completed later. */
  lemma DecisionExactly(w: World, item: Item, history: seq<Row>)
    requires WellFormed(w, item)
    ensures Consistent(w, item, history) <==>
            && (forall r :: InContext(item, history, r) ==> exists c :: Claims(w, item, r, c))
            && (forall r, c :: InContext(item, history, r) && Claims(w, item, r, c) && c.signature.completed == item.ended ==>
                  c.runId == item.runId)
            && (forall r, s, c, d ::
                  (InContext(item, history, r) && InContext(item, history, s) &&
                   Claims(w, item, r, c) && Claims(w, item, s, d)) ==>
                  (c.runId == d.runId ==> c.signature == d.signature) &&
                  (c.signature.completed == d.signature.completed ==> c.runId == d.runId))
    ensures Settled(w, item, history) <==>
            exists r, c :: InContext(item, history, r) && Claims(w, item, r, c) &&
              (c.runId == item.runId || c.signature.completed > item.ended)
  {
    hide ClaimOf, Claims, WellFormed;
    forall r, c ensures ClaimOf(w, item, r) == Some(c) <==> Claims(w, item, r, c) {
      ClaimExactly(w, item, r, c);
    }
  }

  // ---- the outcome ----

  /** The row of `item` as it was sent. */
  ghost predicate NewRow(item: Item, id: int, row: Row) {
    row.id == id && row.state == item.state && row.context == item.context && row.description.Some? &&
    Prints(row.description.value, item, true)
  }

  lemma NewRowIsStatus(w: World, item: Item, id: int, row: Row)
    requires WellFormed(w, item)
    ensures NewRow(item, id, row) <==> row == Status(item, id)
  {
    hide Prints, Description, RunId;
    if row.description.Some? {
      DescriptionPrints(item, row.description.value, true);
    }
  }

  /** From readback `j` on, `k` is the first that shows a row of this id, and shows it as it
      was sent; every history up to it is in order. */
  ghost predicate ShownAt(w: World, item: Item, net: Network, j: nat, k: nat)
    requires |net.readbacks| == ATTEMPTS
  {
    && j <= k < 3
    && (forall i :: j <= i <= k ==> net.readbacks[i].Ok? && Consistent(w, item, net.readbacks[i].value))
    && (forall i :: j <= i < k ==> Absent(net.readbacks[i].value, net.id))
    && AsSent(net.readbacks[k].value, item, net.id)
  }

  ghost predicate Absent(rows: seq<Row>, id: int) {
    forall r :: r in rows ==> r.id != id
  }

  ghost predicate AsSent(rows: seq<Row>, item: Item, id: int) {
    exists i :: FirstWith(rows, id, i) && NewRow(item, id, rows[i])
  }

  ghost predicate FirstWith(rows: seq<Row>, id: int, i: int) {
    0 <= i < |rows| && rows[i].id == id && forall x :: 0 <= x < i ==> rows[x].id != id
  }

  lemma {:induction false} FindsFirst(rows: seq<Row>, id: int)
    ensures forall i :: FirstWith(rows, id, i) ==> Find(rows, id) == Some(rows[i])
    ensures Find(rows, id).Some? ==> exists i :: FirstWith(rows, id, i)
  {
    if rows != [] {
      FindsFirst(rows[1..], id);
      forall i | FirstWith(rows, id, i) ensures Find(rows, id) == Some(rows[i]) {
        if i > 0 {
          assert FirstWith(rows[1..], id, i - 1);
        }
      }
      if rows[0].id == id {
        assert FirstWith(rows, id, 0);
      } else if Find(rows, id).Some? {
        var i :| FirstWith(rows[1..], id, i);
        assert FirstWith(rows, id, i + 1);
      }
    }
  }

  lemma FindExactly(w: World, item: Item, rows: seq<Row>, id: int)
    requires WellFormed(w, item)
    ensures Find(rows, id).None? <==> Absent(rows, id)
    ensures Find(rows, id) == Some(Status(item, id)) <==> AsSent(rows, item, id)
  {
    hide WellFormed, NewRow, Status;
    FindsFirst(rows, id);
    if Find(rows, id).Some? {
      NewRowIsStatus(w, item, id, Find(rows, id).value);
    }
    NewRowIsStatus(w, item, id, Status(item, id));
  }

  lemma ShownExactly(w: World, item: Item, net: Network, j: nat)
    requires WellFormed(w, item) && |net.readbacks| == ATTEMPTS && j <= ATTEMPTS
    ensures Shown(w, item, net, j) <==> exists k :: ShownAt(w, item, net, j, k)
    decreases ATTEMPTS - j
  {
    hide Consistent, WellFormed, Status, Absent, AsSent;
    if j < ATTEMPTS && net.readbacks[j].Ok? {
      FindExactly(w, item, net.readbacks[j].value, net.id);
      if Find(net.readbacks[j].value, net.id).Some? {
        assert Shown(w, item, net, j) ==> ShownAt(w, item, net, j, j);
      } else {
        ShownExactly(w, item, net, j + 1);
        ShownLater(w, item, net, j, j + 1);
      }
    }
  }

  lemma ShownLater(w: World, item: Item, net: Network, j: nat, next: nat)
    requires |net.readbacks| == ATTEMPTS && next == j + 1 <= ATTEMPTS && net.readbacks[j].Ok?
    requires Absent(net.readbacks[j].value, net.id) && !AsSent(net.readbacks[j].value, item, net.id)
    ensures Consistent(w, item, net.readbacks[j].value) ==>
              ((exists k :: ShownAt(w, item, net, next, k)) <==> (exists k :: ShownAt(w, item, net, j, k)))
  {
    hide Consistent, Absent, AsSent;
    forall k: nat | Consistent(w, item, net.readbacks[j].value)
      ensures ShownAt(w, item, net, next, k) <==> ShownAt(w, item, net, j, k)
    {
    }
  }

  /** What each outcome means. */
  lemma OutcomeMeans(w: World, item: Item, net: Network)
    requires WellFormed(w, item) && |net.readbacks| == ATTEMPTS
    ensures OutcomeOf(w, item, net) == Skipped <==>
            net.first.Ok? && Consistent(w, item, net.first.value) && Settled(w, item, net.first.value)
    ensures OutcomeOf(w, item, net) == Published <==>
            && net.first.Ok? && Consistent(w, item, net.first.value) && !Settled(w, item, net.first.value)
            && net.fate.Replied? && net.id > 0 && exists k :: ShownAt(w, item, net, 0, k)
  {
    hide Consistent, Settled, WellFormed, ShownAt, Shown;
    ShownExactly(w, item, net, 0);
  }

  // ---- a result that is due is published ----

  /** Every row of the context is what the publisher printed for an earlier result of
      another run; results of different runs completed at different times. */
  ghost predicate Earlier(w: World, item: Item, h: seq<Row>, of: map<Row, Item>) {
    && (forall r :: InContext(item, h, r) ==> r in of && PrintedFor(w, item, r, of[r]))
    && (forall r, s :: InContext(item, h, r) && InContext(item, h, s) && r in of && s in of ==>
          (of[r].runId == of[s].runId || of[r].ended == of[s].ended ==> of[r] == of[s]))
  }

  ghost predicate PrintedFor(w: World, item: Item, row: Row, a: Item) {
    && WellFormed(w, a) && a.runId != item.runId && a.ended < item.ended
    && row.state == a.state && Prints(Text(row), a, true)
  }

  /** Rows that are earlier results, or this one, are in order. */
  lemma EarlierIsConsistent(w: World, item: Item, h: seq<Row>, of: map<Row, Item>, others: seq<Row>)
    requires WellFormed(w, item) && Earlier(w, item, others, of)
    requires forall r :: InContext(item, h, r) ==> InContext(item, others, r) || NewRow(item, r.id, r)
    ensures Consistent(w, item, h)
    ensures (forall r :: InContext(item, h, r) ==> InContext(item, others, r)) ==> !Settled(w, item, h)
  {
    hide ClaimOf, WellFormed, Prints;
    forall r | InContext(item, h, r) && InContext(item, others, r)
      ensures ClaimOf(w, item, r) == Some(Claim(of[r].runId, Signature(of[r].code, of[r].state, of[r].ended)))
    {
      FinishedClaims(w, of[r], item, r);
    }
    forall r | InContext(item, h, r) && !InContext(item, others, r)
      ensures ClaimOf(w, item, r) == Some(Claim(item.runId, Signature(item.code, item.state, item.ended)))
    {
      OwnClaims(w, item, r);
    }
  }

  /** The new row alone carries the id that was created. */
  ghost predicate Readback(item: Item, id: int, h: seq<Row>, others: seq<Row>, there: bool) {
    && (forall r :: InContext(item, h, r) ==> InContext(item, others, r) || NewRow(item, id, r))
    && (forall r :: r in h && r.id == id ==> NewRow(item, id, r))
    && (there <==> exists r :: r in h && r.id == id)
  }

  /** If the context holds only earlier results of other runs, the request is answered, and
      some readback shows the new row, the result is reported as published. */
  lemma DueIsPublished(w: World, item: Item, net: Network, of: map<Row, Item>, k: nat)
    requires WellFormed(w, item) && net.first.Ok? && |net.readbacks| == ATTEMPTS
    requires Earlier(w, item, net.first.value, of)
    requires net.fate.Replied? && net.id > 0 && k < ATTEMPTS
    requires forall j :: 0 <= j <= k ==>
               net.readbacks[j].Ok? && Readback(item, net.id, net.readbacks[j].value, net.first.value, j == k)
    ensures OutcomeOf(w, item, net) == Published
    ensures forall log :: LogAfter(w, item, log, net) == [Status(item, net.id)] + (net.between + log)
  {
    hide Consistent, Settled, Earlier, WellFormed;
    EarlierIsConsistent(w, item, net.first.value, of, net.first.value);
    ReadbackShows(w, item, net, of, k, 0);
  }

  lemma ReadbackShows(w: World, item: Item, net: Network, of: map<Row, Item>, k: nat, j: nat)
    requires WellFormed(w, item) && net.first.Ok? && |net.readbacks| == ATTEMPTS
    requires Earlier(w, item, net.first.value, of) && j <= k < ATTEMPTS
    requires forall j :: 0 <= j <= k ==>
               net.readbacks[j].Ok? && Readback(item, net.id, net.readbacks[j].value, net.first.value, j == k)
    ensures Shown(w, item, net, j)
    decreases k - j
  {
    hide Consistent, Settled, Earlier, WellFormed, NewRow, Status;
    var h := net.readbacks[j].value;
    assert Readback(item, net.id, h, net.first.value, j == k);
    ReadbackConsistent(w, item, net.id, h, net.first.value, of, j == k);
    if j == k {
      NewRowIsStatus(w, item, net.id, Find(h, net.id).value);
    } else {
      ReadbackShows(w, item, net, of, k, j + 1);
    }
  }

  lemma ReadbackConsistent(w: World, item: Item, id: int, h: seq<Row>, others: seq<Row>, of: map<Row, Item>, there: bool)
    requires WellFormed(w, item) && Earlier(w, item, others, of) && Readback(item, id, h, others, there)
    ensures Consistent(w, item, h)
  {
    hide Consistent, Settled, Earlier, WellFormed;
    EarlierIsConsistent(w, item, h, of, others);
  }
}
