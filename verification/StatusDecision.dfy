/** Whether a result still has to be published (scripts/standalone-ci/publish-status.py,
    `history_decision`): a loop over maps that equals an order-free, pairwise rule. */
module StatusDecision {
  import opened Basics
  import opened StatusHistory

  /** A result that passed `candidate`. `endedText` is its completion time as printed. */
  datatype Item = Item(sha: string, runId: string, context: string, code: nat, state: State, ended: int, endedText: string)

  /** The receipts that can be read and pass `candidate`, and the texts that are times. */
  datatype World = World(receipts: map<string, Item>, times: map<string, int>)

  datatype Parsed = Parsed(runId: string, code: nat, ended: Option<string>)

  // ---- descriptions ----

  predicate HexDigit(c: char) {
    '0' <= c <= '9' || 'a' <= c <= 'f'
  }

  predicate Digit(c: char) {
    '0' <= c <= '9'
  }

  const ID_LENGTH := 37

  /** `csci-` and 32 hexadecimal digits. */
  predicate RunId(s: string) {
    |s| == ID_LENGTH && s[..5] == "csci-" && forall i :: 5 <= i < ID_LENGTH ==> HexDigit(s[i])
  }

  function DigitRun(s: string): (n: nat)
    ensures n <= |s|
    ensures forall i :: 0 <= i < n ==> Digit(s[i])
    ensures n < |s| ==> !Digit(s[n])
  {
    if s == "" || !Digit(s[0]) then 0 else 1 + DigitRun(s[1..])
  }

  function Value(s: string): (n: nat)
    requires forall i :: 0 <= i < |s| ==> Digit(s[i])
  {
    if s == "" then 0
    else
      assert Digit(s[|s| - 1]);
      10 * Value(s[..|s| - 1]) + (s[|s| - 1] as int - '0' as int)
  }

  function Decimal(n: nat): (s: string)
    ensures forall i :: 0 <= i < |s| ==> Digit(s[i])
    ensures |s| > 0
  {
    if n < 10 then [('0' as int + n) as char] else Decimal(n / 10) + [('0' as int + n % 10) as char]
  }

  /** The pattern `(csci-…) exit ([0-9]{1,3})(?: ended (.+))?`, matched in full. */
  function Parse(text: string): (p: Option<Parsed>) {
    if |text| < ID_LENGTH + 6 || !RunId(text[..ID_LENGTH]) || text[ID_LENGTH..ID_LENGTH + 6] != " exit " then None
    else
      var tail := text[ID_LENGTH + 6..];
      var n := DigitRun(tail);
      if n == 0 || n > 3 then None
      else
        var code := Value(tail[..n]);
        var rest := tail[n..];
        if rest == "" then Some(Parsed(text[..ID_LENGTH], code, None))
        else if |rest| > 7 && rest[..7] == " ended " && '\n' !in rest[7..]
        then Some(Parsed(text[..ID_LENGTH], code, Some(rest[7..])))
        else None
  }

  function LegacyDescription(item: Item): string {
    item.runId + " exit " + Decimal(item.code)
  }

  function Description(item: Item): string {
    LegacyDescription(item) + " ended " + item.endedText
  }

  /** What `candidate` guarantees, and that a printed time reads back as itself. */
  ghost predicate WellFormed(w: World, item: Item) {
    && RunId(item.runId) && item.code <= 255 && item.state in {Error, Failure, Success}
    && item.endedText != "" && '\n' !in item.endedText
    && item.endedText in w.times && w.times[item.endedText] == item.ended
  }

  lemma {:induction false} ValueDecimal(n: nat)
    ensures Value(Decimal(n)) == n
  {
    if n >= 10 {
      ValueDecimal(n / 10);
      var s := Decimal(n);
      assert s[..|s| - 1] == Decimal(n / 10);
    }
  }

  lemma {:induction false} DigitRunExact(digits: string, rest: string)
    requires forall i :: 0 <= i < |digits| ==> Digit(digits[i])
    requires rest == "" || !Digit(rest[0])
    ensures DigitRun(digits + rest) == |digits|
  {
    if digits == "" {
      assert digits + rest == rest;
    } else {
      assert (digits + rest)[0] == digits[0] && (digits + rest)[1..] == digits[1..] + rest;
      DigitRunExact(digits[1..], rest);
    }
  }

  /** A printed description parses back to its run, code and time. */
  lemma ParseDescription(w: World, item: Item)
    requires WellFormed(w, item)
    ensures Parse(Description(item)) == Some(Parsed(item.runId, item.code, Some(item.endedText)))
    ensures Parse(LegacyDescription(item)) == Some(Parsed(item.runId, item.code, None))
  {
    hide Parse, RunId, HexDigit, Decimal;
    ParsePrinted(item.runId, item.code, "");
    var head := item.runId + " exit " + Decimal(item.code);
    assert head + "" == head;
    var rest := " ended " + item.endedText;
    assert rest[0] == ' ';
    ParsePrinted(item.runId, item.code, rest);
    assert rest[..7] == " ended " && rest[7..] == item.endedText;
    assert head + rest == Description(item) by {
      hide Decimal, WellFormed;
      Joined(head, " ended ", item.endedText);
    }
  }

  lemma Joined(a: string, b: string, c: string)
    ensures a + (b + c) == a + b + c
  {
  }

  lemma ParsePrinted(runId: string, code: nat, rest: string)
    requires RunId(runId) && code <= 255 && (rest == "" || !Digit(rest[0]))
    ensures Parse(runId + " exit " + Decimal(code) + rest) ==
            if rest == "" then Some(Parsed(runId, code, None))
            else if |rest| > 7 && rest[..7] == " ended " && '\n' !in rest[7..] then Some(Parsed(runId, code, Some(rest[7..])))
            else None
  {
    hide RunId, Digit, Decimal, DigitRun, Value;
    var text := runId + " exit " + Decimal(code) + rest;
    var tail := Decimal(code) + rest;
    assert |runId| == ID_LENGTH && |Decimal(code)| > 0 by {
      LongId(runId);
    }
    assert text[..ID_LENGTH] == runId;
    assert text[ID_LENGTH..ID_LENGTH + 6] == " exit ";
    assert text[ID_LENGTH + 6..] == tail;
    DigitRunExact(Decimal(code), rest);
    ShortCode(code);
    ValueDecimal(code);
    assert tail[..|Decimal(code)|] == Decimal(code) && tail[|Decimal(code)|..] == rest;
  }

  lemma LongId(runId: string)
    requires RunId(runId)
    ensures |runId| == ID_LENGTH
  {
  }

  lemma ShortCode(n: nat)
    requires n <= 255
    ensures |Decimal(n)| <= 3
  {
    if n >= 10 {
      assert |Decimal(n / 10)| <= 2;
    }
  }

  // ---- one row ----

  /** What a row says about its run: exit code, state, completion time. */
  datatype Signature = Signature(code: nat, state: State, completed: int)
  datatype Claim = Claim(runId: string, signature: Signature)

  function Text(row: Row): string {
    if row.description.None? then "" else row.description.value
  }

  /** The claim a row of the context makes, unless it has to be refused. */
  function ClaimOf(w: World, item: Item, row: Row): (c: Option<Claim>) {
    var p := Parse(Text(row));
    if p.None? then None
    else if p.value.runId == item.runId then
      if (Text(row) == Description(item) || Text(row) == LegacyDescription(item)) && row.state == item.state
      then Some(Claim(item.runId, Signature(p.value.code, row.state, item.ended)))
      else None
    else if p.value.ended.None? then
      if p.value.runId in w.receipts then
        var prior := w.receipts[p.value.runId];
        if prior.sha == item.sha && prior.context == item.context && prior.code == p.value.code && prior.state == row.state
        then Some(Claim(p.value.runId, Signature(p.value.code, row.state, prior.ended)))
        else None
      else None
    else if p.value.code <= 255 && !row.state.Pending? && p.value.ended.value in w.times
    then Some(Claim(p.value.runId, Signature(p.value.code, row.state, w.times[p.value.ended.value])))
    else None
  }

  // ---- the rule ----

  ghost predicate InContext(item: Item, history: seq<Row>, row: Row) {
    row in history && row.context == item.context
  }

  /** Two rows of one run agree, and two runs never share a completion time. */
  predicate Compatible(a: Claim, b: Claim) {
    (a.runId == b.runId ==> a.signature == b.signature) &&
    (a.signature.completed == b.signature.completed ==> a.runId == b.runId)
  }

  /** A run other than this one does not share this one's completion time. */
  predicate Distinguishable(item: Item, c: Claim) {
    c.signature.completed == item.ended ==> c.runId == item.runId
  }

  ghost predicate Consistent(w: World, item: Item, history: seq<Row>) {
    && (forall r :: InContext(item, history, r) ==> ClaimOf(w, item, r).Some? && Distinguishable(item, ClaimOf(w, item, r).value))
    && (forall r, s :: InContext(item, history, r) && InContext(item, history, s) ==>
          ClaimOf(w, item, r).Some? && ClaimOf(w, item, s).Some? &&
          Compatible(ClaimOf(w, item, r).value, ClaimOf(w, item, s).value))
  }

  predicate Settles(w: World, item: Item, row: Row) {
    var c := ClaimOf(w, item, row);
    c.Some? && (c.value.runId == item.runId || c.value.signature.completed > item.ended)
  }

  ghost predicate Settled(w: World, item: Item, history: seq<Row>) {
    exists r :: InContext(item, history, r) && Settles(w, item, r)
  }

  function ContextRows(item: Item, history: seq<Row>): (rows: seq<Row>)
    ensures forall r :: r in rows <==> r in history && r.context == item.context
  {
    if history == [] then []
    else
      var last := history[|history| - 1];
      var rest := ContextRows(item, history[..|history| - 1]);
      assert history == history[..|history| - 1] + [last];
      if last.context == item.context then rest + [last] else rest
  }

  datatype Decision = Skip(settled: bool) | Refuse

  /** The loop: `provenance` by run, `completions` by time. */
  method HistoryDecision(w: World, item: Item, history: seq<Row>) returns (d: Decision)
    ensures d.Skip? <==> Consistent(w, item, history)
    ensures d.Skip? ==> (d.settled <==> Settled(w, item, history))
  {
    hide ClaimOf, ContextRows, Consistent, Settled, Compatible, Distinguishable, Noted;
    var rows := ContextRows(item, history);
    var settled := false;
    var provenance: map<string, Signature>, completions: map<int, string> := map[], map[item.ended := item.runId];
    NotedNone(w, item, rows);
    for i := 0 to |rows|
      invariant forall k :: 0 <= k < i ==> ClaimOf(w, item, rows[k]).Some?
      invariant Noted(w, item, rows, i, provenance, completions)
      invariant settled <==> exists k :: 0 <= k < i && Settles(w, item, rows[k])
    {
      var claim := ClaimOf(w, item, rows[i]);
      if claim.None? {
        Unclaimed(w, item, history, rows[i]);
        return Refuse;
      }
      var c := claim.value;
      if c.runId in provenance && provenance[c.runId] != c.signature {
        ProvenanceClash(w, item, history, rows, i, provenance, completions);
        return Refuse;
      }
      if c.signature.completed in completions && completions[c.signature.completed] != c.runId {
        CompletionClash(w, item, history, rows, i, provenance, completions);
        return Refuse;
      }
      NotedMore(w, item, rows, i, provenance, completions);
      provenance := provenance[c.runId := c.signature];
      completions := completions[c.signature.completed := c.runId];
      settled := settled || c.runId == item.runId || c.signature.completed > item.ended;
    }
    NotedConsistent(w, item, history, rows, provenance, completions);
    d := Skip(settled);
  }

  /** The maps hold exactly what the first `n` rows claim, and this item's own time. */
  ghost predicate Noted(w: World, item: Item, rows: seq<Row>, n: nat, provenance: map<string, Signature>,
                        completions: map<int, string>)
    requires n <= |rows| && forall k :: 0 <= k < n ==> ClaimOf(w, item, rows[k]).Some?
  {
    && Recorded(w, item, rows, n, provenance, completions)
    && KnownRuns(w, item, rows, n, provenance)
    && KnownTimes(w, item, rows, n, completions)
  }

  ghost predicate Recorded(w: World, item: Item, rows: seq<Row>, n: nat, provenance: map<string, Signature>,
                           completions: map<int, string>)
    requires n <= |rows| && forall k :: 0 <= k < n ==> ClaimOf(w, item, rows[k]).Some?
  {
    && item.ended in completions && completions[item.ended] == item.runId
    && forall k :: 0 <= k < n ==>
         var c := ClaimOf(w, item, rows[k]).value;
         c.runId in provenance && provenance[c.runId] == c.signature &&
         c.signature.completed in completions && completions[c.signature.completed] == c.runId
  }

  ghost predicate KnownRuns(w: World, item: Item, rows: seq<Row>, n: nat, provenance: map<string, Signature>)
    requires n <= |rows| && forall k :: 0 <= k < n ==> ClaimOf(w, item, rows[k]).Some?
  {
    forall id :: id in provenance ==> exists k :: 0 <= k < n && ClaimOf(w, item, rows[k]).value.runId == id
  }

  ghost predicate KnownTimes(w: World, item: Item, rows: seq<Row>, n: nat, completions: map<int, string>)
    requires n <= |rows| && forall k :: 0 <= k < n ==> ClaimOf(w, item, rows[k]).Some?
  {
    forall t :: t in completions && t != item.ended ==>
      exists k :: 0 <= k < n && ClaimOf(w, item, rows[k]).value.signature.completed == t
  }

  lemma NotedNone(w: World, item: Item, rows: seq<Row>)
    ensures Noted(w, item, rows, 0, map[], map[item.ended := item.runId])
  {
  }

  lemma Unclaimed(w: World, item: Item, history: seq<Row>, row: Row)
    requires InContext(item, history, row) && ClaimOf(w, item, row).None?
    ensures !Consistent(w, item, history)
  {
  }

  lemma Clash(w: World, item: Item, history: seq<Row>, r: Row, s: Row)
    requires InContext(item, history, r) && InContext(item, history, s)
    requires ClaimOf(w, item, r).Some? && ClaimOf(w, item, s).Some?
    requires !Compatible(ClaimOf(w, item, r).value, ClaimOf(w, item, s).value)
    ensures !Consistent(w, item, history)
  {
    hide ClaimOf, Compatible;
  }

  lemma ProvenanceClash(w: World, item: Item, history: seq<Row>, rows: seq<Row>, n: nat,
                        provenance: map<string, Signature>, completions: map<int, string>)
    requires forall r :: r in rows <==> r in history && r.context == item.context
    requires n < |rows| && forall k :: 0 <= k <= n ==> ClaimOf(w, item, rows[k]).Some?
    requires Noted(w, item, rows, n, provenance, completions)
    requires var c := ClaimOf(w, item, rows[n]).value; c.runId in provenance && provenance[c.runId] != c.signature
    ensures !Consistent(w, item, history)
  {
    hide ClaimOf, Consistent;
    var id := ClaimOf(w, item, rows[n]).value.runId;
    var k :| 0 <= k < n && ClaimOf(w, item, rows[k]).value.runId == id;
    Clash(w, item, history, rows[k], rows[n]);
  }

  lemma CompletionClash(w: World, item: Item, history: seq<Row>, rows: seq<Row>, n: nat,
                        provenance: map<string, Signature>, completions: map<int, string>)
    requires forall r :: r in rows <==> r in history && r.context == item.context
    requires n < |rows| && forall k :: 0 <= k <= n ==> ClaimOf(w, item, rows[k]).Some?
    requires Noted(w, item, rows, n, provenance, completions)
    requires var c := ClaimOf(w, item, rows[n]).value;
             c.signature.completed in completions && completions[c.signature.completed] != c.runId
    ensures !Consistent(w, item, history)
  {
    hide ClaimOf;
    var t := ClaimOf(w, item, rows[n]).value.signature.completed;
    assert InContext(item, history, rows[n]);
    if t != item.ended {
      var k :| 0 <= k < n && ClaimOf(w, item, rows[k]).value.signature.completed == t;
      hide Consistent;
      Clash(w, item, history, rows[k], rows[n]);
    }
  }

  lemma NotedMore(w: World, item: Item, rows: seq<Row>, n: nat, provenance: map<string, Signature>,
                  completions: map<int, string>)
    requires n < |rows| && forall k :: 0 <= k <= n ==> ClaimOf(w, item, rows[k]).Some?
    requires Noted(w, item, rows, n, provenance, completions)
    requires var c := ClaimOf(w, item, rows[n]).value;
             && (c.runId in provenance ==> provenance[c.runId] == c.signature)
             && (c.signature.completed in completions ==> completions[c.signature.completed] == c.runId)
    ensures var c := ClaimOf(w, item, rows[n]).value;
            Noted(w, item, rows, n + 1, provenance[c.runId := c.signature], completions[c.signature.completed := c.runId])
  {
    hide ClaimOf, KnownRuns, KnownTimes;
    RunsMore(w, item, rows, n, provenance);
    TimesMore(w, item, rows, n, completions);
  }

  lemma RunsMore(w: World, item: Item, rows: seq<Row>, n: nat, provenance: map<string, Signature>)
    requires n < |rows| && forall k :: 0 <= k <= n ==> ClaimOf(w, item, rows[k]).Some?
    requires KnownRuns(w, item, rows, n, provenance)
    ensures var c := ClaimOf(w, item, rows[n]).value;
            KnownRuns(w, item, rows, n + 1, provenance[c.runId := c.signature])
  {
    hide ClaimOf;
    var c := ClaimOf(w, item, rows[n]).value;
    var now := provenance[c.runId := c.signature];
    forall id | id in now
      ensures exists k :: 0 <= k < n + 1 && ClaimOf(w, item, rows[k]).value.runId == id
    {
      if id == c.runId {
        assert ClaimOf(w, item, rows[n]).value.runId == id;
      }
    }
  }

  lemma TimesMore(w: World, item: Item, rows: seq<Row>, n: nat, completions: map<int, string>)
    requires n < |rows| && forall k :: 0 <= k <= n ==> ClaimOf(w, item, rows[k]).Some?
    requires KnownTimes(w, item, rows, n, completions)
    ensures var c := ClaimOf(w, item, rows[n]).value;
            KnownTimes(w, item, rows, n + 1, completions[c.signature.completed := c.runId])
  {
    hide ClaimOf;
    var c := ClaimOf(w, item, rows[n]).value;
    var now := completions[c.signature.completed := c.runId];
    forall t | t in now && t != item.ended
      ensures exists k :: 0 <= k < n + 1 && ClaimOf(w, item, rows[k]).value.signature.completed == t
    {
      if t == c.signature.completed {
        assert ClaimOf(w, item, rows[n]).value.signature.completed == t;
      }
    }
  }

  lemma NotedConsistent(w: World, item: Item, history: seq<Row>, rows: seq<Row>, provenance: map<string, Signature>,
                        completions: map<int, string>)
    requires forall r :: r in rows <==> r in history && r.context == item.context
    requires forall k :: 0 <= k < |rows| ==> ClaimOf(w, item, rows[k]).Some?
    requires Noted(w, item, rows, |rows|, provenance, completions)
    ensures Consistent(w, item, history)
    ensures Settled(w, item, history) <==> exists k :: 0 <= k < |rows| && Settles(w, item, rows[k])
  {
    hide ClaimOf, Settles, Compatible, Distinguishable, Noted;
    assert forall r :: InContext(item, history, r) <==> r in rows;
    forall r, s | InContext(item, history, r) && InContext(item, history, s)
      ensures ClaimOf(w, item, r).Some? && ClaimOf(w, item, s).Some?
      ensures Distinguishable(item, ClaimOf(w, item, r).value)
      ensures Compatible(ClaimOf(w, item, r).value, ClaimOf(w, item, s).value)
    {
      NotedPair(w, item, rows, provenance, completions, r, s);
    }
  }

  lemma NotedPair(w: World, item: Item, rows: seq<Row>, provenance: map<string, Signature>,
                  completions: map<int, string>, r: Row, s: Row)
    requires forall k :: 0 <= k < |rows| ==> ClaimOf(w, item, rows[k]).Some?
    requires Noted(w, item, rows, |rows|, provenance, completions)
    requires r in rows && s in rows
    ensures ClaimOf(w, item, r).Some? && ClaimOf(w, item, s).Some?
    ensures Distinguishable(item, ClaimOf(w, item, r).value)
    ensures Compatible(ClaimOf(w, item, r).value, ClaimOf(w, item, s).value)
  {
    hide ClaimOf;
    var k :| 0 <= k < |rows| && rows[k] == r;
    var l :| 0 <= l < |rows| && rows[l] == s;
  }

  /** Neither the refusal nor the answer depends on the order of the history. */
  lemma OrderFree(w: World, item: Item, a: seq<Row>, b: seq<Row>)
    requires multiset(a) == multiset(b)
    ensures Consistent(w, item, a) <==> Consistent(w, item, b)
    ensures Settled(w, item, a) <==> Settled(w, item, b)
  {
    hide ClaimOf, Settles;
    assert forall r :: r in a <==> r in multiset(a);
    assert forall r :: r in b <==> r in multiset(b);
    assert forall r :: InContext(item, a, r) <==> InContext(item, b, r);
  }
}
