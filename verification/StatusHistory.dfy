/** Paging a commit's status history (scripts/standalone-ci/publish-status.py, `API.history`)
    while the service may add rows in front of it. */
module StatusHistory {
  import opened Basics

  datatype Result<T> = Ok(value: T) | Refused(reason: Reason)
  datatype Reason = RequestFailed | InvalidHistory | InvalidStatus | HistoryChanged | PageLimit

  datatype State = Error | Failure | Pending | Success | Unknown
  datatype Row = Row(id: int, state: State, context: string, description: Option<string>)

  const PER_PAGE := 100
  const PAGES := 1000

  predicate ValidRow(r: Row) {
    r.id > 0 && !r.state.Unknown?
  }

  function Ids(rows: seq<Row>): (s: set<int>) {
    set r | r in rows :: r.id
  }

  // ---- the paging loop against any answers ----

  /** Add one page's rows, refusing an invalid row or an id seen before. */
  function AddRows(rows: seq<Row>, batch: seq<Row>): (r: Result<seq<Row>>)
    ensures r.Ok? ==> r.value == rows + batch
  {
    if batch == [] then Ok(rows)
    else
      var front := AddRows(rows, batch[..|batch| - 1]);
      var row := batch[|batch| - 1];
      if front.Refused? then front
      else if !ValidRow(row) then Refused(InvalidStatus)
      else if row.id in Ids(front.value) then Refused(HistoryChanged)
      else
        assert batch == batch[..|batch| - 1] + [row];
        Ok(front.value + [row])
  }

  /** From page `k` (counted from zero) on, with `rows` collected so far; `answers[k]` is
      what the request for page `k` brought back, if anything. */
  function PagesFrom(answers: seq<Option<seq<Row>>>, k: nat, rows: seq<Row>): (r: Result<seq<Row>>)
    requires k <= PAGES && |answers| == PAGES
    decreases PAGES - k
  {
    if k == PAGES then Refused(PageLimit)
    else if answers[k].None? then Refused(RequestFailed)
    else if |answers[k].value| > PER_PAGE then Refused(InvalidHistory)
    else
      var added := AddRows(rows, answers[k].value);
      if added.Refused? then added
      else if |answers[k].value| < PER_PAGE then added
      else PagesFrom(answers, k + 1, added.value)
  }

  method History(answers: seq<Option<seq<Row>>>) returns (r: Result<seq<Row>>)
    requires |answers| == PAGES
    ensures r == PagesFrom(answers, 0, [])
  {
    hide AddRows, Ids;
    var rows: seq<Row>, seen: set<int> := [], {};
    assert Ids(rows) == {} by {
      IdsNone();
    }
    for page := 0 to PAGES
      invariant seen == Ids(rows)
      invariant PagesFrom(answers, page, rows) == PagesFrom(answers, 0, [])
    {
      if answers[page].None? {
        return Refused(RequestFailed);
      }
      var batch := answers[page].value;
      if |batch| > PER_PAGE {
        return Refused(InvalidHistory);
      }
      ghost var before := rows;
      assert batch[..0] == [];
      AddRowsNone(before);
      for i := 0 to |batch|
        invariant seen == Ids(rows)
        invariant AddRows(before, batch[..i]) == Ok(rows)
      {
        var row := batch[i];
        AddRowsSnoc(before, batch, i);
        if !ValidRow(row) {
          AddRowsStops(before, batch, i + 1);
          return Refused(InvalidStatus);
        }
        if row.id in seen {
          AddRowsStops(before, batch, i + 1);
          return Refused(HistoryChanged);
        }
        seen := seen + {row.id};
        IdsSnoc(rows, row);
        rows := rows + [row];
      }
      assert batch[..|batch|] == batch;
      if |batch| < PER_PAGE {
        return Ok(rows);
      }
    }
    r := Refused(PageLimit);
  }

  lemma IdsNone()
    ensures Ids([]) == {}
  {
  }

  lemma AddRowsNone(rows: seq<Row>)
    ensures AddRows(rows, []) == Ok(rows)
  {
  }

  lemma IdsSnoc(rows: seq<Row>, row: Row)
    ensures Ids(rows + [row]) == Ids(rows) + {row.id}
  {
  }

  lemma AddRowsSnoc(rows: seq<Row>, batch: seq<Row>, i: nat)
    requires i < |batch|
    ensures var front := AddRows(rows, batch[..i]);
            AddRows(rows, batch[..i + 1]) ==
              if front.Refused? then front
              else if !ValidRow(batch[i]) then Refused(InvalidStatus)
              else if batch[i].id in Ids(front.value) then Refused(HistoryChanged)
              else Ok(front.value + [batch[i]])
  {
    assert batch[..i + 1][..i] == batch[..i];
  }

  lemma {:induction false} AddRowsStops(rows: seq<Row>, batch: seq<Row>, i: nat)
    requires i <= |batch| && AddRows(rows, batch[..i]).Refused?
    ensures AddRows(rows, batch) == AddRows(rows, batch[..i])
    decreases |batch| - i
  {
    if i < |batch| {
      AddRowsSnoc(rows, batch, i);
      AddRowsStops(rows, batch, i + 1);
    } else {
      assert batch[..i] == batch;
    }
  }

  ghost predicate Unique(rows: seq<Row>) {
    forall i, j :: 0 <= i < j < |rows| ==> rows[i].id != rows[j].id
  }

  /** The rows of a page are taken exactly when they are valid and all ids are new. */
  lemma {:induction false} AddRowsOk(rows: seq<Row>, batch: seq<Row>)
    requires Unique(rows)
    ensures AddRows(rows, batch).Ok? <==> Unique(rows + batch) && forall r :: r in batch ==> ValidRow(r)
  {
    if batch == [] {
      assert rows + batch == rows;
    } else {
      var front, row := batch[..|batch| - 1], batch[|batch| - 1];
      AddRowsOk(rows, front);
      assert batch == front + [row];
      assert rows + batch == (rows + front) + [row];
      UniqueSnoc(rows + front, row);
    }
  }

  lemma UniqueSnoc(rows: seq<Row>, row: Row)
    ensures Unique(rows + [row]) <==> Unique(rows) && row.id !in Ids(rows)
  {
    var all := rows + [row];
    if Unique(all) {
      forall i, j | 0 <= i < j < |rows| ensures rows[i].id != rows[j].id {
        assert all[i].id != all[j].id;
      }
      assert forall i :: 0 <= i < |rows| ==> all[i] == rows[i] && all[i].id != all[|rows|].id;
    }
  }

  // ---- a history that only grows in front ----

  /** Page `k` of a newest-first history. */
  function Page(history: seq<Row>, k: nat): (p: seq<Row>)
    ensures |p| <= PER_PAGE
  {
    if PER_PAGE * k >= |history| then []
    else if PER_PAGE * (k + 1) >= |history| then history[PER_PAGE * k..]
    else history[PER_PAGE * k..PER_PAGE * (k + 1)]
  }

  /** `states[k]` is the history when page `k` is read: rows are only ever put in front, and
      no id is used twice. */
  ghost predicate GrowsInFront(states: seq<seq<Row>>) {
    && |states| == PAGES
    && (forall k :: 0 <= k < PAGES ==> Unique(states[k]))
    && (forall j, k :: 0 <= j <= k < PAGES ==> Extends(states[j], states[k]))
  }

  ghost predicate Extends(before: seq<Row>, after: seq<Row>) {
    |before| <= |after| && after[|after| - |before|..] == before
  }

  /** The service's answers: some requests may fail. */
  ghost predicate Answers(states: seq<seq<Row>>, answers: seq<Option<seq<Row>>>)
    requires |states| == PAGES
  {
    |answers| == PAGES && forall k :: 0 <= k < PAGES ==> answers[k].None? || answers[k] == Some(Page(states[k], k))
  }

  /** Pages up to `k` were clean: nothing had been added when they were read. */
  lemma {:induction false} Clean(states: seq<seq<Row>>, answers: seq<Option<seq<Row>>>, k: nat, rows: seq<Row>)
    requires GrowsInFront(states) && Answers(states, answers) && k <= PAGES
    requires PER_PAGE * k <= |states[0]| && rows == states[0][..PER_PAGE * k]
    ensures PagesFrom(answers, k, rows).Ok? ==> PagesFrom(answers, k, rows).value == states[0]
    decreases PAGES - k
  {
    if k < PAGES && answers[k].Some? {
      var page := Page(states[k], k);
      assert Extends(states[0], states[k]);
      if |states[k]| == |states[0]| {
        assert states[k] == states[0];
        if |page| == PER_PAGE {
          assert rows + page == states[0][..PER_PAGE * (k + 1)];
          if AddRows(rows, page).Ok? {
            Clean(states, answers, k + 1, rows + page);
          }
        } else {
          assert rows + page == states[0];
        }
      } else {
        Grown(states, answers, k, rows);
      }
    }
  }

  /** Once rows were added behind the reader's back, no answer ever comes: either a page
      overlaps what was read, or whole pages of new rows push the end out of reach. */
  lemma {:induction false} Grown(states: seq<seq<Row>>, answers: seq<Option<seq<Row>>>, k: nat, rows: seq<Row>)
    requires GrowsInFront(states) && Answers(states, answers) && k < PAGES
    requires |states[k]| > |states[0]| && k > 0 && |states[0]| >= PER_PAGE
    requires forall r :: r in states[0][..PER_PAGE] ==> r in rows
    requires Unique(rows)
    requires (|states[k]| - |states[0]| >= PER_PAGE * k) ||
             (PER_PAGE * k <= |states[0]| && rows == states[0][..PER_PAGE * k])
    ensures PagesFrom(answers, k, rows).Refused?
    decreases PAGES - k
  {
    hide AddRows, ValidRow, Ids;
    var added := |states[k]| - |states[0]|;
    if answers[k].Some? {
      var page := Page(states[k], k);
      AddRowsOk(rows, page);
      assert Extends(states[0], states[k]);
      if AddRows(rows, page).Ok? {
        if added < PER_PAGE * (k + 1) {
          Overlap(states[0], states[k], k, rows);
        } else {
          assert |page| == PER_PAGE;
          if k + 1 < PAGES {
            assert Extends(states[k], states[k + 1]);
            Grown(states, answers, k + 1, rows + page);
          }
        }
      }
    }
  }

  /** A page that reaches the old rows after some were added repeats one that was read. */
  lemma Overlap(first: seq<Row>, now: seq<Row>, k: nat, rows: seq<Row>)
    requires Extends(first, now) && Unique(now) && |first| >= PER_PAGE
    requires var added := |now| - |first|; 0 < added < PER_PAGE * (k + 1)
    requires forall r :: r in first[..PER_PAGE] ==> r in rows
    requires (|now| - |first| >= PER_PAGE * k) || (PER_PAGE * k <= |first| && rows == first[..PER_PAGE * k])
    ensures !Unique(rows + Page(now, k))
  {
    var added := |now| - |first|;
    var page := Page(now, k);
    // The first old row the page shows.
    var at := if added >= PER_PAGE * k then added else PER_PAGE * k;
    assert at < |now|;
    assert page[at - PER_PAGE * k] == now[at];
    assert now[at] == first[at - added];
    if added >= PER_PAGE * k {
      assert first[..PER_PAGE][0] == first[0];
      assert first[0] in rows;
    } else {
      assert rows[at - added] == first[at - added];
    }
    var i :| 0 <= i < |rows| && rows[i] == now[at];
    assert (rows + page)[i].id == (rows + page)[|rows| + at - PER_PAGE * k].id;
  }

  /** However often and whenever rows are added in front while it pages, `history` either
      refuses or returns exactly the history as it was when the first page was read. */
  lemma HistoryIsFirstRead(states: seq<seq<Row>>, answers: seq<Option<seq<Row>>>)
    requires GrowsInFront(states) && Answers(states, answers)
    ensures PagesFrom(answers, 0, []).Ok? ==> PagesFrom(answers, 0, []).value == states[0]
  {
    Clean(states, answers, 0, []);
  }

  lemma PageTaken(h: seq<Row>, k: nat)
    requires Unique(h) && PER_PAGE * k <= |h|
    ensures h[..PER_PAGE * k] + Page(h, k) == h[..PER_PAGE * k + |Page(h, k)|]
    ensures AddRows(h[..PER_PAGE * k], Page(h, k)).Ok? <==> forall r :: r in Page(h, k) ==> ValidRow(r)
    ensures forall r :: r in Page(h, k) ==> r in h
    ensures if |Page(h, k)| == PER_PAGE then PER_PAGE * (k + 1) <= |h| else PER_PAGE * k + |Page(h, k)| == |h|
  {
    AddRowsOk(h[..PER_PAGE * k], Page(h, k));
    assert h[..PER_PAGE * k] + Page(h, k) == h[..PER_PAGE * k + |Page(h, k)|];
  }

  ghost predicate Standing(h: seq<Row>, answers: seq<Option<seq<Row>>>) {
    Unique(h) && |answers| == PAGES && forall j :: 0 <= j < PAGES ==> answers[j] == Some(Page(h, j))
  }

  lemma {:induction false} StandingValid(h: seq<Row>, answers: seq<Option<seq<Row>>>, k: nat)
    requires Standing(h, answers) && k <= PAGES && PER_PAGE * k <= |h|
    requires forall r :: r in h ==> ValidRow(r)
    ensures PagesFrom(answers, k, h[..PER_PAGE * k]) == if |h| < PER_PAGE * PAGES then Ok(h) else Refused(PageLimit)
    decreases PAGES - k
  {
    hide AddRows, ValidRow, Page, Unique;
    if k < PAGES {
      PageTaken(h, k);
      if |Page(h, k)| == PER_PAGE {
        StandingValid(h, answers, k + 1);
      } else {
        assert h[..PER_PAGE * k + |Page(h, k)|] == h;
      }
    }
  }

  /** A history that stands still is returned whole exactly when every row is valid and it
      does not fill a thousand pages. */
  lemma StandingHistory(h: seq<Row>, answers: seq<Option<seq<Row>>>)
    requires Standing(h, answers)
    ensures PagesFrom(answers, 0, []) == Ok(h) <==>
            |h| < 100000 && forall r :: r in h ==> r.id > 0 && r.state in {Error, Failure, Pending, Success}
  {
    assert h[..0] == [];
    assert forall r :: ValidRow(r) <==> r.id > 0 && r.state in {Error, Failure, Pending, Success};
    if forall r :: r in h ==> ValidRow(r) {
      StandingValid(h, answers, 0);
    } else {
      assert forall r :: r in [] ==> ValidRow(r);
      PagesValid(answers, 0, []);
    }
  }

  /** Whatever comes back holds valid rows only. */
  lemma {:induction false} PagesValid(answers: seq<Option<seq<Row>>>, k: nat, rows: seq<Row>)
    requires k <= PAGES && |answers| == PAGES && Unique(rows) && forall r :: r in rows ==> ValidRow(r)
    ensures PagesFrom(answers, k, rows).Ok? ==>
              Unique(PagesFrom(answers, k, rows).value) && forall r :: r in PagesFrom(answers, k, rows).value ==> ValidRow(r)
    decreases PAGES - k
  {
    if k < PAGES && answers[k].Some? && |answers[k].value| <= PER_PAGE {
      AddRowsOk(rows, answers[k].value);
      var added := AddRows(rows, answers[k].value);
      if added.Ok? && |answers[k].value| == PER_PAGE {
        PagesValid(answers, k + 1, added.value);
      }
    }
  }

  // ---- any answers at all ----

  /** The rows of the first `n` pages. */
  function Collected(answers: seq<Option<seq<Row>>>, n: nat): (rows: seq<Row>)
    requires n <= |answers| && forall j :: 0 <= j < n ==> answers[j].Some?
  {
    if n == 0 then [] else Collected(answers, n - 1) + answers[n - 1].value
  }

  /** From page `k` on, page `n` is the first that is not full, and `rows` are the rows of
      all pages to there, valid and with no id twice. */
  ghost predicate ReadTo(answers: seq<Option<seq<Row>>>, k: nat, n: int, rows: seq<Row>) {
    && k <= n < 1000 == |answers|
    && (forall j :: 0 <= j <= n ==> answers[j].Some?)
    && (forall j :: k <= j < n ==> |answers[j].value| == 100)
    && |answers[n].value| < 100
    && rows == Collected(answers, n + 1) && Sound(rows)
  }

  ghost predicate Sound(rows: seq<Row>) {
    Unique(rows) && forall r :: r in rows ==> r.id > 0 && r.state in {Error, Failure, Pending, Success}
  }

  lemma UniqueFront(a: seq<Row>, b: seq<Row>)
    requires Unique(a + b)
    ensures Unique(a)
  {
    assert forall i :: 0 <= i < |a| ==> (a + b)[i] == a[i];
  }

  lemma {:induction false} CollectedGrows(answers: seq<Option<seq<Row>>>, k: nat, n: nat)
    requires k <= n <= |answers| && forall j :: 0 <= j < n ==> answers[j].Some?
    ensures Collected(answers, k) <= Collected(answers, n)
  {
    if k < n {
      CollectedGrows(answers, k, n - 1);
    }
  }

  lemma {:induction false} PagesFromExactly(answers: seq<Option<seq<Row>>>, k: nat, rows: seq<Row>)
    requires k <= PAGES == |answers| && (forall j :: 0 <= j < k ==> answers[j].Some?) && Sound(Collected(answers, k))
    ensures PagesFrom(answers, k, Collected(answers, k)) == Ok(rows) <==> exists n :: ReadTo(answers, k, n, rows)
    decreases PAGES - k
  {
    hide AddRows, ValidRow, Sound;
    if k < PAGES && answers[k].Some? && |answers[k].value| <= PER_PAGE {
      var before, page := Collected(answers, k), answers[k].value;
      PageSound(before, page);
      assert Collected(answers, k + 1) == before + page;
      if AddRows(before, page).Refused? {
        forall n | ReadTo(answers, k, n, rows) ensures false {
          CollectedGrows(answers, k + 1, n + 1);
          SoundFront(before + page, rows);
        }
      } else if |page| < PER_PAGE {
        assert rows == before + page ==> ReadTo(answers, k, k, rows);
      } else {
        var next := k + 1;
        PagesFromExactly(answers, next, rows);
        if exists n :: ReadTo(answers, next, n, rows) {
          var n :| ReadTo(answers, next, n, rows);
          assert ReadTo(answers, k, n, rows);
        }
        forall n | ReadTo(answers, k, n, rows) ensures ReadTo(answers, next, n, rows) {
        }
      }
    }
  }

  lemma PageSound(rows: seq<Row>, page: seq<Row>)
    requires Sound(rows)
    ensures AddRows(rows, page).Ok? <==> Sound(rows + page)
  {
    AddRowsOk(rows, page);
    assert forall r :: ValidRow(r) <==> r.id > 0 && r.state in {Error, Failure, Pending, Success};
  }

  lemma SoundFront(a: seq<Row>, b: seq<Row>)
    requires a <= b && Sound(b)
    ensures Sound(a)
  {
    assert b == a + b[|a|..];
    UniqueFront(a, b[|a|..]);
  }

  /** Whatever the answers: a history comes back exactly when full pages are followed by a
      short one within a thousand, with valid rows and no id twice, and it is their rows. */
  lemma PagesExactly(answers: seq<Option<seq<Row>>>, rows: seq<Row>)
    requires |answers| == PAGES
    ensures PagesFrom(answers, 0, []) == Ok(rows) <==> exists n :: ReadTo(answers, 0, n, rows)
  {
    PagesFromExactly(answers, 0, rows);
  }
}
