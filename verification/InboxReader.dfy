/** One turn check of src/cloud/agent-check.ts: the page loop under its body budget, the
    cache write, the presentation, the cursor write, and the deferred cursor commit. */
module InboxReader {
  import opened Basics
  import opened CheckState

  const PREVIEW_CHARS := 1000
  const BODY_BUDGET := 4000

  datatype Message = Message(id: Id, at: int, kind: Kind, body: string, truncated: bool)
  datatype PageError = RecipientMismatch | OrderInvalid
  datatype Taken = Taken(messages: seq<Message>, presented: seq<Row>, cursor: Option<Cursor>)
                 | Invalid(error: PageError)

  function Preview(r: Row, full: bool): (b: string)
    ensures full ==> b == r.body
    ensures !full ==> b <= r.body && |b| == if |r.body| <= 1000 then |r.body| else 1000
  {
    if full || |r.body| <= PREVIEW_CHARS then r.body else r.body[..PREVIEW_CHARS]
  }

  function View(r: Row, full: bool): Message {
    Message(r.id, r.at, r.kind, Preview(r, full), |Preview(r, full)| < |r.body|)
  }

  function Views(rows: seq<Row>, full: bool): (m: seq<Message>)
    ensures |m| == |rows|
    ensures forall i :: 0 <= i < |rows| ==> m[i] == View(rows[i], full)
  {
    seq(|rows|, i requires 0 <= i < |rows| => View(rows[i], full))
  }

  /** Characters of body text shown for `rows`. */
  function Size(rows: seq<Row>, full: bool): nat {
    if rows == [] then 0 else Size(rows[..|rows| - 1], full) + |Preview(rows[|rows| - 1], full)|
  }

  /** The first `n` rows may be shown together: a first row always may, more only within budget. */
  predicate Fits(page: seq<Row>, n: nat, full: bool)
    requires n <= |page|
  {
    n <= 1 || Size(page[..n], full) <= BODY_BUDGET
  }

  /** Row `k` comes after the row before it, the first one after the saved cursor. */
  predicate InOrder(page: seq<Row>, after: Option<Cursor>, k: nat)
    requires k < |page|
  {
    After(page[k], if k == 0 then after else Some(CursorOf(page[k - 1])))
  }

  predicate RowOk(page: seq<Row>, after: Option<Cursor>, k: nat)
    requires k < |page|
  {
    page[k].ours && InOrder(page, after, k)
  }

  function TakeFrom(page: seq<Row>, after: Option<Cursor>, full: bool, n: nat): (t: Taken)
    requires n <= |page|
    decreases |page| - n
  {
    if n == |page| then Prefix(page, after, full, n)
    else if !page[n].ours then Invalid(RecipientMismatch)
    else if !InOrder(page, after, n) then Invalid(OrderInvalid)
    else if n > 0 && |Preview(page[n], full)| > BODY_BUDGET - Size(page[..n], full) then Prefix(page, after, full, n)
    else TakeFrom(page, after, full, n + 1)
  }

  function Prefix(page: seq<Row>, after: Option<Cursor>, full: bool, n: nat): Taken
    requires n <= |page|
  {
    Taken(Views(page[..n], full), page[..n], if n == 0 then after else Some(CursorOf(page[n - 1])))
  }

  function Take(page: seq<Row>, after: Option<Cursor>, full: bool): (t: Taken) {
    TakeFrom(page, after, full, 0)
  }

  /** A page is taken up to the longest prefix that fits, or refused because of the first
      examined row that is foreign or out of order; a row is examined when all rows before
      it fit. */
  ghost predicate TakenRight(page: seq<Row>, after: Option<Cursor>, full: bool, t: Taken) {
    match t
    case Taken(messages, presented, cursor) =>
      var n := |presented|;
      && n <= |page|
      && t == Prefix(page, after, full, n)
      && Fits(page, n, full)
      && (n < |page| ==> n > 0 && !Fits(page, n + 1, full) && RowOk(page, after, n))
      && forall k :: 0 <= k < n ==> RowOk(page, after, k)
    case Invalid(e) =>
      exists k :: 0 <= k < |page| && Fits(page, k, full) && FirstBad(page, after, k) &&
                  e == if page[k].ours then OrderInvalid else RecipientMismatch
  }

  ghost predicate FirstBad(page: seq<Row>, after: Option<Cursor>, k: nat)
    requires k < |page|
  {
    !RowOk(page, after, k) && forall j :: 0 <= j < k ==> RowOk(page, after, j)
  }

  lemma SizeNil(page: seq<Row>, full: bool)
    ensures Size(page[..0], full) == 0
  {
  }

  lemma SizeSnoc(page: seq<Row>, n: nat, full: bool)
    requires n < |page|
    ensures Size(page[..n + 1], full) == Size(page[..n], full) + |Preview(page[n], full)|
  {
    assert page[..n + 1][..n] == page[..n];
  }

  lemma PrefixSnoc(page: seq<Row>, after: Option<Cursor>, full: bool, n: nat)
    requires n < |page|
    ensures Prefix(page, after, full, n + 1) ==
            Taken(Views(page[..n], full) + [View(page[n], full)], page[..n] + [page[n]], Some(CursorOf(page[n])))
  {
    assert page[..n + 1] == page[..n] + [page[n]];
    assert Views(page[..n + 1], full) == Views(page[..n], full) + [View(page[n], full)];
  }

  lemma {:induction false} TakeFromRight(page: seq<Row>, after: Option<Cursor>, full: bool, n: nat)
    requires n <= |page| && Fits(page, n, full) && forall k :: 0 <= k < n ==> RowOk(page, after, k)
    ensures TakenRight(page, after, full, TakeFrom(page, after, full, n))
    decreases |page| - n
  {
    hide Size, Preview, InOrder;
    if n < |page| {
      SizeSnoc(page, n, full);
      if !RowOk(page, after, n) {
        assert FirstBad(page, after, n);
      } else if !(n > 0 && |Preview(page[n], full)| > BODY_BUDGET - Size(page[..n], full)) {
        TakeFromRight(page, after, full, n + 1);
      }
    }
  }

  lemma TakeRight(page: seq<Row>, after: Option<Cursor>, full: bool)
    ensures TakenRight(page, after, full, Take(page, after, full))
  {
    TakeFromRight(page, after, full, 0);
  }

  /** Every message is its row's: id, time, kind, and the whole body on a full check or its
      first thousand characters, marked when that is not all. */
  ghost predicate ShowsRow(m: Message, r: Row, full: bool) {
    && m.id == r.id && m.at == r.at && m.kind == r.kind
    && m.body <= r.body && (m.truncated <==> m.body != r.body)
    && |m.body| == if full || |r.body| <= 1000 then |r.body| else 1000
  }

  function TotalShown(messages: seq<Message>): (n: nat) {
    if messages == [] then 0 else TotalShown(messages[..|messages| - 1]) + |messages[|messages| - 1].body|
  }

  /** How much a row would show. */
  function Length(r: Row, full: bool): nat {
    if full || |r.body| <= 1000 then |r.body| else 1000
  }

  /** A page taken shows a prefix of its rows, each as it should, moves the cursor to the last
      of them, keeps to 4000 characters when it shows more than one, and stops only where the
      next row would not fit. */
  lemma TakenShows(page: seq<Row>, after: Option<Cursor>, full: bool)
    requires Take(page, after, full).Taken?
    ensures var t := Take(page, after, full);
            var n := |t.messages|;
            && n <= |page| && t.presented == page[..n] && (page != [] ==> n > 0)
            && (forall k :: 0 <= k < n ==> ShowsRow(t.messages[k], page[k], full))
            && t.cursor == (if n == 0 then after else Some(Cursor(page[n - 1].at, page[n - 1].id)))
            && (n > 1 ==> TotalShown(t.messages) <= 4000)
            && (n < |page| ==> TotalShown(t.messages) + Length(page[n], full) > 4000)
  {
    TakeRight(page, after, full);
    var n := |Take(page, after, full).presented|;
    SizeIsTotal(page, n, full);
    if n < |page| {
      SizeSnoc(page, n, full);
    }
  }

  lemma {:induction false} SizeIsTotal(page: seq<Row>, n: nat, full: bool)
    requires n <= |page|
    ensures TotalShown(Views(page[..n], full)) == Size(page[..n], full)
  {
    if n > 0 {
      SizeIsTotal(page, n - 1, full);
      SizeSnoc(page, n - 1, full);
      assert Views(page[..n], full)[..n - 1] == Views(page[..n - 1], full);
    }
  }

  /** The page loop. */
  method TakePage(page: seq<Row>, after: Option<Cursor>, full: bool) returns (t: Taken)
    ensures t == Take(page, after, full)
  {
    hide Size, Views;
    assert Size(page[..0], full) == 0 && Views(page[..0], full) == [] by {
      SizeNil(page, full);
    }
    var messages: seq<Message>, presented: seq<Row> := [], [];
    var budget, cursor, consumed := BODY_BUDGET, after, 0;
    while consumed < |page|
      invariant consumed <= |page|
      invariant Taken(messages, presented, cursor) == Prefix(page, after, full, consumed)
      invariant budget == BODY_BUDGET - Size(page[..consumed], full)
      invariant TakeFrom(page, after, full, consumed) == Take(page, after, full)
    {
      var row := page[consumed];
      if !row.ours {
        return Invalid(RecipientMismatch);
      }
      if !After(row, cursor) {
        return Invalid(OrderInvalid);
      }
      var body := Preview(row, full);
      if |messages| > 0 && |body| > budget {
        break;
      }
      SizeSnoc(page, consumed, full);
      PrefixSnoc(page, after, full, consumed);
      messages := messages + [Message(row.id, row.at, row.kind, body, |body| < |row.body|)];
      presented := presented + [row];
      budget := budget - |body|;
      cursor := Some(CursorOf(row));
      consumed := consumed + 1;
    }
    t := Taken(messages, presented, cursor);
  }

  // ---- the saved state ----

  predicate HasId(rows: seq<Row>, id: Id) {
    exists r :: r in rows && r.id == id
  }

  /** Cached rows whose id is not among `rows`. */
  function Others(cached: seq<Row>, rows: seq<Row>): (r: seq<Row>) {
    if cached == [] then []
    else
      var rest := Others(cached[..|cached| - 1], rows);
      if HasId(rows, cached[|cached| - 1].id) then rest else rest + [cached[|cached| - 1]]
  }

  function CachedState(s: State, presented: seq<Row>): (r: State) {
    s.(messages := Newest(Others(s.messages, presented) + presented))
  }

  function CommittedState(s: State, cursor: Option<Cursor>, rows: seq<Row>): (r: State) {
    var pending := Enqueue(s.pending, DirectedIds(rows));
    s.(cursor := cursor, pending := pending, retries := QueuedRetries(s.retries, pending))
  }

  /** Where a check stops: nothing more of it happens after that point. */
  datatype Fate = ReadFails | CacheFails | PresentFails | CommitFails | Completes

  datatype Report = Failed | Refused(error: PageError) | Presented(messages: seq<Message>, hasMore: bool)

  function FileAfterCheck(s: State, t: Taken, deferred: bool, fate: Fate): (r: State) {
    if t.Invalid? || t.presented == [] || fate.ReadFails? || fate.CacheFails? then s
    else if fate.PresentFails? || fate.CommitFails? || deferred then CachedState(s, t.presented)
    else CommittedState(CachedState(s, t.presented), t.cursor, t.presented)
  }

  function ReportOf(page: seq<Row>, rawCount: nat, t: Taken, fate: Fate): Report {
    if fate.ReadFails? then Failed
    else if t.Invalid? then Refused(t.error)
    else if fate.CacheFails? || fate.PresentFails? then Failed
    else Presented(t.messages, |t.presented| < |page| || rawCount >= PAGE_SIZE)
  }

  function IndexOfId(rows: seq<Row>, id: Id, i: nat): (k: Option<nat>)
    requires i <= |rows|
    ensures k.Some? ==> i <= k.value < |rows| && rows[k.value].id == id
    ensures k.Some? ==> forall j :: i <= j < k.value ==> rows[j].id != id
    ensures k.None? ==> forall j :: i <= j < |rows| ==> rows[j].id != id
    decreases |rows| - i
  {
    if i == |rows| then None else if rows[i].id == id then Some(i) else IndexOfId(rows, id, i + 1)
  }

  function FileAfterCommit(s: State, presented: seq<Row>, lastVisible: Id): (r: State) {
    var k := IndexOfId(presented, lastVisible, 0);
    if k.Some? && After(presented[k.value], s.cursor)
    then CommittedState(s, Some(CursorOf(presented[k.value])), presented[..k.value + 1])
    else s
  }

  lemma CachedSound(s: State, presented: seq<Row>)
    requires Sound(s)
    ensures Sound(CachedState(s, presented))
  {
  }

  lemma CommittedSound(s: State, cursor: Option<Cursor>, rows: seq<Row>)
    requires Sound(s)
    ensures Sound(CommittedState(s, cursor, rows))
  {
    EnqueueKeeps(s.pending, DirectedIds(rows));
  }

  /** The whole of what is about to be shown is in the cache by then. */
  lemma CachedHolds(s: State, presented: seq<Row>)
    requires |presented| <= CACHE_LIMIT
    ensures forall r :: r in presented ==> r in CachedState(s, presented).messages
  {
    var all := Others(s.messages, presented) + presented;
    forall r | r in presented ensures r in Newest(all) {
      var k :| 0 <= k < |presented| && presented[k] == r;
      assert all[|all| - |presented| + k] == r;
      NewestKeepsTail(all, |all| - |presented| + k);
    }
  }

  lemma {:induction false} OthersConcat(a: seq<Row>, b: seq<Row>, rows: seq<Row>)
    ensures Others(a + b, rows) == Others(a, rows) + Others(b, rows)
  {
    hide HasId;
    if b == [] {
      assert a + b == a;
    } else {
      assert (a + b)[..|a + b| - 1] == a + b[..|b| - 1];
      OthersConcat(a, b[..|b| - 1], rows);
    }
  }

  lemma OtherOne(r: Row, rows: seq<Row>)
    ensures Others([r], rows) == if exists x :: x in rows && x.id == r.id then [] else [r]
  {
    assert [r][..0] == [];
    assert Others([], rows) == [];
  }

  /** What the cache held stays, in order and before the new rows, but for older copies of
      them: as a whole if it fits, without the oldest if not. */
  lemma CacheKeeps(s: State, before: seq<Row>, r: Row, after: seq<Row>, presented: seq<Row>)
    requires s.messages == before + [r] + after && forall x :: x in presented ==> x.id != r.id
    ensures |s.messages| + |presented| <= 200 ==>
              CachedState(s, presented).messages == Others(before, presented) + [r] + Others(after, presented) + presented
    ensures |presented| <= 200 ==>
              var m := CachedState(s, presented).messages;
              |m| >= |presented| && m[|m| - |presented|..] == presented
  {
    OthersConcat(before + [r], after, presented);
    OthersConcat(before, [r], presented);
    OtherOne(r, presented);
    OthersShorter(s.messages, presented);
    assert (Others(before, presented) + [r]) + Others(after, presented) == Others(s.messages, presented);
  }

  lemma {:induction false} OthersShorter(cached: seq<Row>, rows: seq<Row>)
    ensures |Others(cached, rows)| <= |cached|
  {
    if cached != [] {
      OthersShorter(cached[..|cached| - 1], rows);
    }
  }

  /** `check.json` and the two ways a check writes it, both under the file lock. */
  class CheckStore {
    var file: State

    ghost predicate Valid()
      reads this
    {
      Sound(file)
    }

    constructor ()
      ensures Valid() && file == EMPTY
    {
      file := EMPTY;
    }

    /** One locked check on the page the service answered with. */
    method Check(page: seq<Row>, rawCount: nat, full: bool, deferred: bool, fate: Fate) returns (report: Report)
      requires Valid()
      modifies this
      ensures Valid()
      ensures file == FileAfterCheck(old(file), Take(page, old(file.cursor), full), deferred, fate)
      ensures report == ReportOf(page, rawCount, Take(page, old(file.cursor), full), fate)
      ensures report.Presented? <==> Take(page, old(file.cursor), full).Taken? && (fate.CommitFails? || fate.Completes?)
      ensures report.Presented? ==>
                var n := |report.messages|;
                && n <= |page| && (forall k :: 0 <= k < n ==> ShowsRow(report.messages[k], page[k], full))
                && (report.hasMore <==> n < |page| || rawCount >= 20)
                && (n > 0 && !deferred && fate.Completes? ==> file.cursor == Some(Cursor(page[n - 1].at, page[n - 1].id)))
      ensures !report.Presented? || deferred || !fate.Completes? ==>
                file.cursor == old(file.cursor) && file.pending == old(file.pending)
      ensures fate.ReadFails? || fate.CacheFails? || report.Refused? ==> file == old(file)
    {
      if fate.ReadFails? {
        return Failed;
      }
      var t := TakePage(page, file.cursor, full);
      if t.Taken? {
        TakenShows(page, file.cursor, full);
      }
      if t.Invalid? {
        return Refused(t.error);
      }
      if fate.CacheFails? {
        return Failed;
      }
      var cached := CachedState(file, t.presented);
      if |t.presented| > 0 {
        CachedSound(file, t.presented);
        file := cached;
      }
      if fate.PresentFails? {
        return Failed;
      }
      var hasMore := |t.presented| < |page| || rawCount >= PAGE_SIZE;
      report := Presented(t.messages, hasMore);
      if |t.presented| > 0 && !deferred && fate.Completes? {
        CommittedSound(cached, t.cursor, t.presented);
        var pending := Enqueue(cached.pending, DirectedIds(t.presented));
        file := cached.(cursor := t.cursor, pending := pending, retries := QueuedRetries(cached.retries, pending));
      }
    }

    /** The deferred commit of an earlier check's rows, up to the last visible one. */
    method Commit(presented: seq<Row>, lastVisible: Id, lands: bool)
      requires Valid()
      modifies this
      ensures Valid()
      ensures file == if lands then FileAfterCommit(old(file), presented, lastVisible) else old(file)
    {
      var k := 0;
      while k < |presented| && presented[k].id != lastVisible
        invariant k <= |presented|
        invariant IndexOfId(presented, lastVisible, k) == IndexOfId(presented, lastVisible, 0)
      {
        k := k + 1;
      }
      if k < |presented| && After(presented[k], file.cursor) && lands {
        CommittedSound(file, Some(CursorOf(presented[k])), presented[..k + 1]);
        var pending := Enqueue(file.pending, DirectedIds(presented[..k + 1]));
        file := file.(cursor := Some(CursorOf(presented[k])), pending := pending,
                      retries := QueuedRetries(file.retries, pending));
      }
    }
  }
}
