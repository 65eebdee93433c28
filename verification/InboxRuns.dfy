/** Any sequence of arrivals, checks stopped at any point, deferred commits and queue
    writes: what is shown, cached, queued and left behind the saved cursor. */
module InboxRuns {
  import opened Basics
  import opened CheckState
  import opened InboxReader

  /** What happened, in order: rows `[start, end)` of the inbox were cached, offered to the
      host by a check, or visibly shown; a cursor write for the rows before `end` landed. */
  datatype Event = Cached(start: nat, end: nat) | Offered(start: nat, end: nat)
                 | Shown(start: nat, end: nat) | Landed(end: nat)

  /** A deferred check whose commit has not been called yet. */
  datatype Offer = Offer(start: nat, end: nat)

  /** `queued` collects every id that was ever in the acknowledgement queue. */
  datatype World = World(inbox: seq<Row>, file: State, offers: seq<Offer>, log: seq<Event>, queued: set<Id>)

  datatype Step =
    | Arrive(row: Row)
    | Check(full: bool, deferred: bool, fate: Fate)
    | Commit(offer: nat, lastVisible: Id, lands: bool)
    | QueueWrite(file: State)

  // ---- the service ----

  /** The inbox is ordered by cursor, names rows uniquely and holds only this agent's rows. */
  ghost predicate Feed(inbox: seq<Row>) {
    && (forall i, j :: 0 <= i < j < |inbox| ==> Before(CursorOf(inbox[i]), CursorOf(inbox[j])))
    && (forall i, j :: 0 <= i < j < |inbox| ==> inbox[i].id != inbox[j].id)
    && (forall i :: 0 <= i < |inbox| ==> inbox[i].ours)
  }

  /** Rows strictly after the cursor, as the service selects them. */
  function Rest(inbox: seq<Row>, c: Option<Cursor>): (r: seq<Row>) {
    if inbox == [] then []
    else
      var front := Rest(inbox[..|inbox| - 1], c);
      if After(inbox[|inbox| - 1], c) then front + [inbox[|inbox| - 1]] else front
  }

  /** One page: at most twenty rows. */
  function Page(inbox: seq<Row>, c: Option<Cursor>): (r: seq<Row>) {
    var rest := Rest(inbox, c);
    if |rest| <= PAGE_SIZE then rest else rest[..PAGE_SIZE]
  }

  /** The cursor stands just behind the first `p` rows. */
  ghost predicate StandsAt(inbox: seq<Row>, c: Option<Cursor>, p: nat) {
    p <= |inbox| && c == if p == 0 then None else Some(CursorOf(inbox[p - 1]))
  }

  /** How many rows lie at or before the cursor. */
  function Position(inbox: seq<Row>, c: Option<Cursor>): int {
    |inbox| - |Rest(inbox, c)|
  }

  lemma {:induction false} RestIsSuffix(inbox: seq<Row>, c: Option<Cursor>, p: nat)
    requires Feed(inbox) && StandsAt(inbox, c, p)
    ensures Rest(inbox, c) == inbox[p..] && Position(inbox, c) == p
  {
    hide Feed, Rest;
    RestPrefix(inbox, c, p, |inbox|);
    assert inbox[..|inbox|] == inbox;
    assert inbox[p..|inbox|] == inbox[p..];
  }

  lemma {:induction false} RestPrefix(inbox: seq<Row>, c: Option<Cursor>, p: nat, n: nat)
    requires Feed(inbox) && StandsAt(inbox, c, p) && n <= |inbox|
    ensures p <= |inbox|
    ensures Rest(inbox[..n], c) == if n <= p then [] else inbox[p..n]
  {
    hide Feed, After;
    if n > 0 {
      RestPrefix(inbox, c, p, n - 1);
      RestSnoc(inbox, c, n);
      AfterExactly(inbox, c, p, n - 1);
      if n > p {
        assert inbox[p..n] == (if n - 1 <= p then [] else inbox[p..n - 1]) + [inbox[n - 1]];
      }
    }
  }

  lemma RestSnoc(inbox: seq<Row>, c: Option<Cursor>, n: nat)
    requires 0 < n <= |inbox|
    ensures Rest(inbox[..n], c) == Rest(inbox[..n - 1], c) + if After(inbox[n - 1], c) then [inbox[n - 1]] else []
  {
    hide After;
    assert inbox[..n][..n - 1] == inbox[..n - 1];
    assert inbox[..n][n - 1] == inbox[n - 1];
  }

  lemma AfterExactly(inbox: seq<Row>, c: Option<Cursor>, p: nat, i: nat)
    requires Feed(inbox) && StandsAt(inbox, c, p) && i < |inbox|
    ensures After(inbox[i], c) <==> p <= i
  {
    if 0 < p <= i {
      assert Before(CursorOf(inbox[p - 1]), CursorOf(inbox[i]));
    } else if i + 1 < p {
      assert Before(CursorOf(inbox[i]), CursorOf(inbox[p - 1]));
    }
  }

  // ---- steps ----

  ghost predicate Enabled(w: World, s: Step) {
    match s
    case Arrive(row) => Feed(w.inbox + [row])
    case Check(_, _, _) => true
    case Commit(k, _, _) => k < |w.offers| && w.offers[k].start <= w.offers[k].end <= |w.inbox|
    case QueueWrite(file) => QueueWriteOk(w.file, file)
  }

  /** The acknowledgement queue's writes drop ids and change retry records; they keep the
      cursor and the cache. */
  ghost predicate QueueWriteOk(s: State, t: State) {
    && t.cursor == s.cursor && t.messages == s.messages
    && Sound(t)
    && forall id :: id in t.pending ==> id in s.pending
  }

  ghost function Presented(w: World, full: bool): Taken {
    Take(Page(w.inbox, w.file.cursor), w.file.cursor, full)
  }

  ghost function CheckEvents(p: nat, n: nat, deferred: bool, fate: Fate): seq<Event> {
    if n == 0 || fate.ReadFails? || fate.CacheFails? then []
    else if fate.PresentFails? then [Cached(p, p + n)]
    else if deferred then [Cached(p, p + n), Offered(p, p + n)]
    else if fate.CommitFails? then [Cached(p, p + n), Offered(p, p + n), Shown(p, p + n)]
    else [Cached(p, p + n), Offered(p, p + n), Shown(p, p + n), Landed(p + n)]
  }

  ghost function Apply(w: World, s: Step): (r: World)
    requires Enabled(w, s)
  {
    match s
    case Arrive(row) => w.(inbox := w.inbox + [row])
    case Check(full, deferred, fate) =>
      var t := Presented(w, full);
      if t.Invalid? || Position(w.inbox, w.file.cursor) < 0 then w
      else
        var p, n := Position(w.inbox, w.file.cursor), |t.presented|;
        var file := FileAfterCheck(w.file, t, deferred, fate);
        World(w.inbox, file,
              if deferred && n > 0 && (fate.CommitFails? || fate.Completes?) then w.offers + [Offer(p, p + n)] else w.offers,
              w.log + CheckEvents(p, n, deferred, fate),
              w.queued + set id | id in file.pending)
    case Commit(k, lastVisible, lands) =>
      var o := w.offers[k];
      var rows := w.inbox[o.start..o.end];
      var v := IndexOfId(rows, lastVisible, 0);
      if v.None? then w
      else
        var file := if lands then FileAfterCommit(w.file, rows, lastVisible) else w.file;
        var end := o.start + v.value + 1;
        World(w.inbox, file, w.offers,
              w.log + [Shown(o.start, end)] + (if file.cursor == w.file.cursor then [] else [Landed(end)]),
              w.queued + set id | id in file.pending)
    case QueueWrite(file) => w.(file := file)
  }

  // ---- the invariant ----

  /** Row `i` of the inbox is inside one of the first `n` visible segments. */
  ghost predicate SeenBy(log: seq<Event>, n: nat, i: nat)
    requires n <= |log|
  {
    exists k :: 0 <= k < n && log[k].Shown? && log[k].start <= i < log[k].end
  }

  /** Each visible segment starts at the first row not seen yet or earlier. */
  ghost predicate NoGap(log: seq<Event>) {
    forall k, i :: 0 <= k < |log| && log[k].Shown? && 0 <= i < log[k].start ==> SeenBy(log, k, i)
  }

  /** A check never offers a row again once a cursor write past that row has landed. */
  ghost predicate NoRepeat(log: seq<Event>) {
    forall j, k :: 0 <= j < k < |log| && log[j].Landed? && log[k].Offered? ==> log[j].end <= log[k].start
  }

  /** Everything offered had just been cached in full. */
  ghost predicate CachedFirst(log: seq<Event>) {
    forall k :: 0 <= k < |log| && log[k].Offered? ==> k > 0 && log[k - 1] == Cached(log[k].start, log[k].end)
  }

  ghost predicate LandedBefore(log: seq<Event>, p: nat) {
    forall k :: 0 <= k < |log| && log[k].Landed? ==> log[k].end <= p
  }

  ghost predicate AllSeen(log: seq<Event>, p: nat) {
    forall i :: 0 <= i < p ==> SeenBy(log, |log|, i)
  }

  /** The id is that of an ask or note among the first `p` rows. */
  ghost predicate DirectedBefore(inbox: seq<Row>, p: nat, id: Id) {
    exists i :: 0 <= i < p && i < |inbox| && (inbox[i].kind == Ask || inbox[i].kind == Note) && inbox[i].id == id
  }

  /** The ids that have been in the acknowledgement queue are exactly those of the asks and
      notes at or before the cursor. */
  ghost predicate AllQueued(w: World, p: nat)
    requires p <= |w.inbox|
  {
    && (forall id :: DirectedBefore(w.inbox, p, id) <==> id in w.queued)
    && (forall id :: id in w.file.pending ==> id in w.queued)
  }

  ghost predicate OffersBehind(w: World, p: nat) {
    forall k :: 0 <= k < |w.offers| ==>
      w.offers[k].start <= p && w.offers[k].start < w.offers[k].end <= |w.inbox| &&
      w.offers[k].end <= w.offers[k].start + PAGE_SIZE
  }

  ghost predicate LogInv(log: seq<Event>, p: nat) {
    AllSeen(log, p) && NoGap(log) && NoRepeat(log) && CachedFirst(log) && LandedBefore(log, p)
  }

  ghost predicate Inv(w: World, p: nat) {
    && Feed(w.inbox)
    && StandsAt(w.inbox, w.file.cursor, p)
    && Sound(w.file)
    && LogInv(w.log, p)
    && OffersBehind(w, p)
    && AllQueued(w, p)
  }

  const INITIAL := World([], EMPTY, [], [], {})

  lemma InitialInv()
    ensures Inv(INITIAL, 0)
  {
  }

  // ---- one event at a time ----

  lemma SeenByMore(log: seq<Event>, e: Event, n: nat, i: nat)
    requires n <= |log| && SeenBy(log, n, i)
    ensures SeenBy(log + [e], n, i)
    ensures SeenBy(log + [e], |log| + 1, i)
  {
    var k :| 0 <= k < n && log[k].Shown? && log[k].start <= i < log[k].end;
    assert (log + [e])[k] == log[k];
  }

  lemma NoGapMore(log: seq<Event>, e: Event, p: nat)
    requires NoGap(log) && AllSeen(log, p) && (e.Shown? ==> e.start <= p)
    ensures NoGap(log + [e]) && AllSeen(log + [e], p)
  {
    var next := log + [e];
    forall k, i | 0 <= k < |next| && next[k].Shown? && 0 <= i < next[k].start ensures SeenBy(next, k, i) {
      assert SeenBy(log, k, i);
      SeenByMore(log, e, k, i);
    }
    forall i | 0 <= i < p ensures SeenBy(next, |next|, i) {
      SeenByMore(log, e, |log|, i);
    }
  }

  lemma AddCached(log: seq<Event>, p: nat, start: nat, end: nat)
    requires LogInv(log, p)
    ensures LogInv(log + [Cached(start, end)], p)
  {
    NoGapMore(log, Cached(start, end), p);
  }

  lemma AddOffered(log: seq<Event>, p: nat, end: nat)
    requires LogInv(log, p) && log != [] && log[|log| - 1] == Cached(p, end)
    ensures LogInv(log + [Offered(p, end)], p)
  {
    NoGapMore(log, Offered(p, end), p);
  }

  lemma AddShown(log: seq<Event>, p: nat, start: nat, end: nat)
    requires LogInv(log, p) && start <= p
    ensures LogInv(log + [Shown(start, end)], p)
    ensures p <= end ==> AllSeen(log + [Shown(start, end)], end)
  {
    var next := log + [Shown(start, end)];
    NoGapMore(log, Shown(start, end), p);
    if p <= end {
      forall i | 0 <= i < end ensures SeenBy(next, |next|, i) {
        if i >= start {
          assert next[|log|] == Shown(start, end);
        }
      }
    }
  }

  lemma AddLanded(log: seq<Event>, p: nat, end: nat)
    requires LogInv(log, p) && p <= end && AllSeen(log, end)
    ensures LogInv(log + [Landed(end)], end)
  {
    NoGapMore(log, Landed(end), end);
  }

  // ---- steps keep the invariant ----

  /** On this inbox the page loop never refuses, always makes progress when something is
      left, and presents the rows right behind the cursor. */
  lemma HonestTake(w: World, p: nat, full: bool) returns (n: nat)
    requires Feed(w.inbox) && StandsAt(w.inbox, w.file.cursor, p)
    ensures var t := Presented(w, full);
            && t.Taken? && p + n <= |w.inbox| && n <= PAGE_SIZE
            && t.presented == w.inbox[p..p + n]
            && StandsAt(w.inbox, t.cursor, p + n)
            && (p < |w.inbox| ==> n > 0)
            && |Page(w.inbox, w.file.cursor)| == (if |w.inbox| - p <= PAGE_SIZE then |w.inbox| - p else PAGE_SIZE)
    ensures Position(w.inbox, w.file.cursor) == p
  {
    hide Feed, TakeFrom, Fits, RowOk;
    RestIsSuffix(w.inbox, w.file.cursor, p);
    var page := Page(w.inbox, w.file.cursor);
    assert page == w.inbox[p..p + |page|];
    TakeRight(page, w.file.cursor, full);
    PageRowsOk(w.inbox, w.file.cursor, p, page);
    var t := Presented(w, full);
    n := |t.presented|;
    assert w.inbox[p..p + |page|][..n] == w.inbox[p..p + n];
  }

  lemma PageRowsOk(inbox: seq<Row>, c: Option<Cursor>, p: nat, page: seq<Row>)
    requires Feed(inbox) && StandsAt(inbox, c, p) && p + |page| <= |inbox| && page == inbox[p..p + |page|]
    ensures forall k :: 0 <= k < |page| ==> RowOk(page, c, k)
  {
    forall k | 0 <= k < |page| ensures RowOk(page, c, k) {
      AfterExactly(inbox, c, p, p + k);
      assert page[k] == inbox[p + k];
      if k > 0 {
        assert Before(CursorOf(inbox[p + k - 1]), CursorOf(inbox[p + k]));
      }
    }
  }

  /** Ids of newly passed rows are queued when the cursor passes them. */
  lemma PassedAreQueued(w: World, p: nat, start: nat, end: nat, s: State, cursor: Option<Cursor>, next: World)
    requires start <= p <= end <= |w.inbox| && end <= start + PAGE_SIZE
    requires AllQueued(w, p) && Sound(w.file) && s.pending == w.file.pending
    requires next.inbox == w.inbox && next.file == CommittedState(s, cursor, w.inbox[start..end])
    requires next.queued == w.queued + set id | id in next.file.pending
    ensures AllQueued(next, end)
  {
    hide CommittedState, AllQueued;
    CommittedPending(s, cursor, w.inbox[start..end]);
    forall id ensures DirectedBefore(next.inbox, end, id) <==> id in next.queued {
      PassedIsQueued(w, p, start, end, next, id);
    }
    forall id | id in next.file.pending ensures id in next.queued {
    }
    AllQueuedIs(next, end);
  }

  lemma AllQueuedIs(w: World, p: nat)
    requires p <= |w.inbox|
    requires forall id :: DirectedBefore(w.inbox, p, id) <==> id in w.queued
    requires forall id :: id in w.file.pending ==> id in w.queued
    ensures AllQueued(w, p)
  {
  }

  lemma CommittedPending(s: State, cursor: Option<Cursor>, rows: seq<Row>)
    requires Distinct(s.pending) && |rows| <= PAGE_SIZE
    ensures var pending := CommittedState(s, cursor, rows).pending;
            && (forall id :: id in pending ==> id in s.pending || id in DirectedIds(rows))
            && (forall id :: id in DirectedIds(rows) ==> id in pending || id in s.pending)
  {
    EnqueueKeeps(s.pending, DirectedIds(rows));
  }

  /** One id: passed as an ask or note exactly if it has been queued. */
  lemma PassedIsQueued(w: World, p: nat, start: nat, end: nat, next: World, id: Id)
    requires start <= p <= end <= |w.inbox| && AllQueued(w, p)
    requires next.inbox == w.inbox && next.queued == w.queued + set x | x in next.file.pending
    requires id in next.file.pending ==> id in w.file.pending || id in DirectedIds(w.inbox[start..end])
    requires id in DirectedIds(w.inbox[start..end]) ==> id in next.file.pending || id in w.file.pending
    ensures DirectedBefore(next.inbox, end, id) <==> id in next.queued
  {
    hide DirectedIds;
    DirectedBetween(w.inbox, p, start, end, id);
    assert id in next.queued <==> id in w.queued || id in next.file.pending;
  }

  lemma DirectedBetween(inbox: seq<Row>, p: nat, start: nat, end: nat, id: Id)
    requires start <= p <= end <= |inbox|
    ensures DirectedBefore(inbox, p, id) || id in DirectedIds(inbox[start..end]) <==> DirectedBefore(inbox, end, id)
  {
    var rows := inbox[start..end];
    if id in DirectedIds(rows) {
      var r :| r in rows && Directed(r) && r.id == id;
      var i :| 0 <= i < |rows| && rows[i] == r;
      assert inbox[start + i] == r;
    }
    if DirectedBefore(inbox, end, id) {
      var i :| 0 <= i < end && Directed(inbox[i]) && inbox[i].id == id;
      if p <= i {
        assert rows[i - start] == inbox[i];
      }
    }
  }

  lemma CheckLogKeeps(log: seq<Event>, p: nat, n: nat, deferred: bool, fate: Fate)
    requires LogInv(log, p)
    ensures LogInv(log + CheckEvents(p, n, deferred, fate), if fate.Completes? && !deferred then p + n else p)
  {
    if n == 0 || fate.ReadFails? || fate.CacheFails? {
      assert log + [] == log;
    } else {
      var cached := log + [Cached(p, p + n)];
      AddCached(log, p, p, p + n);
      if !fate.PresentFails? {
        var offered := cached + [Offered(p, p + n)];
        AddOffered(cached, p, p + n);
        assert offered == log + [Cached(p, p + n), Offered(p, p + n)];
        if !deferred {
          OfferedLogKeeps(log, offered, p, n, fate);
        }
      }
    }
  }

  lemma OfferedLogKeeps(log: seq<Event>, offered: seq<Event>, p: nat, n: nat, fate: Fate)
    requires LogInv(offered, p) && offered == log + [Cached(p, p + n), Offered(p, p + n)] && n > 0
    requires fate.CommitFails? || fate.Completes?
    ensures LogInv(log + CheckEvents(p, n, false, fate), if fate.Completes? then p + n else p)
  {
    var shown := offered + [Shown(p, p + n)];
    AddShown(offered, p, p, p + n);
    if fate.Completes? {
      AddLanded(shown, p, p + n);
      assert shown + [Landed(p + n)] == log + CheckEvents(p, n, false, fate);
    } else {
      assert shown == log + CheckEvents(p, n, false, fate);
    }
  }

  lemma CheckKeeps(w: World, p: nat, full: bool, deferred: bool, fate: Fate) returns (p': nat)
    requires Inv(w, p)
    ensures p <= p' && Inv(Apply(w, Check(full, deferred, fate)), p')
    ensures p' == p || (fate.Completes? && !deferred)
    ensures fate.Completes? && !deferred && p < |w.inbox| ==> p' > p
  {
    var n := HonestTake(w, p, full);
    p' := if fate.Completes? && !deferred then p + n else p;
    CheckLogKeeps(w.log, p, n, deferred, fate);
    if n > 0 && fate.Completes? && !deferred {
      CheckLands(w, p, full, n);
    } else {
      CheckStays(w, p, full, deferred, fate, n);
    }
  }

  lemma CheckLands(w: World, p: nat, full: bool, n: nat)
    requires Inv(w, p) && n > 0 && p + n <= |w.inbox| && n <= PAGE_SIZE
    requires Position(w.inbox, w.file.cursor) == p
    requires var t := Presented(w, full);
             t.Taken? && t.presented == w.inbox[p..p + n] && StandsAt(w.inbox, t.cursor, p + n)
    requires LogInv(w.log + CheckEvents(p, n, false, Completes), p + n)
    ensures Inv(Apply(w, Check(full, false, Completes)), p + n)
  {
    hide LogInv, AllQueued, OffersBehind, Sound, Feed;
    var t := Presented(w, full);
    var cached := CachedState(w.file, t.presented);
    CachedSound(w.file, t.presented);
    CommittedSound(cached, t.cursor, t.presented);
    var next := Apply(w, Check(full, false, Completes));
    assert next.log == w.log + CheckEvents(p, n, false, Completes);
    LandsInv(w, p, p, p + n, cached, t.cursor, next);
  }

  lemma LandsInv(w: World, p: nat, start: nat, end: nat, s: State, cursor: Option<Cursor>, next: World)
    requires Inv(w, p) && start <= p <= end <= |w.inbox| && end <= start + PAGE_SIZE
    requires s.pending == w.file.pending && StandsAt(w.inbox, cursor, end)
    requires next.inbox == w.inbox && next.offers == w.offers
    requires next.file == CommittedState(s, cursor, w.inbox[start..end]) && Sound(next.file)
    requires next.queued == w.queued + set id | id in next.file.pending
    requires LogInv(next.log, end)
    ensures Inv(next, end)
  {
    PassedAreQueued(w, p, start, end, s, cursor, next);
  }

  lemma CheckStays(w: World, p: nat, full: bool, deferred: bool, fate: Fate, n: nat)
    requires Inv(w, p) && p + n <= |w.inbox| && n <= PAGE_SIZE && (n == 0 || deferred || !fate.Completes?)
    requires Position(w.inbox, w.file.cursor) == p
    requires var t := Presented(w, full); t.Taken? && t.presented == w.inbox[p..p + n]
    requires LogInv(w.log + CheckEvents(p, n, deferred, fate), p)
    ensures Inv(Apply(w, Check(full, deferred, fate)), p)
  {
    hide LogInv, Feed, Sound, DirectedBefore;
    var t := Presented(w, full);
    CachedSound(w.file, t.presented);
    var next := Apply(w, Check(full, deferred, fate));
    assert next.inbox == w.inbox;
    assert next.file == w.file || next.file == CachedState(w.file, t.presented);
    assert next.offers == w.offers || (n > 0 && next.offers == w.offers + [Offer(p, p + n)]);
  }

  lemma CommitKeeps(w: World, p: nat, k: nat, lastVisible: Id, lands: bool) returns (p': nat)
    requires Inv(w, p) && Enabled(w, Commit(k, lastVisible, lands))
    ensures p <= p' && Inv(Apply(w, Commit(k, lastVisible, lands)), p')
  {
    hide LogInv, AllQueued, Sound, Feed, IndexOfId, FileAfterCommit, CommittedState, AllSeen;
    var o := w.offers[k];
    var v := IndexOfId(w.inbox[o.start..o.end], lastVisible, 0);
    p' := p;
    if v.Some? {
      var end := o.start + v.value + 1;
      CommitFile(w, p, k, lastVisible);
      AddShown(w.log, p, o.start, end);
      if lands && p < end {
        p' := end;
        CommitLands(w, p, k, lastVisible, end);
      } else {
        CommitStays(w, p, k, lastVisible, lands, end);
      }
    }
  }

  /** A deferred commit writes exactly when the named row is ahead of the saved cursor. */
  lemma CommitFile(w: World, p: nat, k: nat, lastVisible: Id)
    requires Feed(w.inbox) && StandsAt(w.inbox, w.file.cursor, p) && Enabled(w, Commit(k, lastVisible, true))
    requires IndexOfId(w.inbox[w.offers[k].start..w.offers[k].end], lastVisible, 0).Some?
    ensures var o := w.offers[k];
            var rows := w.inbox[o.start..o.end];
            var end := o.start + IndexOfId(rows, lastVisible, 0).value + 1;
            FileAfterCommit(w.file, rows, lastVisible) ==
              if p < end then CommittedState(w.file, Some(CursorOf(w.inbox[end - 1])), w.inbox[o.start..end]) else w.file
    ensures var o := w.offers[k];
            var end := o.start + IndexOfId(w.inbox[o.start..o.end], lastVisible, 0).value + 1;
            p < end ==> w.file.cursor != Some(CursorOf(w.inbox[end - 1]))
  {
    hide Feed, IndexOfId, CommittedState;
    var o := w.offers[k];
    var rows := w.inbox[o.start..o.end];
    var v := IndexOfId(rows, lastVisible, 0).value;
    AfterExactly(w.inbox, w.file.cursor, p, o.start + v);
    assert rows[v] == w.inbox[o.start + v];
    SliceTake(w.inbox, o.start, o.end, v + 1);
  }

  lemma SliceTake(rows: seq<Row>, a: nat, b: nat, n: nat)
    requires a + n <= b <= |rows|
    ensures rows[a..b][..n] == rows[a..a + n]
  {
  }

  lemma CommitLands(w: World, p: nat, k: nat, lastVisible: Id, end: nat)
    requires Inv(w, p) && Enabled(w, Commit(k, lastVisible, true))
    requires var o := w.offers[k];
             var rows := w.inbox[o.start..o.end];
             && IndexOfId(rows, lastVisible, 0).Some? && end == o.start + IndexOfId(rows, lastVisible, 0).value + 1
             && p < end && w.file.cursor != Some(CursorOf(w.inbox[end - 1]))
             && FileAfterCommit(w.file, rows, lastVisible) ==
                CommittedState(w.file, Some(CursorOf(w.inbox[end - 1])), w.inbox[o.start..end])
    requires LogInv(w.log + [Shown(w.offers[k].start, end)], p)
    requires AllSeen(w.log + [Shown(w.offers[k].start, end)], end)
    ensures Inv(Apply(w, Commit(k, lastVisible, true)), end)
  {
    hide Feed, AllQueued, LogInv, Sound, IndexOfId, Enqueue, DirectedIds, QueuedRetries;
    var start := w.offers[k].start;
    var cursor := Some(CursorOf(w.inbox[end - 1]));
    CommittedSound(w.file, cursor, w.inbox[start..end]);
    var next := Apply(w, Commit(k, lastVisible, true));
    AddLanded(w.log + [Shown(start, end)], p, end);
    assert next.log == w.log + [Shown(start, end)] + [Landed(end)];
    LandsInv(w, p, start, end, w.file, cursor, next);
  }

  lemma CommitStays(w: World, p: nat, k: nat, lastVisible: Id, lands: bool, end: nat)
    requires Inv(w, p) && Enabled(w, Commit(k, lastVisible, lands))
    requires var o := w.offers[k];
             var rows := w.inbox[o.start..o.end];
             && IndexOfId(rows, lastVisible, 0).Some? && end == o.start + IndexOfId(rows, lastVisible, 0).value + 1
             && (lands ==> FileAfterCommit(w.file, rows, lastVisible) == w.file)
    requires LogInv(w.log + [Shown(w.offers[k].start, end)], p)
    ensures Inv(Apply(w, Commit(k, lastVisible, lands)), p)
  {
    hide LogInv, Feed, Sound, DirectedBefore;
    var next := Apply(w, Commit(k, lastVisible, lands));
    assert next.file == w.file;
    assert next.log == w.log + [Shown(w.offers[k].start, end)];
  }

  lemma ArriveKeeps(w: World, p: nat, row: Row)
    requires Inv(w, p) && Enabled(w, Arrive(row))
    ensures Inv(Apply(w, Arrive(row)), p)
  {
    hide Feed, Sound, LogInv;
    var inbox := w.inbox + [row];
    assert forall i :: 0 <= i < p ==> inbox[i] == w.inbox[i];
    forall id ensures DirectedBefore(inbox, p, id) <==> DirectedBefore(w.inbox, p, id) {
      if DirectedBefore(w.inbox, p, id) {
        var i :| 0 <= i < p && i < |w.inbox| && (w.inbox[i].kind == Ask || w.inbox[i].kind == Note) && w.inbox[i].id == id;
        assert inbox[i] == w.inbox[i];
      }
    }
  }

  /** Every step keeps the invariant and never moves the cursor backwards. */
  lemma StepKeeps(w: World, p: nat, s: Step) returns (p': nat)
    requires Inv(w, p) && Enabled(w, s)
    ensures p <= p' && Inv(Apply(w, s), p')
  {
    match s
    case Arrive(row) =>
      ArriveKeeps(w, p, row);
      p' := p;
    case Check(full, deferred, fate) =>
      p' := CheckKeeps(w, p, full, deferred, fate);
    case Commit(k, lastVisible, lands) =>
      p' := CommitKeeps(w, p, k, lastVisible, lands);
    case QueueWrite(file) =>
      p' := p;
  }

  // ---- whole runs ----

  ghost predicate Runs(w: World, steps: seq<Step>)
    decreases |steps|
  {
    steps == [] || (Enabled(w, steps[0]) && Runs(Apply(w, steps[0]), steps[1..]))
  }

  ghost function Final(w: World, steps: seq<Step>): World
    requires Runs(w, steps)
    decreases |steps|
  {
    if steps == [] then w else Final(Apply(w, steps[0]), steps[1..])
  }

  lemma {:induction false} RunKeeps(w: World, p: nat, steps: seq<Step>) returns (p': nat)
    requires Inv(w, p) && Runs(w, steps)
    ensures p <= p' && Inv(Final(w, steps), p')
    decreases |steps|
  {
    if steps == [] {
      p' := p;
    } else {
      var q := StepKeeps(w, p, steps[0]);
      p' := RunKeeps(Apply(w, steps[0]), q, steps[1..]);
    }
  }

  /** From an empty inbox and no saved state, over any run: the rows at or before the saved
      cursor were all shown, in order and without a gap; a row whose passing has landed is not
      offered again; what is offered was cached first; the ids ever queued for acknowledgement
      are exactly those of the asks and notes the cursor has passed; and the saved state is one the reader accepts. */
  lemma EveryRun(steps: seq<Step>) returns (p: nat)
    requires Runs(INITIAL, steps)
    ensures var w := Final(INITIAL, steps);
            && StandsAt(w.inbox, w.file.cursor, p)
            && AllSeen(w.log, p) && NoGap(w.log) && NoRepeat(w.log) && CachedFirst(w.log)
            && AllQueued(w, p) && Sound(w.file)
  {
    InitialInv();
    p := RunKeeps(INITIAL, 0, steps);
  }

  /** The saved cursor never moves backwards, whatever happens between two moments of a run. */
  lemma CursorNeverMovesBack(before: seq<Step>, more: seq<Step>) returns (p: nat, q: nat)
    requires Runs(INITIAL, before) && Runs(Final(INITIAL, before), more)
    ensures StandsAt(Final(INITIAL, before).inbox, Final(INITIAL, before).file.cursor, p)
    ensures var w := Final(Final(INITIAL, before), more); StandsAt(w.inbox, w.file.cursor, q)
    ensures p <= q
  {
    InitialInv();
    p := RunKeeps(INITIAL, 0, before);
    q := RunKeeps(Final(INITIAL, before), p, more);
  }

  /** After any run, `has_more: false` means that nothing lies behind the rows shown; it is
      answered exactly when everything left was shown and the page was not full. */
  lemma HasMoreMeans(steps: seq<Step>, full: bool, fate: Fate) returns (p: nat, n: nat)
    requires Runs(INITIAL, steps) && (fate.CommitFails? || fate.Completes?)
    ensures var w := Final(INITIAL, steps);
            var page := Page(w.inbox, w.file.cursor);
            var report := ReportOf(page, |page|, Presented(w, full), fate);
            && StandsAt(w.inbox, w.file.cursor, p)
            && report.Presented? && |report.messages| == n && p + n <= |w.inbox|
            && (!report.hasMore <==> p + n == |w.inbox| && n < 20)
  {
    InitialInv();
    p := RunKeeps(INITIAL, 0, steps);
    var w := Final(INITIAL, steps);
    n := HonestTake(w, p, full);
    TakeRight(Page(w.inbox, w.file.cursor), w.file.cursor, full);
  }

  /** When a check shows rows, after any run, their full text can be fetched from the cache. */
  lemma ShownRowsAreCached(steps: seq<Step>, full: bool, deferred: bool, fate: Fate)
    requires Runs(INITIAL, steps) && (fate.CommitFails? || fate.Completes?)
    ensures var w := Final(INITIAL, steps);
            && Presented(w, full).Taken?
            && forall r :: r in Presented(w, full).presented ==> r in Apply(w, Check(full, deferred, fate)).file.messages
  {
    InitialInv();
    var p := RunKeeps(INITIAL, 0, steps);
    var w := Final(INITIAL, steps);
    var n := HonestTake(w, p, full);
    CachedHolds(w.file, w.inbox[p..p + n]);
  }

  ghost function Drained(w: World, full: bool, checks: nat): World
    decreases checks
  {
    if checks == 0 then w else Drained(Apply(w, Check(full, false, Completes)), full, checks - 1)
  }

  lemma {:induction false} DrainsFrom(w: World, p: nat, full: bool, checks: nat)
    requires Inv(w, p) && |w.inbox| <= p + checks
    ensures var end := Drained(w, full, checks); StandsAt(end.inbox, end.file.cursor, |w.inbox|) && end.inbox == w.inbox
    decreases checks
  {
    if checks > 0 {
      var q := CheckKeeps(w, p, full, false, Completes);
      CheckKeepsInbox(w, full);
      DrainsFrom(Apply(w, Check(full, false, Completes)), q, full, checks - 1);
    }
  }

  lemma CheckKeepsInbox(w: World, full: bool)
    ensures Apply(w, Check(full, false, Completes)).inbox == w.inbox
  {
  }

  /** After any run, completed checks reach the end of the inbox if it stands, in at most one
      check per row left. */
  lemma ChecksDrain(steps: seq<Step>, full: bool, checks: nat)
    requires Runs(INITIAL, steps)
    requires var w := Final(INITIAL, steps); |Rest(w.inbox, w.file.cursor)| <= checks
    ensures var w := Final(INITIAL, steps);
            var end := Drained(w, full, checks);
            StandsAt(end.inbox, end.file.cursor, |w.inbox|) && end.inbox == w.inbox
  {
    hide Runs, Final, Drained, Apply, LogInv, AllQueued, OffersBehind, Sound, Feed;
    InitialInv();
    var p := RunKeeps(INITIAL, 0, steps);
    var w := Final(INITIAL, steps);
    RestIsSuffix(w.inbox, w.file.cursor, p);
    DrainsFrom(w, p, full, checks);
  }
}
