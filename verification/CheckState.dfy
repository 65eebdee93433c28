/** The saved state of a turn check (`check.json`), its bounds, and the two list
    operations every write uses: merging ids into a queue and keeping the newest 200. */
module CheckState {
  import opened Basics

  /** A signal UUID. Its lower-case hexadecimal text orders as the number does. */
  type Id = nat

  datatype Cursor = Cursor(at: int, id: Id)
  datatype Kind = Ask | Note | Other

  /** `ours` says that the row names this workspace and addresses this agent. */
  datatype Row = Row(id: Id, at: int, kind: Kind, body: string, ours: bool)

  datatype Retry = Retry(attempts: nat, firstAt: int, nextAt: Option<int>)

  datatype State = State(cursor: Option<Cursor>, messages: seq<Row>, pending: seq<Id>, next: nat,
                         retries: map<Id, Retry>)

  const CACHE_LIMIT := 200
  const PAGE_SIZE := 20
  const EMPTY := State(None, [], [], 0, map[])

  function CursorOf(r: Row): Cursor {
    Cursor(r.at, r.id)
  }

  /** `compareSignalCursor(a, b) < 0` */
  predicate Before(a: Cursor, b: Cursor) {
    a.at < b.at || (a.at == b.at && a.id < b.id)
  }

  /** A strict total order: by time, and at one time by id. */
  lemma CursorOrder(a: Cursor, b: Cursor, c: Cursor)
    ensures a.at < b.at ==> Before(a, b)
    ensures a.at == b.at ==> (Before(a, b) <==> a.id < b.id)
    ensures !Before(a, a) && (a != b ==> (Before(a, b) <==> !Before(b, a)))
    ensures Before(a, b) && Before(b, c) ==> Before(a, c)
  {
  }

  /** Rows strictly after the saved cursor. */
  predicate After(r: Row, c: Option<Cursor>) {
    c.None? || Before(c.value, CursorOf(r))
  }

  predicate Directed(r: Row) {
    r.kind.Ask? || r.kind.Note?
  }

  predicate Distinct<T(==)>(s: seq<T>) {
    forall i, j :: 0 <= i < j < |s| ==> s[i] != s[j]
  }

  /** What `readCheckState` demands of a saved state, and what every write keeps on top of
      it: no id is queued twice and only queued ids have a retry record. */
  predicate Sound(s: State) {
    && |s.messages| <= CACHE_LIMIT
    && |s.pending| <= CACHE_LIMIT
    && Distinct(s.pending)
    && forall id :: id in s.retries ==> id in s.pending
  }

  /** `slice(-200)` */
  function Newest<T>(s: seq<T>): (r: seq<T>)
    ensures |r| <= CACHE_LIMIT
    ensures |s| <= CACHE_LIMIT ==> r == s
  {
    if |s| <= CACHE_LIMIT then s else s[|s| - CACHE_LIMIT..]
  }

  /** Add ids in turn, skipping the ones already there. */
  function AddAll(q: seq<Id>, ids: seq<Id>): (r: seq<Id>)
    ensures |q| <= |r| <= |q| + |ids| && r[..|q|] == q
    ensures Distinct(q) ==> Distinct(r)
    ensures forall id :: id in r <==> id in q || id in ids
    decreases |ids|
  {
    if ids == [] then q
    else AddAll(if ids[0] in q then q else q + [ids[0]], ids[1..])
  }

  /** `[...new Set(ids)]` */
  function Dedup(ids: seq<Id>): (r: seq<Id>) {
    AddAll([], ids)
  }

  /** `queuedRetries` */
  function QueuedRetries(retries: map<Id, Retry>, ids: seq<Id>): (r: map<Id, Retry>)
    ensures forall id :: id in r <==> id in retries && id in ids
    ensures forall id :: id in r ==> r[id] == retries[id]
  {
    map id | id in retries && id in ids :: retries[id]
  }

  /** The ids to acknowledge among the rows shown. */
  function DirectedIds(rows: seq<Row>): (ids: seq<Id>)
    ensures |ids| <= |rows|
    ensures forall id :: id in ids <==> exists r :: r in rows && Directed(r) && r.id == id
  {
    if rows == [] then []
    else
      var last := rows[|rows| - 1];
      var rest := DirectedIds(rows[..|rows| - 1]);
      assert rows == rows[..|rows| - 1] + [last];
      if Directed(last) then rest + [last.id] else rest
  }

  /** `[...new Set([...queue, ...ids])].slice(-200)` */
  function Enqueue(queue: seq<Id>, ids: seq<Id>): (r: seq<Id>)
    ensures |r| <= CACHE_LIMIT
  {
    Newest(Dedup(queue + ids))
  }

  lemma {:induction false} AddAllConcat(q: seq<Id>, a: seq<Id>, b: seq<Id>)
    ensures AddAll(q, a + b) == AddAll(AddAll(q, a), b)
    decreases |a|
  {
    if a == [] {
      assert a + b == b;
    } else {
      assert (a + b)[0] == a[0] && (a + b)[1..] == a[1..] + b;
      AddAllConcat(if a[0] in q then q else q + [a[0]], a[1..], b);
    }
  }

  lemma {:induction false} AddAllFresh(q: seq<Id>, a: seq<Id>)
    requires Distinct(q + a)
    ensures AddAll(q, a) == q + a
    decreases |a|
  {
    if a == [] {
      assert q + a == q;
    } else {
      assert (q + a)[|q|] == a[0];
      assert forall i :: 0 <= i < |q| ==> (q + a)[i] == q[i];
      assert a[0] !in q;
      assert q + a == (q + [a[0]]) + a[1..];
      AddAllFresh(q + [a[0]], a[1..]);
    }
  }

  lemma AddAllShort(q: seq<Id>, ids: seq<Id>, id: Id)
    requires id in ids && id !in q
    ensures id in AddAll(q, ids)[|q|..]
  {
    var r := AddAll(q, ids);
    assert id in r;
    assert r == r[..|q|] + r[|q|..];
  }

  /** Enqueuing keeps a queue without repeats, and no id that is new to it is dropped by the
      bound as long as at most 200 come at once. */
  lemma EnqueueKeeps(queue: seq<Id>, ids: seq<Id>)
    requires Distinct(queue)
    ensures Distinct(Enqueue(queue, ids))
    ensures forall id :: id in Enqueue(queue, ids) ==> id in queue || id in ids
    ensures |ids| <= 200 ==> forall id :: id in ids && id !in queue ==> id in Enqueue(queue, ids)
    ensures |Enqueue(queue, ids)| <= 200
  {
    DedupOfQueue(queue, ids);
    var all := AddAll(queue, ids);
    NewestDistinct(all);
    forall id | id in Newest(all) ensures id in queue || id in ids {
      NewestSubset(all, id);
    }
    forall id | id in ids && id !in queue && |ids| <= CACHE_LIMIT ensures id in Newest(all) {
      AddAllShort(queue, ids, id);
      var k :| 0 <= k < |all[|queue|..]| && all[|queue|..][k] == id;
      NewestKeepsTail(all, |queue| + k);
    }
  }

  lemma DedupOfQueue(queue: seq<Id>, ids: seq<Id>)
    requires Distinct(queue)
    ensures Dedup(queue + ids) == AddAll(queue, ids)
  {
    AddAllConcat([], queue, ids);
    assert [] + queue == queue;
    AddAllFresh([], queue);
  }

  lemma NewestKeepsTail<T>(s: seq<T>, k: nat)
    requires k < |s| && |s| - k <= CACHE_LIMIT
    ensures s[k] in Newest(s)
  {
    if |s| > CACHE_LIMIT {
      assert Newest(s)[k - (|s| - CACHE_LIMIT)] == s[k];
    }
  }

  lemma NewestDistinct<T>(s: seq<T>)
    requires Distinct(s)
    ensures Distinct(Newest(s))
  {
  }

  lemma NewestSubset<T>(s: seq<T>, x: T)
    requires x in Newest(s)
    ensures x in s
  {
  }

  /** When nothing overflows, the queue is followed by exactly the new ids, in order. */
  lemma EnqueueAppends(queue: seq<Id>, ids: seq<Id>)
    requires Distinct(queue + ids) && |queue| + |ids| <= CACHE_LIMIT
    ensures Enqueue(queue, ids) == queue + ids
  {
    assert [] + (queue + ids) == queue + ids;
    AddAllFresh([], queue + ids);
  }
}
