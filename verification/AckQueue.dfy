/** The acknowledgement queue of a turn check (src/cloud/agent-check.ts, `ackPending`) as a
    step machine: one acking process with its clock, other processes that write the same
    file under the lock, failing requests, and death at any point. */
module AckQueue {
  import opened Basics
  import opened CheckState

  const BATCH_LIMIT := PAGE_SIZE
  const MIN_REMAINING := 50
  const MAX_AGE := 24 * 60 * 60 * 1000
  const RETRY_BASE := 250
  const RETRY_MAX := 60000

  /** `BASE * 2 ** k` */
  function Doubled(k: nat): (d: nat) {
    if k == 0 then RETRY_BASE else 2 * Doubled(k - 1)
  }

  /** The pause after attempt number `attempts`. */
  function Backoff(attempts: nat): (b: nat)
    requires attempts > 0
  {
    var d := Doubled(if attempts - 1 <= 8 then attempts - 1 else 8);
    if d <= RETRY_MAX then d else RETRY_MAX
  }

  /** The least time from the first attempt to the moment attempt `n + 1` is allowed. */
  function Span(n: nat): (s: nat) {
    if n == 0 then 0 else Span(n - 1) + Backoff(n)
  }

  /** An attempt under way: its number, and when the first one was made. */
  datatype Attempt = Attempt(id: Id, number: nat, firstAt: int)

  datatype Round = Round(committed: State, start: nat, batch: seq<Id>, i: nat, removed: set<Id>,
                         updates: map<Id, Retry>, deadline: int, sending: Option<Attempt>)

  /** `sent` counts the requests made for an id, queued or not, since it last entered the queue. */
  datatype World = World(file: State, sent: map<Id, nat>, now: int, round: Option<Round>)

  datatype Outcome = Observed | Terminal | Retryable

  datatype Step =
    | Tick(to: int)
    | Others(file: State)
    | Begin(deadline: int)
    | Drop
    | Postpone
    | Try
    | Answer(outcome: Outcome)
    | Finish
    | Abandon

  function Remaining(queue: seq<Id>, removed: set<Id>): (r: seq<Id>)
    ensures |r| <= |queue|
    ensures forall id :: id in r <==> id in queue && id !in removed
    ensures Distinct(queue) ==> Distinct(r)
  {
    if queue == [] then []
    else
      var rest := Remaining(queue[..|queue| - 1], removed);
      var last := queue[|queue| - 1];
      assert queue == queue[..|queue| - 1] + [last];
      if last in removed then rest else rest + [last]
  }

  /** The queue read from the rotation index on, at most twenty ids. */
  function Batch(queue: seq<Id>, start: nat): (b: seq<Id>)
    requires start <= |queue|
    ensures |b| <= BATCH_LIMIT && |b| <= |queue|
  {
    var turned := queue[start..] + queue[..start];
    if |turned| <= BATCH_LIMIT then turned else turned[..BATCH_LIMIT]
  }

  function StartOf(s: State): (n: nat)
    ensures n <= |s.pending|
  {
    if |s.pending| == 0 then 0 else s.next % |s.pending|
  }

  /** `persist`: drop the ids that are done, write retry records, maybe move the rotation. */
  function Persisted(file: State, removed: set<Id>, retries: map<Id, Retry>, advance: Option<nat>): (s: State) {
    var remaining := Remaining(file.pending, removed);
    var next := if advance.None? then file.next
                else if |remaining| == 0 then 0 else advance.value % |remaining|;
    file.(pending := remaining, next := next, retries := QueuedRetries(file.retries + retries, remaining))
  }

  /** The record to go by: the saved one, or a first attempt now. */
  function Prior(committed: State, id: Id, now: int): (r: Retry) {
    if id in committed.retries then committed.retries[id] else Retry(0, now, None)
  }

  predicate Aged(r: Retry, now: int) {
    now - r.firstAt >= MAX_AGE
  }

  predicate Waiting(r: Retry, now: int) {
    (if r.nextAt.Some? then r.nextAt.value else 0) > now
  }

  predicate Choosing(w: World) {
    && w.round.Some? && w.round.value.sending.None? && w.round.value.i < |w.round.value.batch|
    && w.round.value.deadline - w.now >= MIN_REMAINING
  }

  function Current(w: World): Retry
    requires Choosing(w)
  {
    Prior(w.round.value.committed, w.round.value.batch[w.round.value.i], w.now)
  }

  function Requests(sent: map<Id, nat>, id: Id): (n: nat) {
    if id in sent then sent[id] else 0
  }

  /** The id is queued before and after, with the same record if any. */
  predicate Stays(s: State, t: State, id: Id) {
    && id in s.pending && id in t.pending
    && (id in s.retries <==> id in t.retries)
    && (id in s.retries ==> t.retries[id] == s.retries[id])
  }

  /** What other processes may do to the file: an id that is queued afterwards either stayed,
      or has come, perhaps back, without a record. */
  predicate OthersOk(s: State, t: State) {
    Sound(t) && forall id :: id in t.pending ==> Stays(s, t, id) || id !in t.retries
  }

  /** Counting starts again for the ids that have come. */
  function Restarted(s: State, t: State, sent: map<Id, nat>): (r: map<Id, nat>)
    ensures forall id :: Requests(r, id) == if id in t.pending && !Stays(s, t, id) then 0 else Requests(sent, id)
  {
    map id | id in sent && (id in t.pending ==> Stays(s, t, id)) :: sent[id]
  }

  ghost predicate Enabled(w: World, s: Step) {
    match s
    case Tick(to) => to >= w.now
    case Others(file) => OthersOk(w.file, file)
    case Begin(_) => w.round.None?
    case Drop => Choosing(w) && Aged(Current(w), w.now)
    case Postpone => Choosing(w) && !Aged(Current(w), w.now) && Waiting(Current(w), w.now)
    case Try => Choosing(w) && !Aged(Current(w), w.now) && !Waiting(Current(w), w.now)
    case Answer(_) => w.round.Some? && w.round.value.sending.Some?
    case Finish => w.round.Some? && w.round.value.sending.None? && w.round.value.i == |w.round.value.batch| &&
                   w.round.value.batch != [] && w.round.value.deadline - w.now >= MIN_REMAINING
    case Abandon => w.round.Some?
  }

  ghost function Apply(w: World, s: Step): (r: World)
    requires Enabled(w, s)
  {
    match s
    case Tick(to) => w.(now := to)
    case Others(file) => w.(file := file, sent := Restarted(w.file, file, w.sent))
    case Begin(deadline) =>
      var start := StartOf(w.file);
      w.(round := Some(Round(w.file, start, Batch(w.file.pending, start), 0, {}, map[], deadline, None)))
    case Drop =>
      var r := w.round.value;
      w.(round := Some(r.(removed := r.removed + {r.batch[r.i]}, i := r.i + 1)))
    case Postpone =>
      var r := w.round.value;
      w.(round := Some(r.(i := r.i + 1)))
    case Try =>
      // The attempt is written down before the request goes out, so it counts even if the
      // process dies with the request.
      var r := w.round.value;
      var id, prior := r.batch[r.i], Current(w);
      var number := prior.attempts + 1;
      var record := Retry(number, prior.firstAt, Some(r.deadline + Backoff(number)));
      var file := Persisted(w.file, r.removed, r.updates[id := record], None);
      World(file, w.sent[id := Requests(w.sent, id) + 1], w.now,
            Some(r.(removed := {}, updates := map[], sending := Some(Attempt(id, number, prior.firstAt)))))
    case Answer(outcome) =>
      var r := w.round.value;
      var a := r.sending.value;
      var done := r.(sending := None, i := r.i + 1);
      w.(round := Some(
        if !outcome.Retryable? then done.(removed := r.removed + {a.id})
        else if r.deadline - w.now >= MIN_REMAINING && a.number > 0
        then done.(updates := r.updates[a.id := Retry(a.number, a.firstAt, Some(w.now + Backoff(a.number)))])
        else done))
    case Finish =>
      var r := w.round.value;
      w.(file := Persisted(w.file, r.removed, r.updates, Some(r.start + |r.batch|)), round := None)
    case Abandon => w.(round := None)
  }

  // ---- at most 1447 requests per stay ----

  const MOST := 1447

  lemma BackoffValues()
    ensures Doubled(0) == 250 && Doubled(1) == 500 && Doubled(2) == 1000 && Doubled(3) == 2000 && Doubled(4) == 4000
    ensures Doubled(5) == 8000 && Doubled(6) == 16000 && Doubled(7) == 32000 && Doubled(8) == 64000
  {
    assert Doubled(4) == 4000;
  }

  /** Each pause: 250 ms doubled for every attempt before, and a minute from the ninth on. */
  lemma {:induction false} EachPause(n: nat)
    requires n > 0
    ensures n == 1 ==> Backoff(n) == 250
    ensures 1 < n <= 8 ==> Backoff(n) == 2 * Backoff(n - 1)
    ensures n > 8 ==> Backoff(n) == 60000
  {
    BackoffValues();
  }

  lemma SpanEight()
    ensures Span(8) == 63750
  {
    BackoffValues();
    assert Span(1) == 250;
    assert Span(2) == 750;
    assert Span(3) == 1750;
    assert Span(4) == 3750;
    assert Span(5) == 7750;
    assert Span(6) == 15750;
    assert Span(7) == 31750;
  }

  lemma {:induction false} SpanLate(n: nat)
    requires n >= 8
    ensures Span(n) == 63750 + RETRY_MAX * (n - 8)
  {
    SpanEight();
    if n > 8 {
      SpanLate(n - 1);
      BackoffValues();
    }
  }

  /** The day is over before attempt 1448 is allowed, and not before attempt 1447. */
  lemma DayHoldsMost(n: nat)
    ensures Span(n) < MAX_AGE <==> n < MOST
  {
    if n >= 8 {
      SpanLate(n);
    } else {
      SpanEarly(n);
    }
  }

  lemma {:induction false} SpanEarly(n: nat)
    requires n <= 8
    ensures Span(n) <= 63750
    decreases 8 - n
  {
    if n == 8 {
      SpanEight();
    } else {
      SpanEarly(n + 1);
    }
  }

  /** A saved record: its attempts fit into the day and its pause covers their span. */
  ghost predicate RecordOk(r: Retry) {
    0 < r.attempts <= MOST && r.nextAt.Some? && r.nextAt.value >= r.firstAt + Span(r.attempts)
  }

  ghost predicate FileOk(s: State) {
    Sound(s) && forall id :: id in s.retries ==> RecordOk(s.retries[id])
  }

  function Attempts(s: State, id: Id): nat {
    if id in s.retries then s.retries[id].attempts else 0
  }

  /** No queued id has been sent more often than its record says, and none more often than
      the day allows. */
  ghost predicate Counted(s: State, sent: map<Id, nat>) {
    && (forall id :: id in s.pending ==> Requests(sent, id) <= Attempts(s, id))
    && (forall id :: id in sent ==> sent[id] <= MOST)
  }

  ghost predicate AttemptOk(a: Attempt, now: int) {
    0 < a.number <= MOST && now + Backoff(a.number) >= a.firstAt + Span(a.number)
  }

  ghost predicate RoundOk(r: Round, now: int) {
    && r.i <= |r.batch| && Distinct(r.batch) && FileOk(r.committed)
    && (forall id :: id in r.updates ==> RecordOk(r.updates[id]))
    && (r.sending.Some? ==> r.i < |r.batch| && r.sending.value.id == r.batch[r.i] && AttemptOk(r.sending.value, now))
  }

  /** Ids still to come in the round have not been sent more often than the record the round
      goes by says, whatever has become of them in the file. */
  ghost predicate ToCome(r: Round, sent: map<Id, nat>, from: nat) {
    forall j :: from <= j < |r.batch| ==> Requests(sent, r.batch[j]) <= Attempts(r.committed, r.batch[j])
  }

  /** The same for records the round has not written yet. */
  ghost predicate RoundCounted(sent: map<Id, nat>, r: Round) {
    && ToCome(r, sent, if r.sending.Some? then r.i + 1 else r.i)
    && (forall id :: id in r.updates ==> Requests(sent, id) <= r.updates[id].attempts)
    && (r.sending.Some? ==> Requests(sent, r.sending.value.id) <= r.sending.value.number)
  }

  ghost predicate Inv(w: World) {
    && FileOk(w.file) && Counted(w.file, w.sent)
    && (w.round.Some? ==> RoundOk(w.round.value, w.now) && RoundCounted(w.sent, w.round.value))
  }

  /** One more attempt after a record that is ripe and not yet a day old. */
  lemma NextAttempt(committed: State, id: Id, now: int, r: Retry)
    requires FileOk(committed) && r == Prior(committed, id, now)
    requires !Aged(r, now) && !Waiting(r, now)
    ensures AttemptOk(Attempt(id, r.attempts + 1, r.firstAt), now)
  {
    if id in committed.retries {
      assert RecordOk(r);
      DayHoldsMost(r.attempts);
    }
  }

  lemma BatchDistinct(queue: seq<Id>, start: nat)
    requires Distinct(queue) && start <= |queue|
    ensures Distinct(Batch(queue, start))
  {
    var turned := queue[start..] + queue[..start];
    assert Distinct(turned) by {
      forall i, j | 0 <= i < j < |turned| ensures turned[i] != turned[j] {
        var x := if i < |queue| - start then i + start else i - (|queue| - start);
        var y := if j < |queue| - start then j + start else j - (|queue| - start);
        assert turned[i] == queue[x] && turned[j] == queue[y] && x != y;
      }
    }
  }

  lemma PersistedOk(file: State, removed: set<Id>, retries: map<Id, Retry>, advance: Option<nat>)
    requires FileOk(file) && forall id :: id in retries ==> RecordOk(retries[id])
    ensures FileOk(Persisted(file, removed, retries, advance))
  {
  }

  lemma StepTry(w: World)
    requires Inv(w) && Enabled(w, Try)
    ensures Inv(Apply(w, Try))
  {
    hide FileOk, Counted, Prior, Aged, Waiting, RecordOk, Persisted, Backoff;
    var r := w.round.value;
    var id, prior := r.batch[r.i], Current(w);
    NextAttempt(r.committed, id, w.now, prior);
    var number := prior.attempts + 1;
    var record := Retry(number, prior.firstAt, Some(r.deadline + Backoff(number)));
    TryRecord(prior, r.deadline, w.now, record);
    PersistedOk(w.file, r.removed, r.updates[id := record], None);
    TryCounted(w, record);
  }

  lemma TryRecord(prior: Retry, deadline: int, now: int, record: Retry)
    requires now <= deadline && AttemptOk(Attempt(0, prior.attempts + 1, prior.firstAt), now)
    requires record == Retry(prior.attempts + 1, prior.firstAt, Some(deadline + Backoff(prior.attempts + 1)))
    ensures RecordOk(record)
  {
  }

  /** The attempt is counted, and the record says at least as much. */
  lemma TryCounted(w: World, record: Retry)
    requires Inv(w) && Enabled(w, Try) && record.attempts == Current(w).attempts + 1 <= MOST
    ensures var r := w.round.value;
            var sent := w.sent[r.batch[r.i] := Requests(w.sent, r.batch[r.i]) + 1];
            && Counted(Persisted(w.file, r.removed, r.updates[r.batch[r.i] := record], None), sent)
            && Requests(sent, r.batch[r.i]) <= record.attempts
            && ToCome(r, sent, r.i + 1)
  {
    hide Sound, Aged, Waiting, RecordOk, AttemptOk, FileOk;
    var r := w.round.value;
    var id := r.batch[r.i];
    var file, sent := Persisted(w.file, r.removed, r.updates[id := record], None), w.sent[id := Requests(w.sent, id) + 1];
    assert Requests(w.sent, id) <= Current(w).attempts;
    forall x | x in file.pending ensures Requests(sent, x) <= Attempts(file, x) {
      if x == id {
        assert file.retries[x] == record;
      } else if x in r.updates {
        assert file.retries[x] == r.updates[x];
      }
    }
  }

  lemma StepFinish(w: World)
    requires Inv(w) && Enabled(w, Finish)
    ensures Inv(Apply(w, Finish))
  {
    hide Sound, RecordOk, AttemptOk;
    var r := w.round.value;
    var next := Apply(w, Finish);
    PersistedOk(w.file, r.removed, r.updates, Some(r.start + |r.batch|));
    forall x | x in next.file.pending ensures Requests(next.sent, x) <= Attempts(next.file, x) {
      if x in r.updates {
        assert next.file.retries[x] == r.updates[x];
      }
    }
  }

  lemma StepBegin(w: World, deadline: int)
    requires Inv(w) && Enabled(w, Begin(deadline))
    ensures Inv(Apply(w, Begin(deadline)))
  {
    hide RecordOk;
    var start := StartOf(w.file);
    BatchDistinct(w.file.pending, start);
    BatchQueued(w.file.pending, start);
  }

  lemma BatchQueued(queue: seq<Id>, start: nat)
    requires start <= |queue|
    ensures forall id :: id in Batch(queue, start) ==> id in queue
  {
  }

  lemma StepAnswer(w: World, outcome: Outcome)
    requires Inv(w) && Enabled(w, Answer(outcome))
    ensures Inv(Apply(w, Answer(outcome)))
  {
    hide FileOk, Counted, Backoff, Span, RecordOk, AttemptOk, Distinct;
    AnswerRecord(w.round.value.sending.value, w.now);
  }

  lemma AnswerRecord(a: Attempt, now: int)
    requires AttemptOk(a, now)
    ensures a.number > 0 && RecordOk(Retry(a.number, a.firstAt, Some(now + Backoff(a.number))))
  {
    hide Backoff, Span;
  }

  lemma StepSkip(w: World, s: Step)
    requires Inv(w) && (s == Drop || s == Postpone) && Enabled(w, s)
    ensures Inv(Apply(w, s))
  {
    hide FileOk, Counted, RecordOk;
  }

  lemma StepOthers(w: World, file: State)
    requires Inv(w) && Enabled(w, Others(file))
    ensures Inv(Apply(w, Others(file)))
  {
    hide AttemptOk, RecordOk;
    var sent := Restarted(w.file, file, w.sent);
    forall id | id in file.retries ensures RecordOk(file.retries[id]) {
      assert Stays(w.file, file, id);
    }
    forall id | id in file.pending ensures Requests(sent, id) <= Attempts(file, id) {
      assert Stays(w.file, file, id) ==> Requests(w.sent, id) <= Attempts(w.file, id);
    }
    forall id | id in sent ensures sent[id] <= MOST {
      assert Requests(sent, id) <= Requests(w.sent, id);
    }
  }

  /** Every step keeps the counts within the records and the records within the day. */
  lemma StepKeeps(w: World, s: Step)
    requires Inv(w) && Enabled(w, s)
    ensures Inv(Apply(w, s))
  {
    hide FileOk, Counted, RecordOk, Choosing, OthersOk;
    match s
    case Tick(to) =>
    case Others(file) => StepOthers(w, file);
    case Begin(deadline) => StepBegin(w, deadline);
    case Drop => StepSkip(w, Drop);
    case Postpone => StepSkip(w, Postpone);
    case Try => StepTry(w);
    case Answer(outcome) => StepAnswer(w, outcome);
    case Finish => StepFinish(w);
    case Abandon =>
  }

  ghost predicate Runs(w: World, steps: seq<Step>)
    decreases |steps|
  {
    steps == [] || (Enabled(w, steps[0]) && Runs(Apply(w, steps[0]), steps[1..]))
  }

  ghost function Final(w: World, steps: seq<Step>): World
    requires Runs(w, steps)
    decreases |steps|
  {
    if steps == [] then w else Final(Apply(w, steps[0]), steps[1..])
  }

  lemma {:induction false} RunKeeps(w: World, steps: seq<Step>)
    requires Inv(w) && Runs(w, steps)
    ensures Inv(Final(w, steps))
    decreases |steps|
  {
    if steps != [] {
      StepKeeps(w, steps[0]);
      RunKeeps(Apply(w, steps[0]), steps[1..]);
    }
  }

  lemma {:induction false} RunsSnoc(w: World, steps: seq<Step>, s: Step)
    requires Runs(w, steps) && Enabled(Final(w, steps), s)
    ensures Runs(w, steps + [s]) && Final(w, steps + [s]) == Apply(Final(w, steps), s)
    decreases |steps|
  {
    hide Enabled, Apply;
    if steps == [] {
      assert ([] + [s])[1..] == [];
    } else {
      assert (steps + [s])[0] == steps[0] && (steps + [s])[1..] == steps[1..] + [s];
      RunsSnoc(Apply(w, steps[0]), steps[1..], s);
    }
  }

  function Initial(now: int): World {
    World(EMPTY, map[], now, None)
  }

  /** Over any run, at most 1447 requests are made for an id from one entry into the queue to
      the next, whether or not it is still queued when a request leaves. */
  lemma AtMost1447(now: int, steps: seq<Step>, id: Id)
    requires Runs(Initial(now), steps)
    ensures Requests(Final(Initial(now), steps).sent, id) <= 1447
  {
    hide Runs, Final, FileOk, RoundOk, RoundCounted;
    RunKeeps(Initial(now), steps);
  }

  // ---- and no fewer ----

  /** One id was sent `n` times, each time as soon as its pause was over. */
  ghost function SentTimes(n: nat): World {
    if n == 0 then World(EMPTY.(pending := [0]), map[], 0, None)
    else World(EMPTY.(pending := [0], retries := map[0 := Retry(n, 0, Some(Span(n)))]), map[0 := n], Span(n), None)
  }

  // The stages of one more round, all at one moment.

  ghost function Begun(n: nat): World {
    var w := SentTimes(n);
    w.(round := Some(Round(w.file, 0, [0], 0, {}, map[], w.now + MIN_REMAINING, None)))
  }

  ghost function Tried(n: nat): World {
    var w := Begun(n);
    World(OneQueued(Retry(n + 1, 0, Some(w.now + MIN_REMAINING + Backoff(n + 1)))), map[0 := n + 1], w.now,
          Some(w.round.value.(sending := Some(Attempt(0, n + 1, 0)))))
  }

  ghost function Heard(n: nat): World {
    var w := Tried(n);
    w.(round := Some(w.round.value.(i := 1, sending := None, updates := map[0 := Retry(n + 1, 0, Some(w.now + Backoff(n + 1)))])))
  }

  ghost function Finished(n: nat): World {
    World(OneQueued(Retry(n + 1, 0, Some(Span(n) + Backoff(n + 1)))), map[0 := n + 1], Span(n), None)
  }

  lemma Begins(n: nat)
    ensures Enabled(SentTimes(n), Begin(Span(n) + MIN_REMAINING))
    ensures Apply(SentTimes(n), Begin(Span(n) + MIN_REMAINING)) == Begun(n)
  {
    hide Span;
    SpanNone();
    OneInBatch();
  }

  lemma SpanNone()
    ensures Span(0) == 0
  {
  }

  lemma Tries(n: nat)
    requires n < MOST
    ensures Enabled(Begun(n), Try) && Apply(Begun(n), Try) == Tried(n)
  {
    DayHoldsMost(n);
    SpanNone();
    hide Span, Backoff, Persisted;
    OnePersisted(Begun(n).file, Retry(n + 1, 0, Some(Span(n) + MIN_REMAINING + Backoff(n + 1))), None);
    assert map[][0 := 1] == map[0 := 1];
  }

  lemma Answers(n: nat)
    ensures Enabled(Tried(n), Answer(Retryable)) && Apply(Tried(n), Answer(Retryable)) == Heard(n)
  {
    hide Span, Backoff;
  }

  lemma Finishes(n: nat)
    ensures Enabled(Heard(n), Finish) && Apply(Heard(n), Finish) == Finished(n)
  {
    hide Span, Backoff, Persisted;
    SpanNone();
    OnePersisted(Heard(n).file, Retry(n + 1, 0, Some(Span(n) + Backoff(n + 1))), Some(1));
  }

  lemma Rests(n: nat)
    ensures Enabled(Finished(n), Tick(Span(n + 1))) && Apply(Finished(n), Tick(Span(n + 1))) == SentTimes(n + 1)
  {
    SpanNext(n);
    hide Span, Backoff;
  }

  lemma SpanNext(n: nat)
    ensures Span(n + 1) == Span(n) + Backoff(n + 1)
  {
  }

  lemma OneMore(n: nat) returns (steps: seq<Step>)
    requires n < MOST
    ensures Runs(SentTimes(n), steps) && Final(SentTimes(n), steps) == SentTimes(n + 1)
  {
    var w := SentTimes(n);
    assert Runs(w, []) && Final(w, []) == w;
    hide Span, Backoff, Runs, Final, Enabled, Apply, SentTimes, Begun, Tried, Heard, Finished;
    Begins(n);
    steps := Then(w, [], Begin(Span(n) + MIN_REMAINING), Begun(n));
    Tries(n);
    steps := Then(w, steps, Try, Tried(n));
    Answers(n);
    steps := Then(w, steps, Answer(Retryable), Heard(n));
    Finishes(n);
    steps := Then(w, steps, Finish, Finished(n));
    Rests(n);
    steps := Then(w, steps, Tick(Span(n + 1)), SentTimes(n + 1));
  }

  ghost function OneQueued(r: Retry): State {
    EMPTY.(pending := [0], retries := map[0 := r])
  }

  lemma OneInBatch()
    ensures Batch([0], 0) == [0]
  {
  }

  lemma OnePersisted(s: State, record: Retry, advance: Option<nat>)
    requires s.pending == [0] && s.next == 0 && s.cursor == None && s.messages == []
    requires s.retries.Keys <= {0} && (advance.Some? ==> advance.value == 1)
    ensures Persisted(s, {}, map[0 := record], advance) == OneQueued(record)
  {
    OneRemains();
    OneRecord(s.retries, record);
    hide Remaining, QueuedRetries;
    assert 1 % 1 == 0;
  }

  lemma OneRemains()
    ensures Remaining([0], {}) == [0]
  {
    assert [0][..0] == [] && Remaining([], {}) == [];
  }

  lemma OneRecord(retries: map<Id, Retry>, record: Retry)
    requires retries.Keys <= {0}
    ensures QueuedRetries(retries + map[0 := record], [0]) == map[0 := record]
  {
    var all := retries + map[0 := record];
    assert forall id :: id in all <==> id == 0;
  }

  /** Extend a run by a step that leads to `v`. */
  lemma Then(w: World, steps: seq<Step>, s: Step, v: World) returns (more: seq<Step>)
    requires Runs(w, steps) && Enabled(Final(w, steps), s) && Apply(Final(w, steps), s) == v
    ensures Runs(w, more) && Final(w, more) == v
  {
    RunsSnoc(w, steps, s);
    more := steps + [s];
  }

  lemma {:induction false} RunsConcat(w: World, a: seq<Step>, b: seq<Step>)
    requires Runs(w, a) && Runs(Final(w, a), b)
    ensures Runs(w, a + b) && Final(w, a + b) == Final(Final(w, a), b)
    decreases |a|
  {
    hide Enabled, Apply;
    if a == [] {
      assert a + b == b;
    } else {
      assert (a + b)[0] == a[0] && (a + b)[1..] == a[1..] + b;
      RunsConcat(Apply(w, a[0]), a[1..], b);
    }
  }

  lemma {:induction false} SentSoOften(n: nat) returns (steps: seq<Step>)
    requires n <= MOST
    ensures Runs(SentTimes(0), steps) && Final(SentTimes(0), steps) == SentTimes(n)
  {
    if n == 0 {
      steps := [];
    } else {
      var before := SentSoOften(n - 1);
      var more := OneMore(n - 1);
      RunsConcat(SentTimes(0), before, more);
      steps := before + more;
    }
  }

  /** The bound is met: some run makes 1447 requests for one id while it stays queued. */
  lemma MostIsReached() returns (steps: seq<Step>)
    ensures Runs(Initial(0), steps)
    ensures var w := Final(Initial(0), steps); 0 in w.file.pending && Requests(w.sent, 0) == 1447
  {
    hide Span, Backoff;
    var first := Then(Initial(0), [], Others(EMPTY.(pending := [0])), SentTimes(0));
    var more := SentSoOften(MOST);
    hide Runs, Final;
    RunsConcat(Initial(0), first, more);
    steps := first + more;
  }
}
