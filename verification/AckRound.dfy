/** One round of acknowledgements as the source runs it: a loop over the batch that keeps
    its removals and retry updates aside and writes them under the lock. It is a run of the
    step machine, and completed rounds come round to every queued id. */
module AckRound {
  import opened Basics
  import opened CheckState
  import opened AckQueue
  import InboxReader
  import InboxRuns

  // ---- what the other writers of the file do ----

  lemma CommitIsOther(s: State, base: State, cursor: Option<Cursor>, rows: seq<Row>)
    requires Sound(s) && base.pending == s.pending && base.retries == s.retries && |base.messages| <= CACHE_LIMIT
    ensures OthersOk(s, InboxReader.CommittedState(base, cursor, rows))
  {
    EnqueueKeeps(s.pending, DirectedIds(rows));
  }

  /** A check that stops anywhere is one of the steps other processes may take. */
  lemma CheckIsOther(s: State, taken: InboxReader.Taken, deferred: bool, fate: InboxReader.Fate)
    requires Sound(s)
    ensures OthersOk(s, InboxReader.FileAfterCheck(s, taken, deferred, fate))
    ensures InboxReader.FileAfterCheck(s, taken, deferred, fate).next == s.next
  {
    var t := InboxReader.FileAfterCheck(s, taken, deferred, fate);
    if t.pending != s.pending || t.retries != s.retries {
      CommitIsOther(s, InboxReader.CachedState(s, taken.presented), taken.cursor, taken.presented);
    }
  }

  /** So is a deferred commit. */
  lemma DeferredCommitIsOther(s: State, presented: seq<Row>, lastVisible: Id)
    requires Sound(s)
    ensures OthersOk(s, InboxReader.FileAfterCommit(s, presented, lastVisible))
    ensures InboxReader.FileAfterCommit(s, presented, lastVisible).next == s.next
  {
    var k := InboxReader.IndexOfId(presented, lastVisible, 0);
    if k.Some? && After(presented[k.value], s.cursor) {
      CommitIsOther(s, s, Some(CursorOf(presented[k.value])), presented[..k.value + 1]);
    }
  }

  /** And every write of the queue leaves cursor and cache alone, as the inbox runs assume. */
  lemma PersistIsQueueWrite(s: State, removed: set<Id>, retries: map<Id, Retry>, advance: Option<nat>)
    requires Sound(s)
    ensures InboxRuns.QueueWriteOk(s, Persisted(s, removed, retries, advance))
  {
  }

  // ---- one round ----

  /** What comes from outside: the outcome of each request, and the file as other processes
      have left it by the next time it is read under the lock. */
  datatype Outside = Outside(answers: seq<Outcome>, turns: seq<State>)

  /** Each answer in a run is the one that came for the id it was asked about, and others
      write only what they wrote. */
  ghost predicate Hears(w: World, steps: seq<Step>, env: Outside)
    requires Runs(w, steps)
    decreases |steps|
  {
    steps == [] || (HeardRight(w, steps[0], env) && Hears(Apply(w, steps[0]), steps[1..], env))
  }

  ghost predicate HeardRight(w: World, s: Step, env: Outside) {
    && (s.Answer? ==> w.round.Some? && w.round.value.i < |env.answers| && s.outcome == env.answers[w.round.value.i])
    && (s.Others? ==> s.file in env.turns)
  }

  predicate SameQueue(s: State, t: State) {
    t.pending == s.pending && t.next == s.next
  }

  /** Others leave the queue and its rotation index alone. */
  ghost predicate Quiet(w: World, steps: seq<Step>)
    requires Runs(w, steps)
    decreases |steps|
  {
    steps == [] || ((steps[0].Others? ==> SameQueue(w.file, steps[0].file)) && Quiet(Apply(w, steps[0]), steps[1..]))
  }

  lemma {:induction false} HearsSnoc(w: World, steps: seq<Step>, s: Step, env: Outside)
    requires Runs(w, steps) && Enabled(Final(w, steps), s) && Hears(w, steps, env) && HeardRight(Final(w, steps), s, env)
    ensures Runs(w, steps + [s]) && Final(w, steps + [s]) == Apply(Final(w, steps), s) && Hears(w, steps + [s], env)
    ensures Quiet(w, steps + [s]) <==> Quiet(w, steps) && (s.Others? ==> SameQueue(Final(w, steps).file, s.file))
    decreases |steps|
  {
    hide Enabled, Apply, HeardRight, SameQueue;
    RunsSnoc(w, steps, s);
    if steps == [] {
      assert ([] + [s])[1..] == [];
    } else {
      assert (steps + [s])[0] == steps[0] && (steps + [s])[1..] == steps[1..] + [s];
      HearsSnoc(Apply(w, steps[0]), steps[1..], s, env);
    }
  }

  lemma {:induction false} RemainingTwice(queue: seq<Id>, a: set<Id>, b: set<Id>)
    ensures Remaining(Remaining(queue, a), b) == Remaining(queue, a + b)
  {
    if queue != [] {
      RemainingTwice(queue[..|queue| - 1], a, b);
      var rest := Remaining(queue[..|queue| - 1], a);
      var last := queue[|queue| - 1];
      assert (rest + [last])[..|rest|] == rest;
    }
  }

  lemma {:induction false} RemainingAll(queue: seq<Id>, removed: set<Id>)
    requires forall id :: id in queue ==> id !in removed
    ensures Remaining(queue, removed) == queue
  {
    if queue != [] {
      var front, last := queue[..|queue| - 1], queue[|queue| - 1];
      assert queue == front + [last];
      assert last in queue && last !in removed;
      RemainingAll(front, removed);
    }
  }

  lemma PersistedParts(s: State, removed: set<Id>, retries: map<Id, Retry>, advance: Option<nat>)
    ensures var t := Persisted(s, removed, retries, advance);
            && t.cursor == s.cursor && t.messages == s.messages && t.pending == Remaining(s.pending, removed)
            && (advance.None? ==> t.next == s.next)
            && (advance.Some? ==> t.next == if |t.pending| == 0 then 0 else advance.value % |t.pending|)
  {
  }

  lemma RoundMoves(s: State, t: State, removed: set<Id>)
    requires (forall id :: id in removed ==> id in Batch(s.pending, StartOf(s))) && t.pending == Remaining(s.pending, removed)
    requires t.next == if |t.pending| == 0 then 0 else (StartOf(s) + |Batch(s.pending, StartOf(s))|) % |t.pending|
    ensures Moves(s, t)
  {
    assert MovesBy(s, t, removed);
  }

  /** What a completed round does to the queue and its rotation index. */
  ghost predicate Moves(s: State, t: State) {
    exists removed: set<Id> :: MovesBy(s, t, removed)
  }

  ghost predicate MovesBy(s: State, t: State, removed: set<Id>) {
    && (forall id :: id in removed ==> id in Batch(s.pending, StartOf(s)))
    && t.pending == Remaining(s.pending, removed)
    && t.next == if |t.pending| == 0 then 0 else (StartOf(s) + |Batch(s.pending, StartOf(s))|) % |t.pending|
  }

  /** What a round cut short does: some ids of its batch may be gone, and the index stays. */
  ghost predicate Cut(s: State, t: State) {
    exists removed: set<Id> :: CutBy(s, t, removed)
  }

  ghost predicate CutBy(s: State, t: State, removed: set<Id>) {
    && (forall id :: id in removed ==> id in Batch(s.pending, StartOf(s)))
    && t.pending == Remaining(s.pending, removed)
    && t.next == s.next
  }

  lemma RoundCut(s: State, t: State, removed: set<Id>)
    requires forall id :: id in removed ==> id in Batch(s.pending, StartOf(s))
    requires t.pending == Remaining(s.pending, removed) && t.next == s.next
    ensures Cut(s, t)
  {
    assert CutBy(s, t, removed);
  }

  ghost predicate Nondecreasing(clock: seq<int>) {
    forall i, j :: 0 <= i <= j < |clock| ==> clock[i] <= clock[j]
  }

  lemma BatchNone(queue: seq<Id>, start: nat)
    requires start <= |queue|
    ensures Batch(queue, start) == [] <==> queue == []
  {
  }

  lemma ClockLater(clock: seq<int>, i: nat, n: nat)
    requires Nondecreasing(clock) && |clock| == 2 * BATCH_LIMIT + 1 && i <= n <= BATCH_LIMIT
    ensures clock[2 * i] <= clock[2 * n]
  {
  }

  /** The round ends with time left for its last write. */
  ghost predicate InTime(s: State, deadline: int, clock: seq<int>)
    requires |clock| == 2 * BATCH_LIMIT + 1
  {
    deadline - clock[2 * |Batch(s.pending, StartOf(s))|] >= MIN_REMAINING
  }

  /** Id `i` of the batch leaves the queue: its first attempt was a day ago, or it is due and
      its request was observed or refused for good. */
  ghost predicate Leaves(s: State, clock: seq<int>, answers: seq<Outcome>, i: nat)
    requires |clock| == 2 * BATCH_LIMIT + 1 && |answers| == BATCH_LIMIT && i < |Batch(s.pending, StartOf(s))|
  {
    var id, now := Batch(s.pending, StartOf(s))[i], clock[2 * i];
    || (id in s.retries && now - s.retries[id].firstAt >= 86400000)
    || (Due(s, id, now) && (answers[i] == Observed || answers[i] == Terminal))
  }

  ghost predicate Due(s: State, id: Id, now: int) {
    if id !in s.retries || s.retries[id].nextAt.None? then now >= 0 else s.retries[id].nextAt.value <= now
  }

  /** The ids among the first `n` of the batch that leave. */
  ghost function Leaving(s: State, clock: seq<int>, answers: seq<Outcome>, n: nat): set<Id>
    requires |clock| == 2 * BATCH_LIMIT + 1 && |answers| == BATCH_LIMIT && n <= |Batch(s.pending, StartOf(s))|
  {
    if n == 0 then {}
    else if Leaves(s, clock, answers, n - 1) then Leaving(s, clock, answers, n - 1) + {Batch(s.pending, StartOf(s))[n - 1]}
    else Leaving(s, clock, answers, n - 1)
  }

  lemma LeavingMore(s: State, clock: seq<int>, answers: seq<Outcome>, i: nat)
    requires |clock| == 2 * BATCH_LIMIT + 1 && |answers| == BATCH_LIMIT && i < |Batch(s.pending, StartOf(s))|
    ensures var id, prior := Batch(s.pending, StartOf(s))[i], Prior(s, Batch(s.pending, StartOf(s))[i], clock[2 * i]);
            var leaves := Aged(prior, clock[2 * i]) || (!Waiting(prior, clock[2 * i]) && !answers[i].Retryable?);
            Leaving(s, clock, answers, i + 1) == Leaving(s, clock, answers, i) + if leaves then {id} else {}
  {
    hide Batch, StartOf;
  }

  /** `clock` holds the times read: two for each id of the batch and one at the end;
      `answers` are the outcomes of the requests, `turns` the files others leave behind; a
      write under the lock may throw for id `failAt` of the batch, or at its end. */
  class AckRunner {
    var file: State
    var turns: seq<State>

    constructor (file: State, turns: seq<State>)
      ensures this.file == file && this.turns == turns
    {
      this.file, this.turns := file, turns;
    }

    /** Others write before the file is locked and read again. */
    method Others() returns (moved: bool)
      modifies this
      ensures moved ==> OthersOk(old(file), file) && file in old(turns)
      ensures !moved ==> file == old(file)
      ensures forall t :: t in turns ==> t in old(turns)
      ensures old(turns) == [] ==> turns == [] && !moved
    {
      moved := false;
      if turns != [] {
        assert turns[0] in turns && forall t :: t in turns[1..] ==> t in turns;
        if OthersOk(file, turns[0]) {
          file, moved := turns[0], true;
        }
        turns := turns[1..];
      }
    }

    method AckPending(deadline: int, clock: seq<int>, answers: seq<Outcome>, failAt: nat, ghost w: World)
        returns (completed: bool, ghost steps: seq<Step>)
      requires Sound(file) && w.file == file && w.round.None?
      requires |clock| == 2 * BATCH_LIMIT + 1 && Nondecreasing(clock) && w.now <= clock[0]
      requires |answers| == BATCH_LIMIT
      modifies this
      ensures Runs(w, steps) && Hears(w, steps, Outside(answers, old(turns)))
      ensures Final(w, steps).file == file && Final(w, steps).round.None?
      ensures old(turns) == [] ==> Quiet(w, steps) && file.cursor == old(file.cursor) && file.messages == old(file.messages)
      ensures completed ==> InTime(old(file), deadline, clock)
      ensures Quiet(w, steps) ==> if completed then Moves(old(file), file) else Cut(old(file), file)
      ensures completed && Quiet(w, steps) ==>
                var n := |Batch(old(file).pending, StartOf(old(file)))|;
                file.pending == Remaining(old(file).pending, Leaving(old(file), clock, answers, n))
      ensures !completed ==>
                || old(file).pending == [] || !InTime(old(file), deadline, clock)
                || failAt <= |Batch(old(file).pending, StartOf(old(file)))|
    {
      hide Apply, Enabled, Hears, Quiet, Sound, Nondecreasing, Runs, Final, Persisted, Remaining, Batch, Prior, Backoff,
           Moves, Cut, StartOf, OthersOk, Leaves;
      var committed := file;
      ghost var env := Outside(answers, turns);
      var start := StartOf(committed);
      var batch := Batch(committed.pending, start);
      var removed: set<Id>, updates: map<Id, Retry> := {}, map[];
      completed := false;
      steps := BeginSteps(w, deadline, env);
      ghost var g := Final(w, steps);
      ghost var gone: set<Id> := {};
      RemainingAll(committed.pending, gone);
      var i := 0;
      while i < |batch|
        invariant i <= |batch| <= BATCH_LIMIT
        invariant forall t :: t in turns ==> t in env.turns
        invariant Runs(w, steps) && Hears(w, steps, env) && Final(w, steps) == g
        invariant g.file == file && g.round == Some(Round(committed, start, batch, i, removed, updates, deadline, None))
        invariant g.now <= clock[2 * i]
        invariant env.turns == [] ==> turns == [] && Quiet(w, steps)
        invariant env.turns == [] ==> file.cursor == committed.cursor && file.messages == committed.messages
        invariant Quiet(w, steps) ==> file.pending == Remaining(committed.pending, gone) && file.next == committed.next
        invariant forall id :: id in gone + removed ==> id in batch
        invariant gone + removed == Leaving(committed, clock, answers, i)
      {
        var id := batch[i];
        var now := clock[2 * i];
        LeavingMore(committed, clock, answers, i);
        var remainingMs := deadline - now;
        if remainingMs < MIN_REMAINING {
          ClockLater(clock, i, |batch|);
          steps := AbandonSteps(w, steps, env);
          if Quiet(w, steps) {
            RoundCut(committed, file, gone);
          }
          return;
        }
        var prior := Prior(committed, id, now);
        if now - prior.firstAt >= MAX_AGE {
          steps, g := SkipSteps(w, steps, g, clock, i, Drop, env);
          removed := removed + {id};
        } else if (if prior.nextAt.Some? then prior.nextAt.value else 0) > now {
          steps, g := SkipSteps(w, steps, g, clock, i, Postpone, env);
        } else if failAt == i {
          steps := AbandonSteps(w, steps, env);
          if Quiet(w, steps) {
            RoundCut(committed, file, gone);
          }
          return;
        } else {
          steps, g := Lock(w, steps, g, env);
          var attempts := prior.attempts + 1;
          var backoff := Backoff(attempts);
          RemainingTwice(committed.pending, gone, removed);
          gone := gone + removed;
          var record := Retry(attempts, prior.firstAt, Some(now + remainingMs + backoff));
          PersistedParts(file, removed, updates[id := record], None);
          file := Persisted(file, removed, updates[id := record], None);
          removed, updates := {}, map[];
          steps, g := TrySteps(w, steps, g, clock, i, env);
          if !answers[i].Retryable? {
            removed := {id};
          } else if deadline - clock[2 * i + 1] >= MIN_REMAINING {
            updates := map[id := Retry(attempts, prior.firstAt, Some(clock[2 * i + 1] + backoff))];
          }
        }
        i := i + 1;
      }
      if deadline - clock[2 * i] < MIN_REMAINING || |batch| == 0 || failAt == i {
        BatchNone(committed.pending, start);
        steps := AbandonSteps(w, steps, env);
        if Quiet(w, steps) {
          RoundCut(committed, file, gone);
        }
        return;
      }
      steps, g := Lock(w, steps, g, env);
      RemainingTwice(committed.pending, gone, removed);
      completed := true;
      PersistedParts(file, removed, updates, Some(start + |batch|));
      file := Persisted(file, removed, updates, Some(start + |batch|));
      if Quiet(w, steps) {
        RoundMoves(committed, file, gone + removed);
      }
      steps := FinishSteps(w, steps, g, clock[2 * i], env);
    }

    /** `Others`, and the step it is. */
    method Lock(ghost w: World, ghost done: seq<Step>, ghost g: World, ghost env: Outside)
        returns (ghost steps: seq<Step>, ghost h: World)
      requires Runs(w, done) && Hears(w, done, env) && Final(w, done) == g && g.file == file
      requires forall t :: t in turns ==> t in env.turns
      modifies this
      ensures Runs(w, steps) && Hears(w, steps, env) && Final(w, steps) == h
      ensures h.file == file && h.now == g.now && h.round == g.round
      ensures forall t :: t in turns ==> t in env.turns
      ensures Quiet(w, steps) <==> Quiet(w, done) && SameQueue(old(file), file)
      ensures old(turns) == [] ==> turns == [] && file == old(file)
    {
      hide OthersOk, Hears, Quiet, Runs, Final;
      var moved := Others();
      steps, h := done, g;
      if moved {
        steps, h := OthersSteps(w, done, g, file, env);
      }
    }
  }

  lemma BeginSteps(w: World, deadline: int, env: Outside) returns (steps: seq<Step>)
    requires w.round.None?
    ensures Runs(w, steps) && Hears(w, steps, env) && Quiet(w, steps)
    ensures Final(w, steps) == w.(round := Some(Round(w.file, StartOf(w.file), Batch(w.file.pending, StartOf(w.file)), 0, {},
                                                      map[], deadline, None)))
  {
    HearsSnoc(w, [], Begin(deadline), env);
    steps := [] + [Begin(deadline)];
  }

  lemma AbandonSteps(w: World, done: seq<Step>, env: Outside) returns (steps: seq<Step>)
    requires Runs(w, done) && Hears(w, done, env) && Final(w, done).round.Some?
    ensures Runs(w, steps) && Hears(w, steps, env) && (Quiet(w, steps) <==> Quiet(w, done))
    ensures Final(w, steps) == Final(w, done).(round := None)
  {
    HearsSnoc(w, done, Abandon, env);
    steps := done + [Abandon];
  }

  lemma TickSteps(w: World, done: seq<Step>, to: int, env: Outside) returns (steps: seq<Step>)
    requires Runs(w, done) && Hears(w, done, env) && Final(w, done).now <= to
    ensures Runs(w, steps) && Hears(w, steps, env) && (Quiet(w, steps) <==> Quiet(w, done))
    ensures Final(w, steps) == Final(w, done).(now := to)
  {
    HearsSnoc(w, done, Tick(to), env);
    steps := done + [Tick(to)];
  }

  lemma OthersSteps(w: World, done: seq<Step>, g: World, file: State, env: Outside) returns (steps: seq<Step>, h: World)
    requires Runs(w, done) && Hears(w, done, env) && Final(w, done) == g && OthersOk(g.file, file) && file in env.turns
    ensures Runs(w, steps) && Hears(w, steps, env) && Final(w, steps) == h
    ensures Quiet(w, steps) <==> Quiet(w, done) && SameQueue(g.file, file)
    ensures h.file == file && h.now == g.now && h.round == g.round
  {
    HearsSnoc(w, done, Others(file), env);
    steps := done + [Others(file)];
    h := Final(w, steps);
  }

  ghost predicate AtId(g: World, clock: seq<int>, i: nat) {
    && g.round.Some? && g.round.value.i == i < |g.round.value.batch| <= BATCH_LIMIT && g.round.value.sending.None?
    && |clock| == 2 * BATCH_LIMIT + 1 && g.now <= clock[2 * i]
    && g.round.value.deadline - clock[2 * i] >= MIN_REMAINING
  }

  lemma SkipSteps(w: World, done: seq<Step>, g: World, clock: seq<int>, i: nat, s: Step, env: Outside)
      returns (steps: seq<Step>, h: World)
    requires Runs(w, done) && Hears(w, done, env) && Final(w, done) == g && AtId(g, clock, i) && Nondecreasing(clock)
    requires s == Drop || s == Postpone
    requires var prior := Prior(g.round.value.committed, g.round.value.batch[i], clock[2 * i]);
             if s == Drop then Aged(prior, clock[2 * i]) else !Aged(prior, clock[2 * i]) && Waiting(prior, clock[2 * i])
    ensures Runs(w, steps) && Hears(w, steps, env) && (Quiet(w, steps) <==> Quiet(w, done))
    ensures Final(w, steps) == h
    ensures var r := g.round.value;
            h.file == g.file && h.now <= clock[2 * i + 2] &&
            h.round == Some(r.(i := i + 1, removed := if s == Drop then r.removed + {r.batch[i]} else r.removed))
  {
    var ticked := TickSteps(w, done, clock[2 * i], env);
    HearsSnoc(w, ticked, s, env);
    steps := ticked + [s];
    h := Final(w, steps);
  }

  lemma TrySteps(w: World, done: seq<Step>, g: World, clock: seq<int>, i: nat, env: Outside)
      returns (steps: seq<Step>, h: World)
    requires Runs(w, done) && Hears(w, done, env) && Final(w, done) == g && AtId(g, clock, i) && Nondecreasing(clock)
    requires i < |env.answers|
    requires var prior := Prior(g.round.value.committed, g.round.value.batch[i], clock[2 * i]);
             !Aged(prior, clock[2 * i]) && !Waiting(prior, clock[2 * i])
    ensures Runs(w, steps) && Hears(w, steps, env) && (Quiet(w, steps) <==> Quiet(w, done))
    ensures Final(w, steps) == h
    ensures var r := g.round.value;
            var id := r.batch[i];
            var prior := Prior(r.committed, id, clock[2 * i]);
            var number := prior.attempts + 1;
            && h.file == Persisted(g.file, r.removed,
                                   r.updates[id := Retry(number, prior.firstAt, Some(r.deadline + Backoff(number)))], None)
            && h.now <= clock[2 * i + 2]
            && h.round == Some(Round(r.committed, r.start, r.batch, i + 1,
                 if !env.answers[i].Retryable? then {id} else {},
                 if env.answers[i].Retryable? && r.deadline - clock[2 * i + 1] >= MIN_REMAINING
                 then map[id := Retry(number, prior.firstAt, Some(clock[2 * i + 1] + Backoff(number)))] else map[],
                 r.deadline, None))
  {
    hide Persisted, Backoff, Runs, Final, Hears, Quiet;
    var ticked := TickSteps(w, done, clock[2 * i], env);
    HearsSnoc(w, ticked, Try, env);
    var tried := ticked + [Try];
    var later := TickSteps(w, tried, clock[2 * i + 1], env);
    HearsSnoc(w, later, Answer(env.answers[i]), env);
    steps := later + [Answer(env.answers[i])];
    h := Final(w, steps);
    var r := g.round.value;
    var id := r.batch[i];
    var number := Prior(r.committed, id, clock[2 * i]).attempts + 1;
    assert {} + {id} == {id};
    var record := Retry(number, Prior(r.committed, id, clock[2 * i]).firstAt, Some(clock[2 * i + 1] + Backoff(number)));
    assert map[][id := record] == map[id := record];
  }

  lemma FinishSteps(w: World, done: seq<Step>, g: World, to: int, env: Outside) returns (steps: seq<Step>)
    requires Runs(w, done) && Hears(w, done, env) && Final(w, done) == g && g.now <= to
    requires g.round.Some? && g.round.value.sending.None? && g.round.value.i == |g.round.value.batch| > 0
    requires g.round.value.deadline - to >= MIN_REMAINING
    ensures Runs(w, steps) && Hears(w, steps, env) && (Quiet(w, steps) <==> Quiet(w, done)) && Final(w, steps).round.None?
    ensures var r := g.round.value;
            Final(w, steps).file == Persisted(g.file, r.removed, r.updates, Some(r.start + |r.batch|))
  {
    var ticked := TickSteps(w, done, to, env);
    HearsSnoc(w, ticked, Finish, env);
    steps := ticked + [Finish];
  }

  // ---- every id comes up ----

  /** How far position `k` lies behind the rotation index. */
  function Distance(length: nat, start: nat, k: nat): (d: nat)
    requires k < length && start <= length
  {
    if k >= start then k - start else k + length - start
  }

  lemma InBatch(queue: seq<Id>, start: nat, k: nat)
    requires k < |queue| && start <= |queue| && Distance(|queue|, start, k) < BATCH_LIMIT
    ensures queue[k] in Batch(queue, start)
  {
    var turned := queue[start..] + queue[..start];
    assert turned[Distance(|queue|, start, k)] == queue[k];
    assert Batch(queue, start)[Distance(|queue|, start, k)] == queue[k];
  }

  /** Rounds still to come at most: ten for each id in the queue, and the distance in batches. */
  function Patience(s: State, k: nat): (m: nat)
    requires k < |s.pending|
  {
    10 * |s.pending| + Distance(|s.pending|, StartOf(s), k) / BATCH_LIMIT
  }

  lemma {:induction false} RemainingShorter(queue: seq<Id>, removed: set<Id>, id: Id)
    requires id in queue && id in removed
    ensures |Remaining(queue, removed)| < |queue|
  {
    var last := queue[|queue| - 1];
    if last !in removed {
      assert queue == queue[..|queue| - 1] + [last];
      RemainingShorter(queue[..|queue| - 1], removed, id);
    }
  }

  /** An id that a completed round passes over stays queued and gets closer. */
  lemma PassedOver(s: State, t: State, k: nat) returns (k': nat)
    requires Sound(s) && Sound(t) && Moves(s, t) && k < |s.pending|
    requires s.pending[k] !in Batch(s.pending, StartOf(s))
    ensures k' < |t.pending| && t.pending[k'] == s.pending[k] && Patience(t, k') < Patience(s, k)
  {
    hide Remaining, Batch, Patience, Distance;
    var removed: set<Id> :| MovesBy(s, t, removed);
    if forall id :: id in s.pending ==> id !in removed {
      RemainingAll(s.pending, removed);
      k' := k;
      QueueTurned(s, t, k);
    } else {
      var id :| id in s.pending && id in removed;
      RemainingShorter(s.pending, removed, id);
      assert s.pending[k] in t.pending;
      k' :| 0 <= k' < |t.pending| && t.pending[k'] == s.pending[k];
      FewerQueued(s, t, k, k');
    }
  }

  lemma QueueTurned(s: State, t: State, k: nat)
    requires Sound(s) && k < |s.pending| && t.pending == s.pending
    requires t.next == (StartOf(s) + |Batch(s.pending, StartOf(s))|) % |t.pending|
    requires s.pending[k] !in Batch(s.pending, StartOf(s))
    ensures Patience(t, k) < Patience(s, k)
  {
    hide Batch;
    var start := StartOf(s);
    if Distance(|s.pending|, start, k) < BATCH_LIMIT {
      InBatch(s.pending, start, k);
    }
    BatchFull(s.pending, start);
    Advance(|s.pending|, start, k, t.next);
    StartIsNext(t);
    Nearer(Distance(|s.pending|, start, k));
  }

  lemma BatchFull(queue: seq<Id>, start: nat)
    requires start <= |queue| && |queue| > BATCH_LIMIT
    ensures |Batch(queue, start)| == BATCH_LIMIT
  {
  }

  lemma StartIsNext(t: State)
    requires t.next < |t.pending|
    ensures StartOf(t) == t.next
  {
  }

  lemma Nearer(d: nat)
    requires d >= BATCH_LIMIT
    ensures (d - BATCH_LIMIT) / BATCH_LIMIT < d / BATCH_LIMIT
  {
  }

  lemma FewerQueued(s: State, t: State, k: nat, k': nat)
    requires k < |s.pending| <= CACHE_LIMIT && k' < |t.pending| < |s.pending|
    ensures Patience(t, k') < Patience(s, k)
  {
    assert Distance(|t.pending|, StartOf(t), k') < CACHE_LIMIT;
  }

  lemma Advance(length: nat, start: nat, k: nat, next: nat)
    requires k < length <= CACHE_LIMIT && start < length && BATCH_LIMIT <= Distance(length, start, k)
    requires next == (start + BATCH_LIMIT) % length
    ensures next < length && Distance(length, next, k) == Distance(length, start, k) - BATCH_LIMIT
  {
    ModOnce(start + BATCH_LIMIT, length);
  }

  lemma ModOnce(x: nat, m: nat)
    requires 0 < m && x < 2 * m
    ensures x % m == if x < m then x else x - m
  {
    if x >= m {
      assert x == 1 * m + (x - m);
    }
  }

  /** An id outside the batch of a round cut short stays queued and gets no farther away. */
  lemma CutKeeps(s: State, t: State, k: nat) returns (k': nat)
    requires Sound(s) && Sound(t) && Cut(s, t) && k < |s.pending|
    requires s.pending[k] !in Batch(s.pending, StartOf(s))
    ensures k' < |t.pending| && t.pending[k'] == s.pending[k] && Patience(t, k') <= Patience(s, k)
  {
    hide Remaining, Batch, Patience, Distance;
    var removed: set<Id> :| CutBy(s, t, removed);
    if forall id :: id in s.pending ==> id !in removed {
      RemainingAll(s.pending, removed);
      k' := k;
      SamePatience(s, t, k);
    } else {
      var id :| id in s.pending && id in removed;
      RemainingShorter(s.pending, removed, id);
      assert s.pending[k] in t.pending;
      k' :| 0 <= k' < |t.pending| && t.pending[k'] == s.pending[k];
      FewerQueued(s, t, k, k');
    }
  }

  lemma SamePatience(s: State, t: State, k: nat)
    requires SameQueue(s, t) && k < |s.pending|
    ensures Patience(t, k) == Patience(s, k)
  {
  }

  /** Rounds one after another, each completed or cut short. */
  ghost predicate Rounds(states: seq<State>) {
    && (forall k :: 0 <= k < |states| ==> Sound(states[k]))
    && (forall k :: 0 <= k < |states| - 1 ==> Moves(states[k], states[k + 1]) || Cut(states[k], states[k + 1]))
  }

  ghost function CompletedRounds(states: seq<State>): nat {
    if |states| < 2 then 0 else (if Moves(states[0], states[1]) then 1 else 0) + CompletedRounds(states[1..])
  }

  /** If no new ids arrive, every queued id comes up in a batch within its patience, counted
      in completed rounds, however many rounds between them are cut short. */
  lemma {:induction false} EveryIdComesUp(states: seq<State>, k: nat) returns (round: nat)
    requires states != [] && Rounds(states) && k < |states[0].pending|
    requires CompletedRounds(states) >= Patience(states[0], k)
    ensures round < |states| && states[0].pending[k] in Batch(states[round].pending, StartOf(states[round]))
    decreases |states|
  {
    hide Moves, Cut, Batch, StartOf, Sound, Distance;
    if states[0].pending[k] in Batch(states[0].pending, StartOf(states[0])) {
      round := 0;
    } else {
      assert |states| > 1;
      var k': nat;
      if Moves(states[0], states[1]) {
        k' := PassedOver(states[0], states[1], k);
      } else {
        k' := CutKeeps(states[0], states[1], k);
      }
      var later := EveryIdComesUp(states[1..], k');
      round := later + 1;
    }
  }

  // ---- the same over every run of the machine ----

  /** The queue as it was when the round under way began, or as it is now. */
  function Base(w: World): State {
    if w.round.Some? then w.round.value.committed else w.file
  }

  /** A round under way has removed ids of its batch only, and has not moved the index. */
  ghost predicate Steady(w: World) {
    && Sound(w.file) && Sound(Base(w))
    && (w.round.Some? ==> RoundSteady(w.file, w.round.value))
  }

  ghost predicate RoundSteady(file: State, r: Round) {
    && r.start == StartOf(r.committed) && r.batch == Batch(r.committed.pending, r.start)
    && Cut(r.committed, file) && r.i <= |r.batch|
    && (forall id :: id in r.removed ==> id in r.batch)
    && (r.sending.Some? ==> r.i < |r.batch| && r.sending.value.id == r.batch[r.i])
  }

  lemma PersistedSound(file: State, removed: set<Id>, retries: map<Id, Retry>, advance: Option<nat>)
    requires Sound(file)
    ensures Sound(Persisted(file, removed, retries, advance))
  {
  }

  lemma PersistedSteady(file: State, r: Round, retries: map<Id, Retry>, advance: Option<nat>)
    requires RoundSteady(file, r) && (advance.Some? ==> advance.value == r.start + |r.batch|)
    ensures var t := Persisted(file, r.removed, retries, advance);
            if advance.None? then Cut(r.committed, t) else Moves(r.committed, t)
  {
    hide Batch, StartOf, Sound, Persisted, Remaining, Moves;
    var gone: set<Id> :| CutBy(r.committed, file, gone);
    RemainingTwice(r.committed.pending, gone, r.removed);
    PersistedParts(file, r.removed, retries, advance);
    if advance.None? {
      RoundCut(r.committed, Persisted(file, r.removed, retries, advance), gone + r.removed);
    } else {
      RoundMoves(r.committed, Persisted(file, r.removed, retries, advance), gone + r.removed);
    }
  }

  lemma CutStill(s: State, t: State, u: State)
    requires Cut(s, t) && SameQueue(t, u)
    ensures Cut(s, u)
  {
    hide Batch, StartOf, Remaining;
    var removed: set<Id> :| CutBy(s, t, removed);
    assert CutBy(s, u, removed);
  }

  lemma CutNone(s: State)
    ensures Cut(s, s)
  {
    RemainingAll(s.pending, {});
    RoundCut(s, s, {});
  }

  /** Others, if it is they who move, leave the queue alone. */
  ghost predicate QuietStep(w: World, s: Step) {
    s.Others? ==> SameQueue(w.file, s.file)
  }

  lemma StepSteady(w: World, s: Step)
    requires Steady(w) && Enabled(w, s) && QuietStep(w, s)
    ensures Steady(Apply(w, s))
    ensures s.Finish? ==> Moves(Base(w), Apply(w, s).file)
    ensures s.Abandon? ==> Cut(Base(w), Apply(w, s).file)
  {
    hide Batch, StartOf, Sound, Moves, Cut, Persisted, Aged, Waiting, Prior, Backoff;
    match s {
      case Others(file) =>
        OthersSound(w.file, file);
        if w.round.Some? {
          CutStill(w.round.value.committed, w.file, file);
        }
      case Begin(_) =>
        CutNone(w.file);
      case Try =>
        TrySteady(w);
      case Finish =>
        var r := w.round.value;
        PersistedSound(w.file, r.removed, r.updates, Some(r.start + |r.batch|));
        PersistedSteady(w.file, r, r.updates, Some(r.start + |r.batch|));
      case _ =>
    }
  }

  lemma OthersSound(s: State, t: State)
    requires OthersOk(s, t)
    ensures Sound(t)
  {
    hide Sound;
  }

  lemma TrySteady(w: World)
    requires Steady(w) && Enabled(w, Try)
    ensures Steady(Apply(w, Try))
  {
    hide Batch, StartOf, Sound, Moves, Cut, Persisted, Aged, Waiting, Prior, Backoff;
    var r, prior := w.round.value, Current(w);
    var id, number := r.batch[r.i], prior.attempts + 1;
    var updates := r.updates[id := Retry(number, prior.firstAt, Some(r.deadline + Backoff(number)))];
    PersistedSound(w.file, r.removed, updates, None);
    PersistedSteady(w.file, r, updates, None);
  }

  /** The id is in the batch of the round under way. */
  predicate Up(w: World, id: Id) {
    w.round.Some? && id in w.round.value.batch
  }

  /** Somewhere along the run the id is in the batch of a round. */
  ghost predicate ComesUp(w: World, steps: seq<Step>, id: Id)
    requires Runs(w, steps)
    decreases |steps|
  {
    Up(w, id) || (steps != [] && ComesUp(Apply(w, steps[0]), steps[1..], id))
  }

  function Finishes(steps: seq<Step>): nat {
    if steps == [] then 0 else (if steps[0].Finish? then 1 else 0) + Finishes(steps[1..])
  }

  /** A step that does not bring the id up brings it no farther away, a completed round closer. */
  lemma StepCloser(w: World, s: Step, k: nat) returns (k': nat)
    requires Steady(w) && Enabled(w, s) && QuietStep(w, s)
    requires k < |Base(w).pending| && !Up(w, Base(w).pending[k])
    ensures Steady(Apply(w, s))
    ensures var t := Base(Apply(w, s));
            && k' < |t.pending| && t.pending[k'] == Base(w).pending[k]
            && Patience(t, k') + (if s.Finish? then 1 else 0) <= Patience(Base(w), k)
  {
    hide Batch, StartOf, Sound, Moves, Cut, Persisted, Patience;
    StepSteady(w, s);
    k' := k;
    match s {
      case Others(file) =>
        if w.round.None? {
          SamePatience(w.file, file, k);
        }
      case Finish =>
        k' := PassedOver(Base(w), Apply(w, s).file, k);
      case Abandon =>
        k' := CutKeeps(Base(w), Apply(w, s).file, k);
      case _ =>
    }
  }

  lemma {:induction false} ComesUpWithin(w: World, steps: seq<Step>, k: nat)
    requires Runs(w, steps) && Quiet(w, steps) && Steady(w) && k < |Base(w).pending|
    requires Finishes(steps) >= Patience(Base(w), k)
    ensures ComesUp(w, steps, Base(w).pending[k])
    decreases |steps|
  {
    hide Enabled, Apply, Steady, Batch, StartOf, Distance, SameQueue;
    if !Up(w, Base(w).pending[k]) {
      assert steps != [];
      var k' := StepCloser(w, steps[0], k);
      ComesUpWithin(Apply(w, steps[0]), steps[1..], k');
    }
  }

  /** Over any run in which others leave the queue alone, with rounds cut short by deadlines,
      failing writes and deaths at any step: every id queued at its start is in a batch before
      more rounds have completed than its patience says. */
  lemma EveryRunComesUp(w: World, steps: seq<Step>, k: nat)
    requires Runs(w, steps) && Quiet(w, steps) && w.round.None? && Sound(w.file) && k < |w.file.pending|
    requires Finishes(steps) >= Patience(w.file, k)
    ensures ComesUp(w, steps, w.file.pending[k])
  {
    hide Runs, Quiet, ComesUp, Patience, Sound;
    ComesUpWithin(w, steps, k);
  }

  /** That is at most 2009 completed rounds, whatever the queue holds. */
  lemma PatienceBound(s: State, k: nat)
    requires Sound(s) && k < |s.pending|
    ensures Patience(s, k) <= 2009
  {
    assert Distance(|s.pending|, StartOf(s), k) < |s.pending|;
  }
}
