/** Publishing a result once, newest last (scripts/standalone-ci/publish-status.py,
    `reconcile`): one publisher, a service that others also write to, lost replies. */
module StatusReconcile {
  import opened Basics
  import opened StatusHistory
  import opened StatusDecision

  /** The contexts only this publisher writes. */
  const CONTEXTS: set<string> := {
    "hetzner/box-dry-run", "hetzner/server", "hetzner/p1-cli", "hetzner/site", "hetzner/unit", "hetzner/server-permanence"
  }

  // ---- what a row means, whoever reads it ----

  function RunOf(row: Row): (id: Option<string>) {
    var p := Parse(Text(row));
    if p.None? then None else Some(p.value.runId)
  }

  function Completed(all: World, row: Row): (t: Option<int>) {
    var p := Parse(Text(row));
    if p.None? then None
    else if p.value.ended.Some? then
      if p.value.ended.value in all.times then Some(all.times[p.value.ended.value]) else None
    else if p.value.runId in all.receipts then Some(all.receipts[p.value.runId].ended) else None
  }

  /** What can be read now is part of what was ever written; times read the same. */
  ghost predicate Within(w: World, all: World) {
    w.times == all.times && forall id :: id in w.receipts ==> id in all.receipts && w.receipts[id] == all.receipts[id]
  }

  ghost predicate Registered(all: World, item: Item) {
    WellFormed(all, item) && item.context in CONTEXTS && item.runId in all.receipts && all.receipts[item.runId] == item
  }

  function Status(item: Item, id: int): Row {
    Row(id, item.state, item.context, Some(Description(item)))
  }

  /** The claim made to one publisher is what the row means. */
  lemma ClaimMeans(all: World, w: World, item: Item, row: Row)
    requires Registered(all, item) && Within(w, all) && ClaimOf(w, item, row).Some?
    ensures var c := ClaimOf(w, item, row).value;
            RunOf(row) == Some(c.runId) && Completed(all, row) == Some(c.signature.completed)
  {
    hide Parse, Description, LegacyDescription, RunId;
    ParseDescription(all, item);
  }

  lemma StatusMeans(all: World, item: Item, id: int)
    requires Registered(all, item)
    ensures RunOf(Status(item, id)) == Some(item.runId) && Completed(all, Status(item, id)) == Some(item.ended)
  {
    hide Parse, Description, LegacyDescription, RunId;
    ParseDescription(all, item);
  }

  // ---- one reconcile ----

  datatype Fate = NotLanded | LostReply | Replied

  /** What the network does to one reconcile: the first history, rows others add before the
      POST, the POST's fate and id, and up to three histories read back. */
  datatype Network = Network(first: Result<seq<Row>>, between: seq<Row>, fate: Fate, id: int, readbacks: seq<Result<seq<Row>>>)

  const ATTEMPTS := 3

  datatype Outcome = Skipped | Published | Failed

  /** The publisher reads its own writes: a history that came back is the log, but for rows
      others have put in front since. */
  ghost predicate Recent(log: seq<Row>, h: seq<Row>) {
    |h| <= |log| && log[|log| - |h|..] == h && Foreign(log[..|log| - |h|])
  }

  ghost predicate Foreign(rows: seq<Row>) {
    forall r :: r in rows ==> r.context !in CONTEXTS
  }

  ghost predicate Possible(log: seq<Row>, net: Network) {
    && (net.first.Ok? ==> Recent(log, net.first.value))
    && Foreign(net.between) && |net.readbacks| == ATTEMPTS
  }

  ghost predicate Posts(w: World, item: Item, net: Network) {
    net.first.Ok? && Consistent(w, item, net.first.value) && !Settled(w, item, net.first.value)
  }

  /** The log afterwards: a landed POST puts one row in front, whatever its reply. */
  ghost function LogAfter(w: World, item: Item, log: seq<Row>, net: Network): (after: seq<Row>) {
    if !Posts(w, item, net) then log
    else (if net.fate.NotLanded? then [] else [Status(item, net.id)]) + (net.between + log)
  }

  /** What `history` returns while others keep adding rows in front is such a history. */
  lemma HistoryIsRecent(states: seq<seq<Row>>, answers: seq<Option<seq<Row>>>, log: seq<Row>)
    requires GrowsInFront(states) && Answers(states, answers)
    requires Extends(states[0], log) && Foreign(log[..|log| - |states[0]|])
    ensures PagesFrom(answers, 0, []).Ok? ==> Recent(log, PagesFrom(answers, 0, []).value)
  {
    HistoryIsFirstRead(states, answers);
  }

  function Find(rows: seq<Row>, id: int): (r: Option<Row>)
    ensures r.None? <==> forall row :: row in rows ==> row.id != id
    ensures r.Some? ==> r.value in rows && r.value.id == id
  {
    if rows == [] then None else if rows[0].id == id then Some(rows[0]) else Find(rows[1..], id)
  }

  /** Some readback shows the new row as it was sent, and every history up to it is in order. */
  ghost predicate Shown(w: World, item: Item, net: Network, k: nat)
    requires k <= ATTEMPTS == |net.readbacks|
    decreases ATTEMPTS - k
  {
    k < ATTEMPTS && net.readbacks[k].Ok? && Consistent(w, item, net.readbacks[k].value) &&
    var found := Find(net.readbacks[k].value, net.id);
    if found.Some? then found.value == Status(item, net.id) else Shown(w, item, net, k + 1)
  }

  ghost function OutcomeOf(w: World, item: Item, net: Network): Outcome
    requires |net.readbacks| == ATTEMPTS
  {
    if net.first.Refused? || !Consistent(w, item, net.first.value) then Failed
    else if Settled(w, item, net.first.value) then Skipped
    else if net.fate.Replied? && net.id > 0 && Shown(w, item, net, 0) then Published
    else Failed
  }

  /** The statuses of one commit, newest first, as the service holds them. */
  class Commit {
    var rows: seq<Row>

    constructor ()
      ensures rows == []
    {
      rows := [];
    }

    method Others(batch: seq<Row>)
      modifies this
      ensures rows == batch + old(rows)
    {
      rows := batch + rows;
    }

    /** Returns the created id, unless the request or its reply was lost. */
    method Post(item: Item, id: int, fate: Fate) returns (created: Option<int>)
      modifies this
      ensures rows == (if fate.NotLanded? then [] else [Status(item, id)]) + old(rows)
      ensures created == if fate.Replied? then Some(id) else None
    {
      if !fate.NotLanded? {
        rows := [Status(item, id)] + rows;
      }
      created := if fate.Replied? then Some(id) else None;
    }
  }

  method Reconcile(commit: Commit, w: World, item: Item, net: Network) returns (outcome: Outcome)
    requires Possible(commit.rows, net)
    modifies commit
    ensures commit.rows == LogAfter(w, item, old(commit.rows), net)
    ensures outcome == OutcomeOf(w, item, net)
    ensures !Posts(w, item, net) ==> commit.rows == old(commit.rows)
    ensures outcome.Published? ==> commit.rows == [Status(item, net.id)] + net.between + old(commit.rows)
    ensures Posts(w, item, net) && net.fate.NotLanded? ==> commit.rows == net.between + old(commit.rows)
    ensures Posts(w, item, net) && !net.fate.NotLanded? ==>
              commit.rows == [Status(item, net.id)] + net.between + old(commit.rows)
  {
    hide Consistent, Settled, Foreign, Recent, Status;
    if net.first.Refused? {
      return Failed;
    }
    var decision := HistoryDecision(w, item, net.first.value);
    if decision.Refuse? {
      return Failed;
    }
    if decision.settled {
      return Skipped;
    }
    commit.Others(net.between);
    var created := commit.Post(item, net.id, net.fate);
    assert Posts(w, item, net);
    assert [] + (net.between + old(commit.rows)) == net.between + old(commit.rows);
    assert [Status(item, net.id)] + (net.between + old(commit.rows)) == [Status(item, net.id)] + net.between + old(commit.rows);
    if created.None? || created.value <= 0 {
      return Failed;
    }
    for attempt := 0 to ATTEMPTS
      invariant commit.rows == LogAfter(w, item, old(commit.rows), net)
      invariant Shown(w, item, net, attempt) <==> Shown(w, item, net, 0)
    {
      if net.readbacks[attempt].Refused? {
        return Failed;
      }
      var readback := net.readbacks[attempt].value;
      var matching := Find(readback, created.value);
      if matching.Some? && !SameStatus(matching.value, item) {
        OtherStatus(matching.value, item, net.id);
        return Failed;
      }
      var again := HistoryDecision(w, item, readback);
      if again.Refuse? {
        return Failed;
      }
      if matching.Some? {
        SameIsStatus(matching.value, item);
        return Published;
      }
    }
    return Failed;
  }

  /** Every field of the payload as it was sent. */
  predicate SameStatus(row: Row, item: Item) {
    row.state == item.state && row.context == item.context && row.description == Some(Description(item))
  }

  lemma SameIsStatus(row: Row, item: Item)
    requires SameStatus(row, item)
    ensures row == Status(item, row.id)
  {
  }

  lemma OtherStatus(row: Row, item: Item, id: int)
    requires !SameStatus(row, item)
    ensures row != Status(item, id)
  {
  }

  // ---- what every reconcile keeps ----

  function Top(context: string, log: seq<Row>): (r: Option<Row>)
    ensures r.None? <==> forall row :: row in log ==> row.context != context
    ensures r.Some? ==> r.value in log && r.value.context == context
  {
    if log == [] then None else if log[0].context == context then Some(log[0]) else Top(context, log[1..])
  }

  /** The newest row of the context is the newest result. */
  ghost predicate Newest(all: World, context: string, log: seq<Row>) {
    forall row :: row in log && row.context == context && Completed(all, row).Some? ==>
      Reaches(all, context, log, Completed(all, row).value)
  }

  /** The context shows a result that completed at `t` or later. */
  ghost predicate Reaches(all: World, context: string, log: seq<Row>, t: int) {
    var top := Top(context, log);
    top.Some? && Completed(all, top.value).Some? && Completed(all, top.value).value >= t
  }

  /** No run has two rows in one context. */
  ghost predicate OneRow(context: string, log: seq<Row>) {
    forall i, j :: 0 <= i < j < |log| && log[i].context == context && log[j].context == context && RunOf(log[i]).Some? ==>
      RunOf(log[i]) != RunOf(log[j])
  }

  lemma {:induction false} TopBehind(context: string, front: seq<Row>, log: seq<Row>)
    requires forall r :: r in front ==> r.context != context
    ensures Top(context, front + log) == Top(context, log)
  {
    if front == [] {
      assert front + log == log;
    } else {
      assert (front + log)[0] == front[0] && (front + log)[1..] == front[1..] + log;
      TopBehind(context, front[1..], log);
    }
  }

  /** A result is sent only when every row of its context is of another run, and earlier. */
  lemma PostsOnlyLater(all: World, w: World, item: Item, log: seq<Row>, net: Network, row: Row)
    requires Registered(all, item) && Within(w, all) && Possible(log, net) && Posts(w, item, net)
    requires row in log && row.context == item.context
    ensures RunOf(row).Some? && RunOf(row) != Some(item.runId)
    ensures Completed(all, row).Some? && Completed(all, row).value < item.ended
  {
    hide ClaimOf, RunOf, Completed, WellFormed;
    var h := net.first.value;
    assert row in h by {
      var n := |log| - |h|;
      assert log == log[..n] + log[n..];
    }
    assert InContext(item, h, row);
    ClaimMeans(all, w, item, row);
    assert !Settles(w, item, row);
  }

  /** Rows of other contexts in front change nothing. */
  lemma FrontKeeps(all: World, context: string, front: seq<Row>, log: seq<Row>)
    requires forall r :: r in front ==> r.context != context
    ensures Newest(all, context, log) ==> Newest(all, context, front + log)
    ensures OneRow(context, log) ==> OneRow(context, front + log)
    ensures forall t :: Reaches(all, context, log, t) ==> Reaches(all, context, front + log, t)
  {
    hide RunOf, Completed;
    TopBehind(context, front, log);
    if OneRow(context, log) {
      assert forall k :: 0 <= k < |front| ==> (front + log)[k] == front[k];
      var joined := front + log;
      forall i, j | 0 <= i < j < |joined| && joined[i].context == context && joined[j].context == context && RunOf(joined[i]).Some?
        ensures RunOf(joined[i]) != RunOf(joined[j])
      {
        assert joined[i] == log[i - |front|] && joined[j] == log[j - |front|];
      }
    }
  }

  /** A new row of a later result keeps both, and moves the context forward. */
  lemma RowKeeps(all: World, item: Item, id: int, log: seq<Row>)
    requires Registered(all, item)
    requires forall r :: r in log && r.context == item.context ==>
               RunOf(r) != Some(item.runId) && (Completed(all, r).Some? ==> Completed(all, r).value < item.ended)
    ensures Newest(all, item.context, [Status(item, id)] + log)
    ensures OneRow(item.context, log) ==> OneRow(item.context, [Status(item, id)] + log)
    ensures Reaches(all, item.context, [Status(item, id)] + log, item.ended)
  {
    hide RunOf, Completed, Registered, Description;
    StatusMeans(all, item, id);
    var after := [Status(item, id)] + log;
    assert after[0].context == item.context;
    if OneRow(item.context, log) {
      var c := item.context;
      forall i, j | 0 <= i < j < |after| && after[i].context == c && after[j].context == c && RunOf(after[i]).Some?
        ensures RunOf(after[i]) != RunOf(after[j])
      {
        assert after[j] == log[j - 1];
        if i > 0 {
          assert after[i] == log[i - 1];
        }
      }
    }
  }

  /** Why a POST that timed out must not land later: wherever in a run its row arrives, the
      newest row is the newest result exactly if no row there completed after it. */
  lemma LateRow(all: World, item: Item, id: int, log: seq<Row>)
    requires Registered(all, item)
    ensures Newest(all, item.context, [Status(item, id)] + log) <==>
            forall r :: r in log && r.context == item.context && Completed(all, r).Some? ==> Completed(all, r).value <= item.ended
  {
    hide RunOf, Completed, Registered, Description;
    StatusMeans(all, item, id);
    var after := [Status(item, id)] + log;
    assert after[0].context == item.context;
    assert forall r :: r in after <==> r == Status(item, id) || r in log;
  }

  /** Whatever happens to it, a reconcile keeps every context newest last and every run in
      one row, and never moves a context back. */
  lemma ReconcileKeeps(all: World, w: World, item: Item, log: seq<Row>, net: Network, context: string)
    requires Registered(all, item) && Within(w, all) && Possible(log, net) && context in CONTEXTS
    ensures var after := LogAfter(w, item, log, net);
            && (Newest(all, context, log) ==> Newest(all, context, after))
            && (OneRow(context, log) ==> OneRow(context, after))
            && forall t :: Newest(all, context, log) && Reaches(all, context, log, t) ==> Reaches(all, context, after, t)
  {
    hide Newest, OneRow, Reaches, WellFormed, Settled, Consistent;
    if Posts(w, item, net) {
      FrontKeeps(all, context, net.between, log);
      var front := net.between + log;
      if net.fate.NotLanded? {
        assert [] + front == front;
      } else if context != item.context {
        FrontKeeps(all, context, [Status(item, net.id)], front);
      } else {
        AllEarlier(all, w, item, log, net);
        RowKeeps(all, item, net.id, front);
        forall t | Newest(all, context, log) && Reaches(all, context, log, t)
          ensures Reaches(all, context, [Status(item, net.id)] + front, t)
        {
          ReachesEarlier(all, item, log, t);
          ReachesLess(all, context, [Status(item, net.id)] + front, item.ended, t);
        }
      }
    }
  }

  lemma AllEarlier(all: World, w: World, item: Item, log: seq<Row>, net: Network)
    requires Registered(all, item) && Within(w, all) && Possible(log, net) && Posts(w, item, net)
    ensures forall r :: r in net.between + log && r.context == item.context ==>
              RunOf(r) != Some(item.runId) && Completed(all, r).Some? && Completed(all, r).value < item.ended
  {
    hide RunOf, Completed, WellFormed, Settled, Consistent;
    forall r | r in net.between + log && r.context == item.context
      ensures RunOf(r) != Some(item.runId) && Completed(all, r).Some? && Completed(all, r).value < item.ended
    {
      PostsOnlyLater(all, w, item, log, net, r);
    }
  }

  lemma ReachesEarlier(all: World, item: Item, log: seq<Row>, t: int)
    requires forall r :: r in log && r.context == item.context ==> Completed(all, r).Some? && Completed(all, r).value < item.ended
    requires Reaches(all, item.context, log, t)
    ensures t < item.ended
  {
  }

  lemma ReachesLess(all: World, context: string, log: seq<Row>, t: int, u: int)
    requires Reaches(all, context, log, t) && u <= t
    ensures Reaches(all, context, log, u)
  {
  }

  /** A reconcile that does not fail leaves its context at this result or a later one. */
  lemma DoneReaches(all: World, w: World, item: Item, log: seq<Row>, net: Network)
    requires Registered(all, item) && Within(w, all) && Possible(log, net)
    requires Newest(all, item.context, log) && !OutcomeOf(w, item, net).Failed?
    ensures Reaches(all, item.context, LogAfter(w, item, log, net), item.ended)
  {
    hide Reaches, WellFormed, Consistent;
    if Posts(w, item, net) {
      AllEarlier(all, w, item, log, net);
      RowKeeps(all, item, net.id, net.between + log);
    } else {
      var h := net.first.value;
      var row :| InContext(item, h, row) && Settles(w, item, row);
      assert row in log by {
        assert row in log[|log| - |h|..];
      }
      SettlerReaches(all, w, item, row);
      ReachesLess(all, item.context, log, Completed(all, row).value, item.ended);
    }
  }

  lemma SettlerReaches(all: World, w: World, item: Item, row: Row)
    requires Registered(all, item) && Within(w, all) && Settles(w, item, row)
    ensures Completed(all, row).Some? && Completed(all, row).value >= item.ended
  {
    hide Parse, Description, LegacyDescription, RunId;
    ClaimMeans(all, w, item, row);
  }

  // ---- whole runs ----

  datatype Step = Foreigners(batch: seq<Row>) | Publish(w: World, item: Item, net: Network)

  ghost function Apply(log: seq<Row>, step: Step): seq<Row> {
    match step
    case Foreigners(batch) => batch + log
    case Publish(w, item, net) => LogAfter(w, item, log, net)
  }

  ghost predicate Enabled(all: World, log: seq<Row>, step: Step) {
    match step
    case Foreigners(batch) => Foreign(batch)
    case Publish(w, item, net) => Registered(all, item) && Within(w, all) && Possible(log, net)
  }

  ghost function LogAt(log: seq<Row>, steps: seq<Step>): seq<Row> {
    if steps == [] then log else Apply(LogAt(log, steps[..|steps| - 1]), steps[|steps| - 1])
  }

  ghost predicate Run(all: World, log: seq<Row>, steps: seq<Step>) {
    steps == [] || (Run(all, log, steps[..|steps| - 1]) && Enabled(all, LogAt(log, steps[..|steps| - 1]), steps[|steps| - 1]))
  }

  ghost predicate Done(step: Step, context: string) {
    step.Publish? && step.item.context == context && |step.net.readbacks| == ATTEMPTS &&
    !OutcomeOf(step.w, step.item, step.net).Failed?
  }

  lemma StepKeeps(all: World, context: string, log: seq<Row>, step: Step)
    requires Enabled(all, log, step) && context in CONTEXTS && Newest(all, context, log)
    ensures Newest(all, context, Apply(log, step))
    ensures OneRow(context, log) ==> OneRow(context, Apply(log, step))
    ensures forall t :: Reaches(all, context, log, t) ==> Reaches(all, context, Apply(log, step), t)
    ensures Done(step, context) ==> Reaches(all, context, Apply(log, step), step.item.ended)
  {
    hide Newest, OneRow, Reaches, Registered, LogAfter, OutcomeOf;
    match step {
      case Foreigners(batch) =>
        FrontKeeps(all, context, batch, log);
      case Publish(w, item, net) =>
        ReconcileKeeps(all, w, item, log, net, context);
        if Done(step, context) {
          DoneReaches(all, w, item, log, net);
        }
    }
  }

  /** Any reconciles in any order, with any replies lost: the newest row of a context stays
      the newest result, no run gets a second row, and the context shows at least the latest
      result that was ever reported as published or skipped. */
  lemma {:induction false} RunKeeps(all: World, context: string, log: seq<Row>, steps: seq<Step>)
    requires Run(all, log, steps) && context in CONTEXTS && Newest(all, context, log)
    ensures Newest(all, context, LogAt(log, steps))
    ensures OneRow(context, log) ==> OneRow(context, LogAt(log, steps))
    ensures forall k :: 0 <= k < |steps| && Done(steps[k], context) ==>
              Reaches(all, context, LogAt(log, steps), steps[k].item.ended)
  {
    hide Newest, OneRow, Reaches, Enabled, Apply, OutcomeOf;
    if steps != [] {
      var before := steps[..|steps| - 1];
      RunKeeps(all, context, log, before);
      StepKeeps(all, context, LogAt(log, before), steps[|steps| - 1]);
      forall k | 0 <= k < |steps| && Done(steps[k], context)
        ensures Reaches(all, context, LogAt(log, steps), steps[k].item.ended)
      {
        assert k < |before| ==> steps[k] == before[k];
      }
    }
  }
}
