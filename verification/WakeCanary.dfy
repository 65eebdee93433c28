/** The wake test of src/cloud/agent-channel.ts: when the binding may say that this session
    was woken. One receiver lives at a time; the user, the host's hooks and the receiver
    change the binding in any order, and any request or write of the receiver may fail. */
module WakeCanary {
  import opened Basics

  /** A delivery: its signal, whether it is addressed by this agent to itself, and the nonce
      its text carries if it has the form of a wake test. */
  datatype Row = Row(signal: nat, self: bool, nonce: Option<nat>)
  datatype Canary = Canary(nonce: nat, signal: Option<nat>, whileIdle: bool)
  datatype Binding = Binding(wake: bool, instance: Option<nat>, idle: bool, canary: Option<Canary>, verified: bool)

  /** Where the main loop is: at the top of an iteration, acting on a binding snapshot, sending
      a notification, handling its failure, or between a finished request and the binding
      update that follows it. */
  datatype At = Top | Acting | Sending | Failing | Emitting | Acked

  /** A receipt call whose journal write is in flight: about the delivery held, which was
      confirmed before or not, or about one that is gone. */
  datatype Writing = NoWrite | OfHeld(was: bool) | OfGone

  datatype Receiver = Receiver(instance: nat, gateway: bool, pending: Option<Row>, confirmed: bool, notified: bool,
                               writing: Writing, snap: Binding, at: At)

  datatype Event =
    | Started(instance: nat)
    | Emitted(row: Row, test: Option<nat>, instance: nat, idle: bool)
    | Echoed(row: Row)
    | AckAccepted(row: Row, instance: nat)
    | Verified(row: Row, nonce: nat, instance: nat)
    | Cleared

  datatype World = World(binding: Binding, receiver: Option<Receiver>, log: seq<Event>)

  datatype Step =
    | Configure(wake: bool)
    | Request(nonce: nat)
    | Hook(idle: bool)
    | Start(instance: nat, gateway: bool, restored: Option<Row>, confirmed: bool)
    | Snapshot
    | Post(signal: nat)
    | Claim(row: Row)
    | Expire
    | Notify
    | Sent(delivered: bool)
    | EmitUpdate
    | Echo(tool: bool)
    | EchoDone(written: bool)
    | AckReply
    | VerifyUpdate
    | Fail(conflict: bool)
    | ShutDown(written: bool)

  predicate IsCurrentCanary(b: Binding, row: Row) {
    b.canary.Some? && row.self && (b.canary.value.signal == Some(row.signal) || row.nonce == Some(b.canary.value.nonce))
  }

  predicate SameNonce(b: Binding, c: Binding) {
    b.canary.Some? && c.canary.Some? && b.canary.value.nonce == c.canary.value.nonce
  }

  predicate Acts(w: World, at: At) {
    w.receiver.Some? && w.receiver.value.at == at
  }

  ghost predicate Enabled(w: World, s: Step) {
    match s
    case Configure(_) => true
    case Request(_) => w.binding.wake
    case Hook(_) => true
    case Start(_, _, restored, confirmed) =>
      // A stored confirmation rests on an echo; see the receipt protocol.
      w.receiver.None? && (confirmed ==> restored.Some? && Echoed(restored.value) in w.log)
    case Snapshot => Acts(w, Top) || Acts(w, Acting)
    case Post(_) => Acts(w, Acting) && w.receiver.value.pending.None? && w.receiver.value.snap.idle &&
                    w.receiver.value.snap.canary.Some? && w.receiver.value.snap.canary.value.signal.None?
    case Claim(_) => Acts(w, Acting) && w.receiver.value.pending.None?
    case Expire =>
      Acts(w, Acting) && w.receiver.value.pending.Some? && !(w.receiver.value.confirmed && w.receiver.value.writing.NoWrite?)
    case Notify => Acts(w, Acting) && w.receiver.value.pending.Some? &&
                   !w.receiver.value.confirmed && !w.receiver.value.notified &&
                   !(IsCurrentCanary(w.receiver.value.snap, w.receiver.value.pending.value) && !w.receiver.value.snap.idle)
    case Sent(_) => Acts(w, Sending) && w.receiver.value.pending.Some?
    case EmitUpdate => Acts(w, Emitting) && w.receiver.value.pending.Some?
    case Echo(tool) =>
      // The tool's calls come one at a time; the mailbox is read by the main loop.
      && w.receiver.Some? && w.receiver.value.pending.Some? && w.receiver.value.notified
      && if tool then w.receiver.value.writing.NoWrite? else w.receiver.value.gateway && w.receiver.value.at == Acting
    case EchoDone(_) => w.receiver.Some? && !w.receiver.value.writing.NoWrite?
    case AckReply =>
      // A receipt call may begin while the ack is on its way.
      && Acts(w, Acting) && w.receiver.value.pending.Some? && w.receiver.value.confirmed
      && w.receiver.value.writing in {NoWrite, OfHeld(true)}
    case VerifyUpdate => Acts(w, Acked) && w.receiver.value.pending.Some?
    case Fail(_) => w.receiver.Some?
    case ShutDown(_) => w.receiver.Some?
  }

  /** The delivery is dropped; a receipt call still under way no longer concerns it. */
  function LetGo(r: Receiver): Receiver {
    r.(pending := None, confirmed := false, notified := false, at := Top,
       writing := if r.writing.NoWrite? then NoWrite else OfGone)
  }

  ghost function Apply(w: World, s: Step): (r: World)
    requires Enabled(w, s)
  {
    var b := w.binding;
    match s
    case Configure(wake) =>
      if wake == b.wake then w
      else w.(binding := b.(wake := wake, verified := false, canary := None), log := w.log + [Cleared])
    case Request(nonce) =>
      w.(binding := b.(verified := false, canary := Some(Canary(nonce, None, false))), log := w.log + [Cleared])
    case Hook(idle) => w.(binding := b.(idle := idle))
    case Start(instance, gateway, restored, confirmed) =>
      World(Binding(b.wake, Some(instance), b.idle && !gateway,
                    if b.canary.Some? then Some(b.canary.value.(whileIdle := false)) else None, false),
            Some(Receiver(instance, gateway, restored, confirmed, false, NoWrite, b, Top)), w.log + [Started(instance)])
    case Snapshot =>
      // A receiver whose binding was taken over or left wake mode breaks out and shuts down.
      if !b.wake || b.instance != Some(w.receiver.value.instance) then w
      else w.(receiver := Some(w.receiver.value.(snap := b, at := Acting)))
    case Post(signal) =>
      if SameNonce(b, w.receiver.value.snap)
      then w.(binding := b.(canary := Some(b.canary.value.(signal := Some(signal)))))
      else w
    case Claim(row) => w.(receiver := Some(w.receiver.value.(pending := Some(row), confirmed := false, at := Top)))
    case Expire => w.(receiver := Some(LetGo(w.receiver.value)))
    case Notify =>
      var r := w.receiver.value;
      var current := IsCurrentCanary(r.snap, r.pending.value);
      // The gateway form publishes the challenge before it sends.
      w.(receiver := Some(r.(notified := r.gateway, at := Sending)),
         log := w.log + [Emitted(r.pending.value, if current then Some(r.snap.canary.value.nonce) else None, r.instance, r.snap.idle)])
    case Sent(delivered) =>
      w.(receiver := Some(w.receiver.value.(notified := delivered, at := if delivered then Emitting else Failing)))
    case EmitUpdate =>
      var r := w.receiver.value;
      var b' := if IsCurrentCanary(r.snap, r.pending.value) && SameNonce(b, r.snap)
                then b.(idle := false, canary := Some(b.canary.value.(signal := Some(r.pending.value.signal), whileIdle := r.snap.idle)))
                else b.(idle := false);
      w.(binding := b', receiver := Some(r.(at := Top)))
    case Echo(tool) =>
      var r := w.receiver.value;
      w.(receiver := Some(r.(confirmed := true, writing := if tool then OfHeld(r.confirmed) else r.writing)),
         log := w.log + [Echoed(r.pending.value)])
    case EchoDone(written) =>
      // A failed write takes the confirmation back from the delivery the call was about.
      var r := w.receiver.value;
      w.(receiver := Some(r.(writing := NoWrite,
                             confirmed := if !written && r.writing.OfHeld? then r.writing.was else r.confirmed)))
    case AckReply =>
      var r := w.receiver.value;
      w.(receiver := Some(r.(at := Acked)), log := w.log + [AckAccepted(r.pending.value, r.instance)])
    case VerifyUpdate =>
      var r := w.receiver.value;
      var done := Some(LetGo(r));
      if IsCurrentCanary(r.snap, r.pending.value) && r.snap.canary.value.whileIdle && b.wake &&
         b.instance == Some(r.instance) && SameNonce(b, r.snap) && b.canary.value.whileIdle
      then World(b.(verified := true), done, w.log + [Verified(r.pending.value, b.canary.value.nonce, r.instance)])
      else w.(receiver := done)
    case Fail(conflict) =>
      var r := w.receiver.value.(at := Top);
      World(b.(verified := false),
            Some(if conflict then LetGo(r) else r), w.log + [Cleared])
    case ShutDown(written) =>
      if written && b.instance == Some(w.receiver.value.instance)
      then World(b.(verified := false), None, w.log + [Cleared])
      else w.(receiver := None)
  }

  // ---- what "verified" rests on ----

  /** This instance emitted the canary with this nonce from an idle snapshot. */
  ghost predicate EmittedIdle(log: seq<Event>, instance: nat, nonce: nat) {
    exists row: Row :: Emitted(row, Some(nonce), instance, true) in log
  }

  /** This row's emission, then its echo, then the acceptance of its acknowledgement. */
  ghost predicate EmittedAs(log: seq<Event>, row: Row, test: Option<nat>, instance: nat, idle: bool) {
    Emitted(row, test, instance, idle) in log
  }

  ghost predicate EchoedAfter(log: seq<Event>, e: nat, row: Row, test: Option<nat>, instance: nat, idle: bool) {
    e < |log| && log[e] == Echoed(row) && EmittedAs(log[..e], row, test, instance, idle)
  }

  ghost predicate HasEcho(log: seq<Event>, row: Row, test: Option<nat>, instance: nat, idle: bool) {
    exists e: nat :: EchoedAfter(log, e, row, test, instance, idle)
  }

  ghost predicate AckedAfter(log: seq<Event>, a: nat, row: Row, test: Option<nat>, instance: nat, idle: bool) {
    a < |log| && log[a] == AckAccepted(row, instance) && HasEcho(log[..a], row, test, instance, idle)
  }

  ghost predicate HasAck(log: seq<Event>, row: Row, test: Option<nat>, instance: nat, idle: bool) {
    exists a: nat :: AckedAfter(log, a, row, test, instance, idle)
  }

  /** What the receiver's own record of a notified delivery rests on. */
  ghost predicate Evidence(log: seq<Event>, r: Receiver, test: Option<nat>, idle: bool)
    requires r.pending.Some?
  {
    && EmittedAs(log, r.pending.value, test, r.instance, idle)
    && (r.confirmed ==> HasEcho(log, r.pending.value, test, r.instance, idle))
    && (r.at == Acked ==> HasAck(log, r.pending.value, test, r.instance, idle))
  }

  /** The emission was that of the test which the binding, or the snapshot acted on, holds. */
  ghost predicate ForTest(r: Receiver, b: Binding, test: Option<nat>, idle: bool)
    requires r.pending.Some?
  {
    && (r.at in {Sending, Emitting} && IsCurrentCanary(r.snap, r.pending.value) ==>
          idle && test == Some(r.snap.canary.value.nonce))
    && (IsCurrentCanary(b, r.pending.value) && b.canary.value.whileIdle ==> idle && test == Some(b.canary.value.nonce))
  }

  ghost predicate NotifiedOk(r: Receiver, b: Binding, log: seq<Event>)
    requires r.pending.Some?
  {
    exists test: Option<nat>, idle: bool :: Evidence(log, r, test, idle) && ForTest(r, b, test, idle)
  }

  /** Event `v` verified the very row whose acknowledgement was accepted after its echo, which
      came after this instance had emitted it, from an idle snapshot, as the test. */
  ghost predicate VerifiedAt(log: seq<Event>, v: nat, instance: nat, nonce: nat) {
    && v < |log| && log[v].Verified? && log[v].nonce == nonce && log[v].instance == instance && log[v].row.self
    && HasAck(log[..v], log[v].row, Some(nonce), instance, true)
    && forall x :: v < x < |log| ==> !log[x].Cleared? && !log[x].Started?
  }

  ghost predicate Proven(log: seq<Event>, instance: nat, nonce: nat) {
    exists v: nat :: VerifiedAt(log, v, instance, nonce)
  }

  ghost predicate NothingEmitted(log: seq<Event>, instance: nat) {
    forall k :: 0 <= k < |log| && log[k].Emitted? ==> log[k].instance != instance
  }

  ghost predicate BindingOk(b: Binding, log: seq<Event>) {
    && (b.canary.Some? && b.canary.value.whileIdle ==>
          b.instance.Some? && EmittedIdle(log, b.instance.value, b.canary.value.nonce))
    && (b.verified ==>
          && b.instance.Some? && b.canary.Some? && b.canary.value.whileIdle
          && Proven(log, b.instance.value, b.canary.value.nonce))
  }

  /** The delivery's notification is under way or was delivered. */
  predicate Traced(r: Receiver) {
    r.notified || r.at == Sending || r.at == Emitting
  }

  ghost predicate ReceiverOk(r: Receiver, b: Binding, log: seq<Event>) {
    && b.instance == Some(r.instance)
    && (r.pending.None? ==> !r.confirmed && !Traced(r) && !r.writing.OfHeld?)
    && (Traced(r) ==> NotifiedOk(r, b, log))
    // A confirmation without evidence was restored, and this instance has emitted nothing.
    && (r.confirmed ==> NotifiedOk(r, b, log) || NothingEmitted(log, r.instance))
    && (r.writing.OfHeld? ==> r.confirmed)
    && (r.at in {Sending, Emitting} && IsCurrentCanary(r.snap, r.pending.value) ==> r.snap.idle)
    && (r.at == Acked && r.pending.Some? ==> r.confirmed && r.writing != OfHeld(false))
    // A test once emitted does not change while a snapshot of it is acted on.
    && (r.at != Top && r.pending.Some? && b.canary.Some? && b.canary.value.whileIdle ==> b.canary == r.snap.canary)
  }

  ghost predicate Inv(w: World) {
    BindingOk(w.binding, w.log) && (w.receiver.Some? ==> ReceiverOk(w.receiver.value, w.binding, w.log))
  }

  /** Instance ids are fresh. */
  ghost predicate FreshStart(w: World, s: Step) {
    s.Start? ==> NothingEmitted(w.log, s.instance)
  }

  // ---- evidence stays ----

  lemma EmittedMore(log: seq<Event>, e: Event, instance: nat, nonce: nat)
    requires EmittedIdle(log, instance, nonce)
    ensures EmittedIdle(log + [e], instance, nonce)
  {
    var row :| Emitted(row, Some(nonce), instance, true) in log;
    assert Emitted(row, Some(nonce), instance, true) in log + [e];
  }

  lemma EchoMore(log: seq<Event>, e: Event, row: Row, test: Option<nat>, instance: nat, idle: bool)
    requires HasEcho(log, row, test, instance, idle)
    ensures HasEcho(log + [e], row, test, instance, idle)
  {
    var k: nat :| EchoedAfter(log, k, row, test, instance, idle);
    assert (log + [e])[..k] == log[..k];
    assert EchoedAfter(log + [e], k, row, test, instance, idle);
  }

  lemma AckMore(log: seq<Event>, e: Event, row: Row, test: Option<nat>, instance: nat, idle: bool)
    requires HasAck(log, row, test, instance, idle)
    ensures HasAck(log + [e], row, test, instance, idle)
  {
    hide HasEcho;
    var k: nat :| AckedAfter(log, k, row, test, instance, idle);
    assert (log + [e])[..k] == log[..k];
    assert AckedAfter(log + [e], k, row, test, instance, idle);
  }

  lemma EvidenceMore(log: seq<Event>, e: Event, r: Receiver, test: Option<nat>, idle: bool)
    requires r.pending.Some? && Evidence(log, r, test, idle)
    ensures Evidence(log + [e], r, test, idle)
  {
    hide HasEcho, HasAck;
    if r.confirmed {
      EchoMore(log, e, r.pending.value, test, r.instance, idle);
    }
    if r.at == Acked {
      AckMore(log, e, r.pending.value, test, r.instance, idle);
    }
  }

  /** An echo of a notified delivery comes after its emission. */
  lemma EchoEvidence(log: seq<Event>, r: Receiver, test: Option<nat>, idle: bool)
    requires r.pending.Some? && Evidence(log, r, test, idle)
    ensures Evidence(log + [Echoed(r.pending.value)], r.(confirmed := true), test, idle)
  {
    hide HasAck;
    var e := Echoed(r.pending.value);
    EvidenceMore(log, e, r, test, idle);
    assert (log + [e])[..|log|] == log;
    assert EchoedAfter(log + [e], |log|, r.pending.value, test, r.instance, idle);
  }

  lemma AckEvidence(log: seq<Event>, r: Receiver, test: Option<nat>, idle: bool)
    requires r.pending.Some? && r.confirmed && Evidence(log, r, test, idle)
    ensures Evidence(log + [AckAccepted(r.pending.value, r.instance)], r.(at := Acked), test, idle)
  {
    hide HasEcho;
    var e := AckAccepted(r.pending.value, r.instance);
    EvidenceMore(log, e, r, test, idle);
    assert (log + [e])[..|log|] == log;
    assert AckedAfter(log + [e], |log|, r.pending.value, test, r.instance, idle);
  }

  lemma ProvenMore(log: seq<Event>, e: Event, instance: nat, nonce: nat)
    requires Proven(log, instance, nonce) && !e.Cleared? && !e.Started?
    ensures Proven(log + [e], instance, nonce)
  {
    var v: nat :| VerifiedAt(log, v, instance, nonce);
    assert (log + [e])[..v] == log[..v];
    assert VerifiedAt(log + [e], v, instance, nonce);
  }

  lemma BindingMore(b: Binding, log: seq<Event>, e: Event)
    requires BindingOk(b, log) && ((!e.Cleared? && !e.Started?) || !b.verified)
    ensures BindingOk(b, log + [e])
  {
    hide EmittedIdle, Proven;
    if b.canary.Some? && b.canary.value.whileIdle {
      EmittedMore(log, e, b.instance.value, b.canary.value.nonce);
    }
    if b.verified {
      ProvenMore(log, e, b.instance.value, b.canary.value.nonce);
    }
  }

  lemma NotifiedMore(r: Receiver, b: Binding, log: seq<Event>, e: Event)
    requires r.pending.Some? && NotifiedOk(r, b, log)
    ensures NotifiedOk(r, b, log + [e])
  {
    hide Evidence, ForTest;
    var test: Option<nat>, idle: bool :| Evidence(log, r, test, idle) && ForTest(r, b, test, idle);
    EvidenceMore(log, e, r, test, idle);
  }

  lemma ReceiverMore(r: Receiver, b: Binding, log: seq<Event>, e: Event)
    requires ReceiverOk(r, b, log) && !e.Emitted?
    ensures ReceiverOk(r, b, log + [e])
  {
    hide NotifiedOk, IsCurrentCanary;
    if r.pending.Some? && NotifiedOk(r, b, log) {
      NotifiedMore(r, b, log, e);
    }
    if NothingEmitted(log, r.instance) {
      NothingMore(log, e, r.instance);
    }
  }

  lemma NothingMore(log: seq<Event>, e: Event, instance: nat)
    requires NothingEmitted(log, instance) && !e.Emitted?
    ensures NothingEmitted(log + [e], instance)
  {
  }

  /** A binding without an emitted test asks nothing of the delivery held. */
  lemma NotifiedAnyway(r: Receiver, b: Binding, c: Binding, log: seq<Event>)
    requires r.pending.Some? && NotifiedOk(r, b, log)
    requires c.canary.Some? && c.canary.value.whileIdle ==> c.canary == b.canary
    ensures NotifiedOk(r, c, log)
  {
    hide Evidence;
    var test: Option<nat>, idle: bool :| Evidence(log, r, test, idle) && ForTest(r, b, test, idle);
    assert ForTest(r, c, test, idle);
  }

  // ---- the steps ----

  /** The binding changes; the receiver does not. */
  lemma StepUser(w: World, s: Step)
    requires Inv(w) && Enabled(w, s) && (s.Configure? || s.Request? || s.Hook? || s.Post?)
    ensures Inv(Apply(w, s))
  {
    hide EmittedIdle, NotifiedOk, Proven, NothingEmitted, IsCurrentCanary;
    var v := Apply(w, s);
    if w.receiver.Some? {
      var r := w.receiver.value;
      if r.pending.Some? && NotifiedOk(r, w.binding, w.log) {
        NotifiedAnyway(r, w.binding, v.binding, w.log);
      }
    }
    if v.log != w.log {
      BindingMore(v.binding, w.log, Cleared);
      if w.receiver.Some? {
        ReceiverMore(w.receiver.value, v.binding, w.log, Cleared);
      }
    }
  }

  /** The evidence does not depend on where the main loop is, but for the ack. */
  lemma NotifiedMoved(r: Receiver, q: Receiver, b: Binding, log: seq<Event>)
    requires r.pending.Some? && NotifiedOk(r, b, log)
    requires q.pending == r.pending && q.instance == r.instance && (q.confirmed ==> r.confirmed)
    requires q.at == Acked ==> r.at == Acked
    requires q.at in {Sending, Emitting} ==> r.at in {Sending, Emitting} && q.snap == r.snap
    ensures NotifiedOk(q, b, log)
  {
    hide HasEcho, HasAck, IsCurrentCanary;
    var test: Option<nat>, idle: bool :| Evidence(log, r, test, idle) && ForTest(r, b, test, idle);
    assert Evidence(log, q, test, idle) && ForTest(q, b, test, idle);
  }

  /** The receiver moves on in its loop, or a receipt call ends; it keeps what it holds. */
  lemma StepMoves(w: World, s: Step)
    requires Inv(w) && Enabled(w, s) && (s.Snapshot? || s.Sent? || s.EchoDone?)
    ensures Inv(Apply(w, s))
  {
    hide EmittedIdle, NotifiedOk, Proven, NothingEmitted, IsCurrentCanary;
    var v := Apply(w, s);
    var r, q := w.receiver.value, v.receiver.value;
    if r.pending.Some? && NotifiedOk(r, w.binding, w.log) {
      NotifiedMoved(r, q, w.binding, w.log);
    }
  }

  lemma StepStart(w: World, s: Step)
    requires Inv(w) && Enabled(w, s) && s.Start? && FreshStart(w, s)
    ensures Inv(Apply(w, s))
  {
    hide EmittedIdle, NotifiedOk, Proven;
  }

  /** A delivery is taken up or let go, or the receiver is back at the top of its loop. */
  lemma StepHold(w: World, s: Step)
    requires Inv(w) && Enabled(w, s) && (s.Claim? || s.Expire? || s.Fail? || s.ShutDown?)
    ensures Inv(Apply(w, s))
  {
    hide EmittedIdle, NotifiedOk, Proven, NothingEmitted, IsCurrentCanary;
    var v := Apply(w, s);
    var r := w.receiver.value;
    if s.Fail? && r.pending.Some? && NotifiedOk(r, w.binding, w.log) {
      NotifiedMoved(r, r.(at := Top), w.binding, w.log);
      NotifiedAnyway(r.(at := Top), w.binding, v.binding, w.log);
    }
    if v.log != w.log {
      BindingMore(v.binding, w.log, Cleared);
      if v.receiver.Some? {
        ReceiverMore(v.receiver.value, v.binding, w.log, Cleared);
      }
    }
  }

  lemma StepEcho(w: World, tool: bool)
    requires Inv(w) && Enabled(w, Echo(tool))
    ensures Inv(Apply(w, Echo(tool)))
  {
    hide EmittedIdle, Proven, NothingEmitted, Evidence, IsCurrentCanary;
    var v := Apply(w, Echo(tool));
    var r, q := w.receiver.value, v.receiver.value;
    BindingMore(w.binding, w.log, Echoed(r.pending.value));
    var test: Option<nat>, idle: bool :| Evidence(w.log, r, test, idle) && ForTest(r, w.binding, test, idle);
    EchoEvidence(w.log, r, test, idle);
    SameEvidence(v.log, r.(confirmed := true), q, test, idle);
    assert ForTest(q, w.binding, test, idle);
  }

  lemma SameEvidence(log: seq<Event>, r: Receiver, q: Receiver, test: Option<nat>, idle: bool)
    requires r.pending.Some? && Evidence(log, r, test, idle) && q == r.(writing := q.writing)
    ensures Evidence(log, q, test, idle)
  {
    hide HasEcho, HasAck;
  }

  lemma StepAck(w: World)
    requires Inv(w) && Enabled(w, AckReply)
    ensures Inv(Apply(w, AckReply))
  {
    hide EmittedIdle, Proven, Evidence, IsCurrentCanary, NothingEmitted;
    var r := w.receiver.value;
    var e := AckAccepted(r.pending.value, r.instance);
    BindingMore(w.binding, w.log, e);
    if NotifiedOk(r, w.binding, w.log) {
      var test: Option<nat>, idle: bool :| Evidence(w.log, r, test, idle) && ForTest(r, w.binding, test, idle);
      AckEvidence(w.log, r, test, idle);
      assert ForTest(r.(at := Acked), w.binding, test, idle);
    } else {
      NothingMore(w.log, e, r.instance);
    }
  }

  lemma StepNotify(w: World)
    requires Inv(w) && Enabled(w, Notify)
    ensures Inv(Apply(w, Notify))
  {
    hide Proven, HasEcho, HasAck;
    var v := Apply(w, Notify);
    var r, q := w.receiver.value, v.receiver.value;
    var e := v.log[|v.log| - 1];
    BindingMore(w.binding, w.log, e);
    assert e in v.log;
    assert e == Emitted(r.pending.value, e.test, r.instance, r.snap.idle);
    assert Evidence(v.log, q, e.test, r.snap.idle);
    assert ForTest(q, w.binding, e.test, r.snap.idle);
  }

  lemma StepEmitUpdate(w: World)
    requires Inv(w) && Enabled(w, EmitUpdate)
    ensures Inv(Apply(w, EmitUpdate))
  {
    hide Proven, NothingEmitted, HasEcho, HasAck;
    var v := Apply(w, EmitUpdate);
    var r, q := w.receiver.value, v.receiver.value;
    var test: Option<nat>, idle: bool :| Evidence(w.log, r, test, idle) && ForTest(r, w.binding, test, idle);
    assert Evidence(v.log, q, test, idle);
    assert ForTest(q, v.binding, test, idle);
  }

  lemma StepVerify(w: World)
    requires Inv(w) && Enabled(w, VerifyUpdate)
    ensures Inv(Apply(w, VerifyUpdate))
  {
    hide NotifiedOk, NothingEmitted, EmittedIdle, VerifiedAt;
    var v := Apply(w, VerifyUpdate);
    var r := w.receiver.value;
    if v.log != w.log {
      var nonce := w.binding.canary.value.nonce;
      NotNotified(w.log, r.instance, nonce);
      VerifyEvidence(w.log, r, w.binding);
      BindingMore(w.binding, w.log, Verified(r.pending.value, nonce, r.instance));
    }
  }

  lemma NotNotified(log: seq<Event>, instance: nat, nonce: nat)
    requires EmittedIdle(log, instance, nonce)
    ensures !NothingEmitted(log, instance)
  {
    var row :| Emitted(row, Some(nonce), instance, true) in log;
    var k :| 0 <= k < |log| && log[k] == Emitted(row, Some(nonce), instance, true);
  }

  lemma VerifyEvidence(log: seq<Event>, r: Receiver, b: Binding)
    requires r.pending.Some? && r.at == Acked && NotifiedOk(r, b, log)
    requires IsCurrentCanary(b, r.pending.value) && b.canary.value.whileIdle
    ensures Proven(log + [Verified(r.pending.value, b.canary.value.nonce, r.instance)], r.instance, b.canary.value.nonce)
  {
    hide HasEcho, HasAck;
    var nonce := b.canary.value.nonce;
    var next := log + [Verified(r.pending.value, nonce, r.instance)];
    var test: Option<nat>, idle: bool :| Evidence(log, r, test, idle) && ForTest(r, b, test, idle);
    assert next[..|log|] == log;
    assert VerifiedAt(next, |log|, r.instance, nonce);
  }

  lemma StepKeeps(w: World, s: Step)
    requires Inv(w) && Enabled(w, s) && FreshStart(w, s)
    ensures Inv(Apply(w, s))
  {
    hide Inv, Apply, FreshStart;
    match s
    case Start(_, _, _, _) => StepStart(w, s);
    case Notify => StepNotify(w);
    case Sent(_) => StepMoves(w, s);
    case EmitUpdate => StepEmitUpdate(w);
    case VerifyUpdate => StepVerify(w);
    case Echo(tool) => StepEcho(w, tool);
    case EchoDone(_) => StepMoves(w, s);
    case AckReply => StepAck(w);
    case Snapshot => StepMoves(w, s);
    case Claim(_) => StepHold(w, s);
    case Expire => StepHold(w, s);
    case Fail(_) => StepHold(w, s);
    case ShutDown(_) => StepHold(w, s);
    case _ => StepUser(w, s);
  }

  ghost predicate Runs(w: World, steps: seq<Step>)
    decreases |steps|
  {
    steps == [] || (Enabled(w, steps[0]) && FreshStart(w, steps[0]) && Runs(Apply(w, steps[0]), steps[1..]))
  }

  ghost function Final(w: World, steps: seq<Step>): World
    requires Runs(w, steps)
    decreases |steps|
  {
    if steps == [] then w else Final(Apply(w, steps[0]), steps[1..])
  }

  function Initial(wake: bool): World {
    World(Binding(wake, None, false, None, false), None, [])
  }

  lemma {:induction false} RunKeeps(w: World, steps: seq<Step>)
    requires Inv(w) && Runs(w, steps)
    ensures Inv(Final(w, steps))
    decreases |steps|
  {
    hide Inv, Apply, Enabled, FreshStart;
    if steps != [] {
      StepKeeps(w, steps[0]);
      RunKeeps(Apply(w, steps[0]), steps[1..]);
    }
  }

  /** The events behind a verification, in order. */
  lemma InOrder(log: seq<Event>, v: nat, instance: nat, nonce: nat) returns (n: nat, e: nat, a: nat)
    requires VerifiedAt(log, v, instance, nonce)
    ensures n < e < a < v && log[n] == Emitted(log[v].row, Some(nonce), instance, true)
    ensures log[e] == Echoed(log[v].row) && log[a] == AckAccepted(log[v].row, instance)
  {
    var row := log[v].row;
    a :| AckedAfter(log[..v], a, row, Some(nonce), instance, true);
    assert log[..v][..a] == log[..a];
    e :| EchoedAfter(log[..a], e, row, Some(nonce), instance, true);
    assert log[..a][..e] == log[..e];
    n :| 0 <= n < e && log[..e][n] == Emitted(row, Some(nonce), instance, true);
  }

  /** Over every run: if the binding says the wake is verified, then the instance it names
      emitted the current test from an idle snapshot, after that the receipt of that very
      delivery was echoed, after that the service accepted its acknowledgement, and nothing
      since the verification has cleared it: no start, no failed request, no shutdown, no new
      test, no mode change. */
  lemma VerifiedMeansWoken(wake: bool, steps: seq<Step>) returns (n: nat, e: nat, a: nat, v: nat)
    requires Runs(Initial(wake), steps) && Final(Initial(wake), steps).binding.verified
    ensures var w := Final(Initial(wake), steps);
            && w.binding.instance.Some? && w.binding.canary.Some? && n < e < a < v < |w.log|
            && w.log[v].Verified? && w.log[v].nonce == w.binding.canary.value.nonce && w.log[v].row.self
            && w.log[v].instance == w.binding.instance.value
            && w.log[n] == Emitted(w.log[v].row, Some(w.log[v].nonce), w.log[v].instance, true)
            && w.log[e] == Echoed(w.log[v].row)
            && w.log[a] == AckAccepted(w.log[v].row, w.log[v].instance)
            && forall x :: v < x < |w.log| ==> !w.log[x].Cleared? && !w.log[x].Started?
  {
    hide Runs, Final, VerifiedAt;
    RunKeeps(Initial(wake), steps);
    var w := Final(Initial(wake), steps);
    v :| VerifiedAt(w.log, v, w.binding.instance.value, w.binding.canary.value.nonce);
    n, e, a := InOrder(w.log, v, w.binding.instance.value, w.binding.canary.value.nonce);
    LastWord(w.log, v, w.binding.instance.value, w.binding.canary.value.nonce);
  }

  lemma LastWord(log: seq<Event>, v: nat, instance: nat, nonce: nat)
    requires VerifiedAt(log, v, instance, nonce)
    ensures v < |log| && log[v].Verified? && log[v].nonce == nonce && log[v].instance == instance && log[v].row.self
    ensures forall x :: v < x < |log| ==> !log[x].Cleared? && !log[x].Started?
  {
  }
}
