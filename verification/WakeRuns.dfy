/** A wake that is tested is verified: after any run of the wake test, nothing stands in the
    way of a fresh instance proving that it was woken. */
module WakeRuns {
  import opened Basics
  import opened WakeCanary

  ghost predicate Leads(w: World, steps: seq<Step>, v: World) {
    Runs(w, steps) && Final(w, steps) == v
  }

  lemma {:induction false} Next(w: World, steps: seq<Step>, v: World, s: Step)
    requires Leads(w, steps, v) && Enabled(v, s) && FreshStart(v, s)
    ensures Leads(w, steps + [s], Apply(v, s))
    decreases |steps|
  {
    hide Enabled, FreshStart, Apply;
    if steps == [] {
      assert steps + [s] == [s] && [s][1..] == [];
      Nil(Apply(w, s));
    } else {
      assert (steps + [s])[0] == steps[0] && (steps + [s])[1..] == steps[1..] + [s];
      Next(Apply(w, steps[0]), steps[1..], v, s);
    }
  }

  lemma {:induction false} LeadsOn(w: World, a: seq<Step>, v: World, b: seq<Step>, x: World)
    requires Leads(w, a, v) && Leads(v, b, x)
    ensures Leads(w, a + b, x)
    decreases |a|
  {
    hide Enabled, FreshStart, Apply;
    if a == [] {
      assert a + b == b;
    } else {
      assert (a + b)[0] == a[0] && (a + b)[1..] == a[1..] + b;
      LeadsOn(Apply(w, a[0]), a[1..], v, b, x);
    }
  }

  /** The binding while the test runs. */
  function Testing(instance: nat, idle: bool, nonce: nat, signal: Option<nat>, whileIdle: bool): Binding {
    Binding(true, Some(instance), idle, Some(Canary(nonce, signal, whileIdle)), false)
  }

  /** The test is asked for while the session is idle, and posted. */
  lemma Posted(w: World, instance: nat, gateway: bool, nonce: nat, signal: nat) returns (v: World)
    requires w.binding.wake && w.receiver.None? && NothingEmitted(w.log, instance)
    ensures Leads(w, [Start(instance, gateway, None, false), Hook(true), Request(nonce), Snapshot, Post(signal)], v)
    ensures v.binding == Testing(instance, true, nonce, Some(signal), false)
    ensures v.receiver == Some(Receiver(instance, gateway, None, false, false, NoWrite,
                                        Testing(instance, true, nonce, None, false), Acting))
    ensures v.log == w.log + [Started(instance), Cleared]
  {
    hide Leads;
    var s := Start(instance, gateway, None, false);
    Nil(w);
    Next(w, [], w, s);
    var w1 := Apply(w, s);
    Next(w, [] + [s], w1, Hook(true));
    var w2 := Apply(w1, Hook(true));
    Next(w, [] + [s] + [Hook(true)], w2, Request(nonce));
    var w3 := Apply(w2, Request(nonce));
    Next(w, [] + [s] + [Hook(true)] + [Request(nonce)], w3, Snapshot);
    var w4 := Apply(w3, Snapshot);
    Next(w, [] + [s] + [Hook(true)] + [Request(nonce)] + [Snapshot], w4, Post(signal));
    v := Apply(w4, Post(signal));
    assert [] + [s] + [Hook(true)] + [Request(nonce)] + [Snapshot] + [Post(signal)] ==
           [s, Hook(true), Request(nonce), Snapshot, Post(signal)];
    assert w.log + [Started(instance)] + [Cleared] == w.log + [Started(instance), Cleared];
  }

  lemma Nil(w: World)
    ensures Leads(w, [], w)
  {
  }

  /** The posted test comes in, known by its text or by its signal. */
  lemma CameIn(w: World, instance: nat, gateway: bool, row: Row, snap: Binding) returns (v: World)
    requires w.binding.wake && w.binding.instance == Some(instance)
    requires w.receiver == Some(Receiver(instance, gateway, None, false, false, NoWrite, snap, Acting))
    ensures Leads(w, [Claim(row), Snapshot], v)
    ensures v == World(w.binding, Some(Receiver(instance, gateway, Some(row), false, false, NoWrite, w.binding, Acting)), w.log)
  {
    hide Leads;
    var w1 := Apply(w, Claim(row));
    v := Apply(w1, Snapshot);
    hide Enabled, Apply;
    Nil(w);
    Next(w, [], w, Claim(row));
    Next(w, [] + [Claim(row)], w1, Snapshot);
    assert [] + [Claim(row)] + [Snapshot] ==
           [Claim(row), Snapshot];
  }

  /** Its notification is delivered to the idle session. */
  lemma Delivered(w: World, instance: nat, gateway: bool, nonce: nat, signal: nat, row: Row) returns (v: World)
    requires w.binding == Testing(instance, true, nonce, Some(signal), false)
    requires w.receiver == Some(Receiver(instance, gateway, Some(row), false, false, NoWrite, w.binding, Acting))
    requires row.self && (row.nonce == Some(nonce) || row.signal == signal)
    ensures Leads(w, [Notify, Sent(true), EmitUpdate], v)
    ensures v == World(Testing(instance, false, nonce, Some(row.signal), true),
                       Some(Receiver(instance, gateway, Some(row), false, true, NoWrite, w.binding, Top)),
                       w.log + [Emitted(row, Some(nonce), instance, true)])
  {
    hide Leads;
    var w1 := Apply(w, Notify);
    var w2 := Apply(w1, Sent(true));
    v := Apply(w2, EmitUpdate);
    hide Enabled, Apply;
    Nil(w);
    Next(w, [], w, Notify);
    Next(w, [] + [Notify], w1, Sent(true));
    Next(w, [] + [Notify] + [Sent(true)], w2, EmitUpdate);
    assert [] + [Notify] + [Sent(true)] + [EmitUpdate] ==
           [Notify, Sent(true), EmitUpdate];
  }

  /** The tool confirms it. */
  lemma ConfirmedByTool(w: World, instance: nat, gateway: bool, row: Row, snap: Binding) returns (v: World)
    requires w.binding.wake && w.binding.instance == Some(instance)
    requires w.receiver == Some(Receiver(instance, gateway, Some(row), false, true, NoWrite, snap, Top))
    ensures Leads(w, [Echo(true), EchoDone(true), Snapshot], v)
    ensures v == World(w.binding, Some(Receiver(instance, gateway, Some(row), true, true, NoWrite, w.binding, Acting)),
                       w.log + [Echoed(row)])
  {
    hide Leads;
    var w1 := Apply(w, Echo(true));
    var w2 := Apply(w1, EchoDone(true));
    v := Apply(w2, Snapshot);
    hide Enabled, Apply;
    Nil(w);
    Next(w, [], w, Echo(true));
    Next(w, [] + [Echo(true)], w1, EchoDone(true));
    Next(w, [] + [Echo(true)] + [EchoDone(true)], w2, Snapshot);
    assert [] + [Echo(true)] + [EchoDone(true)] + [Snapshot] ==
           [Echo(true), EchoDone(true), Snapshot];
  }

  /** A gateway host confirms it through the mailbox. */
  lemma ConfirmedByMail(w: World, instance: nat, row: Row, snap: Binding) returns (v: World)
    requires w.binding.wake && w.binding.instance == Some(instance)
    requires w.receiver == Some(Receiver(instance, true, Some(row), false, true, NoWrite, snap, Top))
    ensures Leads(w, [Snapshot, Echo(false)], v)
    ensures v == World(w.binding, Some(Receiver(instance, true, Some(row), true, true, NoWrite, w.binding, Acting)),
                       w.log + [Echoed(row)])
  {
    hide Leads;
    var w1 := Apply(w, Snapshot);
    v := Apply(w1, Echo(false));
    hide Enabled, Apply;
    Nil(w);
    Next(w, [], w, Snapshot);
    Next(w, [] + [Snapshot], w1, Echo(false));
    assert [] + [Snapshot] + [Echo(false)] ==
           [Snapshot, Echo(false)];
  }

  /** The service accepts the ack. */
  lemma Acknowledged(w: World, instance: nat, gateway: bool, nonce: nat, row: Row) returns (v: World)
    requires w.binding == Testing(instance, false, nonce, Some(row.signal), true) && row.self
    requires w.receiver == Some(Receiver(instance, gateway, Some(row), true, true, NoWrite, w.binding, Acting))
    ensures Leads(w, [AckReply, VerifyUpdate], v)
    ensures v.binding == w.binding.(verified := true)
    ensures v.log == w.log + [AckAccepted(row, instance), Verified(row, nonce, instance)]
  {
    hide Leads;
    var w1 := Apply(w, AckReply);
    v := Apply(w1, VerifyUpdate);
    hide Enabled, Apply;
    Nil(w);
    Next(w, [], w, AckReply);
    Next(w, [] + [AckReply], w1, VerifyUpdate);
    assert [] + [AckReply] + [VerifyUpdate] ==
           [AckReply, VerifyUpdate];
  }

  /** The whole test of a fresh instance: it starts, the session goes idle, the test is asked
      for and posted, comes in as `row`, is delivered, confirmed and acknowledged. */
  function Test(instance: nat, gateway: bool, nonce: nat, signal: nat, row: Row, tool: bool): (steps: seq<Step>) {
    [Start(instance, gateway, None, false), Hook(true), Request(nonce), Snapshot, Post(signal)] +
    [Claim(row), Snapshot] + [Notify, Sent(true), EmitUpdate] +
    (if tool then [Echo(true), EchoDone(true), Snapshot] else [Snapshot, Echo(false)]) +
    [AckReply, VerifyUpdate]
  }

  /** After any run that leaves wake mode on and no receiver alive, a fresh instance can be
      tested, with any nonce and signal, and whether the delivery is known by its text or its
      signal, and confirmed with the tool or a gateway's mailbox: the wake is then verified. */
  lemma WakeIsVerified(wake: bool, before: seq<Step>, instance: nat, gateway: bool, nonce: nat, signal: nat, row: Row, tool: bool)
    requires Runs(Initial(wake), before)
    requires var w := Final(Initial(wake), before);
             w.binding.wake && w.receiver.None? && NothingEmitted(w.log, instance)
    requires row.self && (row.nonce == Some(nonce) || row.signal == signal) && (tool || gateway)
    ensures var steps := before + Test(instance, gateway, nonce, signal, row, tool);
            Runs(Initial(wake), steps) && Final(Initial(wake), steps).binding.verified
  {
    var w := Final(Initial(wake), before);
    var v := Tested(w, instance, gateway, nonce, signal, row, tool);
    LeadsOn(Initial(wake), before, w, Test(instance, gateway, nonce, signal, row, tool), v);
  }

  lemma Tested(w: World, instance: nat, gateway: bool, nonce: nat, signal: nat, row: Row, tool: bool) returns (v: World)
    requires w.binding.wake && w.receiver.None? && NothingEmitted(w.log, instance)
    requires row.self && (row.nonce == Some(nonce) || row.signal == signal) && (tool || gateway)
    ensures Leads(w, Test(instance, gateway, nonce, signal, row, tool), v) && v.binding.verified
  {
    hide Leads, NothingEmitted;
    var a := Posted(w, instance, gateway, nonce, signal);
    var b := CameIn(a, instance, gateway, row, Testing(instance, true, nonce, None, false));
    var c := Delivered(b, instance, gateway, nonce, signal, row);
    var d: World;
    if tool {
      d := ConfirmedByTool(c, instance, gateway, row, b.binding);
    } else {
      d := ConfirmedByMail(c, instance, row, b.binding);
    }
    v := Acknowledged(d, instance, gateway, nonce, row);
    var one := [Start(instance, gateway, None, false), Hook(true), Request(nonce), Snapshot, Post(signal)];
    var two, three := [Claim(row), Snapshot], [Notify, Sent(true), EmitUpdate];
    var four, five := if tool then [Echo(true), EchoDone(true), Snapshot] else [Snapshot, Echo(false)], [AckReply, VerifyUpdate];
    LeadsOn(w, one, a, two, b);
    LeadsOn(w, one + two, b, three, c);
    LeadsOn(w, one + two + three, c, four, d);
    LeadsOn(w, one + two + three + four, d, five, v);
  }
}
