/** What becomes of a delivery over runs of the receipt protocol: it is held until it is
    answered for, and nothing stands in the way of its being answered for. */
module ChannelRuns {
  import opened Basics
  import opened Channel

  predicate Holds(w: World, row: Row) {
    w.proc.Some? && w.proc.value.pending.Some? && w.proc.value.pending.value.row == row
  }

  /** The only ways for a delivery to go: the service has answered its ack, its lease has
      ended, or the receiver is gone. */
  predicate Releases(w: World, s: Step, row: Row) {
    || (s.AckReply? && !s.reply.Failed?)
    || (s.Expire? && row.until <= w.now)
    || s.Die?
  }

  ghost predicate ReleasedIn(w: World, steps: seq<Step>, row: Row)
    requires Runs(w, steps)
    decreases |steps|
  {
    steps != [] && (Releases(w, steps[0], row) || ReleasedIn(Apply(w, steps[0]), steps[1..], row))
  }

  lemma StepHolds(w: World, s: Step, row: Row)
    requires Enabled(w, s) && Holds(w, row)
    ensures Holds(Apply(w, s), row) <==> !Releases(w, s, row)
  {
  }

  /** A held delivery stays held until one of these happens. */
  lemma {:induction false} HeldUntilReleased(w: World, steps: seq<Step>, row: Row)
    requires Runs(w, steps) && Holds(w, row)
    ensures Holds(Final(w, steps), row) || ReleasedIn(w, steps, row)
    decreases |steps|
  {
    hide Enabled, Apply, Holds, Releases;
    if steps != [] {
      StepHolds(w, steps[0], row);
      if Holds(Apply(w, steps[0]), row) {
        HeldUntilReleased(Apply(w, steps[0]), steps[1..], row);
      }
    }
  }

  /** A failed ack changes nothing but that the loop goes on; any other answer clears memory
      and hands the cleared journal to the disk. */
  lemma AckAnswered(w: World, reply: Reply)
    requires Enabled(w, AckReply(reply))
    ensures var p, q := w.proc.value, Apply(w, AckReply(reply)).proc.value;
            && q.at == Ready
            && (reply.Failed? ==> q.pending == p.pending && q.notified == p.notified && q.issued == p.issued)
            && (!reply.Failed? ==> q.pending.None? && !q.notified && Journal(None, false) in q.issued)
  {
  }

  /** The receiver is between two deliveries. */
  predicate Vacant(w: World) {
    w.proc.Some? && w.proc.value.at == Ready && w.proc.value.pending.None? && w.proc.value.writing.None?
  }

  lemma Cons(w: World, s: Step, rest: seq<Step>)
    requires Enabled(w, s) && Runs(Apply(w, s), rest)
    ensures Runs(w, [s] + rest) && Final(w, [s] + rest) == Final(Apply(w, s), rest)
  {
    hide Enabled, Apply;
    assert ([s] + rest)[0] == s && ([s] + rest)[1..] == rest;
  }

  /** From the claim to the notification delivered. */
  lemma Notified(w: World, row: Row) returns (v: World)
    requires Vacant(w) && !w.proc.value.notified && w.now < row.until
    ensures var steps := [Claim(row), NotifyBegin, NotifyEnd(Delivered)]; Runs(w, steps) && Final(w, steps) == v
    ensures v == w.(proc := v.proc, next := w.next + 1, minted := w.minted[w.next := row], log := w.log + [Began(w.next)])
    ensures v.proc.Some? && v.proc.value.at == Ready && v.proc.value.notified && v.proc.value.writing.None?
    ensures v.proc.value.pending == Some(Pending(row, w.next, false))
    ensures w.gateway ==> Journal(Some(Pending(row, w.next, false)), true) in v.proc.value.issued
  {
    var w1 := Apply(w, Claim(row));
    var w2 := Apply(w1, NotifyBegin);
    v := Apply(w2, NotifyEnd(Delivered));
    hide Enabled, Apply, Runs, Final;
    Nil(v);
    Cons(w2, NotifyEnd(Delivered), []);
    Cons(w1, NotifyBegin, [NotifyEnd(Delivered)]);
    Cons(w, Claim(row), [NotifyBegin, NotifyEnd(Delivered)]);
    assert [Claim(row)] + [NotifyBegin, NotifyEnd(Delivered)] == [Claim(row), NotifyBegin, NotifyEnd(Delivered)];
    assert [NotifyBegin] + [NotifyEnd(Delivered)] == [NotifyBegin, NotifyEnd(Delivered)];
  }

  lemma Nil(w: World)
    ensures Runs(w, []) && Final(w, []) == w
  {
  }

  lemma {:induction false} RunsConcat(w: World, a: seq<Step>, b: seq<Step>)
    requires Runs(w, a) && Runs(Final(w, a), b)
    ensures Runs(w, a + b) && Final(w, a + b) == Final(Final(w, a), b)
    decreases |a|
  {
    hide Enabled, Apply;
    if a == [] {
      assert a + b == b;
    } else {
      assert (a + b)[0] == a[0] && (a + b)[1..] == a[1..] + b;
      RunsConcat(Apply(w, a[0]), a[1..], b);
    }
  }

  /** A confirmed delivery is acknowledged, and the answer lets it go. */
  lemma Acked(w: World, row: Row, receipt: Receipt) returns (v: World)
    requires w.proc.Some? && w.proc.value.at == Ready && w.proc.value.writing.None?
    requires w.proc.value.pending == Some(Pending(row, receipt, true))
    ensures Runs(w, [AckSend, AckReply(Accepted)]) && Final(w, [AckSend, AckReply(Accepted)]) == v
    ensures Vacant(v) && !v.proc.value.notified && v.log == w.log + [AckSent(row, receipt)]
    ensures Journal(None, false) in v.proc.value.issued
  {
    var w1 := Apply(w, AckSend);
    v := Apply(w1, AckReply(Accepted));
    hide Enabled, Apply, Runs, Final;
    Nil(v);
    Cons(w1, AckReply(Accepted), []);
    Cons(w, AckSend, [AckReply(Accepted)]);
    assert [AckSend] + [AckReply(Accepted)] == [AckSend, AckReply(Accepted)];
  }

  lemma ConfirmedByTool(w: World, row: Row, receipt: Receipt) returns (v: World)
    requires w.proc.Some? && w.proc.value.at == Ready && w.proc.value.notified && w.proc.value.writing.None?
    requires w.proc.value.pending == Some(Pending(row, receipt, false)) && w.now < row.until
    ensures var steps := [ToolReceipt(row.signal, receipt, w.host), ToolDone(true)]; Runs(w, steps) && Final(w, steps) == v
    ensures v.proc.Some? && v.proc.value.at == Ready && v.proc.value.writing.None?
    ensures v.proc.value.pending == Some(Pending(row, receipt, true))
    ensures v.log == w.log + [Echoed(receipt, row.signal, w.host, w.now)]
  {
    var receive, done := ToolReceipt(row.signal, receipt, w.host), ToolDone(true);
    var w1 := Apply(w, receive);
    v := Apply(w1, done);
    hide Enabled, Apply, Runs, Final;
    Nil(v);
    Cons(w1, done, []);
    Cons(w, receive, [done]);
    assert [receive] + [done] == [receive, done];
  }

  /** The gateway's way: the journal lands, the command line finds the challenge in it and
      leaves mail, and the main loop reads it. */
  lemma Mailed(w: World, row: Row, receipt: Receipt) returns (v: World)
    requires w.proc.Some? && w.gateway && w.now < row.until
    requires Journal(Some(Pending(row, receipt, false)), true) in w.proc.value.issued
    ensures var steps := [Land(Journal(Some(Pending(row, receipt, false)), true)), CliConfirm(row.signal, receipt),
                          MailLands(Mail(row.signal, receipt, w.host))];
            Runs(w, steps) && Final(w, steps) == v
    ensures v.proc == w.proc && v.mailbox == Some(Mail(row.signal, receipt, w.host)) && v.host == w.host && v.gateway
    ensures v.now == w.now && v.log == w.log + [Echoed(receipt, row.signal, w.host, w.now)]
  {
    var land, confirm, mail := Land(Journal(Some(Pending(row, receipt, false)), true)), CliConfirm(row.signal, receipt),
      MailLands(Mail(row.signal, receipt, w.host));
    var w1 := Apply(w, land);
    var w2 := Apply(w1, confirm);
    v := Apply(w2, mail);
    hide Enabled, Apply, Runs, Final;
    Nil(v);
    Cons(w2, mail, []);
    Cons(w1, confirm, [mail]);
    Cons(w, land, [confirm, mail]);
    assert [confirm] + [mail] == [confirm, mail];
    assert [land] + [confirm, mail] == [land, confirm, mail];
  }

  lemma ConfirmedByMail(w: World, row: Row, receipt: Receipt) returns (v: World)
    requires w.proc.Some? && w.proc.value.at == Ready && w.proc.value.notified && w.proc.value.writing.None? && w.gateway
    requires w.proc.value.pending == Some(Pending(row, receipt, false)) && w.now < row.until
    requires w.mailbox == Some(Mail(row.signal, receipt, w.host))
    ensures Runs(w, [MailCheck, MailRead]) && Final(w, [MailCheck, MailRead]) == v
    ensures v.proc.Some? && v.proc.value.at == Ready && v.proc.value.writing.None?
    ensures v.proc.value.pending == Some(Pending(row, receipt, true)) && v.log == w.log
  {
    var w1 := Apply(w, MailCheck);
    v := Apply(w1, MailRead);
    hide Enabled, Apply, Runs, Final;
    Nil(v);
    Cons(w1, MailRead, []);
    Cons(w, MailCheck, [MailRead]);
    assert [MailCheck] + [MailRead] == [MailCheck, MailRead];
  }

  /** After any run: a delivery claimed within its lease, whose notification arrives and is
      confirmed with the tool, is acknowledged and done with. */
  lemma HandledByTool(host: int, gateway: bool, now: int, before: seq<Step>, row: Row)
    requires Runs(Initial(host, gateway, now), before)
    requires var w := Final(Initial(host, gateway, now), before); Vacant(w) && w.now < row.until
    ensures var w := Final(Initial(host, gateway, now), before);
            var steps := [Claim(row), NotifyBegin, NotifyEnd(Delivered)] +
                         [ToolReceipt(row.signal, w.next, host), ToolDone(true)] + [AckSend, AckReply(Accepted)];
            && Runs(w, steps) && Vacant(Final(w, steps))
            && Final(w, steps).log == w.log + [Began(w.next), Echoed(w.next, row.signal, host, w.now), AckSent(row, w.next)]
  {
    var w := Reached(host, gateway, now, before);
    var w1 := Notified(w, row);
    var w2 := ConfirmedByTool(w1, row, w.next);
    var v := Acked(w2, row, w.next);
    hide Runs, Final, Enabled, Apply;
    var a, b, c := [Claim(row), NotifyBegin, NotifyEnd(Delivered)], [ToolReceipt(row.signal, w.next, host), ToolDone(true)],
      [AckSend, AckReply(Accepted)];
    RunsConcat(w, a, b);
    RunsConcat(w, a + b, c);
  }

  /** So it is with a gateway host, confirmed through the mailbox. */
  lemma HandledByMail(host: int, now: int, before: seq<Step>, row: Row)
    requires Runs(Initial(host, true, now), before)
    requires var w := Final(Initial(host, true, now), before); Vacant(w) && w.now < row.until
    ensures var w := Final(Initial(host, true, now), before);
            var steps := [Claim(row), NotifyBegin, NotifyEnd(Delivered)] +
                         [Land(Journal(Some(Pending(row, w.next, false)), true)), CliConfirm(row.signal, w.next),
                          MailLands(Mail(row.signal, w.next, host))] +
                         [MailCheck, MailRead] + [AckSend, AckReply(Accepted)];
            && Runs(w, steps) && Vacant(Final(w, steps))
            && Final(w, steps).log == w.log + [Began(w.next), Echoed(w.next, row.signal, host, w.now), AckSent(row, w.next)]
  {
    var w := Reached(host, true, now, before);
    var w1 := Notified(w, row);
    var w2 := Mailed(w1, row, w.next);
    var w3 := ConfirmedByMail(w2, row, w.next);
    var v := Acked(w3, row, w.next);
    hide Runs, Final, Enabled, Apply;
    var a := [Claim(row), NotifyBegin, NotifyEnd(Delivered)];
    var b := [Land(Journal(Some(Pending(row, w.next, false)), true)), CliConfirm(row.signal, w.next),
              MailLands(Mail(row.signal, w.next, host))];
    RunsConcat(w, a, b);
    RunsConcat(w, a + b, [MailCheck, MailRead]);
    RunsConcat(w, a + b + [MailCheck, MailRead], [AckSend, AckReply(Accepted)]);
  }

  /** A vacant receiver has notified nothing, and the host and its form do not change. */
  lemma Reached(host: int, gateway: bool, now: int, before: seq<Step>) returns (w: World)
    requires Runs(Initial(host, gateway, now), before)
    ensures w == Final(Initial(host, gateway, now), before) && w.host == host && w.gateway == gateway
    ensures Vacant(w) ==> !w.proc.value.notified
  {
    w := Final(Initial(host, gateway, now), before);
    RunKeeps(Initial(host, gateway, now), before);
    HostStays(Initial(host, gateway, now), before);
    GatewayStays(Initial(host, gateway, now), before);
  }

  lemma {:induction false} GatewayStays(w: World, steps: seq<Step>)
    requires Runs(w, steps)
    ensures Final(w, steps).gateway == w.gateway
    decreases |steps|
  {
    if steps != [] {
      GatewayStays(Apply(w, steps[0]), steps[1..]);
    }
  }
}
