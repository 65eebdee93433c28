/** The running receiver as objects (src/cloud/agent-channel.ts, `ChannelReceiptGate`,
    `receiveReceipt` and the main loop of `serveAgentChannel`): each method is one step of
    the machine in Channel, where a delivery is a mutable cell that two calls may share. */
module Receiver {
  import opened Basics
  import opened Channel

  /** `ChannelPending`: what a receipt call and the main loop both hold on to. */
  class Cell {
    const row: Row
    const receipt: Receipt
    var confirmed: bool

    constructor (row: Row, receipt: Receipt, confirmed: bool)
      ensures this.row == row && this.receipt == receipt && this.confirmed == confirmed
    {
      this.row, this.receipt, this.confirmed := row, receipt, confirmed;
    }

    ghost function Value(): Pending
      reads this
    {
      Pending(row, receipt, confirmed)
    }
  }

  class Receiver {
    const host: int
    const gateway: bool
    var pending: Cell?
    var notified: bool
    var at: At
    // The receipt call whose write is in flight, and what it found.
    var receiptWriteInFlight: bool
    var found: Cell?
    var wasConfirmed: bool
    // Journal contents handed to the file system since this receiver started.
    ghost var issued: set<Journal>
    ghost const base: Receipt

    /** The receipt call holds a cell, and a different cell has a different challenge. */
    ghost predicate Valid()
      reads this, pending, found
    {
      && (receiptWriteInFlight ==> found != null)
      && (receiptWriteInFlight && pending != null && pending.receipt == found.receipt ==> pending == found)
    }

    ghost function Held(): Option<Pending>
      reads this, pending
    {
      if pending == null then None else Some(pending.Value())
    }

    ghost function State(): Proc
      requires Valid()
      reads this, pending, found
    {
      Proc(Held(), notified, at, if receiptWriteInFlight then Some(Writing(found.receipt, wasConfirmed)) else None, issued, base)
    }

    ghost predicate At(w: World)
      reads this, pending, found
    {
      Valid() && w.host == host && w.gateway == gateway && w.proc == Some(State())
    }

    /** Restore the journal; an unconfirmed delivery gets the new challenge. */
    constructor (host: int, gateway: bool, journal: Journal, challenge: Receipt, ghost w: World)
      requires Enabled(w, Start) && w.host == host && w.gateway == gateway && w.journal == journal && w.next == challenge
      ensures At(Apply(w, Start))
      ensures Held() == if journal.pending.None? then None
                        else if journal.pending.value.confirmed then journal.pending
                        else Some(Pending(journal.pending.value.row, challenge, false))
      ensures at == Ready && !notified && !receiptWriteInFlight
    {
      this.host, this.gateway := host, gateway;
      var cell: Cell? := null;
      if journal.pending.Some? {
        var p := journal.pending.value;
        cell := new Cell(p.row, if p.confirmed then p.receipt else challenge, p.confirmed);
      }
      pending, notified, at := cell, false, Ready;
      receiptWriteInFlight, found, wasConfirmed := false, null, false;
      issued, base := {}, challenge;
    }

    ghost method Persist()
      requires Valid()
      modifies `issued
      ensures Valid() && State() == Channel.Persist(old(State()))
    {
      issued := issued + {Journal(Held(), notified)};
    }

    method Claim(row: Row, challenge: Receipt, ghost w: World)
      requires At(w) && Enabled(w, Channel.Claim(row)) && challenge == w.next && WritingOk(w, State())
      modifies this
      ensures At(Apply(w, Channel.Claim(row)))
      ensures Held() == Some(Pending(row, challenge, false)) && Journal(Held(), notified) in issued
    {
      pending := new Cell(row, challenge, false);
      Persist();
    }

    /** `ChannelReceiptGate.confirm`; `false` stands for the mismatch it throws. */
    method Confirm(signal: Signal, receipt: Receipt, from: int) returns (ok: bool)
      requires Valid()
      modifies pending
      ensures Valid()
      ensures ok <==> old(GateAccepts(Held(), host, signal, receipt, from))
      ensures ok ==> State() == old(State()).(pending := Some(old(Held()).value.(confirmed := true)))
      ensures !ok ==> State() == old(State())
    {
      if pending == null || from != host || signal != pending.row.signal || receipt != pending.receipt {
        return false;
      }
      pending.confirmed := true;
      return true;
    }

    /** The receipt tool up to its journal write. */
    method BeginReceipt(signal: Signal, receipt: Receipt, from: int, now: int, ghost w: World) returns (accepted: bool)
      requires At(w) && w.now == now && Enabled(w, ToolReceipt(signal, receipt, from))
      modifies this, pending
      ensures accepted <==>
              old(notified && pending != null && pending.row.until > now && from == host &&
                  signal == pending.row.signal && receipt == pending.receipt)
      ensures accepted ==> pending == old(pending) && pending.confirmed && receiptWriteInFlight && Journal(Held(), notified) in issued
      ensures At(Apply(w, ToolReceipt(signal, receipt, from)))
    {
      var seen := pending;
      var was := if seen == null then false else seen.confirmed;
      if !notified || (seen != null && seen.row.until <= now) {
        return false;
      }
      var ok := Confirm(signal, receipt, from);
      if !ok {
        return false;
      }
      receiptWriteInFlight, found, wasConfirmed := true, seen, was;
      Persist();
      return true;
    }

    /** The rest of it: a failed write takes the confirmation back, but only from the very
        delivery the call was about. */
    method EndReceipt(written: bool, ghost w: World)
      requires At(w) && Enabled(w, ToolDone(written))
      modifies this, found
      ensures At(Apply(w, ToolDone(written)))
      ensures !receiptWriteInFlight && pending == old(pending)
      ensures pending != null ==>
                pending.confirmed == if !written && pending == old(found) then old(wasConfirmed) else old(pending.confirmed)
    {
      if !written && pending == found {
        found.confirmed := wasConfirmed;
      }
      receiptWriteInFlight, found := false, null;
    }

    /** The mailbox, read for a gateway host. */
    method ReadMail(mailbox: Option<Mail>, ghost w: World)
      requires At(w) && w.mailbox == mailbox && Enabled(w, MailRead)
      modifies this, pending
      ensures At(Apply(w, MailRead))
      ensures at == Ready && pending == old(pending)
      ensures pending != null ==>
                (pending.confirmed <==>
                 || old(pending.confirmed)
                 || mailbox == Some(Mail(pending.row.signal, pending.receipt, host)))
    {
      at := Ready;
      if mailbox.Some? {
        var ok := Confirm(mailbox.value.signal, mailbox.value.receipt, mailbox.value.host);
        if ok {
          Persist();
        }
      }
    }

    method EndAck(reply: Reply, ghost w: World)
      requires At(w) && Enabled(w, AckReply(reply))
      modifies this
      ensures At(Apply(w, AckReply(reply)))
      ensures at == Ready
      ensures reply.Failed? ==> pending == old(pending) && notified == old(notified) && issued == old(issued)
      ensures !reply.Failed? ==> pending == null && !notified && Journal(None, false) in issued
    {
      at := Ready;
      if !reply.Failed? {
        pending, notified := null, false;
        Persist();
      }
    }

    method EndNotify(sent: Sent, ghost w: World)
      requires At(w) && Enabled(w, NotifyEnd(sent))
      modifies this
      ensures At(Apply(w, NotifyEnd(sent)))
      ensures at == Ready && pending == old(pending)
      ensures sent.Delivered? ==> notified
      ensures sent.SendFailed? && gateway ==> !notified && Journal(Held(), false) in issued
      ensures sent.Aborted? || (sent.SendFailed? && !gateway) ==> notified == old(notified)
    {
      at := Ready;
      if sent.Delivered? {
        notified := true;
      } else if sent.SendFailed? && gateway {
        notified := false;
        Persist();
      }
    }

    /** The main loop takes up a held delivery: it waits for a receipt write, reads the
        mailbox of a gateway host first, or decides at once. */
    method Turn(now: int, ghost w: World) returns (ghost step: Option<Step>)
      requires At(w) && w.now == now && at == Ready && pending != null
      modifies this
      ensures step.None? ==> At(w) && (receiptWriteInFlight || Idle(now))
      ensures step.Some? ==> step.value in {MailCheck, AckSend, Expire, NotifyBegin}
      ensures step.Some? ==> Enabled(w, step.value) && At(Apply(w, step.value))
      ensures step == Some(MailCheck) <==>
              old(gateway && !receiptWriteInFlight && notified && !pending.confirmed && pending.row.until > now)
    {
      step := None;
      if receiptWriteInFlight {
        return;
      }
      if gateway && notified && !pending.confirmed && pending.row.until > now {
        at := Reading;
        step := Some(MailCheck);
        return;
      }
      step := Decide(now, w);
    }

    /** Nothing to do for the delivery now. */
    ghost predicate Idle(now: int)
      requires pending != null
      reads this, pending
    {
      (!pending.confirmed || receiptWriteInFlight) && notified && pending.row.until > now
    }

    /** The rest of the turn, up to its next await: send the ack, drop an expired lease, or
        notify. After a mailbox read a receipt write may have begun; then no ack is sent. */
    method Decide(now: int, ghost w: World) returns (ghost step: Option<Step>)
      requires At(w) && w.now == now && at == Ready && pending != null
      modifies this
      ensures step.None? <==> old(Idle(now))
      ensures step.None? ==> At(w) && pending == old(pending) && Idle(now)
      ensures step.Some? ==> step.value in {AckSend, Expire, NotifyBegin} && Enabled(w, step.value) && At(Apply(w, step.value))
      ensures step == Some(AckSend) <==> old(pending.confirmed && !receiptWriteInFlight)
      ensures step == Some(Expire) <==> old(!(pending.confirmed && !receiptWriteInFlight) && pending.row.until <= now)
      ensures step == Some(AckSend) ==> at == Acking && pending == old(pending) && notified == old(notified)
      ensures step == Some(Expire) ==> at == Ready && pending == null && !notified && Journal(None, false) in issued
      ensures step == Some(NotifyBegin) ==>
                && at == Notifying && pending == old(pending) && notified == gateway
                && (gateway ==> Journal(Held(), true) in issued)
    {
      step := None;
      if pending.confirmed && !receiptWriteInFlight {
        at := Acking;
        step := Some(AckSend);
      } else if pending.row.until <= now {
        pending, notified := null, false;
        Persist();
        step := Some(Expire);
      } else if !notified {
        at := Notifying;
        if gateway {
          notified := true;
          Persist();
        }
        step := Some(NotifyBegin);
      }
    }
  }
}
