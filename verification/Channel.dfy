/** The wake channel's receipt protocol (src/cloud/agent-channel.ts) as a step machine. A
    step is what runs between two awaits, so requests, file writes, tool calls, the CLI and
    restarts interleave freely; a write may land at any time after it was issued, or never. */
module Channel {
  import opened Basics

  type Receipt = nat
  type Signal = nat

  /** A claimed delivery and the end of its lease. */
  datatype Row = Row(signal: Signal, lease: nat, until: int)
  datatype Pending = Pending(row: Row, receipt: Receipt, confirmed: bool)
  datatype Journal = Journal(pending: Option<Pending>, notified: bool)
  datatype Mail = Mail(signal: Signal, receipt: Receipt, host: int)

  /** Where the main loop is suspended. */
  datatype At = Ready | Acking | Notifying | Reading

  /** A receipt call whose journal write is in flight, and what it would restore. */
  datatype Writing = Writing(receipt: Receipt, wasConfirmed: bool)

  /** A running receiver. Challenges below `base` were made before it started; `issued` are
      the journal contents it has asked to be written. */
  datatype Proc = Proc(pending: Option<Pending>, notified: bool, at: At, writing: Option<Writing>,
                       issued: set<Journal>, base: Receipt)

  datatype Event =
    | Started
    | Began(receipt: Receipt)
    | Echoed(receipt: Receipt, signal: Signal, host: int, at: int)
    | AckSent(row: Row, receipt: Receipt)

  /** `minted` says which delivery each challenge was made for. */
  datatype World = World(host: int, gateway: bool, proc: Option<Proc>, journal: Journal, mailbox: Option<Mail>,
                         mails: set<Mail>, now: int, next: Receipt, minted: map<Receipt, Row>, log: seq<Event>)

  datatype Reply = Accepted | Conflict | Failed
  datatype Sent = Delivered | SendFailed | Aborted

  datatype Step =
    | Tick(to: int)
    | Start
    | Die
    | Land(j: Journal)
    | InitialPersist
    | Claim(row: Row)
    | AckSend
    | AckReply(reply: Reply)
    | Expire
    | NotifyBegin
    | NotifyEnd(sent: Sent)
    | MailCheck
    | MailRead
    | ToolReceipt(signal: Signal, receipt: Receipt, host: int)
    | ToolDone(written: bool)
    | CliConfirm(signal: Signal, receipt: Receipt)
    | MailLands(mail: Mail)

  /** `ChannelReceiptGate.confirm` */
  predicate GateAccepts(pending: Option<Pending>, ownHost: int, signal: Signal, receipt: Receipt, host: int) {
    pending.Some? && host == ownHost && signal == pending.value.row.signal && receipt == pending.value.receipt
  }

  predicate Live(w: World, at: At) {
    w.proc.Some? && w.proc.value.at == at
  }

  predicate Holding(w: World, at: At) {
    Live(w, at) && w.proc.value.pending.Some?
  }

  function Held(w: World): Pending
    requires w.proc.Some? && w.proc.value.pending.Some?
  {
    w.proc.value.pending.value
  }

  /** The main loop acks a confirmed delivery first, unless a receipt is being written. */
  predicate AckTurn(p: Proc)
    requires p.pending.Some?
  {
    p.pending.value.confirmed && p.writing.None?
  }

  predicate Enabled(w: World, s: Step) {
    match s
    case Tick(to) => to >= w.now
    case Start => w.proc.None?
    case Die => w.proc.Some?
    case Land(j) => w.proc.Some? && j in w.proc.value.issued
    case InitialPersist => w.proc.Some?
    case Claim(row) => Live(w, Ready) && w.proc.value.pending.None?
    case AckSend => Holding(w, Ready) && AckTurn(w.proc.value)
    case AckReply(_) => Holding(w, Acking)
    case Expire => Holding(w, Ready) && !AckTurn(w.proc.value) && Held(w).row.until <= w.now
    case NotifyBegin => Holding(w, Ready) && !AckTurn(w.proc.value) && Held(w).row.until > w.now && !w.proc.value.notified
    case NotifyEnd(_) => Holding(w, Notifying)
    case MailCheck => w.gateway && Holding(w, Ready) && w.proc.value.writing.None? && w.proc.value.notified &&
                      !Held(w).confirmed && Held(w).row.until > w.now
    case MailRead => Holding(w, Reading)
    case ToolReceipt(_, _, _) => w.proc.Some? && w.proc.value.writing.None?
    case ToolDone(_) => w.proc.Some? && w.proc.value.writing.Some?
    case CliConfirm(_, _) => w.gateway
    case MailLands(mail) => mail in w.mails
  }

  /** `persist`: the contents are fixed when the write is issued. */
  function Persist(p: Proc): (r: Proc) {
    p.(issued := p.issued + {Journal(p.pending, p.notified)})
  }

  function Cleared(p: Proc): (r: Proc) {
    Persist(p.(pending := None, notified := false, at := Ready))
  }

  /** What the receipt tool checks before it confirms. */
  predicate ToolAccepts(w: World, signal: Signal, receipt: Receipt, host: int)
    requires w.proc.Some?
  {
    var p := w.proc.value;
    p.notified && (p.pending.Some? ==> p.pending.value.row.until > w.now) &&
    GateAccepts(p.pending, w.host, signal, receipt, host)
  }

  /** What the CLI checks in the journal before it writes the mailbox. */
  predicate CliAccepts(w: World, signal: Signal, receipt: Receipt) {
    var j := w.journal;
    j.notified && j.pending.Some? && j.pending.value.row.until > w.now &&
    GateAccepts(j.pending, w.host, signal, receipt, w.host)
  }

  function Apply(w: World, s: Step): (r: World)
    requires Enabled(w, s)
  {
    match s
    case Tick(to) => w.(now := to)
    case Start =>
      // An unconfirmed delivery is presented again under a new challenge.
      var j := w.journal.pending;
      if j.Some? && !j.value.confirmed then
        w.(proc := Some(Proc(Some(j.value.(receipt := w.next)), false, Ready, None, {}, w.next)),
           next := w.next + 1, minted := w.minted[w.next := j.value.row], log := w.log + [Started])
      else
        w.(proc := Some(Proc(j, false, Ready, None, {}, w.next)), log := w.log + [Started])
    case Die => w.(proc := None)
    case Land(j) => w.(journal := j)
    case InitialPersist => w.(proc := Some(Persist(w.proc.value)))
    case Claim(row) =>
      w.(proc := Some(Persist(w.proc.value.(pending := Some(Pending(row, w.next, false))))),
         next := w.next + 1, minted := w.minted[w.next := row])
    case AckSend =>
      w.(proc := Some(w.proc.value.(at := Acking)), log := w.log + [AckSent(Held(w).row, Held(w).receipt)])
    case AckReply(reply) =>
      w.(proc := Some(if reply.Failed? then w.proc.value.(at := Ready) else Cleared(w.proc.value)))
    case Expire => w.(proc := Some(Cleared(w.proc.value)))
    case NotifyBegin =>
      // The gateway form publishes the challenge before it sends.
      var p := w.proc.value.(at := Notifying);
      w.(proc := Some(if w.gateway then Persist(p.(notified := true)) else p), log := w.log + [Began(Held(w).receipt)])
    case NotifyEnd(sent) =>
      var p := w.proc.value.(at := Ready);
      w.(proc := Some(match sent
                      case Delivered => p.(notified := true)
                      case SendFailed => if w.gateway then Persist(p.(notified := false)) else p
                      case Aborted => p))
    case MailCheck => w.(proc := Some(w.proc.value.(at := Reading)))
    case MailRead =>
      var p := w.proc.value.(at := Ready);
      if w.mailbox.Some? && GateAccepts(p.pending, w.host, w.mailbox.value.signal, w.mailbox.value.receipt, w.mailbox.value.host)
      then w.(proc := Some(Persist(p.(pending := Some(p.pending.value.(confirmed := true))))))
      else w.(proc := Some(p))
    case ToolReceipt(signal, receipt, host) =>
      var p := w.proc.value;
      if ToolAccepts(w, signal, receipt, host)
      then w.(proc := Some(Persist(p.(pending := Some(p.pending.value.(confirmed := true)),
                                      writing := Some(Writing(receipt, p.pending.value.confirmed))))),
              log := w.log + [Echoed(receipt, signal, host, w.now)])
      else w
    case ToolDone(written) =>
      var p := w.proc.value.(writing := None);
      var held := w.proc.value.writing.value;
      w.(proc := Some(if !written && p.pending.Some? && p.pending.value.receipt == held.receipt
                      then p.(pending := Some(p.pending.value.(confirmed := held.wasConfirmed)))
                      else p))
    case CliConfirm(signal, receipt) =>
      if CliAccepts(w, signal, receipt)
      then w.(mails := w.mails + {Mail(signal, receipt, w.host)}, log := w.log + [Echoed(receipt, signal, w.host, w.now)])
      else w
    case MailLands(mail) => w.(mailbox := Some(mail))
  }

  // ---- what a confirmation rests on ----

  ghost predicate HasBegun(log: seq<Event>, receipt: Receipt) {
    Began(receipt) in log
  }

  /** Event `e` is an echo of this challenge, with this host's id, before the lease ended and
      after the challenge's notification step began. */
  ghost predicate EchoAt(log: seq<Event>, e: nat, host: int, row: Row, receipt: Receipt) {
    && e < |log| && log[e].Echoed? && log[e].receipt == receipt && log[e].signal == row.signal
    && log[e].host == host && log[e].at < row.until && HasBegun(log[..e], receipt)
  }

  ghost predicate Certified(log: seq<Event>, host: int, row: Row, receipt: Receipt) {
    exists e: nat :: EchoAt(log, e, host, row, receipt)
  }

  /** Every acknowledgement sent rests on an earlier echo. */
  ghost predicate AcksCertified(log: seq<Event>, host: int) {
    forall k :: 0 <= k < |log| && log[k].AckSent? ==> Certified(log[..k], host, log[k].row, log[k].receipt)
  }

  lemma CertifiedMore(log: seq<Event>, e: Event, host: int, row: Row, receipt: Receipt)
    requires Certified(log, host, row, receipt)
    ensures Certified(log + [e], host, row, receipt)
  {
    var i: nat :| EchoAt(log, i, host, row, receipt);
    assert (log + [e])[..i] == log[..i];
    assert EchoAt(log + [e], i, host, row, receipt);
  }

  lemma EchoCertifies(log: seq<Event>, host: int, row: Row, receipt: Receipt, at: int)
    requires HasBegun(log, receipt) && at < row.until
    ensures Certified(log + [Echoed(receipt, row.signal, host, at)], host, row, receipt)
  {
    var next := log + [Echoed(receipt, row.signal, host, at)];
    assert next[..|log|] == log;
    assert EchoAt(next, |log|, host, row, receipt);
  }

  lemma AcksMore(log: seq<Event>, e: Event, host: int)
    requires AcksCertified(log, host) && (e.AckSent? ==> Certified(log, host, e.row, e.receipt))
    ensures AcksCertified(log + [e], host)
  {
    var next := log + [e];
    forall k | 0 <= k < |next| && next[k].AckSent? ensures Certified(next[..k], host, next[k].row, next[k].receipt) {
      assert next[..k] == log[..k];
      if k == |log| {
        assert log[..k] == log;
      }
    }
  }

  // ---- the invariant ----

  /** A delivery held in memory or on disk: its challenge was made for it, and if it is
      confirmed there is an echo to show for it. */
  ghost predicate PendingOk(w: World, p: Option<Pending>) {
    p.Some? ==>
      && p.value.receipt in w.minted && w.minted[p.value.receipt] == p.value.row
      && (p.value.confirmed ==> Certified(w.log, w.host, p.value.row, p.value.receipt))
  }

  ghost predicate JournalOk(w: World, j: Journal) {
    PendingOk(w, j.pending) && (j.notified && j.pending.Some? ==> HasBegun(w.log, j.pending.value.receipt))
  }

  ghost predicate MailOk(w: World, m: Mail) {
    m.receipt in w.minted && w.minted[m.receipt].signal == m.signal &&
    Certified(w.log, w.host, w.minted[m.receipt], m.receipt)
  }

  ghost predicate ProcOk(w: World, p: Proc) {
    && JournalOk(w, Journal(p.pending, p.notified))
    && (p.notified ==> p.pending.Some?)
    && (p.at == Notifying && p.pending.Some? ==> HasBegun(w.log, p.pending.value.receipt))
    && (p.at == Acking && p.pending.Some? ==> p.pending.value.confirmed)
    && (forall j :: j in p.issued ==> JournalOk(w, j))
    && WritingOk(w, p)
    && p.base <= w.next
    // Only a delivery that was already confirmed on disk keeps an old challenge.
    && (p.pending.Some? && p.pending.value.receipt < p.base ==> p.pending.value.confirmed)
  }

  ghost predicate WritingOk(w: World, p: Proc) {
    && (p.writing.Some? ==> p.writing.value.receipt < w.next)
    && (WritingHeld(p) ==>
      && p.pending.value.confirmed
      && (p.writing.value.wasConfirmed ==> Certified(w.log, w.host, p.pending.value.row, p.pending.value.receipt))
      && (p.pending.value.receipt < p.base || p.at == Acking ==> p.writing.value.wasConfirmed))
  }

  /** The receipt call under way is about the delivery held now. */
  ghost predicate WritingHeld(p: Proc) {
    p.writing.Some? && p.pending.Some? && p.pending.value.receipt == p.writing.value.receipt
  }

  ghost predicate Inv(w: World) {
    && AcksCertified(w.log, w.host)
    && JournalOk(w, w.journal)
    && (w.proc.Some? ==> ProcOk(w, w.proc.value))
    && (w.mailbox.Some? ==> MailOk(w, w.mailbox.value))
    && (forall m :: m in w.mails ==> MailOk(w, m))
    && (forall r :: r in w.minted ==> r < w.next)
  }

  // ---- what is known stays known ----

  ghost predicate Grows(w: World, v: World) {
    && v.host == w.host
    && (forall r :: r in w.minted ==> r in v.minted && v.minted[r] == w.minted[r])
    && (v.log == w.log || (v.log != [] && v.log[..|v.log| - 1] == w.log))
  }

  lemma CertifiedGrows(w: World, v: World, row: Row, receipt: Receipt)
    requires Grows(w, v) && Certified(w.log, w.host, row, receipt)
    ensures Certified(v.log, v.host, row, receipt)
  {
    if v.log != w.log {
      CertifiedMore(w.log, v.log[|v.log| - 1], w.host, row, receipt);
      assert v.log == w.log + [v.log[|v.log| - 1]];
    }
  }

  lemma BegunGrows(w: World, v: World, receipt: Receipt)
    requires Grows(w, v) && HasBegun(w.log, receipt)
    ensures HasBegun(v.log, receipt)
  {
    if v.log != w.log {
      assert v.log == w.log + [v.log[|v.log| - 1]];
    }
  }

  lemma JournalGrows(w: World, v: World, j: Journal)
    requires Grows(w, v) && JournalOk(w, j)
    ensures JournalOk(v, j)
  {
    hide Grows, Certified, HasBegun;
    if j.pending.Some? {
      assert j.pending.value.receipt in v.minted && v.minted[j.pending.value.receipt] == j.pending.value.row by {
        MintedGrows(w, v, j.pending.value.receipt);
      }
      if j.pending.value.confirmed {
        CertifiedGrows(w, v, j.pending.value.row, j.pending.value.receipt);
      }
      if j.notified {
        BegunGrows(w, v, j.pending.value.receipt);
      }
    }
  }

  lemma MintedGrows(w: World, v: World, r: Receipt)
    requires Grows(w, v) && r in w.minted
    ensures r in v.minted && v.minted[r] == w.minted[r]
  {
  }

  lemma MailGrows(w: World, v: World, m: Mail)
    requires Grows(w, v) && MailOk(w, m)
    ensures MailOk(v, m)
  {
    CertifiedGrows(w, v, w.minted[m.receipt], m.receipt);
  }

  lemma IssuedGrows(w: World, v: World, issued: set<Journal>)
    requires Grows(w, v) && forall j :: j in issued ==> JournalOk(w, j)
    ensures forall j :: j in issued ==> JournalOk(v, j)
  {
    forall j | j in issued ensures JournalOk(v, j) {
      JournalGrows(w, v, j);
    }
  }

  /** What no step but its own may break. */
  ghost predicate RestOk(w: World) {
    && JournalOk(w, w.journal)
    && (w.mailbox.Some? ==> MailOk(w, w.mailbox.value))
    && (forall m :: m in w.mails ==> MailOk(w, m))
  }

  lemma RestGrows(w: World, v: World)
    requires Grows(w, v) && RestOk(w) && v.journal == w.journal && v.mailbox == w.mailbox && v.mails == w.mails
    ensures RestOk(v)
  {
    hide Grows, MailOk, JournalOk;
    JournalGrows(w, v, w.journal);
    if w.mailbox.Some? {
      MailGrows(w, v, w.mailbox.value);
    }
    forall m | m in v.mails ensures MailOk(v, m) {
      MailGrows(w, v, m);
    }
  }

  lemma WritingGrows(w: World, v: World, p: Proc)
    requires Grows(w, v) && WritingOk(w, p) && w.next <= v.next
    ensures WritingOk(v, p)
  {
    if WritingHeld(p) && p.writing.value.wasConfirmed {
      CertifiedGrows(w, v, p.pending.value.row, p.pending.value.receipt);
    }
  }

  lemma ProcGrows(w: World, v: World, p: Proc)
    requires Grows(w, v) && ProcOk(w, p) && w.next <= v.next
    ensures ProcOk(v, p)
  {
    hide Grows, JournalOk, HasBegun, WritingOk;
    JournalGrows(w, v, Journal(p.pending, p.notified));
    IssuedGrows(w, v, p.issued);
    WritingGrows(w, v, p);
    if p.at == Notifying && p.pending.Some? {
      BegunGrows(w, v, p.pending.value.receipt);
    }
  }

  /** Issuing a write of the current memory. */
  lemma PersistOk(w: World, p: Proc)
    requires ProcOk(w, p)
    ensures ProcOk(w, Persist(p))
  {
    hide JournalOk, HasBegun, Certified;
  }

  lemma ClearedOk(w: World, p: Proc)
    requires ProcOk(w, p)
    ensures ProcOk(w, Cleared(p))
  {
    hide HasBegun, Certified;
    PersistOk(w, p.(pending := None, notified := false, at := Ready));
  }

  lemma ConfirmedOk(w: World, p: Proc)
    requires ProcOk(w, p) && p.pending.Some? && Certified(w.log, w.host, p.pending.value.row, p.pending.value.receipt)
    ensures ProcOk(w, p.(pending := Some(p.pending.value.(confirmed := true))))
  {
    hide HasBegun, Certified;
  }

  // ---- the steps ----

  lemma StepStart(w: World)
    requires Inv(w) && Enabled(w, Start)
    ensures Inv(Apply(w, Start))
  {
    hide Certified, HasBegun, AcksCertified;
    var v := Apply(w, Start);
    assert v.log[..|v.log| - 1] == w.log;
    AcksMore(w.log, Started, w.host);
    assert Grows(w, v);
    RestGrows(w, v);
    JournalGrows(w, v, w.journal);
  }

  lemma StepClaim(w: World, row: Row)
    requires Inv(w) && Enabled(w, Claim(row))
    ensures Inv(Apply(w, Claim(row)))
  {
    hide Certified, HasBegun, AcksCertified, MailOk;
    var v := Apply(w, Claim(row));
    var p := w.proc.value;
    assert Grows(w, v);
    RestGrows(w, v);
    ProcGrows(w, v, p);
    PersistOk(v, p.(pending := Some(Pending(row, w.next, false))));
  }

  lemma StepAckSend(w: World)
    requires Inv(w) && Enabled(w, AckSend)
    ensures Inv(Apply(w, AckSend))
  {
    hide Certified, HasBegun, AcksCertified, MailOk;
    var v := Apply(w, AckSend);
    assert v.log[..|v.log| - 1] == w.log;
    AcksMore(w.log, AckSent(Held(w).row, Held(w).receipt), w.host);
    assert Grows(w, v);
    RestGrows(w, v);
    ProcGrows(w, v, w.proc.value);
  }

  lemma StepClear(w: World, s: Step)
    requires Inv(w) && Enabled(w, s) && (s.AckReply? || s.Expire?)
    ensures Inv(Apply(w, s))
  {
    hide Certified, HasBegun, AcksCertified, MailOk, PendingOk;
    ClearedOk(w, w.proc.value);
    var v := Apply(w, s);
    ProcGrowsSame(w, v);
  }

  lemma ProcGrowsSame(w: World, v: World)
    requires v == w.(proc := v.proc)
    requires Inv(w) && (v.proc.Some? ==> ProcOk(w, v.proc.value))
    ensures Inv(v)
  {
    hide Certified, HasBegun, AcksCertified;
    assert Grows(w, v);
    RestGrows(w, v);
    if v.proc.Some? {
      ProcGrows(w, v, v.proc.value);
    }
  }

  lemma StepNotifyBegin(w: World)
    requires Inv(w) && Enabled(w, NotifyBegin)
    ensures Inv(Apply(w, NotifyBegin))
  {
    hide Certified, AcksCertified, MailOk;
    var v := Apply(w, NotifyBegin);
    var p := w.proc.value;
    assert v.log[..|v.log| - 1] == w.log;
    AcksMore(w.log, Began(Held(w).receipt), w.host);
    assert Grows(w, v);
    RestGrows(w, v);
    ProcGrows(w, v, p);
    assert Began(Held(w).receipt) in v.log;
    if w.gateway {
      PersistOk(v, p.(at := Notifying, notified := true));
    }
  }

  lemma StepNotifyEnd(w: World, sent: Sent)
    requires Inv(w) && Enabled(w, NotifyEnd(sent))
    ensures Inv(Apply(w, NotifyEnd(sent)))
  {
    hide Certified, AcksCertified, MailOk, HasBegun;
    var p := w.proc.value.(at := Ready);
    if sent.SendFailed? && w.gateway {
      PersistOk(w, p.(notified := false));
    }
    ProcGrowsSame(w, Apply(w, NotifyEnd(sent)));
  }

  lemma StepMailRead(w: World)
    requires Inv(w) && Enabled(w, MailRead)
    ensures Inv(Apply(w, MailRead))
  {
    hide Certified, AcksCertified, HasBegun;
    var p := w.proc.value.(at := Ready);
    if w.mailbox.Some? && GateAccepts(p.pending, w.host, w.mailbox.value.signal, w.mailbox.value.receipt, w.mailbox.value.host) {
      ConfirmedOk(w, p);
      PersistOk(w, p.(pending := Some(p.pending.value.(confirmed := true))));
    }
    ProcGrowsSame(w, Apply(w, MailRead));
  }

  lemma StepToolReceipt(w: World, signal: Signal, receipt: Receipt, host: int)
    requires Inv(w) && Enabled(w, ToolReceipt(signal, receipt, host))
    ensures Inv(Apply(w, ToolReceipt(signal, receipt, host)))
  {
    hide Certified, AcksCertified, HasBegun, MailOk;
    if ToolAccepts(w, signal, receipt, host) {
      var v := Apply(w, ToolReceipt(signal, receipt, host));
      var p := w.proc.value;
      var row := p.pending.value.row;
      assert v.log[..|v.log| - 1] == w.log;
      AcksMore(w.log, Echoed(receipt, signal, host, w.now), w.host);
      assert Grows(w, v);
      RestGrows(w, v);
      ProcGrows(w, v, p);
      EchoCertifies(w.log, w.host, row, receipt, w.now);
      ToolProcOk(v, p, Writing(receipt, p.pending.value.confirmed));
    }
  }

  lemma ToolProcOk(v: World, p: Proc, writing: Writing)
    requires ProcOk(v, p) && p.pending.Some? && p.pending.value.receipt < v.next
    requires writing == Writing(p.pending.value.receipt, p.pending.value.confirmed)
    requires Certified(v.log, v.host, p.pending.value.row, p.pending.value.receipt)
    ensures ProcOk(v, Persist(p.(pending := Some(p.pending.value.(confirmed := true)), writing := Some(writing))))
  {
    hide Certified, HasBegun;
    PersistOk(v, p.(pending := Some(p.pending.value.(confirmed := true)), writing := Some(writing)));
  }

  lemma StepToolDone(w: World, written: bool)
    requires Inv(w) && Enabled(w, ToolDone(written))
    ensures Inv(Apply(w, ToolDone(written)))
  {
    hide Certified, AcksCertified, HasBegun, MailOk;
    ProcGrowsSame(w, Apply(w, ToolDone(written)));
  }

  lemma StepCliConfirm(w: World, signal: Signal, receipt: Receipt)
    requires Inv(w) && Enabled(w, CliConfirm(signal, receipt))
    ensures Inv(Apply(w, CliConfirm(signal, receipt)))
  {
    hide Certified, AcksCertified, HasBegun;
    if CliAccepts(w, signal, receipt) {
      var v := Apply(w, CliConfirm(signal, receipt));
      var row := w.journal.pending.value.row;
      assert v.log[..|v.log| - 1] == w.log;
      AcksMore(w.log, Echoed(receipt, signal, w.host, w.now), w.host);
      EchoCertifies(w.log, w.host, row, receipt, w.now);
      assert Grows(w, v);
      JournalGrows(w, v, w.journal);
      forall m | m in w.mails ensures MailOk(v, m) {
        MailGrows(w, v, m);
      }
      if w.mailbox.Some? {
        MailGrows(w, v, w.mailbox.value);
      }
      if w.proc.Some? {
        ProcGrows(w, v, w.proc.value);
      }
    }
  }

  /** Steps that only move time or a finished write. */
  lemma StepPlain(w: World, s: Step)
    requires Inv(w) && Enabled(w, s)
    requires s.Tick? || s.Die? || s.Land? || s.InitialPersist? || s.MailLands? || s.MailCheck?
    ensures Inv(Apply(w, s))
  {
    hide Certified, AcksCertified, HasBegun;
    var v := Apply(w, s);
    assert Grows(w, v);
    if s.InitialPersist? {
      PersistOk(w, w.proc.value);
    }
    JournalGrows(w, v, v.journal);
    forall m | m in v.mails ensures MailOk(v, m) {
      MailGrows(w, v, m);
    }
    if v.mailbox.Some? {
      MailGrows(w, v, v.mailbox.value);
    }
    if v.proc.Some? {
      ProcGrows(w, v, v.proc.value);
    }
  }

  lemma StepKeeps(w: World, s: Step)
    requires Inv(w) && Enabled(w, s)
    ensures Inv(Apply(w, s))
  {
    hide Inv, Apply;
    match s
    case Start => StepStart(w);
    case Claim(row) => StepClaim(w, row);
    case AckSend => StepAckSend(w);
    case AckReply(_) => StepClear(w, s);
    case Expire => StepClear(w, s);
    case NotifyBegin => StepNotifyBegin(w);
    case NotifyEnd(sent) => StepNotifyEnd(w, sent);
    case MailRead => StepMailRead(w);
    case ToolReceipt(signal, receipt, host) => StepToolReceipt(w, signal, receipt, host);
    case ToolDone(written) => StepToolDone(w, written);
    case CliConfirm(signal, receipt) => StepCliConfirm(w, signal, receipt);
    case _ => StepPlain(w, s);
  }

  ghost predicate Runs(w: World, steps: seq<Step>)
    decreases |steps|
  {
    steps == [] || (Enabled(w, steps[0]) && Runs(Apply(w, steps[0]), steps[1..]))
  }

  ghost function Final(w: World, steps: seq<Step>): World
    requires Runs(w, steps)
    decreases |steps|
  {
    if steps == [] then w else Final(Apply(w, steps[0]), steps[1..])
  }

  function Initial(host: int, gateway: bool, now: int): World {
    World(host, gateway, None, Journal(None, false), None, {}, now, 0, map[], [])
  }

  lemma {:induction false} RunKeeps(w: World, steps: seq<Step>)
    requires Inv(w) && Runs(w, steps)
    ensures Inv(Final(w, steps))
    decreases |steps|
  {
    hide Inv, Apply, Enabled;
    if steps != [] {
      StepKeeps(w, steps[0]);
      RunKeeps(Apply(w, steps[0]), steps[1..]);
    }
  }

  /** Over every run, an acknowledgement is sent only for a delivery whose challenge was
      echoed with this host's id, before its lease ended and after the challenge's own
      notification step began. */
  lemma AcksRestOnEchoes(host: int, gateway: bool, now: int, steps: seq<Step>, k: nat)
    requires Runs(Initial(host, gateway, now), steps)
    requires var log := Final(Initial(host, gateway, now), steps).log; k < |log| && log[k].AckSent?
    ensures var log := Final(Initial(host, gateway, now), steps).log;
            exists n: nat, e: nat :: n < e < k && log[n] == Began(log[k].receipt) && log[e].Echoed? &&
              log[e].receipt == log[k].receipt && log[e].signal == log[k].row.signal && log[e].host == host &&
              log[e].at < log[k].row.until
  {
    var w0 := Initial(host, gateway, now);
    RunKeeps(w0, steps);
    var w := Final(w0, steps);
    HostStays(w0, steps);
    var log := w.log;
    var e: nat :| EchoAt(log[..k], e, host, log[k].row, log[k].receipt);
    assert log[..k][..e] == log[..e];
    var n :| 0 <= n < |log[..e]| && log[..e][n] == Began(log[k].receipt);
    assert log[n] == Began(log[k].receipt) && log[..k][e] == log[e];
  }

  lemma {:induction false} HostStays(w: World, steps: seq<Step>)
    requires Runs(w, steps)
    ensures Final(w, steps).host == w.host
    decreases |steps|
  {
    if steps != [] {
      HostStays(Apply(w, steps[0]), steps[1..]);
    }
  }

  /** In every reachable state, a delivery that is not confirmed carries a challenge made by
      the running receiver, and the only step that confirms it is an echo of that challenge:
      one from before a restart never does. */
  lemma OldChallengesNeverConfirm(host: int, gateway: bool, now: int, steps: seq<Step>, s: Step)
    requires Runs(Initial(host, gateway, now), steps)
    requires var w := Final(Initial(host, gateway, now), steps);
             && Enabled(w, s) && Unconfirmed(w)
             && var v := Apply(w, s); v.proc.Some? && v.proc.value.pending.Some? && Held(v).confirmed
    ensures var w := Final(Initial(host, gateway, now), steps);
            && Held(w).receipt >= w.proc.value.base
            && (|| (s.ToolReceipt? && s.receipt == Held(w).receipt && s.signal == Held(w).row.signal && s.host == host)
                || (s.MailRead? && w.mailbox == Some(Mail(Held(w).row.signal, Held(w).receipt, host))))
  {
    hide Runs, Final, Inv, Apply, Enabled;
    var w0 := Initial(host, gateway, now);
    InitialInv(host, gateway, now);
    RunKeeps(w0, steps);
    HostStays(w0, steps);
    OnlyEchoesConfirm(Final(w0, steps), s);
  }

  predicate Unconfirmed(w: World) {
    w.proc.Some? && w.proc.value.pending.Some? && !Held(w).confirmed
  }

  lemma InitialInv(host: int, gateway: bool, now: int)
    ensures Inv(Initial(host, gateway, now))
  {
  }

  lemma OnlyEchoesConfirm(w: World, s: Step)
    requires Inv(w) && Enabled(w, s) && Unconfirmed(w)
    requires Apply(w, s).proc.Some? && Apply(w, s).proc.value.pending.Some? && Held(Apply(w, s)).confirmed
    ensures Held(w).receipt >= w.proc.value.base
    ensures || (s.ToolReceipt? && s.receipt == Held(w).receipt && s.signal == Held(w).row.signal && s.host == w.host)
            || (s.MailRead? && w.mailbox == Some(Mail(Held(w).row.signal, Held(w).receipt, w.host)))
  {
    hide Certified, AcksCertified, HasBegun, MailOk, JournalOk;
  }
}
