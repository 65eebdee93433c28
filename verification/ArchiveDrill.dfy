/** The phases of the archive drill (scripts/c1-staging-u9/archive.py, `execute`) and what
    every sequence of them keeps. */
module ArchiveDrill {
  import opened Basics
  import opened Archive

  datatype Service = Inactive | Failed | Busy

  /** What one observation found: `bindings` stands for the compared values other than the
      config and artifact digests, `admitted` for the measurements a control phase needs. */
  datatype Observation = Observation(bindings: nat, artifact: Content, config: Content, hookReviewed: bool, timerActive: bool,
                                     service: Service, cutover: nat, startedAt: nat, admitted: bool)

  // ---- receipts ----

  function SavedBaseline(s: FS, plan: nat): (b: Option<Content>)
    requires Sane(s)
    ensures b.Some? ==> b.value.Baseline? && b.value.plan == plan && Holds(s, Receipt(Before), b.value)
  {
    var c := Read(s, Receipt(Before), ROOT);
    if c.Some? && c.value.Baseline? && c.value.plan == plan then c else None
  }

  function SavedPositive(s: FS, plan: nat): (b: Option<Content>)
    requires Sane(s)
    ensures b.Some? ==> b.value.Positive?
  {
    var c := Read(s, Receipt(PositiveControl), ROOT);
    if c.Some? && c.value.Positive? && c.value.plan == plan then c else None
  }

  predicate SavedNegative(s: FS, plan: nat)
    requires Sane(s)
  {
    Read(s, Receipt(Negative), ROOT) == Some(Other(plan, Negative))
  }

  /** The baseline of a phase after the first, unless anything it bound has drifted. */
  function BaselineFor(s: FS, plan: nat, phase: Phase, obs: Observation): (b: Option<Content>)
    requires Sane(s)
    ensures b.Some? ==> b == SavedBaseline(s, plan) && Look(s, Receipt(phase)).None?
  {
    var b := SavedBaseline(s, plan);
    if Look(s, Receipt(phase)).None? && b.Some? && obs.bindings == b.value.bindings && obs.artifact == b.value.artifact
       && obs.config == b.value.config
    then b else None
  }

  // ---- what a phase may do ----

  ghost predicate BeforeStep(plan: nat, s: FS, t: FS, ok: bool) {
    && SameBut(s, t, {Aside, ConfigCopy, Receipt(Before)})
    && (Look(s, Receipt(Before)).Some? || Look(s, Aside).Some? ==> SameBut(s, t, {}) && !ok)
    && (Look(s, Receipt(Before)).None? && Look(t, Receipt(Before)).Some? ==> Look(t, Legacy).Some? && RecordsLegacy(t))
    && (ok ==> Armed(plan, t))
  }

  /** The first receipt, if it can be read at all, describes the legacy archive. */
  ghost predicate RecordsLegacy(t: FS)
    requires Sane(t) && Look(t, Receipt(Before)).Some? && Look(t, Legacy).Some?
  {
    var c := Look(t, Receipt(Before)).value.file.content;
    c == Torn || (c.Baseline? && Look(t, Legacy).value.file == File(c.artifact, c.owner, c.mode) && c.mode == PRIVATE)
  }

  /** The undo is in place: a verified second copy and the receipt that names it. */
  ghost predicate Armed(plan: nat, t: FS) {
    Sane(t) &&
    var b := SavedBaseline(t, plan);
    && b.Some?
    && Look(t, Legacy) == Some(Entry(b.value.archiveId, File(b.value.artifact, b.value.owner, b.value.mode)))
    && Look(t, Aside) == Some(Entry(b.value.asideId, File(b.value.artifact, b.value.owner, b.value.mode)))
    && Holds(t, ConfigCopy, b.value.config)
    && b.value.archiveId != b.value.asideId
  }

  ghost predicate LossStep(plan: nat, s: FS, t: FS, ok: bool) {
    && SameBut(s, t, {Legacy, Receipt(Loss)})
    && (Look(t, Legacy) != Look(s, Legacy) ==>
          var b := SavedBaseline(s, plan);
          && Look(t, Legacy) == None && b.Some? && b.value.archiveId != b.value.asideId
          && Look(s, Legacy) == Some(Entry(b.value.archiveId, File(b.value.artifact, b.value.owner, PRIVATE)))
          && Look(s, Aside) == Some(Entry(b.value.asideId, File(b.value.artifact, b.value.owner, PRIVATE))))
    && (ok ==> Look(s, Legacy).Some? && Look(t, Legacy) == None && Look(t, Receipt(Loss)).Some?)
  }

  ghost predicate RestoreStep(plan: nat, s: FS, t: FS, ok: bool) {
    && SameBut(s, t, {Legacy, Aside, Receipt(Restore)})
    && (Look(t, Legacy) != Look(s, Legacy) ==> Look(s, Legacy) == None)
    && (Look(t, Aside) != Look(s, Aside) ==>
          var b := SavedBaseline(s, plan);
          Look(t, Aside) == None && b.Some? && Holds(t, Legacy, b.value.artifact))
    && (ok ==>
          var b := SavedBaseline(s, plan);
          && b.Some? && Look(t, Aside) == None
          && Look(t, Legacy).Some? && Look(t, Legacy).value.file == File(b.value.artifact, b.value.owner, PRIVATE)
          && Look(t, Config).Some? && Holds(t, ConfigCopy, Look(t, Config).value.file.content))
  }

  ghost predicate ControlStep(s: FS, t: FS, phase: Phase) {
    SameBut(s, t, {Receipt(phase)})
  }

  /** One call of `execute`, whether it finished or raised anywhere. */
  ghost predicate Step(plan: nat, phase: Phase, s: FS, t: FS, ok: bool) {
    match phase
    case Before => BeforeStep(plan, s, t, ok)
    case Loss => LossStep(plan, s, t, ok)
    case Restore => RestoreStep(plan, s, t, ok)
    case _ => ControlStep(s, t, phase)
  }

  // ---- the phases ----

  /** The reviewed hook, an idle active timer, the measured archive, and nothing in the way. */
  predicate MayBegin(s: FS, obs: Observation, uploader: nat)
    requires Sane(s)
  {
    && obs.hookReviewed && obs.timerActive && obs.service.Inactive?
    && Look(s, Legacy).Some?
    && Read(s, Legacy, if Look(s, Legacy).value.file.owner == ROOT then ROOT else uploader) == Some(obs.artifact)
    && Read(s, Config, ROOT) == Some(obs.config)
    && Look(s, Aside).None? && Look(s, ConfigCopy).None? && Look(s, Receipt(Before)).None?
  }

  method SetAside(disk: Disk, plan: nat, obs: Observation, uploader: nat, raced: bool) returns (ok: bool)
    requires Sane(disk.fs)
    modifies disk
    ensures BeforeStep(plan, old(disk.fs), disk.fs, ok)
    ensures old(disk.Calm()) ==> (ok <==> MayBegin(old(disk.fs), obs, uploader) && !raced)
  {
    hide Sane, OnlyLinks;
    var s := disk.fs;
    if Look(s, Receipt(Before)).Some? || Look(s, Legacy).None? {
      return false;
    }
    var legacy := Look(s, Legacy).value;
    var owner := if legacy.file.owner == ROOT then ROOT else uploader;
    if Read(s, Legacy, owner) != Some(obs.artifact) || !obs.hookReviewed || !obs.timerActive || !obs.service.Inactive? {
      return false;
    }
    var aside := disk.CopyBytes(Aside, obs.artifact, owner, legacy.file.mode, obs.artifact);
    if aside.None? {
      return false;
    }
    var receipt := Baseline(plan, obs.bindings, obs.artifact, obs.config, legacy.ino, aside.value, owner, legacy.file.mode);
    var saved := SaveUndo(disk, receipt);
    if !saved {
      return false;
    }
    // The receipt precedes stopping the timer, which may raise or race the service.
    var raised := disk.Raises();
    ok := !raised && !raced;
  }

  /** Copy the config and write the undo receipt; if that fails, remove what this call made. */
  method SaveUndo(disk: Disk, receipt: Content) returns (ok: bool)
    requires Sane(disk.fs) && receipt.Baseline? && Look(disk.fs, Aside).Some? && Look(disk.fs, Aside).value.ino == receipt.asideId
    modifies disk
    ensures SameBut(old(disk.fs), disk.fs, {Aside, ConfigCopy, Receipt(Before)})
    ensures Look(old(disk.fs), Receipt(Before)).Some? ==> Look(disk.fs, Receipt(Before)) == Look(old(disk.fs), Receipt(Before))
    ensures Look(old(disk.fs), Receipt(Before)).None? && Look(disk.fs, Receipt(Before)).Some? ==>
              Look(disk.fs, Receipt(Before)).value.file.content in {Torn, receipt}
    ensures ok ==> Look(disk.fs, Aside) == Look(old(disk.fs), Aside) && Holds(disk.fs, ConfigCopy, receipt.config)
                   && Read(disk.fs, Receipt(Before), ROOT) == Some(receipt)
    ensures old(disk.Calm()) ==>
              && disk.Calm()
              && (ok <==> Read(old(disk.fs), Config, ROOT) == Some(receipt.config) && Look(old(disk.fs), ConfigCopy).None?
                          && Look(old(disk.fs), Receipt(Before)).None?)
  {
    hide Sane, OnlyLinks;
    ok := false;
    var config := Read(disk.fs, Config, ROOT);
    var copy: Option<Ino> := None;
    if config.Some? {
      copy := disk.CopyBytes(ConfigCopy, config.value, ROOT, PRIVATE, receipt.config);
      if copy.Some? {
        var saved := disk.CopyBytes(Receipt(Before), receipt, ROOT, PRIVATE, receipt);
        ok := saved.Some?;
      }
    }
    if !ok {
      var finished := disk.RemoveOwn(Aside, receipt.asideId);
      if finished && copy.Some? {
        finished := disk.RemoveOwn(ConfigCopy, copy.value);
      }
    }
  }

  method Lose(disk: Disk, plan: nat, obs: Observation) returns (ok: bool)
    requires Sane(disk.fs)
    modifies disk
    ensures LossStep(plan, old(disk.fs), disk.fs, ok)
    ensures !MayLose(old(disk.fs), plan, obs) ==> disk.fs == old(disk.fs) && !ok
    ensures old(disk.Calm()) ==> (ok <==> MayLose(old(disk.fs), plan, obs))
    ensures ok ==> Holds(disk.fs, Receipt(Loss), Other(plan, Loss))
  {
    var s := disk.fs;
    if !MayLose(s, plan, obs) {
      return false;
    }
    ok := disk.Unlink(Legacy);
    if ok {
      var raised := disk.Raises();
      if raised {
        return false;
      }
      ok := disk.WriteReceipt(Loss, Other(plan, Loss));
    }
  }

  /** Idle, recorded, and both copies are the recorded files with the recorded bytes. */
  predicate MayLose(s: FS, plan: nat, obs: Observation)
    requires Sane(s)
  {
    var b := BaselineFor(s, plan, Loss, obs);
    var positive := SavedPositive(s, plan);
    && b.Some? && positive.Some?
    && !obs.timerActive && obs.service.Inactive?
    && obs.cutover == positive.value.cutover && obs.startedAt == positive.value.startedAt
    && Look(s, Legacy).Some? && Look(s, Legacy).value.ino == b.value.archiveId
    && Look(s, Aside).Some? && Look(s, Aside).value.ino == b.value.asideId
    && Read(s, Legacy, b.value.owner) == Some(b.value.artifact)
    && Read(s, Aside, b.value.owner) == Some(b.value.artifact)
  }

  /** Both names lead to one file, the recorded one: an earlier version linked them. */
  predicate Shared(s: FS, b: Content)
    requires Sane(s) && b.Baseline?
  {
    && Look(s, Legacy).Some? && Look(s, Aside).Some? && Look(s, Legacy).value.ino == Look(s, Aside).value.ino
    && OnlyLinks(s, Look(s, Aside).value.ino, {Legacy, Aside})
    && Look(s, Aside).value.file == File(b.artifact, b.owner, b.mode)
  }

  /** The recorded aside, and a legacy path that is free, holds the bytes, or is the aside. */
  predicate AsideUsable(s: FS, b: Content)
    requires Sane(s) && b.Baseline? && Look(s, Aside).Some?
  {
    && Look(s, Aside).value.ino == b.asideId
    && if Look(s, Legacy).None? then Read(s, Aside, b.owner) == Some(b.artifact) && b.mode == PRIVATE
       else if Look(s, Legacy).value.ino == b.asideId then Shared(s, b)
       else Read(s, Legacy, b.owner) == Some(b.artifact)
  }

  /** The files once the archive is back and the aside gone. */
  function PutBackFiles(s: FS, b: Content): (t: FS)
    requires Sane(s) && b.Baseline?
    ensures Sane(t)
  {
    if Look(s, Aside).None? then s
    else Removed(if Look(s, Legacy).None? then Created(s, Legacy, File(b.artifact, b.owner, PRIVATE)) else s, Aside)
  }

  predicate MayRestore(s: FS, plan: nat, obs: Observation)
    requires Sane(s)
  {
    var b := BaselineFor(s, plan, Restore, obs);
    && b.Some? && !obs.timerActive && (obs.service.Inactive? || (obs.service.Failed? && SavedNegative(s, plan)))
    && (Look(s, Aside).Some? ==> AsideUsable(s, b.value))
    && Read(PutBackFiles(s, b.value), Legacy, b.value.owner) == Some(b.value.artifact)
    && Read(PutBackFiles(s, b.value), Config, ROOT).Some?
    && Read(PutBackFiles(s, b.value), Config, ROOT) == Read(PutBackFiles(s, b.value), ConfigCopy, ROOT)
  }

  method PutBack(disk: Disk, plan: nat, obs: Observation) returns (ok: bool)
    requires Sane(disk.fs)
    modifies disk
    ensures RestoreStep(plan, old(disk.fs), disk.fs, ok)
    ensures old(disk.Calm()) ==> (ok <==> MayRestore(old(disk.fs), plan, obs))
    ensures obs.timerActive || obs.service.Busy? || BaselineFor(old(disk.fs), plan, Restore, obs).None? ==>
              disk.fs == old(disk.fs) && !ok
    ensures ok ==> Holds(disk.fs, Receipt(Restore), Other(plan, Restore))
  {
    hide Sane, OnlyLinks, AsideUsable;
    var s := disk.fs;
    var baseline := BaselineFor(s, plan, Restore, obs);
    if baseline.None? || obs.timerActive || obs.service.Busy? || (obs.service.Failed? && !SavedNegative(s, plan)) {
      return false;
    }
    var b := baseline.value;
    if Look(s, Aside).Some? {
      var back := BringBack(disk, b);
      if !back {
        return false;
      }
    }
    var config := Read(disk.fs, Config, ROOT);
    if Read(disk.fs, Legacy, b.owner) != Some(b.artifact) || config.None? || config != Read(disk.fs, ConfigCopy, ROOT) {
      return false;
    }
    var raised := disk.Raises();
    if raised {
      return false;
    }
    ok := disk.WriteReceipt(Restore, Other(plan, Restore));
  }

  /** The aside is unlinked only once the legacy path holds the verified bytes. */
  method BringBack(disk: Disk, b: Content) returns (ok: bool)
    requires Sane(disk.fs) && b.Baseline? && Look(disk.fs, Aside).Some?
    modifies disk
    ensures SameBut(old(disk.fs), disk.fs, {Legacy, Aside})
    ensures Look(disk.fs, Legacy) != Look(old(disk.fs), Legacy) ==> Look(old(disk.fs), Legacy) == None
    ensures ok ==> disk.fs == PutBackFiles(old(disk.fs), b) && Holds(disk.fs, Legacy, b.artifact) && Look(disk.fs, Aside).None?
    ensures !ok ==> Look(disk.fs, Aside) == Look(old(disk.fs), Aside)
    ensures old(disk.Calm()) ==> disk.Calm() && (ok <==> AsideUsable(old(disk.fs), b))
  {
    hide Sane, OnlyLinks;
    var s := disk.fs;
    if Look(s, Aside).value.ino != b.asideId {
      return false;
    }
    if Look(s, Legacy).Some? && Look(s, Legacy).value.ino == Look(s, Aside).value.ino {
      if !Shared(s, b) {
        return false;
      }
    } else if Look(s, Legacy).Some? {
      if Read(s, Legacy, b.owner) != Some(b.artifact) {
        return false;
      }
    } else {
      var raw := Read(s, Aside, b.owner);
      if raw.None? {
        return false;
      }
      var made := disk.CopyBytes(Legacy, raw.value, b.owner, b.mode, b.artifact);
      if made.None? {
        return false;
      }
    }
    ok := disk.Unlink(Aside);
  }

  /** The negative control needs the archive gone, every other one the recorded bytes. */
  predicate MayControl(s: FS, plan: nat, phase: Phase, obs: Observation)
    requires Sane(s)
  {
    var b := BaselineFor(s, plan, phase, obs);
    && b.Some? && obs.admitted
    && if phase.Negative? then SavedPositive(s, plan).Some? && Look(s, Legacy).None?
       else Read(s, Legacy, b.value.owner) == Some(b.value.artifact)
  }

  /** The positive, negative, recovered and final controls only read, and leave a receipt. */
  method Control(disk: Disk, plan: nat, phase: Phase, obs: Observation) returns (ok: bool)
    requires Sane(disk.fs) && phase !in {Before, Loss, Restore}
    modifies disk
    ensures ControlStep(old(disk.fs), disk.fs, phase)
    ensures !MayControl(old(disk.fs), plan, phase, obs) ==> disk.fs == old(disk.fs) && !ok
    ensures old(disk.Calm()) ==> (ok <==> MayControl(old(disk.fs), plan, phase, obs))
    ensures ok ==> Holds(disk.fs, Receipt(phase),
                         if phase.PositiveControl? then Positive(plan, obs.cutover, obs.startedAt) else Other(plan, phase))
  {
    var s := disk.fs;
    if !MayControl(s, plan, phase, obs) {
      return false;
    }
    var row := if phase.PositiveControl? then Positive(plan, obs.cutover, obs.startedAt) else Other(plan, phase);
    ok := disk.WriteReceipt(phase, row);
  }

  method Execute(disk: Disk, plan: nat, phase: Phase, obs: Observation, uploader: nat, raced: bool) returns (ok: bool)
    requires Sane(disk.fs)
    modifies disk
    ensures Step(plan, phase, old(disk.fs), disk.fs, ok)
  {
    match phase
    case Before => ok := SetAside(disk, plan, obs, uploader, raced);
    case Loss => ok := Lose(disk, plan, obs);
    case Restore => ok := PutBack(disk, plan, obs);
    case _ => ok := Control(disk, plan, phase, obs);
  }

  // ---- what every run keeps ----

  /** `f` is the archive as it was before the drill. One of the two paths holds its bytes,
      and until a receipt says otherwise it is the legacy path. */
  ghost predicate Inv(f: File, s: FS) {
    && Sane(s)
    && (Look(s, Receipt(Before)).None? ==> Look(s, Legacy).Some? && Look(s, Legacy).value.file == f)
    && (Look(s, Receipt(Before)).Some? ==>
          var c := Look(s, Receipt(Before)).value.file.content;
          c.Baseline? ==> File(c.artifact, c.owner, c.mode) == f && f.mode == PRIVATE)
    && Kept(f, s)
  }

  ghost predicate Kept(f: File, s: FS) {
    Holds(s, Legacy, f.content) || Holds(s, Aside, f.content)
  }

  /** What others may do meanwhile: anything but touch the two copies or the first receipt. */
  ghost predicate Outside(s: FS, t: FS) {
    Sane(s) && Sane(t) && forall p :: p in {Legacy, Aside, Receipt(Before)} ==> Look(t, p) == Look(s, p)
  }

  datatype Move = Phase(plan: nat, phase: Phase, ok: bool) | Others

  ghost predicate Moves(m: Move, s: FS, t: FS) {
    match m
    case Phase(plan, phase, ok) => Step(plan, phase, s, t, ok)
    case Others => Outside(s, t)
  }

  lemma StepKeeps(f: File, plan: nat, phase: Phase, s: FS, t: FS, ok: bool)
    requires Inv(f, s) && Step(plan, phase, s, t, ok)
    ensures Inv(f, t)
  {
    hide Sane, Read, OnlyLinks;
    match phase
    case Before => BeforeKeeps(f, plan, s, t, ok);
    case Loss => LossKeeps(f, plan, s, t, ok);
    case Restore => RestoreKeeps(f, plan, s, t, ok);
    case _ =>
      assert Look(t, Legacy) == Look(s, Legacy) && Look(t, Aside) == Look(s, Aside);
  }

  lemma BeforeKeeps(f: File, plan: nat, s: FS, t: FS, ok: bool)
    requires Inv(f, s) && BeforeStep(plan, s, t, ok)
    ensures Inv(f, t)
  {
    hide Sane, Read, OnlyLinks, Armed;
    assert Look(t, Legacy) == Look(s, Legacy);
    if Look(s, Receipt(Before)).Some? {
      assert Look(t, Receipt(Before)) == Look(s, Receipt(Before)) && Look(t, Aside) == Look(s, Aside);
    }
  }

  lemma LossKeeps(f: File, plan: nat, s: FS, t: FS, ok: bool)
    requires Inv(f, s) && LossStep(plan, s, t, ok)
    ensures Inv(f, t)
  {
    hide Sane, Read, OnlyLinks;
    assert Look(t, Receipt(Before)) == Look(s, Receipt(Before)) && Look(t, Aside) == Look(s, Aside);
  }

  lemma RestoreKeeps(f: File, plan: nat, s: FS, t: FS, ok: bool)
    requires Inv(f, s) && RestoreStep(plan, s, t, ok)
    ensures Inv(f, t)
  {
    hide Sane, Read, OnlyLinks;
    assert Look(t, Receipt(Before)) == Look(s, Receipt(Before));
  }

  ghost predicate Run(states: seq<FS>, moves: seq<Move>) {
    |states| == |moves| + 1 && forall k :: 0 <= k < |moves| ==> Moves(moves[k], states[k], states[k + 1])
  }

  /** Through every sequence of phases, each stopped by an error at any file operation, the
      legacy path or the aside path holds the original bytes. */
  lemma {:induction false} BytesKept(f: File, states: seq<FS>, moves: seq<Move>)
    requires Run(states, moves) && Inv(f, states[0])
    ensures Inv(f, states[|moves|])
    ensures Holds(states[|moves|], Legacy, f.content) || Holds(states[|moves|], Aside, f.content)
    decreases |moves|
  {
    hide Step, Sane, Holds, SavedBaseline;
    if moves != [] {
      var n := |moves| - 1;
      BytesKept(f, states[..|states| - 1], moves[..n]);
      assert states[..|states| - 1][n] == states[n] && Moves(moves[n], states[n], states[n + 1]);
      match moves[n]
      case Phase(plan, phase, ok) => StepKeeps(f, plan, phase, states[n], states[n + 1], ok);
      case Others => OutsideKeeps(f, states[n], states[n + 1]);
    }
  }

  lemma OutsideKeeps(f: File, s: FS, t: FS)
    requires Inv(f, s) && Outside(s, t)
    ensures Inv(f, t)
  {
    hide Sane;
    assert Look(t, Legacy) == Look(s, Legacy) && Look(t, Aside) == Look(s, Aside);
    assert Look(t, Receipt(Before)) == Look(s, Receipt(Before));
  }

  /** A restore that finishes leaves the original file at the legacy path and no aside,
      whatever run came before it. */
  lemma RestoreReturnsOriginal(f: File, states: seq<FS>, moves: seq<Move>)
    requires Run(states, moves) && Sane(states[0]) && moves != []
    requires Look(states[0], Legacy).Some? && Look(states[0], Legacy).value.file == f && Look(states[0], Receipt(Before)).None?
    requires moves[|moves| - 1].Phase? && moves[|moves| - 1].phase.Restore? && moves[|moves| - 1].ok
    ensures Look(states[|moves|], Legacy).Some? && Look(states[|moves|], Legacy).value.file == f
    ensures Look(states[|moves|], Aside).None?
  {
    hide Sane, Read, OnlyLinks;
    var n := |moves| - 1;
    assert Run(states[..|states| - 1], moves[..n]);
    BytesKept(f, states[..|states| - 1], moves[..n]);
    assert states[..|states| - 1][n] == states[n] && Moves(moves[n], states[n], states[n + 1]);
    assert RestoreStep(moves[n].plan, states[n], states[n + 1], true);
    var b := SavedBaseline(states[n], moves[n].plan);
    assert Holds(states[n], Receipt(Before), b.value);
  }
}
