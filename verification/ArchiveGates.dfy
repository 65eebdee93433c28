/** What each phase of the archive drill (scripts/c1-staging-u9/archive.py, `execute`) demands,
    name by name and inode by inode. */
module ArchiveGates {
  import opened Basics
  import opened Archive
  import opened ArchiveDrill

  /** A private file of this owner; no other name leads to it, but perhaps those given. */
  ghost predicate Stands(s: FS, p: Path, ino: Ino, content: Content, owner: nat, twins: set<Path>) {
    && p in s.names && s.names[p] == ino && ino in s.inodes && s.inodes[ino] == File(content, owner, 0x180)
    && forall q :: q in s.names && s.names[q] == ino ==> q == p || q in twins
  }

  ghost predicate Recorded(s: FS, phase: Phase, row: Content) {
    exists ino :: Stands(s, Receipt(phase), ino, row, 0, {})
  }

  lemma ReadExactly(s: FS, p: Path, owner: nat, c: Content)
    requires Sane(s)
    ensures Read(s, p, owner) == Some(c) <==> exists ino :: Stands(s, p, ino, c, owner, {})
  {
    if Read(s, p, owner) == Some(c) {
      assert Stands(s, p, s.names[p], c, owner, {});
    }
  }

  /** The first receipt, made for this plan, with every value it bound still the same, and
      none yet for this phase. */
  ghost predicate Bound(s: FS, plan: nat, phase: Phase, obs: Observation, b: Content) {
    && b.Baseline? && b.plan == plan && Recorded(s, Before, b)
    && obs.bindings == b.bindings && obs.artifact == b.artifact && obs.config == b.config
    && Receipt(phase) !in s.names
  }

  lemma BoundExactly(s: FS, plan: nat, phase: Phase, obs: Observation, b: Content)
    requires Sane(s)
    ensures BaselineFor(s, plan, phase, obs) == Some(b) <==> Bound(s, plan, phase, obs, b)
  {
    hide Read, Stands;
    ReadExactly(s, Receipt(Before), ROOT, b);
  }

  /** Before: the reviewed hook, an idle service under an active timer, the measured archive
      and config, and none of the names in use that the phase makes. */
  lemma BeginExactly(s: FS, obs: Observation, uploader: nat)
    requires Sane(s)
    ensures MayBegin(s, obs, uploader) <==>
            && obs.hookReviewed && obs.timerActive && obs.service == Inactive
            && (exists ino, owner :: owner in {0, uploader} && Stands(s, Legacy, ino, obs.artifact, owner, {}))
            && (exists ino :: Stands(s, Config, ino, obs.config, 0, {}))
            && Aside !in s.names && ConfigCopy !in s.names && Receipt(Before) !in s.names
  {
    ReadExactly(s, Config, ROOT, obs.config);
    ReadExactly(s, Legacy, ROOT, obs.artifact);
    ReadExactly(s, Legacy, uploader, obs.artifact);
  }

  /** Loss: an idle service, the measurements of the positive control, and two private files
      of their own, the recorded ones with the recorded bytes. */
  lemma LoseExactly(s: FS, plan: nat, obs: Observation)
    requires Sane(s)
    ensures MayLose(s, plan, obs) <==>
            exists b :: Bound(s, plan, Loss, obs, b)
              && !obs.timerActive && obs.service == Inactive
              && Recorded(s, PositiveControl, Positive(plan, obs.cutover, obs.startedAt))
              && Stands(s, Legacy, b.archiveId, b.artifact, b.owner, {})
              && Stands(s, Aside, b.asideId, b.artifact, b.owner, {})
  {
    ReadExactly(s, Receipt(PositiveControl), ROOT, Positive(plan, obs.cutover, obs.startedAt));
    forall b ensures BaselineFor(s, plan, Loss, obs) == Some(b) <==> Bound(s, plan, Loss, obs, b) {
      BoundExactly(s, plan, Loss, obs, b);
    }
    hide Bound, BaselineFor;
    var found := BaselineFor(s, plan, Loss, obs);
    if found.Some? {
      var b := found.value;
      assert Bound(s, plan, Loss, obs, b);
      ReadExactly(s, Legacy, b.owner, b.artifact);
      ReadExactly(s, Aside, b.owner, b.artifact);
    }
  }

  /** Negative: a positive control came before and the archive is gone. Any other control
      finds the recorded bytes. */
  lemma ControlExactly(s: FS, plan: nat, phase: Phase, obs: Observation)
    requires Sane(s)
    ensures MayControl(s, plan, phase, obs) <==>
            exists b :: Bound(s, plan, phase, obs, b) && obs.admitted &&
              if phase == Negative then
                Legacy !in s.names && exists cutover, started :: Recorded(s, PositiveControl, Positive(plan, cutover, started))
              else exists ino :: Stands(s, Legacy, ino, b.artifact, b.owner, {})
  {
    hide Bound, BaselineFor, SavedPositive, Recorded, Stands, Read;
    forall b ensures BaselineFor(s, plan, phase, obs) == Some(b) <==> Bound(s, plan, phase, obs, b) {
      BoundExactly(s, plan, phase, obs, b);
    }
    var found := BaselineFor(s, plan, phase, obs);
    if found.Some? {
      ReadExactly(s, Legacy, found.value.owner, found.value.artifact);
    }
    PositiveSaved(s, plan);
  }

  lemma PositiveSaved(s: FS, plan: nat)
    requires Sane(s)
    ensures SavedPositive(s, plan).Some? <==>
            exists cutover, started :: Recorded(s, PositiveControl, Positive(plan, cutover, started))
  {
    hide Read, Recorded;
    forall c ensures Read(s, Receipt(PositiveControl), ROOT) == Some(c) <==> Recorded(s, PositiveControl, c) {
      RecordedExactly(s, PositiveControl, c);
    }
    if SavedPositive(s, plan).Some? {
      var c := SavedPositive(s, plan).value;
      assert Recorded(s, PositiveControl, Positive(plan, c.cutover, c.startedAt));
    }
  }

  lemma RecordedExactly(s: FS, phase: Phase, row: Content)
    requires Sane(s)
    ensures Read(s, Receipt(phase), ROOT) == Some(row) <==> Recorded(s, phase, row)
  {
    hide Read, Stands;
    ReadExactly(s, Receipt(phase), ROOT, row);
  }

  /** The bytes are, or can be brought back, under the legacy name. */
  ghost predicate Recoverable(s: FS, b: Content)
    requires b.Baseline?
  {
    if Aside !in s.names then exists ino :: Stands(s, Legacy, ino, b.artifact, b.owner, {})
    else
      && s.names[Aside] == b.asideId
      && if Legacy !in s.names then Stands(s, Aside, b.asideId, b.artifact, b.owner, {}) && b.mode == 0x180
         else if s.names[Legacy] == b.asideId then Stands(s, Legacy, b.asideId, b.artifact, b.owner, {Aside}) && b.mode == 0x180
         else exists ino :: Stands(s, Legacy, ino, b.artifact, b.owner, {})
  }

  /** Config and its copy hold the same once the aside is gone. */
  ghost predicate ConfigSaved(s: FS) {
    exists c :: ConfigIs(s, c)
  }

  ghost predicate ConfigIs(s: FS, c: Content) {
    (exists ino :: Stands(s, Config, ino, c, 0, {Aside})) && exists ino :: Stands(s, ConfigCopy, ino, c, 0, {Aside})
  }

  /** Reading a name that putting back does not touch. */
  lemma ReadBehind(s: FS, b: Content, p: Path, c: Content)
    requires Sane(s) && b.Baseline? && p !in {Legacy, Aside}
    ensures Read(PutBackFiles(s, b), p, ROOT) == Some(c) <==> exists ino :: Stands(s, p, ino, c, 0, {Aside})
  {
    hide Read, Stands, PutBackFiles;
    var t := PutBackFiles(s, b);
    ReadExactly(t, p, ROOT, c);
    forall ino ensures Stands(t, p, ino, c, 0, {}) <==> Stands(s, p, ino, c, 0, {Aside}) {
      StandsBehind(s, b, p, ino, c);
    }
  }

  /** What putting back leaves of the names and the files. */
  lemma NamesBehind(s: FS, b: Content, q: Path)
    requires Sane(s) && b.Baseline?
    ensures var t := PutBackFiles(s, b);
            && Aside !in t.names
            && (q != Aside && q in s.names ==> q in t.names && t.names[q] == s.names[q])
            && (q in t.names && q !in s.names ==> q == Legacy && t.names[q] == s.next)
            && (forall i :: i in s.inodes ==> i in t.inodes && t.inodes[i] == s.inodes[i])
  {
  }

  lemma StandsBehind(s: FS, b: Content, p: Path, ino: Ino, c: Content)
    requires Sane(s) && b.Baseline? && p !in {Legacy, Aside}
    ensures Stands(PutBackFiles(s, b), p, ino, c, 0, {}) <==> Stands(s, p, ino, c, 0, {Aside})
  {
    hide PutBackFiles;
    var t := PutBackFiles(s, b);
    forall q ensures
        && Aside !in t.names
        && (q != Aside && q in s.names ==> q in t.names && t.names[q] == s.names[q])
        && (q in t.names && q !in s.names ==> q == Legacy && t.names[q] == s.next)
    {
      NamesBehind(s, b, q);
    }
    NamesBehind(s, b, p);
    if p in s.names {
      assert s.names[p] in s.inodes && s.names[p] < s.next;
    }
  }

  lemma ConfigExactly(s: FS, b: Content)
    requires Sane(s) && b.Baseline?
    ensures var t := PutBackFiles(s, b);
            Read(t, Config, ROOT).Some? && Read(t, Config, ROOT) == Read(t, ConfigCopy, ROOT) <==> ConfigSaved(s)
  {
    hide Read, Stands, PutBackFiles, ConfigIs;
    var t := PutBackFiles(s, b);
    forall c ensures Read(t, Config, ROOT) == Some(c) && Read(t, ConfigCopy, ROOT) == Some(c) <==> ConfigIs(s, c) {
      ConfigRead(s, b, c);
    }
    if Read(t, Config, ROOT).Some? {
      var c := Read(t, Config, ROOT).value;
      assert Read(t, Config, ROOT) == Read(t, ConfigCopy, ROOT) ==> ConfigIs(s, c);
    }
  }

  lemma ConfigRead(s: FS, b: Content, c: Content)
    requires Sane(s) && b.Baseline?
    ensures var t := PutBackFiles(s, b);
            Read(t, Config, ROOT) == Some(c) && Read(t, ConfigCopy, ROOT) == Some(c) <==> ConfigIs(s, c)
  {
    hide Read, Stands, PutBackFiles;
    ReadBehind(s, b, Config, c);
    ReadBehind(s, b, ConfigCopy, c);
  }

  lemma RecoverableExactly(s: FS, b: Content)
    requires Sane(s) && b.Baseline?
    ensures (Look(s, Aside).Some? ==> AsideUsable(s, b)) && Read(PutBackFiles(s, b), Legacy, b.owner) == Some(b.artifact) <==>
            Recoverable(s, b)
  {
    ReadExactly(s, Legacy, b.owner, b.artifact);
    ReadExactly(s, Aside, b.owner, b.artifact);
  }

  /** Restore: a held service, idle or failed as the negative control recorded, bytes that can
      be brought back, and the config as it was saved. */
  lemma RestoreExactly(s: FS, plan: nat, obs: Observation)
    requires Sane(s)
    ensures MayRestore(s, plan, obs) <==>
            exists b :: Bound(s, plan, Restore, obs, b)
              && !obs.timerActive
              && (obs.service == Inactive || (obs.service == Failed && Recorded(s, Negative, Other(plan, Negative))))
              && Recoverable(s, b) && ConfigSaved(s)
  {
    hide Bound, BaselineFor, AsideUsable, Recoverable, ConfigSaved, PutBackFiles, Read, Recorded;
    forall b ensures BaselineFor(s, plan, Restore, obs) == Some(b) <==> Bound(s, plan, Restore, obs, b) {
      BoundExactly(s, plan, Restore, obs, b);
    }
    RecordedExactly(s, Negative, Other(plan, Negative));
    var found := BaselineFor(s, plan, Restore, obs);
    if found.Some? {
      ConfigExactly(s, found.value);
      RecoverableExactly(s, found.value);
    }
  }
}
