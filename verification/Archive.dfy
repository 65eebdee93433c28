/** The archive loss and restore drill (scripts/c1-staging-u9/archive.py): a phase copies,
    checks and unlinks files one operation at a time, and any operation may raise. */
module Archive {
  import opened Basics

  type Ino = nat

  /** File contents; two contents have one digest only when they are equal. `Torn` is what a
      write that was interrupted leaves: nothing that was ever meant to be written. */
  datatype Content =
    | Torn
    | Bytes(n: nat)
    | Baseline(plan: nat, bindings: nat, artifact: Content, config: Content, archiveId: Ino, asideId: Ino, owner: nat, mode: nat)
    | Positive(plan: nat, cutover: nat, startedAt: nat)
    | Other(plan: nat, phase: Phase)

  datatype Phase = Before | PositiveControl | Loss | Negative | Restore | Recovered | Done

  /** `Elsewhere` stands for every other name on the file system. */
  datatype Path = Legacy | Aside | Config | ConfigCopy | Receipt(phase: Phase) | Elsewhere(n: nat)

  datatype File = File(content: Content, owner: nat, mode: nat)
  datatype Entry = Entry(ino: Ino, file: File)
  datatype FS = FS(names: map<Path, Ino>, inodes: map<Ino, File>, next: Ino)

  const ROOT: nat := 0
  const PRIVATE: nat := 384

  predicate Sane(s: FS) {
    && (forall p :: p in s.names ==> s.names[p] in s.inodes)
    && (forall i :: i in s.inodes ==> i < s.next)
  }

  function Look(s: FS, p: Path): (e: Option<Entry>)
    requires Sane(s)
    ensures e.Some? ==> e.value.ino < s.next
  {
    if p in s.names then Some(Entry(s.names[p], s.inodes[s.names[p]])) else None
  }

  /** No name but these leads to the file. */
  predicate OnlyLinks(s: FS, ino: Ino, paths: set<Path>) {
    forall q :: q in s.names && s.names[q] == ino ==> q in paths
  }

  /** `read`: a private file of this owner with one link. */
  function Read(s: FS, p: Path, owner: nat): (c: Option<Content>)
    requires Sane(s)
  {
    var e := Look(s, p);
    if e.Some? && OnlyLinks(s, e.value.ino, {p}) && e.value.file.owner == owner && e.value.file.mode == PRIVATE
    then Some(e.value.file.content) else None
  }

  ghost predicate Holds(s: FS, p: Path, c: Content) {
    Sane(s) && Look(s, p).Some? && Look(s, p).value.file.content == c
  }

  ghost predicate SameBut(s: FS, t: FS, paths: set<Path>) {
    && Sane(s) && Sane(t)
    && forall q :: q !in paths ==> Look(t, q) == Look(s, q)
  }

  function Removed(s: FS, p: Path): (t: FS)
    requires Sane(s)
    ensures SameBut(s, t, {p}) && Look(t, p) == None
  {
    s.(names := s.names - {p})
  }

  function Created(s: FS, p: Path, file: File): (t: FS)
    requires Sane(s) && p !in s.names
    ensures SameBut(s, t, {p}) && Look(t, p) == Some(Entry(s.next, file)) && OnlyLinks(t, s.next, {p})
    ensures forall q, owner :: q != p ==> Read(t, q, owner) == Read(s, q, owner)
  {
    FS(s.names[p := s.next], s.inodes[s.next := file], s.next + 1)
  }

  function Rewritten(s: FS, p: Path, file: File): (t: FS)
    requires Sane(s) && p in s.names && OnlyLinks(s, s.names[p], {p})
    ensures SameBut(s, t, {p}) && Look(t, p) == Some(Entry(s.names[p], file)) && OnlyLinks(t, s.names[p], {p})
    ensures t.names == s.names
  {
    s.(inodes := s.inodes[s.names[p] := file])
  }

  lemma CreatedRewritten(s: FS, p: Path, first: File, file: File)
    requires Sane(s) && p !in s.names
    ensures Rewritten(Created(s, p, first), p, file) == Created(s, p, file)
  {
    assert s.inodes[s.next := first][s.next := file] == s.inodes[s.next := file];
  }

  // ---- file operations ----

  class Disk {
    var fs: FS
    // Which of the coming operations raise; past the end, none does.
    var plan: seq<bool>

    constructor (fs: FS, plan: seq<bool>)
      ensures this.fs == fs && this.plan == plan
    {
      this.fs, this.plan := fs, plan;
    }

    ghost predicate Calm()
      reads `plan
    {
      forall b :: b in plan ==> !b
    }

    method Raises() returns (raised: bool)
      modifies `plan
      ensures old(Calm()) ==> !raised && Calm()
    {
      if plan == [] {
        return false;
      }
      assert plan[0] in plan && forall b :: b in plan[1..] ==> b in plan;
      raised, plan := plan[0], plan[1..];
    }

    method Unlink(p: Path) returns (ok: bool)
      requires Sane(fs)
      modifies this
      ensures Sane(fs) && SameBut(old(fs), fs, {p})
      ensures fs == if ok then Removed(old(fs), p) else old(fs)
      ensures ok ==> Look(old(fs), p).Some?
      ensures old(Calm()) ==> Calm() && (ok <==> p in old(fs).names)
    {
      var raised := Raises();
      if raised || p !in fs.names {
        return false;
      }
      fs := Removed(fs, p);
      return true;
    }

    /** Write the bytes of a file just created and read them back. */
    method Fill(p: Path, raw: Content, owner: nat, mode: nat) returns (ok: bool)
      requires Sane(fs) && p in fs.names && OnlyLinks(fs, fs.names[p], {p}) && fs.inodes[fs.names[p]].content == Torn
      modifies this
      ensures Sane(fs) && SameBut(old(fs), fs, {p}) && fs.names == old(fs).names
      ensures Look(fs, p).value.file.content in {Torn, raw}
      ensures ok ==> fs == Rewritten(old(fs), p, File(raw, owner, PRIVATE))
      ensures old(Calm()) ==> Calm() && (ok <==> mode == PRIVATE)
    {
      hide Calm, Sane, Rewritten, OnlyLinks;
      var raised := Raises();
      if raised {
        return false;
      }
      // The bytes may be wrong on the disk without an error.
      var corrupted := Raises();
      fs := Rewritten(fs, p, File(if corrupted then Torn else raw, owner, mode));
      raised := Raises();
      ok := !raised && Read(fs, p, owner) == Some(raw);
    }

    /** Create, write and verify; on failure remove the file again if it is still ours. */
    method CopyBytes(p: Path, raw: Content, owner: nat, mode: nat, expected: Content) returns (id: Option<Ino>)
      requires Sane(fs)
      modifies this
      ensures Sane(fs) && SameBut(old(fs), fs, {p})
      ensures Look(old(fs), p).Some? ==> fs == old(fs) && id.None?
      ensures id.Some? ==> raw == expected && p !in old(fs).names && id.value == old(fs).next
                           && fs == Created(old(fs), p, File(expected, owner, PRIVATE))
      ensures Look(fs, p).Some? && Look(old(fs), p).None? ==> Look(fs, p).value.file.content in {Torn, raw}
      ensures old(Calm()) ==> Calm() && (id.Some? <==> raw == expected && p !in old(fs).names && mode == PRIVATE)
    {
      hide Calm, Sane, Created;
      if raw != expected {
        return None;
      }
      var raised := Raises();
      if raised || p in fs.names {
        return None;
      }
      var ino := fs.next;
      fs := Created(fs, p, File(Torn, ROOT, mode));
      raised := Raises();
      if raised {
        return None;
      }
      var ok := Fill(p, raw, owner, mode);
      if ok {
        assert fs == Created(old(fs), p, File(expected, owner, PRIVATE)) by {
          CreatedRewritten(old(fs), p, File(Torn, ROOT, mode), File(expected, owner, PRIVATE));
        }
        return Some(ino);
      }
      var finished := RemoveOwn(p, ino);
      return None;
    }

    /** The cleanup: only the very file that was created, and even this may raise. */
    method RemoveOwn(p: Path, ino: Ino) returns (finished: bool)
      requires Sane(fs)
      modifies this
      ensures Sane(fs) && SameBut(old(fs), fs, {p})
      ensures fs == old(fs) || (p in old(fs).names && old(fs).names[p] == ino && Look(fs, p) == None)
      ensures old(Calm()) ==> Calm() && finished && (p in old(fs).names && old(fs).names[p] == ino ==> Look(fs, p) == None)
    {
      hide Calm, Sane;
      finished := true;
      var raised := Raises();
      if !raised && p in fs.names && fs.names[p] == ino {
        finished := Unlink(p);
      }
    }

    /** `write`: exclusive, never removed again. */
    method WriteReceipt(phase: Phase, row: Content) returns (ok: bool)
      requires Sane(fs)
      modifies this
      ensures Sane(fs) && SameBut(old(fs), fs, {Receipt(phase)})
      ensures Look(old(fs), Receipt(phase)).Some? ==> fs == old(fs) && !ok
      ensures ok ==> Look(fs, Receipt(phase)).Some? && Look(fs, Receipt(phase)).value.file == File(row, ROOT, PRIVATE)
      ensures old(Calm()) ==> Calm() && (ok <==> Receipt(phase) !in old(fs).names)
    {
      hide Calm, Sane, Created, Rewritten, OnlyLinks;
      var raised := Raises();
      if raised || Receipt(phase) in fs.names {
        return false;
      }
      fs := Created(fs, Receipt(phase), File(Torn, ROOT, PRIVATE));
      raised := Raises();
      if raised {
        return false;
      }
      fs := Rewritten(fs, Receipt(phase), File(row, ROOT, PRIVATE));
      return true;
    }
  }
}
