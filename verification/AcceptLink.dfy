/** Accepting an invite link (src/cloud/accept-link.ts, `acceptInviteLink`) with automatic
    naming: any call may fail, or take effect and lose its reply, and between any two calls
    others, other runs on this device included, may change the service and the profile. */
module AcceptLink {
  import opened Basics

  type Id = nat

  datatype Principal = Principal(id: Id, name: string)

  /** Who holds an agent name in the workspace. */
  datatype Holder = Ours(id: Id) | Theirs

  datatype Profile = Profile(user: nat, workspace: Option<nat>, principal: Option<Id>, name: Option<string>)

  /** `made` are the identities created by runs of this link on this device. */
  datatype World = World(names: map<string, Holder>, next: Id, member: bool, usable: bool, profile: Profile, made: set<Principal>)

  datatype Fate = Answered | NeverSent | ReplyLost

  /** What others have made of the world by the next call, and that call's fate. */
  datatype Turn = Turn(world: World, fate: Fate)

  datatype Outcome = Joined(principal: Principal, acceptedFresh: bool, shortCircuit: bool) | Failed

  const ATTEMPTS := 5
  const NAME_MAX := 80

  // ---- names ----

  function TrimDashes(s: string): (r: string)
    ensures r <= s
  {
    if s != "" && s[|s| - 1] == '-' then TrimDashes(s[..|s| - 1]) else s
  }

  function Digit(n: nat): char
    requires n < 10
  {
    "0123456789"[n]
  }

  /** `suffixedName` */
  function Candidate(base: string, attempt: nat): (name: string)
    requires 1 <= attempt <= ATTEMPTS
    ensures attempt == 1 ==> name == base
  {
    if attempt == 1 then base
    else
      var suffix := ['-', Digit(attempt)];
      TrimDashes(if |base| <= NAME_MAX - |suffix| then base else base[..NAME_MAX - |suffix|]) + suffix
  }

  /** `stem` is what a name keeps of `base` before a suffix of two characters: as much as 80
      characters leave room for, without the dashes at its end. */
  ghost predicate Stem(base: string, stem: string) {
    && stem <= base && |stem| <= 78 && (stem != "" ==> stem[|stem| - 1] != '-')
    && forall i :: |stem| <= i < |base| && i < 78 ==> base[i] == '-'
  }

  lemma {:induction false} Trimmed(s: string)
    ensures var r := TrimDashes(s); (r != "" ==> r[|r| - 1] != '-') && forall i :: |r| <= i < |s| ==> s[i] == '-'
  {
    if s != "" && s[|s| - 1] == '-' {
      Trimmed(s[..|s| - 1]);
    }
  }

  lemma NoLonger(base: string, a: string, b: string)
    requires Stem(base, a) && Stem(base, b)
    ensures |b| <= |a|
  {
    assert b != "" ==> base[|b| - 1] == b[|b| - 1];
  }

  lemma CandidateStem(base: string, attempt: nat) returns (stem: string)
    requires 2 <= attempt <= ATTEMPTS
    ensures Stem(base, stem) && Candidate(base, attempt) == stem + ['-', "012345"[attempt]]
  {
    var cut := if |base| <= 78 then base else base[..78];
    stem := TrimDashes(cut);
    Trimmed(cut);
    assert |cut| <= 78 && cut <= base;
    assert forall i :: 0 <= i < |base| && i < 78 ==> cut[i] == base[i];
  }

  lemma Ending(stem: string, a: char, b: char)
    ensures var s := stem + [a, b]; s[..|s| - 2] == stem && s[|s| - 2..] == [a, b] && s[|s| - 1] == b
  {
  }

  /** The later candidates are the stem with a dash and the number of the attempt: they fit
      80 characters, differ from each other, and from the base unless it ends in their suffix. */
  lemma CandidateMeans(base: string, attempt: nat, name: string)
    requires 2 <= attempt <= 5
    ensures name == Candidate(base, attempt) <==>
            |name| >= 2 && name[|name| - 2..] == ['-', "012345"[attempt]] && Stem(base, name[..|name| - 2])
    ensures 2 <= |Candidate(base, attempt)| <= 80
    ensures forall j :: 2 <= j < attempt ==> Candidate(base, j) != Candidate(base, attempt)
    ensures |base| < 2 || base[|base| - 2..] != ['-', "012345"[attempt]] ==> Candidate(base, attempt) != base
  {
    hide Candidate, Stem;
    var stem := CandidateStem(base, attempt);
    assert |stem| <= 78 by {
      StemFits(base, stem);
    }
    Ending(stem, '-', "012345"[attempt]);
    forall j | 2 <= j < attempt ensures Candidate(base, j) != Candidate(base, attempt) {
      var other := CandidateStem(base, j);
      Ending(other, '-', "012345"[j]);
    }
    if |name| >= 2 && name[|name| - 2..] == ['-', "012345"[attempt]] && Stem(base, name[..|name| - 2]) {
      SameStem(base, name[..|name| - 2], stem);
      assert name == name[..|name| - 2] + name[|name| - 2..];
    }
  }

  lemma StemFits(base: string, stem: string)
    requires Stem(base, stem)
    ensures |stem| <= 78
  {
  }

  lemma SameStem(base: string, a: string, b: string)
    requires Stem(base, a) && Stem(base, b)
    ensures a == b
  {
    NoLonger(base, a, b);
    NoLonger(base, b, a);
  }

  predicate Taken(names: map<string, Holder>, name: string) {
    name in names && names[name].Theirs?
  }

  /** Every candidate before this attempt is someone else's. */
  predicate Passed(base: string, names: map<string, Holder>, attempt: nat)
    requires 1 <= attempt <= ATTEMPTS + 1
  {
    forall j :: 1 <= j < attempt ==> Taken(names, Candidate(base, j))
  }

  predicate HomeAt(base: string, names: map<string, Holder>, p: Principal, k: nat)
    requires 1 <= k <= ATTEMPTS
  {
    p.name == Candidate(base, k) && Passed(base, names, k) && p.name in names && names[p.name] == Ours(p.id)
  }

  /** This device's identity: the first candidate name that is not someone else's, if it is
      ours. */
  predicate Home(base: string, names: map<string, Holder>, p: Principal) {
    exists k :: 1 <= k <= ATTEMPTS && HomeAt(base, names, p, k)
  }

  /** Names that are held stay held, and by the same. */
  predicate Grows(a: map<string, Holder>, b: map<string, Holder>) {
    forall n :: n in a ==> n in b && b[n] == a[n]
  }

  lemma PassedGrows(base: string, a: map<string, Holder>, b: map<string, Holder>, attempt: nat)
    requires Grows(a, b) && 1 <= attempt <= ATTEMPTS + 1 && Passed(base, a, attempt)
    ensures Passed(base, b, attempt)
  {
    hide Candidate;
  }

  lemma HomeGrows(base: string, a: map<string, Holder>, b: map<string, Holder>, p: Principal)
    requires Grows(a, b) && Home(base, a, p)
    ensures Home(base, b, p)
  {
    hide Candidate, Passed;
    var k :| 1 <= k <= ATTEMPTS && HomeAt(base, a, p, k);
    PassedGrows(base, a, b, k);
    assert HomeAt(base, b, p, k);
  }

  /** There is at most one home. */
  lemma HomeUnique(base: string, names: map<string, Holder>, p: Principal, q: Principal)
    requires Home(base, names, p) && Home(base, names, q)
    ensures p == q
  {
    hide Candidate;
    var k :| 1 <= k <= ATTEMPTS && HomeAt(base, names, p, k);
    var l :| 1 <= l <= ATTEMPTS && HomeAt(base, names, q, l);
    assert k < l ==> Taken(names, p.name);
    assert l < k ==> Taken(names, q.name);
  }

  /** No home yet, when the first candidate not held by others is free. */
  lemma NoHome(base: string, names: map<string, Holder>, attempt: nat, p: Principal)
    requires 1 <= attempt <= ATTEMPTS && Passed(base, names, attempt) && Candidate(base, attempt) !in names
    ensures !Home(base, names, p)
  {
    hide Candidate;
    assert !Taken(names, Candidate(base, attempt));
    forall k | 1 <= k <= ATTEMPTS ensures !HomeAt(base, names, p, k) {
      if k < attempt {
        assert Taken(names, Candidate(base, k));
      } else if attempt < k {
        assert !Passed(base, names, k);
      }
    }
  }

  // ---- the world and what others may do to it ----

  /** `profileForUser` */
  function ForUser(profile: Profile, user: nat): Profile {
    if profile.user == user then profile else Profile(user, None, None, None)
  }

  function NameHere(profile: Profile, workspace: nat): Option<string> {
    if profile.workspace == Some(workspace) then profile.name else None
  }

  /** The name to start from: the one the profile has in this workspace, or the device's own. */
  function BaseName(profile: Profile, workspace: nat, own: string): string {
    if NameHere(profile, workspace).Some? then NameHere(profile, workspace).value else own
  }

  /** The profile names no identity in this workspace but the device's home, and the runs
      have created no other. */
  predicate Inv(base: string, workspace: nat, user: nat, w: World) {
    && (w.profile.user == user && w.profile.workspace == Some(workspace) ==>
      && (w.profile.name.Some? || w.profile.principal.Some? ==>
        && w.profile.name.Some? && w.profile.principal.Some?
        && Home(base, w.names, Principal(w.profile.principal.value, w.profile.name.value))))
    && (forall p :: p in w.made ==> Home(base, w.names, p))
    && OwnIds(w)
  }

  /** The service gives an id to one name, and new ones are new. */
  predicate OwnIds(w: World) {
    && (forall n :: n in w.names && w.names[n].Ours? ==> w.names[n].id < w.next)
    && (forall m, n :: m in w.names && n in w.names && w.names[m].Ours? && w.names[m] == w.names[n] ==> m == n)
  }

  predicate Allowed(base: string, workspace: nat, user: nat, w: World, v: World) {
    Inv(base, workspace, user, v) && Grows(w.names, v.names) && w.made <= v.made
  }

  /** The device's store and the service, as a run of the command sees them. */
  class Device {
    const base: string
    const workspace: nat
    const user: nat
    var world: World
    var turns: seq<Turn>

    constructor (base: string, workspace: nat, user: nat, world: World, turns: seq<Turn>)
      ensures this.base == base && this.workspace == workspace && this.user == user
      ensures this.world == world && this.turns == turns
    {
      this.base, this.workspace, this.user, this.world, this.turns := base, workspace, user, world, turns;
    }

    ghost predicate Valid()
      reads this
    {
      Inv(base, workspace, user, world)
    }

    /** Let others move; what becomes of the call that follows. */
    method Others() returns (fate: Fate)
      requires Valid()
      modifies this
      ensures Valid() && Grows(old(world).names, world.names) && old(world).made <= world.made
      ensures old(turns) == [] ==> turns == [] && world == old(world) && fate == Answered
    {
      fate := Answered;
      if turns != [] {
        if Allowed(base, workspace, user, world, turns[0].world) {
          world := turns[0].world;
        }
        fate, turns := turns[0].fate, turns[1..];
      }
    }

    method Lookup(name: string) returns (answer: Option<Option<Principal>>)
      requires Valid()
      modifies this
      ensures Valid() && Grows(old(world).names, world.names) && old(world).made <= world.made
      ensures answer.Some? ==> answer.value == OursBy(world.names, name)
      ensures old(turns) == [] ==> turns == [] && world == old(world) && answer.Some?
    {
      var fate := Others();
      answer := if fate.Answered? then Some(OursBy(world.names, name)) else None;
    }

    method Member() returns (answer: Option<bool>)
      requires Valid()
      modifies this
      ensures Valid() && Grows(old(world).names, world.names) && old(world).made <= world.made
      ensures old(turns) == [] ==> turns == [] && world == old(world) && answer == Some(world.member)
    {
      var fate := Others();
      answer := if fate.Answered? then Some(world.member) else None;
    }

    method ById(id: Id) returns (answer: Option<Option<Principal>>)
      requires Valid()
      modifies this
      ensures Valid() && Grows(old(world).names, world.names) && old(world).made <= world.made
      ensures answer.Some? && answer.value.Some? ==>
                answer.value.value.id == id && OursBy(world.names, answer.value.value.name) == answer.value
      ensures old(turns) == [] ==> turns == [] && world == old(world) && answer.Some?
      ensures answer.Some? && answer.value.None? ==> forall n :: n in world.names ==> world.names[n] != Ours(id)
    {
      var fate := Others();
      if !fate.Answered? {
        return None;
      }
      var names := world.names.Keys;
      while names != {}
        invariant names <= world.names.Keys
        invariant forall n :: n in world.names && n !in names ==> world.names[n] != Ours(id)
      {
        var name :| name in names;
        if world.names[name] == Ours(id) {
          return Some(Some(Principal(id, name)));
        }
        names := names - {name};
      }
      answer := Some(None);
    }

    method Redeem() returns (answer: Option<bool>)
      requires Valid()
      modifies this
      ensures Valid() && Grows(old(world).names, world.names) && old(world).made <= world.made
      ensures old(turns) == [] ==>
                && turns == [] && answer == Some(old(world).usable)
                && world == old(world).(member := old(world).member || old(world).usable)
    {
      var fate := Others();
      if fate.NeverSent? {
        return None;
      }
      var usable := world.usable;
      world := world.(member := world.member || usable);
      answer := if fate.Answered? then Some(usable) else None;
    }

    /** The service creates an agent only under a free name. */
    method Create(name: string, ghost attempt: nat) returns (answer: Option<Option<Principal>>)
      requires Valid() && 1 <= attempt <= ATTEMPTS && name == Candidate(base, attempt) && Passed(base, world.names, attempt)
      modifies this
      ensures Valid() && Grows(old(world).names, world.names) && old(world).made <= world.made
      ensures answer.Some? && answer.value.Some? ==>
                answer.value.value.name == name && Home(base, world.names, answer.value.value)
      ensures answer.Some? && answer.value.None? ==> name in world.names
      ensures old(turns) == [] ==> turns == [] && answer.Some? && (answer.value.Some? <==> name !in old(world).names)
      ensures old(turns) == [] && name in old(world).names ==> world == old(world)
    {
      var fate := Others();
      if fate.NeverSent? {
        return None;
      }
      PassedGrows(base, old(world).names, world.names, attempt);
      if name in world.names {
        answer := if fate.Answered? then Some(None) else None;
      } else {
        var p := Principal(world.next, name);
        CreatedHome(base, workspace, user, world, attempt);
        world := world.(names := world.names[name := Ours(p.id)], next := p.id + 1, made := world.made + {p});
        answer := if fate.Answered? then Some(Some(p)) else None;
      }
    }

    /** Write the profile; the write may fail, and may land although it seems to fail. */
    method WriteProfile(p: Principal, acceptedFresh: bool) returns (written: bool)
      requires Valid() && Home(base, world.names, p)
      modifies this
      ensures Valid() && Grows(old(world).names, world.names) && old(world).made <= world.made
      ensures written && acceptedFresh ==> world.profile == Profile(user, Some(workspace), Some(p.id), Some(p.name))
      ensures old(turns) == [] ==> turns == [] && written
    {
      var fate := Others();
      HomeGrows(base, old(world).names, world.names, p);
      if fate.NeverSent? {
        return false;
      }
      var current := ForUser(world.profile, user);
      if acceptedFresh || current.workspace.None? || current.workspace == Some(workspace) {
        world := world.(profile := Profile(user, Some(workspace), Some(p.id), Some(p.name)));
      } else {
        world := world.(profile := current);
      }
      written := fate.Answered?;
    }

    /** The write after a fresh acceptance: the workspace becomes the default. */
    method MakeDefault() returns (profile: Option<Profile>)
      requires Valid()
      modifies this
      ensures Valid() && Grows(old(world).names, world.names) && old(world).made <= world.made
      ensures profile.Some? ==> profile.value == world.profile && profile.value.user == user
      ensures old(turns) == [] ==>
                && turns == [] && profile.Some? && world == old(world).(profile := profile.value)
                && NameHere(profile.value, workspace) == NameHere(ForUser(old(world).profile, user), workspace)
    {
      var fate := Others();
      if fate.NeverSent? {
        return None;
      }
      var current := ForUser(world.profile, user);
      var stays := current.workspace == Some(workspace);
      world := world.(profile := Profile(user, Some(workspace), if stays then current.principal else None,
                                         if stays then current.name else None));
      profile := if fate.Answered? then Some(world.profile) else None;
    }

    /** The retry loop over candidate names. */
    method PickPrincipal(from: string) returns (picked: Option<Principal>)
      requires Valid() && Known(base, world.names, from)
      modifies this
      ensures Valid() && Grows(old(world).names, world.names) && old(world).made <= world.made
      ensures picked.Some? ==> Home(base, world.names, picked.value)
      ensures old(turns) == [] ==> turns == [] && (picked.Some? <==> Reachable(old(world).names, from))
    {
      hide Candidate, Home, Inv, Passed, Taken;
      PassedFirst(from, world.names);
      for attempt := 1 to ATTEMPTS + 1
        invariant Valid() && Grows(old(world).names, world.names) && old(world).made <= world.made
        invariant Known(base, world.names, from) && (attempt > 1 ==> from == base)
        invariant Passed(from, world.names, attempt)
        invariant old(turns) == [] ==> turns == [] && world == old(world)
      {
        var name := Candidate(from, attempt);
        ghost var before := world.names;
        var found := Lookup(name);
        KnownGrows(base, before, world.names, from);
        PassedGrows(from, before, world.names, attempt);
        if found.None? {
          return None;
        }
        if found.value.Some? {
          FoundHome(base, world.names, from, attempt, found.value.value);
          FreeOrOurs(from, world.names, attempt);
          return found.value;
        }
        assert from == base && name == Candidate(base, attempt);
        before := world.names;
        var created := Create(name, attempt);
        if created.None? {
          return None;
        }
        if created.value.Some? {
          if name !in before {
            FreeOrOurs(from, before, attempt);
          }
          return created.value;
        }
        assert name in world.names;
        var raced := Lookup(name);
        if raced.None? {
          return None;
        }
        PassedGrows(base, before, world.names, attempt);
        if raced.value.Some? {
          FoundHome(base, world.names, from, attempt, raced.value.value);
          FreeOrOurs(from, world.names, attempt);
          return raced.value;
        }
        PassedMore(from, world.names, attempt);
      }
      AllTaken(from, world.names);
      return None;
    }

    /** One run of the command. */
    method Accept(inviter: nat) returns (o: Outcome)
      requires Valid()
      modifies this
      ensures Moves(base, workspace, user, old(world), world, o)
      ensures o.Joined? && o.acceptedFresh ==>
                world.profile == Profile(user, Some(workspace), Some(o.principal.id), Some(o.principal.name))
      ensures old(turns) == [] ==> (o.Joined? <==> user != inviter && (Settled(old(world)) || MayJoin(old(world))))
    {
      if user == inviter {
        return Failed;
      }
      var profile := ForUser(world.profile, user);
      if profile.workspace == Some(workspace) && profile.principal.Some? {
        var home := Principal(profile.principal.value, profile.name.value);
        ghost var before := world.names;
        var member := Member();
        if member.None? {
          return Failed;
        }
        HomeGrows(base, before, world.names, home);
        before := world.names;
        var known := ById(profile.principal.value);
        if known.None? {
          return Failed;
        }
        HomeGrows(base, before, world.names, home);
        if member.value && known.value.Some? {
          OneName(base, workspace, user, world, home, known.value.value);
          return Joined(known.value.value, false, true);
        }
      }
      o := Join(profile);
    }

    method Join(read: Profile) returns (o: Outcome)
      requires Valid() && Kept(base, workspace, user, world.names, read)
      modifies this
      ensures Valid() && Grows(old(world).names, world.names) && old(world).made <= world.made
      ensures o.Joined? ==> Home(base, world.names, o.principal)
      ensures o.Joined? && o.acceptedFresh ==>
                world.profile == Profile(user, Some(workspace), Some(o.principal.id), Some(o.principal.name))
      ensures old(turns) == [] && read == ForUser(old(world).profile, user) ==> (o.Joined? <==> MayJoin(old(world)))
    {
      hide Inv, Home, Reachable, Kept, Known, Candidate, Passed, OursBy;
      var profile := read;
      ghost var before := world.names;
      var accepted := Redeem();
      if accepted.None? {
        return Failed;
      }
      KeptGrows(base, workspace, user, before, world.names, profile);
      before := world.names;
      if !accepted.value {
        var member := Member();
        if member.None? || !member.value {
          return Failed;
        }
      }
      KeptGrows(base, workspace, user, before, world.names, profile);
      var previousDefault := profile.workspace;
      if accepted.value {
        var written := MakeDefault();
        if written.None? {
          return Failed;
        }
        profile := written.value;
        InvKept(base, workspace, user, world);
      }
      KeptKnown(base, workspace, user, world.names, profile);
      var from := BaseName(profile, workspace, base);
      var picked := PickPrincipal(from);
      if picked.None? {
        return Failed;
      }
      if accepted.value || previousDefault.None? || previousDefault == Some(workspace) {
        before := world.names;
        var written := WriteProfile(picked.value, accepted.value);
        if !written {
          return Failed;
        }
        HomeGrows(base, before, world.names, picked.value);
      }
      return Joined(picked.value, accepted.value, false);
    }

    /** The profile names the identity, and the service knows both. */
    ghost predicate Settled(w: World) {
      var p := ForUser(w.profile, user);
      p.workspace == Some(workspace) && p.principal.Some? && w.member
    }

    /** The invitation can be used or was, and some candidate name is free or ours. */
    ghost predicate MayJoin(w: World) {
      var p := ForUser(w.profile, user);
      (w.usable || w.member) &&
      Reachable(w.names, BaseName(p, workspace, base))
    }
  }

  /** A profile read earlier: what it says of this workspace still holds. */
  predicate Kept(base: string, workspace: nat, user: nat, names: map<string, Holder>, profile: Profile) {
    profile.user == user &&
    (profile.workspace == Some(workspace) && (profile.name.Some? || profile.principal.Some?) ==>
      && profile.name.Some? && profile.principal.Some?
      && Home(base, names, Principal(profile.principal.value, profile.name.value)))
  }

  lemma InvKept(base: string, workspace: nat, user: nat, w: World)
    requires Inv(base, workspace, user, w) && w.profile.user == user
    ensures Kept(base, workspace, user, w.names, w.profile)
  {
    hide Home;
  }

  lemma KeptGrows(base: string, workspace: nat, user: nat, a: map<string, Holder>, b: map<string, Holder>, profile: Profile)
    requires Kept(base, workspace, user, a, profile) && Grows(a, b)
    ensures Kept(base, workspace, user, b, profile)
  {
    hide Home;
    if profile.name.Some? && profile.principal.Some? && Home(base, a, Principal(profile.principal.value, profile.name.value)) {
      HomeGrows(base, a, b, Principal(profile.principal.value, profile.name.value));
    }
  }

  lemma KeptKnown(base: string, workspace: nat, user: nat, names: map<string, Holder>, profile: Profile)
    requires Kept(base, workspace, user, names, profile)
    ensures Known(base, names, BaseName(profile, workspace, base))
  {
    hide Candidate, Passed;
  }

  /** The service gives an identity one name. */
  lemma OneName(base: string, workspace: nat, user: nat, w: World, home: Principal, p: Principal)
    requires Inv(base, workspace, user, w) && Home(base, w.names, home) && OursBy(w.names, p.name) == Some(p) && p.id == home.id
    ensures p == home
  {
    hide Candidate, Passed;
  }

  /** The base name is the device's own, or its home's. */
  predicate Known(base: string, names: map<string, Holder>, from: string) {
    from == base || (OursBy(names, from).Some? && Home(base, names, OursBy(names, from).value))
  }

  lemma KnownGrows(base: string, a: map<string, Holder>, b: map<string, Holder>, from: string)
    requires Grows(a, b) && Known(base, a, from)
    ensures Known(base, b, from)
  {
    hide Home;
    if from != base {
      HomeGrows(base, a, b, OursBy(a, from).value);
    }
  }

  lemma FoundHome(base: string, names: map<string, Holder>, from: string, attempt: nat, p: Principal)
    requires 1 <= attempt <= ATTEMPTS && Known(base, names, from) && (attempt > 1 ==> from == base)
    requires Passed(from, names, attempt) && OursBy(names, Candidate(from, attempt)) == Some(p)
    ensures Home(base, names, p)
  {
    hide Passed, Home;
    if from == base {
      HomeIs(base, names, p, attempt);
    }
  }

  lemma PassedFirst(from: string, names: map<string, Holder>)
    ensures Passed(from, names, 1)
  {
  }

  lemma PassedMore(from: string, names: map<string, Holder>, attempt: nat)
    requires 1 <= attempt <= ATTEMPTS && Passed(from, names, attempt)
    requires Candidate(from, attempt) in names && OursBy(names, Candidate(from, attempt)).None?
    ensures Passed(from, names, attempt + 1)
  {
    hide Candidate;
  }

  lemma AllTaken(from: string, names: map<string, Holder>)
    requires Passed(from, names, ATTEMPTS + 1)
    ensures !Reachable(names, from)
  {
    hide Candidate;
  }

  lemma FreeOrOurs(from: string, names: map<string, Holder>, attempt: nat)
    requires 1 <= attempt <= ATTEMPTS
    requires Candidate(from, attempt) in names ==> OursBy(names, Candidate(from, attempt)).Some?
    ensures Reachable(names, from)
  {
    hide Candidate;
    assert !Taken(names, Candidate(from, attempt));
  }

  /** Some candidate is free or ours. */
  predicate Reachable(names: map<string, Holder>, from: string) {
    exists k :: 1 <= k <= 5 && !Taken(names, Candidate(from, k))
  }

  function OursBy(names: map<string, Holder>, name: string): Option<Principal> {
    if name in names && names[name].Ours? then Some(Principal(names[name].id, name)) else None
  }

  /** Creating the first candidate not held by others makes the home, and keeps the rest. */
  lemma CreatedHome(base: string, workspace: nat, user: nat, w: World, attempt: nat)
    requires Inv(base, workspace, user, w) && 1 <= attempt <= ATTEMPTS && Passed(base, w.names, attempt)
    requires Candidate(base, attempt) !in w.names
    ensures var p := Principal(w.next, Candidate(base, attempt));
            var v := w.(names := w.names[p.name := Ours(p.id)], next := p.id + 1, made := w.made + {p});
            Inv(base, workspace, user, v) && Grows(w.names, v.names) && Home(base, v.names, p)
  {
    hide Candidate, Passed, Home;
    var p := Principal(w.next, Candidate(base, attempt));
    var v := w.(names := w.names[p.name := Ours(p.id)], next := p.id + 1, made := w.made + {p});
    assert Grows(w.names, v.names);
    PassedGrows(base, w.names, v.names, attempt);
    assert HomeAt(base, v.names, p, attempt);
    HomeIs(base, v.names, p, attempt);
    forall q ensures !Home(base, w.names, q) {
      NoHome(base, w.names, attempt, q);
    }
  }

  lemma HomeIs(base: string, names: map<string, Holder>, p: Principal, k: nat)
    requires 1 <= k <= ATTEMPTS && HomeAt(base, names, p, k)
    ensures Home(base, names, p)
  {
    hide HomeAt;
  }

  // ---- any number of runs ----

  /** The profile names no identity in the workspace. */
  ghost predicate Unlinked(profile: Profile, workspace: nat) {
    profile.workspace == Some(workspace) ==> profile.name.None? && profile.principal.None?
  }

  /** No run has been made on the device yet, and it has no identity in the workspace. */
  ghost predicate FreshDevice(workspace: nat, w: World) {
    w.made == {} && Unlinked(w.profile, workspace) && OwnIds(w)
  }

  /** What others do between two runs: names are added, the invitation and the membership may
      change, and the profile may be pointed elsewhere or cleared. */
  ghost predicate Between(workspace: nat, w: World, v: World) {
    && Grows(w.names, v.names) && v.made == w.made && OwnIds(v)
    && (v.profile == w.profile || Unlinked(v.profile, workspace))
  }

  /** What one run may do. */
  ghost predicate Moves(base: string, workspace: nat, user: nat, w: World, v: World, o: Outcome) {
    Allowed(base, workspace, user, w, v) && (o.Joined? ==> Home(base, v.names, o.principal))
  }

  /** What `Accept` promises of one run. */
  ghost predicate RunOf(base: string, workspace: nat, user: nat, w: World, v: World, o: Outcome) {
    Inv(base, workspace, user, w) ==> Moves(base, workspace, user, w, v, o)
  }

  /** Runs, each with its outcome, and moves of others, with none. */
  ghost predicate Runs(base: string, workspace: nat, user: nat, worlds: seq<World>, outcomes: seq<Option<Outcome>>) {
    && |worlds| == |outcomes| + 1
    && forall k :: 0 <= k < |outcomes| ==>
         if outcomes[k].None? then Between(workspace, worlds[k], worlds[k + 1])
         else RunOf(base, workspace, user, worlds[k], worlds[k + 1], outcomes[k].value)
  }

  lemma BetweenKeeps(base: string, workspace: nat, user: nat, w: World, v: World)
    requires Inv(base, workspace, user, w) && Between(workspace, w, v)
    ensures Allowed(base, workspace, user, w, v)
  {
    hide Home;
    forall p | p in v.made ensures Home(base, v.names, p) {
      HomeGrows(base, w.names, v.names, p);
    }
    var profile := v.profile;
    if profile == w.profile && profile.user == user && profile.workspace == Some(workspace) && profile.name.Some? {
      HomeGrows(base, w.names, v.names, Principal(profile.principal.value, profile.name.value));
    }
  }

  lemma {:induction false} RunsKeep(base: string, workspace: nat, user: nat, worlds: seq<World>,
                                    outcomes: seq<Option<Outcome>>, k: nat)
    requires Runs(base, workspace, user, worlds, outcomes) && FreshDevice(workspace, worlds[0]) && k < |worlds|
    ensures Inv(base, workspace, user, worlds[k])
    ensures k > 0 ==> Allowed(base, workspace, user, worlds[k - 1], worlds[k])
  {
    hide Home;
    if k > 0 {
      RunsKeep(base, workspace, user, worlds, outcomes, k - 1);
      if outcomes[k - 1].None? {
        BetweenKeeps(base, workspace, user, worlds[k - 1], worlds[k]);
      } else {
        assert RunOf(base, workspace, user, worlds[k - 1], worlds[k], outcomes[k - 1].value);
      }
    }
  }

  /** The identity a run has returned is the device's home ever after. */
  lemma {:induction false} HomeLasts(base: string, workspace: nat, user: nat, worlds: seq<World>,
                                     outcomes: seq<Option<Outcome>>, i: nat, k: nat)
    requires Runs(base, workspace, user, worlds, outcomes) && FreshDevice(workspace, worlds[0]) && i < k < |worlds|
    requires outcomes[i].Some? && outcomes[i].value.Joined?
    ensures Home(base, worlds[k].names, outcomes[i].value.principal)
  {
    hide Home, Grows, Inv, FreshDevice;
    RunsKeep(base, workspace, user, worlds, outcomes, k);
    if k == i + 1 {
      RunsKeep(base, workspace, user, worlds, outcomes, i);
      assert RunOf(base, workspace, user, worlds[i], worlds[k], outcomes[i].value);
    } else {
      HomeLasts(base, workspace, user, worlds, outcomes, i, k - 1);
      HomeGrows(base, worlds[k - 1].names, worlds[k].names, outcomes[i].value.principal);
    }
  }

  lemma MadeHome(base: string, workspace: nat, user: nat, w: World, p: Principal)
    requires Inv(base, workspace, user, w) && p in w.made
    ensures Home(base, w.names, p)
  {
    hide Home;
  }

  /** However many runs there are on a fresh device and wherever each is cut off, every run
      that completes returns the same identity, and no other is ever created. */
  lemma OneIdentity(base: string, workspace: nat, user: nat, worlds: seq<World>, outcomes: seq<Option<Outcome>>, i: nat, j: nat)
    requires Runs(base, workspace, user, worlds, outcomes) && FreshDevice(workspace, worlds[0])
    requires i < |outcomes| && j < |outcomes|
    requires outcomes[i].Some? && outcomes[i].value.Joined? && outcomes[j].Some? && outcomes[j].value.Joined?
    ensures outcomes[i].value.principal == outcomes[j].value.principal
    ensures forall p :: p in worlds[|outcomes|].made ==> p == outcomes[i].value.principal
  {
    hide Home, Inv, FreshDevice, RunOf, Between;
    var last := |outcomes|;
    HomeLasts(base, workspace, user, worlds, outcomes, i, last);
    HomeLasts(base, workspace, user, worlds, outcomes, j, last);
    HomeUnique(base, worlds[last].names, outcomes[i].value.principal, outcomes[j].value.principal);
    RunsKeep(base, workspace, user, worlds, outcomes, last);
    forall p | p in worlds[last].made ensures p == outcomes[i].value.principal {
      MadeHome(base, workspace, user, worlds[last], p);
      HomeUnique(base, worlds[last].names, p, outcomes[i].value.principal);
    }
  }

  /** Even when no run ever completes, runs on a fresh device create at most one identity. */
  lemma AtMostOneMade(base: string, workspace: nat, user: nat, worlds: seq<World>, outcomes: seq<Option<Outcome>>,
                      p: Principal, q: Principal)
    requires Runs(base, workspace, user, worlds, outcomes) && FreshDevice(workspace, worlds[0])
    requires p in worlds[|outcomes|].made && q in worlds[|outcomes|].made
    ensures p == q
  {
    hide Home, Inv, FreshDevice, RunOf, Between;
    var last := |outcomes|;
    RunsKeep(base, workspace, user, worlds, outcomes, last);
    MadeHome(base, workspace, user, worlds[last], p);
    MadeHome(base, workspace, user, worlds[last], q);
    HomeUnique(base, worlds[last].names, p, q);
  }
}
