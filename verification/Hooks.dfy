/** Adding and removing this tool's hooks in an editor's settings (src/cli.ts,
    `withoutCommonSwarmHooks`, `installClaudeHook`, `uninstallClaudeHook`). */
module Hooks {
  import opened Basics

  datatype Json = Null | Bool(b: bool) | Num(n: int) | Str(s: string) | Arr(items: seq<Json>) | Obj(fields: map<string, Json>)

  type Fields = map<string, Json>

  const EVENTS: seq<string> := ["UserPromptSubmit", "PreToolUse", "Stop"]
  const PROMPT := "UserPromptSubmit"

  // ---- recognising this tool's hooks ----

  const CHECK := "cswarm hook check"
  const CHECK_ID := "cswarm hook check --principal-id "
  const STATUS_ID := "cswarm hook status --principal-id "
  const STATUS_FLAG := " --message-status"
  const ID_LENGTH := 36

  predicate IdText(s: string) {
    |s| == ID_LENGTH && forall c :: c in s ==> '0' <= c <= '9' || 'a' <= c <= 'f' || c == '-'
  }

  predicate Scoped(prefix: string, s: string, suffix: string) {
    |s| == |prefix| + ID_LENGTH + |suffix| && s[..|prefix|] == prefix && IdText(s[|prefix|..|prefix| + ID_LENGTH]) &&
    s[|prefix| + ID_LENGTH..] == suffix
  }

  predicate OwnCommand(s: string) {
    s == CHECK || Scoped(CHECK_ID, s, "") || Scoped(CHECK_ID, s, STATUS_FLAG) || Scoped(STATUS_ID, s, "")
  }

  function Get(fields: Fields, key: string): Option<Json> {
    if key in fields then Some(fields[key]) else None
  }

  predicate Own(hook: Json) {
    hook.Obj? && Get(hook.fields, "type") == Some(Str("command")) &&
    var command := Get(hook.fields, "command");
    command.Some? && command.value.Str? && OwnCommand(command.value.s)
  }

  /** An entry that groups hooks; anything else in an event's list is left as it is. */
  predicate Group(g: Json) {
    g.Obj? && "hooks" in g.fields && g.fields["hooks"].Arr?
  }

  function HooksIn(g: Json): seq<Json>
    requires Group(g)
  {
    g.fields["hooks"].items
  }

  function Foreign(hooks: seq<Json>): (r: seq<Json>)
    ensures |r| <= |hooks|
    ensures forall h :: h in r <==> h in hooks && !Own(h)
  {
    if hooks == [] then []
    else
      var front := Foreign(hooks[..|hooks| - 1]);
      var last := hooks[|hooks| - 1];
      assert hooks == hooks[..|hooks| - 1] + [last];
      if Own(last) then front else front + [last]
  }

  /** A group without this tool's hooks; one that has none left is dropped. */
  function Kept(g: Json): (r: seq<Json>) {
    if !Group(g) then [g]
    else
      var hooks := Foreign(HooksIn(g));
      if hooks == [] then [] else [Obj(g.fields["hooks" := Arr(hooks)])]
  }

  predicate Held(g: Json) {
    Group(g) && exists h :: h in HooksIn(g) && Own(h)
  }

  function Strip(groups: seq<Json>): (r: seq<Json>) {
    if groups == [] then [] else Strip(groups[..|groups| - 1]) + Kept(groups[|groups| - 1])
  }

  /** Where, among the groups that stay, the first of this tool's hooks was. */
  function FirstAt(groups: seq<Json>): (r: Option<nat>)
    ensures r.Some? ==> r.value <= |Strip(groups)|
  {
    if groups == [] then None
    else
      var front := groups[..|groups| - 1];
      if FirstAt(front).Some? then FirstAt(front)
      else if Held(groups[|groups| - 1]) then Some(|Strip(front)|)
      else None
  }

  lemma {:induction false} ForeignShorter(hooks: seq<Json>)
    ensures |Foreign(hooks)| < |hooks| <==> exists h :: h in hooks && Own(h)
    ensures |Foreign(hooks)| == |hooks| ==> Foreign(hooks) == hooks
  {
    if hooks != [] {
      var front, last := hooks[..|hooks| - 1], hooks[|hooks| - 1];
      assert hooks == front + [last];
      ForeignShorter(front);
      assert forall h :: h in hooks <==> h in front || h == last;
    }
  }

  method WithoutOwnHooks(groups: seq<Json>) returns (kept: seq<Json>, firstAt: Option<nat>)
    ensures kept == Strip(groups) && firstAt == FirstAt(groups)
  {
    kept, firstAt := [], None;
    for i := 0 to |groups|
      invariant kept == Strip(groups[..i]) && firstAt == FirstAt(groups[..i])
    {
      assert groups[..i + 1][..i] == groups[..i];
      if !Group(groups[i]) {
        kept := kept + [groups[i]];
      } else {
        var all := HooksIn(groups[i]);
        var hooks := Foreign(all);
        ForeignShorter(all);
        if |hooks| != |all| && firstAt.None? {
          firstAt := Some(|kept|);
        }
        if |hooks| > 0 {
          kept := kept + [Obj(groups[i].fields["hooks" := Arr(hooks)])];
        }
      }
    }
    assert groups[..|groups|] == groups;
  }

  // ---- the transformations ----

  function Command(principal: string, status: bool): string {
    CHECK_ID + principal + if status then STATUS_FLAG else ""
  }

  /** The group this tool adds to an event, if it wants one there. */
  function OwnGroup(event: string, principal: string, status: bool): (g: Option<Json>) {
    if event == PROMPT then
      Some(Obj(map["hooks" := Arr([Obj(map["type" := Str("command"), "command" := Str(Command(principal, status))])])]))
    else if status then
      var hook := Obj(map["type" := Str("command"), "command" := Str(STATUS_ID + principal), "async" := Bool(true)]);
      Some(Obj(map["hooks" := Arr([hook])]))
    else None
  }

  function ListAt(hooks: Fields, event: string): seq<Json> {
    if event in hooks && hooks[event].Arr? then hooks[event].items else []
  }

  /** The message check goes back where the previous one was; the rest go last. */
  function Place(event: string, groups: seq<Json>): (at: nat)
    ensures at <= |Strip(groups)|
  {
    if event == PROMPT && FirstAt(groups).Some? then FirstAt(groups).value else |Strip(groups)|
  }

  function Installed(event: string, groups: seq<Json>, principal: string, status: bool): (r: seq<Json>) {
    var own := OwnGroup(event, principal, status);
    var kept, at := Strip(groups), Place(event, groups);
    if own.Some? then kept[..at] + [own.value] + kept[at..] else kept
  }

  function Listed(groups: seq<Json>): Option<Json> {
    if groups == [] then None else Some(Arr(groups))
  }

  /** What each key of the hooks object holds after an install. */
  function InstalledAt(hooks: Fields, key: string, principal: string, status: bool): Option<Json> {
    if key in EVENTS then Listed(Installed(key, ListAt(hooks, key), principal, status)) else Get(hooks, key)
  }

  function UninstalledAt(hooks: Fields, key: string): Option<Json> {
    if key in EVENTS && key in hooks && hooks[key].Arr? then Listed(Strip(hooks[key].items)) else Get(hooks, key)
  }

  function HooksOf(settings: Fields): Fields {
    if "hooks" in settings && settings["hooks"].Obj? then settings["hooks"].fields else map[]
  }

  function Put(fields: Fields, key: string, value: Option<Json>): (r: Fields)
    ensures forall k :: Get(r, k) == if k == key then value else Get(fields, k)
  {
    if value.Some? then fields[key := value.value] else fields - {key}
  }

  /** Fields that hold the same under every key are the same. */
  lemma SameFields(a: Fields, b: Fields)
    requires forall k :: Get(a, k) == Get(b, k)
    ensures a == b
  {
    assert forall k :: k in a <==> Get(a, k).Some?;
    assert forall k :: k in b <==> Get(b, k).Some?;
    assert forall k | k in a :: Get(a, k) == Get(b, k) && a[k] == b[k];
  }

  function InstalledHooks(hooks: Fields, principal: string, status: bool): (r: Fields) {
    map k | k in hooks.Keys + {PROMPT, "PreToolUse", "Stop"} && InstalledAt(hooks, k, principal, status).Some?
      :: InstalledAt(hooks, k, principal, status).value
  }

  lemma InstalledHooksAre(hooks: Fields, principal: string, status: bool)
    ensures forall k :: Get(InstalledHooks(hooks, principal, status), k) == InstalledAt(hooks, k, principal, status)
  {
    hide Installed, Listed, ListAt;
  }

  function InstallOf(settings: Fields, principal: string, status: bool): (r: Fields) {
    settings["hooks" := Obj(InstalledHooks(HooksOf(settings), principal, status))]
  }

  lemma InstallAre(settings: Fields, principal: string, status: bool)
    ensures var r := InstallOf(settings, principal, status);
            && "hooks" in r && r["hooks"].Obj?
            && (forall k :: Get(HooksOf(r), k) == InstalledAt(HooksOf(settings), k, principal, status))
            && (forall k :: k != "hooks" ==> Get(r, k) == Get(settings, k))
  {
    hide InstalledAt, InstalledHooks;
    InstalledHooksAre(HooksOf(settings), principal, status);
  }

  predicate Changed(hooks: Fields) {
    exists e :: e in EVENTS && e in hooks && hooks[e].Arr?
  }

  function UninstallHooks(hooks: Fields): (r: Fields)
    ensures forall k :: Get(r, k) == UninstalledAt(hooks, k)
  {
    map k | k in hooks && UninstalledAt(hooks, k).Some? :: UninstalledAt(hooks, k).value
  }

  function UninstallOf(settings: Fields): (r: Fields)
    ensures forall k :: k != "hooks" ==> Get(r, k) == Get(settings, k)
  {
    if !Changed(HooksOf(settings)) then settings
    else
      var after := UninstallHooks(HooksOf(settings));
      if after == map[] then settings - {"hooks"} else settings["hooks" := Obj(after)]
  }

  method Install(settings: Fields, principal: string, status: bool) returns (r: Fields)
    ensures r == InstallOf(settings, principal, status)
  {
    hide OwnGroup;
    var hooks := HooksOf(settings);
    for i := 0 to |EVENTS|
      invariant forall k :: Get(hooks, k) ==
                            if k in EVENTS[..i] then InstalledAt(HooksOf(settings), k, principal, status) else Get(HooksOf(settings), k)
    {
      var event := EVENTS[i];
      assert Get(hooks, event) == Get(HooksOf(settings), event);
      var kept, firstAt := WithoutOwnHooks(ListAt(hooks, event));
      var own := OwnGroup(event, principal, status);
      var at := if event == PROMPT && firstAt.Some? then firstAt.value else |kept|;
      var groups := if own.Some? then kept[..at] + [own.value] + kept[at..] else kept;
      assert Listed(groups) == InstalledAt(HooksOf(settings), event, principal, status);
      hooks := Put(hooks, event, Listed(groups));
      assert forall k :: k in EVENTS[..i + 1] <==> k in EVENTS[..i] || k == event;
    }
    assert EVENTS[..|EVENTS|] == EVENTS;
    r := settings["hooks" := Obj(hooks)];
    InstallAre(settings, principal, status);
    SameFields(hooks, HooksOf(InstallOf(settings, principal, status)));
  }

  method Uninstall(settings: Fields) returns (r: Fields)
    ensures r == UninstallOf(settings)
  {
    hide Strip, FirstAt;
    if "hooks" !in settings || !settings["hooks"].Obj? {
      return settings;
    }
    var hooks, changed := settings["hooks"].fields, false;
    for i := 0 to |EVENTS|
      invariant forall k :: Get(hooks, k) ==
                            if k in EVENTS[..i] then UninstalledAt(HooksOf(settings), k) else Get(HooksOf(settings), k)
      invariant changed <==> exists e :: e in EVENTS[..i] && e in HooksOf(settings) && HooksOf(settings)[e].Arr?
    {
      var event := EVENTS[i];
      assert Get(hooks, event) == Get(HooksOf(settings), event);
      assert forall k :: k in EVENTS[..i + 1] <==> k in EVENTS[..i] || k == event;
      if event in hooks && hooks[event].Arr? {
        var kept, firstAt := WithoutOwnHooks(hooks[event].items);
        changed := true;
        hooks := Put(hooks, event, Listed(kept));
      }
    }
    assert EVENTS[..|EVENTS|] == EVENTS;
    SameFields(hooks, UninstallHooks(HooksOf(settings)));
    if !changed {
      return settings;
    }
    r := if |hooks.Keys| == 0 then settings - {"hooks"} else settings["hooks" := Obj(hooks)];
  }

  // ---- what the transformations keep ----

  /** A group without its hooks, and one hook of someone else's that stood in it; or an
      entry that is not a group of hooks, whole. */
  datatype Other = OtherHook(group: Fields, hook: Json) | OtherEntry(entry: Json)

  function Tagged(group: Fields, hooks: seq<Json>): (r: seq<Other>)
    ensures |r| == |hooks|
  {
    if hooks == [] then [] else Tagged(group, hooks[..|hooks| - 1]) + [OtherHook(group - {"hooks"}, hooks[|hooks| - 1])]
  }

  function OthersIn(g: Json): seq<Other> {
    if Group(g) then Tagged(g.fields, Foreign(HooksIn(g))) else [OtherEntry(g)]
  }

  /** Every hook of someone else's, in order, with the fields of its group. */
  function Others(groups: seq<Json>): seq<Other> {
    if groups == [] then [] else Others(groups[..|groups| - 1]) + OthersIn(groups[|groups| - 1])
  }

  function OwnIn(g: Json): nat {
    if Group(g) then |HooksIn(g)| - |Foreign(HooksIn(g))| else 0
  }

  /** How many of this tool's hooks an event's list holds. */
  function OwnCount(groups: seq<Json>): nat {
    if groups == [] then 0 else OwnCount(groups[..|groups| - 1]) + OwnIn(groups[|groups| - 1])
  }

  lemma {:induction false} ForeignTwice(hooks: seq<Json>)
    ensures Foreign(Foreign(hooks)) == Foreign(hooks)
  {
    ForeignShorter(Foreign(hooks));
  }

  /** A group that stays is its own remainder. */
  lemma KeptOnce(g: Json)
    ensures Kept(g) == [] || (|Kept(g)| == 1 && Kept(Kept(g)[0]) == Kept(g) && !Held(Kept(g)[0]) && OwnIn(Kept(g)[0]) == 0)
    ensures Kept(g) == [] ==> OthersIn(g) == []
    ensures Kept(g) != [] ==> OthersIn(Kept(g)[0]) == OthersIn(g)
  {
    if Group(g) {
      var hooks := Foreign(HooksIn(g));
      ForeignTwice(HooksIn(g));
      if hooks != [] {
        var k := Obj(g.fields["hooks" := Arr(hooks)]);
        assert Group(k) && HooksIn(k) == hooks;
        assert g.fields["hooks" := Arr(hooks)]["hooks" := Arr(hooks)] == g.fields["hooks" := Arr(hooks)];
        TaggedSame(k.fields, g.fields, hooks);
      }
    }
  }

  lemma {:induction false} TaggedSame(a: Fields, b: Fields, hooks: seq<Json>)
    requires a - {"hooks"} == b - {"hooks"}
    ensures Tagged(a, hooks) == Tagged(b, hooks)
  {
    if hooks != [] {
      TaggedSame(a, b, hooks[..|hooks| - 1]);
    }
  }

  /** Nothing of this tool's, and nothing that would be dropped. */
  predicate Clean(groups: seq<Json>) {
    forall g :: g in groups ==> Kept(g) == [g] && !Held(g) && OwnIn(g) == 0
  }

  lemma {:induction false} StripClean(groups: seq<Json>)
    ensures Clean(Strip(groups))
  {
    hide Kept, Held, OwnIn;
    if groups != [] {
      StripClean(groups[..|groups| - 1]);
      KeptOnce(groups[|groups| - 1]);
      var k := Kept(groups[|groups| - 1]);
      assert k != [] ==> k == [k[0]];
    }
  }

  lemma {:induction false} CleanStrips(groups: seq<Json>)
    requires Clean(groups)
    ensures Strip(groups) == groups && FirstAt(groups) == None && OwnCount(groups) == 0
  {
    hide Kept, Held, OwnIn;
    if groups != [] {
      var front, last := groups[..|groups| - 1], groups[|groups| - 1];
      assert groups == front + [last];
      assert last in groups && forall g :: g in front ==> g in groups;
      CleanStrips(front);
    }
  }

  lemma {:induction false} ConcatStrip(a: seq<Json>, b: seq<Json>)
    ensures Strip(a + b) == Strip(a) + Strip(b)
  {
    hide Kept;
    if b == [] {
      assert a + b == a;
    } else {
      var front, last := b[..|b| - 1], b[|b| - 1];
      assert (a + b)[..|a + b| - 1] == a + front;
      ConcatStrip(a, front);
      assert (Strip(a) + Strip(front)) + Kept(last) == Strip(a) + (Strip(front) + Kept(last));
    }
  }

  lemma {:induction false} Concat(a: seq<Json>, b: seq<Json>)
    ensures Strip(a + b) == Strip(a) + Strip(b)
    ensures FirstAt(a + b) == if FirstAt(a).Some? then FirstAt(a)
                              else if FirstAt(b).Some? then Some(|Strip(a)| + FirstAt(b).value) else None
  {
    hide Held, Strip;
    ConcatStrip(a, b);
    if b == [] {
      assert a + b == a;
    } else {
      var front := b[..|b| - 1];
      assert (a + b)[..|a + b| - 1] == a + front;
      ConcatStrip(a, front);
      Concat(a, front);
    }
  }

  lemma {:induction false} ConcatOthers(a: seq<Json>, b: seq<Json>)
    ensures Others(a + b) == Others(a) + Others(b)
    ensures OwnCount(a + b) == OwnCount(a) + OwnCount(b)
  {
    hide OwnIn, OthersIn;
    if b == [] {
      assert a + b == a;
    } else {
      var front := b[..|b| - 1];
      assert (a + b)[..|a + b| - 1] == a + front;
      ConcatOthers(a, front);
    }
  }

  lemma {:induction false} OthersStrip(groups: seq<Json>)
    ensures Others(Strip(groups)) == Others(groups)
  {
    hide Kept, OthersIn;
    if groups != [] {
      var front, last := groups[..|groups| - 1], groups[|groups| - 1];
      OthersStrip(front);
      KeptOnce(last);
      ConcatOthers(Strip(front), Kept(last));
      if Kept(last) != [] {
        assert Kept(last) == [Kept(last)[0]];
        OthersOne(Kept(last)[0]);
      }
    }
  }

  lemma OthersOne(g: Json)
    ensures Others([g]) == OthersIn(g) && Strip([g]) == Kept(g) && OwnCount([g]) == OwnIn(g)
    ensures FirstAt([g]) == if Held(g) then Some(0) else None
  {
    assert [g][..0] == [];
  }

  lemma ScopedJoin(prefix: string, id: string, suffix: string)
    requires IdText(id)
    ensures Scoped(prefix, prefix + id + suffix, suffix)
  {
    var s := prefix + id + suffix;
    assert s[|prefix|..|prefix| + ID_LENGTH] == id && s[|prefix| + ID_LENGTH..] == suffix;
  }

  lemma CommandOwn(principal: string, status: bool)
    requires IdText(principal)
    ensures OwnCommand(Command(principal, status)) && OwnCommand(STATUS_ID + principal)
  {
    hide Scoped, IdText;
    ScopedJoin(STATUS_ID, principal, "");
    assert STATUS_ID + principal + "" == STATUS_ID + principal;
    ScopedJoin(CHECK_ID, principal, if status then STATUS_FLAG else "");
  }

  /** The tool knows its own group again, and it holds nothing else. */
  lemma OwnGroupOwn(event: string, principal: string, status: bool)
    requires IdText(principal) && OwnGroup(event, principal, status).Some?
    ensures var g := OwnGroup(event, principal, status).value;
            Kept(g) == [] && Held(g) && OwnIn(g) == 1 && OthersIn(g) == []
  {
    hide OwnCommand, Command;
    CommandOwn(principal, status);
    var g := OwnGroup(event, principal, status).value;
    var h := HooksIn(g)[0];
    assert HooksIn(g) == [h] && Own(h);
    assert [h][..0] == [];
    assert Foreign([h]) == [];
    assert h in HooksIn(g);
  }

  /** An event's list after an install: this tool's group where it was placed, once. */
  lemma InstalledList(event: string, groups: seq<Json>, principal: string, status: bool)
    requires IdText(principal)
    ensures var after := Installed(event, groups, principal, status);
            && Strip(after) == Strip(groups)
            && Others(after) == Others(groups)
            && OwnCount(after) == (if OwnGroup(event, principal, status).Some? then 1 else 0)
            && (OwnGroup(event, principal, status).Some? ==> FirstAt(after) == Some(Place(event, groups)))
  {
    hide Kept, Held, OwnIn, OthersIn, OwnGroup, Place, Clean, Strip, Others, OwnCount, FirstAt;
    var own := OwnGroup(event, principal, status);
    StripClean(groups);
    OthersStrip(groups);
    if own.Some? {
      OwnGroupOwn(event, principal, status);
      Inserted(Strip(groups), Place(event, groups), own.value);
    } else {
      CleanStrips(Strip(groups));
    }
  }

  lemma Inserted(kept: seq<Json>, at: nat, g: Json)
    requires Clean(kept) && at <= |kept| && Kept(g) == [] && Held(g) && OwnIn(g) == 1 && OthersIn(g) == []
    ensures var after := kept[..at] + [g] + kept[at..];
            Strip(after) == kept && Others(after) == Others(kept) && OwnCount(after) == 1 && FirstAt(after) == Some(at)
  {
    hide Kept, Held, OwnIn, OthersIn, Clean, Strip, Others, OwnCount, FirstAt;
    var a, b := kept[..at], kept[at..];
    assert a + b == kept;
    OthersOne(g);
    CleanPart(kept, at);
    CleanStrips(a);
    CleanStrips(b);
    ConcatOthers(a, b);
    Concat(a, [g]);
    ConcatOthers(a, [g]);
    Concat(a + [g], b);
    ConcatOthers(a + [g], b);
  }

  lemma CleanPart(groups: seq<Json>, at: nat)
    requires Clean(groups) && at <= |groups|
    ensures Clean(groups[..at]) && Clean(groups[at..])
  {
    hide Kept, Held, OwnIn;
  }

  lemma InstalledTwice(event: string, groups: seq<Json>, p: string, s: bool, q: string, t: bool)
    requires IdText(p)
    ensures Installed(event, Installed(event, groups, p, s), q, t) == Installed(event, groups, q, t)
  {
    hide Strip, FirstAt, Others, OwnCount;
    InstalledList(event, groups, p, s);
  }

  lemma ListedList(hooks: Fields, event: string, groups: seq<Json>)
    requires Get(hooks, event) == Listed(groups)
    ensures ListAt(hooks, event) == groups
  {
  }

  /** The last install wins: whatever was installed before leaves no trace, so installing
      again changes nothing. */
  lemma LastInstallWins(settings: Fields, p: string, s: bool, q: string, t: bool)
    requires IdText(p)
    ensures InstallOf(InstallOf(settings, p, s), q, t) == InstallOf(settings, q, t)
  {
    hide Installed, Listed, ListAt;
    var once, twice, direct := InstallOf(settings, p, s), InstallOf(InstallOf(settings, p, s), q, t), InstallOf(settings, q, t);
    InstallAre(settings, p, s);
    InstallAre(once, q, t);
    InstallAre(settings, q, t);
    forall k ensures Get(HooksOf(twice), k) == Get(HooksOf(direct), k) {
      if k in EVENTS {
        ListedList(HooksOf(once), k, Installed(k, ListAt(HooksOf(settings), k), p, s));
        InstalledTwice(k, ListAt(HooksOf(settings), k), p, s, q, t);
      }
    }
    SameFields(HooksOf(twice), HooksOf(direct));
    SameFields(twice, direct);
  }

  /** Every other setting, and everything else under `hooks`, is as it was. */
  ghost predicate RestKept(before: Fields, after: Fields) {
    && (forall k :: k != "hooks" ==> Get(after, k) == Get(before, k))
    && (forall k :: k !in EVENTS ==> Get(HooksOf(after), k) == Get(HooksOf(before), k))
  }

  /** An install leaves every other hook of every event where it was, with its group's fields,
      and everything else as it was; it holds exactly one hook of this tool in each event it
      wants, none in the others. */
  lemma InstallKeepsOthers(settings: Fields, p: string, s: bool, event: string)
    requires IdText(p) && event in {"UserPromptSubmit", "PreToolUse", "Stop"}
    ensures var before, after := ListAt(HooksOf(settings), event), ListAt(HooksOf(InstallOf(settings, p, s)), event);
            && Others(after) == Others(before)
            && OwnCount(after) == (if event == PROMPT || s then 1 else 0)
            && (event == PROMPT || s ==> OwnGroup(event, p, s).value in after)
    ensures RestKept(settings, InstallOf(settings, p, s))
  {
    hide Others, OwnCount, Strip, FirstAt;
    var before := ListAt(HooksOf(settings), event);
    InstalledList(event, before, p, s);
    InstallAre(settings, p, s);
    ListedList(HooksOf(InstallOf(settings, p, s)), event, Installed(event, before, p, s));
  }

  /** So does an uninstall, and it leaves none of this tool's hooks. */
  lemma UninstallKeepsOthers(settings: Fields, event: string)
    requires event in {"UserPromptSubmit", "PreToolUse", "Stop"}
    ensures var before, after := ListAt(HooksOf(settings), event), ListAt(HooksOf(UninstallOf(settings)), event);
            Others(after) == Others(before) && OwnCount(after) == 0
    ensures RestKept(settings, UninstallOf(settings))
  {
    hide Others, OwnCount, Strip;
    var hooks := HooksOf(settings);
    var before := ListAt(hooks, event);
    StripClean(before);
    CleanStrips(Strip(before));
    OthersStrip(before);
    UninstalledHooks(settings);
    if event in hooks && hooks[event].Arr? {
      ListedList(HooksOf(UninstallOf(settings)), event, Strip(before));
    } else {
      assert before == [] == ListAt(HooksOf(UninstallOf(settings)), event);
      EmptyList();
    }
  }

  lemma EmptyList()
    ensures Others([]) == [] && OwnCount([]) == 0
  {
  }

  lemma UninstalledHooks(settings: Fields)
    ensures forall k :: Get(HooksOf(UninstallOf(settings)), k) == UninstalledAt(HooksOf(settings), k)
  {
    hide Strip;
  }

  /** The hooks setting is absent, or an object that holds something, with lists for the
      events an install touches. */
  ghost predicate Undoable(settings: Fields) {
    "hooks" in settings ==>
      && settings["hooks"].Obj? && settings["hooks"].fields != map[]
      && forall e :: e in EVENTS && e in settings["hooks"].fields ==> settings["hooks"].fields[e].Arr?
  }

  /** Uninstalling after an install gives what uninstalling alone gives exactly then: an
      install replaces a setting of any other shape. */
  lemma UninstallUndoesInstall(settings: Fields, p: string, s: bool)
    requires IdText(p)
    ensures UninstallOf(InstallOf(settings, p, s)) == UninstallOf(settings) <==> Undoable(settings)
  {
    hide Installed, InstalledAt, UninstalledAt, InstallOf, UninstallOf, Changed;
    var both, alone := UninstallOf(InstallOf(settings, p, s)), UninstallOf(settings);
    if Undoable(settings) {
      SameWhenUndoable(settings, p, s);
    } else if !settings["hooks"].Obj? || settings["hooks"].fields == map[] {
      NothingToUninstall(settings);
      BothDropsEmpty(settings, p, s);
    } else {
      var e :| e in EVENTS && e in settings["hooks"].fields && !settings["hooks"].fields[e].Arr?;
      EventLost(settings, p, s, e);
    }
  }

  /** What is left under a key when this tool's hooks go and lists that are empty go too. */
  function CleanedAt(hooks: Fields, key: string): Option<Json> {
    if key in EVENTS then Listed(Strip(ListAt(hooks, key))) else Get(hooks, key)
  }

  lemma BothHooks(settings: Fields, p: string, s: bool, key: string)
    requires IdText(p)
    ensures UninstalledAt(HooksOf(InstallOf(settings, p, s)), key) == CleanedAt(HooksOf(settings), key)
  {
    hide Strip, Installed, InstallOf;
    var before, once := HooksOf(settings), HooksOf(InstallOf(settings, p, s));
    InstallAre(settings, p, s);
    if key in EVENTS {
      InstalledList(key, ListAt(before, key), p, s);
      ListedList(once, key, Installed(key, ListAt(before, key), p, s));
      StripNone();
    }
  }

  lemma StripNone()
    ensures Strip([]) == []
  {
  }

  lemma BothAre(settings: Fields, p: string, s: bool)
    requires IdText(p)
    ensures var both := UninstallOf(InstallOf(settings, p, s));
            && (forall k :: k != "hooks" ==> Get(both, k) == Get(settings, k))
            && (forall k :: Get(HooksOf(both), k) == CleanedAt(HooksOf(settings), k))
            && ("hooks" in both ==> both["hooks"].Obj? && both["hooks"].fields != map[])
  {
    hide InstalledAt, UninstalledAt, CleanedAt, Installed;
    var once := InstallOf(settings, p, s);
    InstallAre(settings, p, s);
    PromptInstalled(settings, p, s);
    assert PROMPT == EVENTS[0];
    assert Changed(HooksOf(once));
    UninstalledHooks(once);
    forall k ensures Get(HooksOf(UninstallOf(once)), k) == CleanedAt(HooksOf(settings), k) {
      BothHooks(settings, p, s, k);
    }
  }

  lemma NothingToUninstall(settings: Fields)
    requires HooksOf(settings) == map[]
    ensures UninstallOf(settings) == settings
  {
  }

  lemma BothDropsEmpty(settings: Fields, p: string, s: bool)
    requires IdText(p) && HooksOf(settings) == map[]
    ensures "hooks" !in UninstallOf(InstallOf(settings, p, s))
  {
    hide InstallOf, UninstallOf;
    var both := UninstallOf(InstallOf(settings, p, s));
    BothAre(settings, p, s);
    StripNone();
    assert forall k :: CleanedAt(map[], k) == None;
    SameFields(HooksOf(both), map[]);
  }

  lemma EventLost(settings: Fields, p: string, s: bool, e: string)
    requires IdText(p) && e in EVENTS && e in HooksOf(settings) && !HooksOf(settings)[e].Arr?
    ensures UninstallOf(InstallOf(settings, p, s)) != UninstallOf(settings)
  {
    hide InstallOf, UninstallOf;
    BothAre(settings, p, s);
    UninstalledHooks(settings);
    StripNone();
    assert CleanedAt(HooksOf(settings), e) == None;
    assert UninstalledAt(HooksOf(settings), e).Some?;
  }

  lemma SameWhenUndoable(settings: Fields, p: string, s: bool)
    requires IdText(p) && Undoable(settings)
    ensures UninstallOf(InstallOf(settings, p, s)) == UninstallOf(settings)
  {
    hide InstallOf, UninstallOf, Strip;
    var both, alone, hooks := UninstallOf(InstallOf(settings, p, s)), UninstallOf(settings), HooksOf(settings);
    BothAre(settings, p, s);
    UninstalledHooks(settings);
    StripNone();
    forall k ensures Get(HooksOf(both), k) == Get(HooksOf(alone), k) {
      assert CleanedAt(hooks, k) == UninstalledAt(hooks, k);
    }
    SameFields(HooksOf(both), HooksOf(alone));
    AloneIs(settings);
    SameFields(both, alone);
  }

  lemma AloneIs(settings: Fields)
    requires Undoable(settings)
    ensures var alone := UninstallOf(settings);
            "hooks" in alone ==> alone["hooks"].Obj? && alone["hooks"].fields != map[]
  {
    hide Strip;
  }

  lemma PromptInstalled(settings: Fields, p: string, s: bool)
    ensures var h := HooksOf(InstallOf(settings, p, s)); PROMPT in h && h[PROMPT].Arr?
  {
    hide Strip, FirstAt;
    assert PROMPT == EVENTS[0];
    var h := HooksOf(InstallOf(settings, p, s));
    InstallAre(settings, p, s);
    assert Get(h, PROMPT) == InstalledAt(HooksOf(settings), PROMPT, p, s);
  }

  // ---- what is known again, and what is written where ----

  ghost predicate Id(id: string) {
    |id| == 36 && forall c :: c in id ==> c in "0123456789abcdef-"
  }

  lemma ScopedExactly(prefix: string, s: string, suffix: string)
    ensures Scoped(prefix, s, suffix) <==> exists id :: Id(id) && s == prefix + id + suffix
  {
    assert forall id :: Id(id) <==> IdText(id);
    if Scoped(prefix, s, suffix) {
      var id := s[|prefix|..|prefix| + ID_LENGTH];
      assert s == s[..|prefix|] + id + s[|prefix| + ID_LENGTH..];
    }
    forall id | Id(id) && s == prefix + id + suffix ensures Scoped(prefix, s, suffix) {
      ScopedJoin(prefix, id, suffix);
    }
  }

  /** No command of any other form is taken for this tool's. */
  lemma OwnExactly(hook: Json)
    ensures Own(hook) <==>
            && hook.Obj? && "type" in hook.fields && hook.fields["type"] == Str("command")
            && "command" in hook.fields && hook.fields["command"].Str?
            && var s := hook.fields["command"].s;
               || s == "cswarm hook check"
               || (exists id :: Id(id) && s == "cswarm hook check --principal-id " + id + "")
               || (exists id :: Id(id) && s == "cswarm hook check --principal-id " + id + " --message-status")
               || (exists id :: Id(id) && s == "cswarm hook status --principal-id " + id + "")
  {
    hide Scoped, Id;
    if hook.Obj? && "command" in hook.fields && hook.fields["command"].Str? {
      var s := hook.fields["command"].s;
      ScopedExactly(CHECK_ID, s, "");
      ScopedExactly(CHECK_ID, s, STATUS_FLAG);
      ScopedExactly(STATUS_ID, s, "");
    }
  }

  /** `i` is where the first group that holds one of this tool's hooks stands, or the end. */
  ghost predicate FirstHeld(groups: seq<Json>, i: nat) {
    i <= |groups| && (forall k :: 0 <= k < i ==> !Held(groups[k])) && (i < |groups| ==> Held(groups[i]))
  }

  lemma {:induction false} FirstAtMeans(groups: seq<Json>) returns (i: nat)
    ensures FirstHeld(groups, i)
    ensures FirstAt(groups) == if i < |groups| then Some(|Strip(groups[..i])|) else None
  {
    hide Held, Strip;
    if groups == [] {
      i := 0;
    } else {
      var front := groups[..|groups| - 1];
      i := FirstAtMeans(front);
      assert i <= |front| && front[..i] == groups[..i];
      if i < |front| {
        assert Held(front[i]);
      } else if !Held(groups[|groups| - 1]) {
        i := |groups|;
      }
    }
  }

  /** The text of the one hook that an install writes for an event. */
  ghost function Written(event: string, p: string, s: bool): (h: Fields) {
    if event == "UserPromptSubmit" then
      map["type" := Str("command"),
          "command" := Str("cswarm hook check --principal-id " + p + (if s then " --message-status" else ""))]
    else
      map["type" := Str("command"), "command" := Str("cswarm hook status --principal-id " + p), "async" := Bool(true)]
  }

  /** The groups of others that stood before it stay before it, the rest behind it: the message
      check takes the place of this tool's first group, and any other hook goes last. */
  lemma InstallPlaces(settings: Fields, p: string, s: bool, event: string) returns (at: nat)
    requires event == "UserPromptSubmit" || (s && event in {"PreToolUse", "Stop"})
    ensures var before, after := ListAt(HooksOf(settings), event), ListAt(HooksOf(InstallOf(settings, p, s)), event);
            && at <= |before|
            && after == Strip(before[..at]) + [Obj(map["hooks" := Arr([Obj(Written(event, p, s))])])] + Strip(before[at..])
            && if event == "UserPromptSubmit" then FirstHeld(before, at) else at == |before|
  {
    hide Strip, FirstAt, Held, FirstHeld;
    var before := ListAt(HooksOf(settings), event);
    InstallAre(settings, p, s);
    ListedList(HooksOf(InstallOf(settings, p, s)), event, Installed(event, before, p, s));
    at := |before|;
    if event == "UserPromptSubmit" {
      at := FirstAtMeans(before);
      assert at <= |before| by {
        HeldInside(before, at);
      }
    }
    assert before == before[..at] + before[at..];
    ConcatStrip(before[..at], before[at..]);
    StripNone();
    assert OwnGroup(event, p, s) == Some(Obj(map["hooks" := Arr([Obj(Written(event, p, s))])]));
  }

  lemma HeldInside(groups: seq<Json>, i: nat)
    requires FirstHeld(groups, i)
    ensures i <= |groups|
  {
  }
}
