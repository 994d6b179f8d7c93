/** Merging RepoSync's hook dispatcher into a project's or a workspace's hook file. */
module Hooks {
  import opened Options
  import opened Shell
  import opened Texts

  /** One handler of a hook group; `body` stands for everything but its command. */
  datatype Handler = Handler(command: Option<string>, body: string)

  /** A hook group; without a handler list it is left alone. */
  datatype Group = Group(handlers: Option<seq<Handler>>, body: string)

  // ---- the merge ----

  datatype Kept<T> = Kept(items: seq<T>, found: bool)

  /** A handler stays unless its command is an older form, or the marker a second time. */
  predicate Stays(h: Handler, marker: string, ours: string -> bool, found: bool) {
    h.command.Some? ==> if h.command.value == marker then !found else !ours(h.command.value)
  }

  predicate IsMarker(h: Handler, marker: string) { h.command == Some(marker) }

  function KeepHandlers(items: seq<Handler>, marker: string, ours: string -> bool, found: bool): Kept<Handler> {
    if items == [] then Kept([], found)
    else
      var rest := KeepHandlers(items[1..], marker, ours, found || IsMarker(items[0], marker));
      Kept((if Stays(items[0], marker, ours, found) then [items[0]] else []) + rest.items, rest.found)
  }

  function KeepGroups(groups: seq<Group>, marker: string, ours: string -> bool, found: bool): Kept<Group> {
    if groups == [] then Kept([], found)
    else if groups[0].handlers.None? then
      var rest := KeepGroups(groups[1..], marker, ours, found);
      Kept([groups[0]] + rest.items, rest.found)
    else
      var kept := KeepHandlers(groups[0].handlers.value, marker, ours, found);
      var rest := KeepGroups(groups[1..], marker, ours, kept.found);
      Kept((if kept.items == [] then [] else [groups[0].(handlers := Some(kept.items))]) + rest.items, rest.found)
  }

  function Addition(marker: string, body: string): Group { Group(Some([Handler(Some(marker), body)]), body) }

  /** One event of the hook file after the merge. */
  function Merge(groups: seq<Group>, marker: string, ours: string -> bool, body: string): seq<Group> {
    var kept := KeepGroups(groups, marker, ours, false);
    if kept.found then kept.items else kept.items + [Addition(marker, body)]
  }

  lemma KeepNext(groups: seq<Group>, i: nat, marker: string, ours: string -> bool, found: bool, before: seq<Group>)
    requires i < |groups|
    ensures var all := KeepGroups(groups[i..], marker, ours, found);
            if groups[i].handlers.None? then
              var rest := KeepGroups(groups[i + 1..], marker, ours, found);
              all.found == rest.found && before + all.items == (before + [groups[i]]) + rest.items
            else
              var kept := KeepHandlers(groups[i].handlers.value, marker, ours, found);
              var rest := KeepGroups(groups[i + 1..], marker, ours, kept.found);
              && all.found == rest.found
              && before + all.items == (if kept.items == [] then before else before + [groups[i].(handlers := Some(kept.items))]) + rest.items
  {
    assert groups[i..][0] == groups[i] && groups[i..][1..] == groups[i + 1..];
  }

  lemma HandlersNext(items: seq<Handler>, k: nat, marker: string, ours: string -> bool, found: bool, before: seq<Handler>)
    requires k < |items|
    ensures var all := KeepHandlers(items[k..], marker, ours, found);
            var rest := KeepHandlers(items[k + 1..], marker, ours, found || IsMarker(items[k], marker));
            && all.found == rest.found
            && before + all.items == (if Stays(items[k], marker, ours, found) then before + [items[k]] else before) + rest.items
  {
    assert items[k..][0] == items[k] && items[k..][1..] == items[k + 1..];
  }

  /** The inner loop: one group's handlers. */
  method FilterHandlers(items: seq<Handler>, marker: string, ours: string -> bool, before: bool)
    returns (kept: seq<Handler>, found: bool)
    ensures Kept(kept, found) == KeepHandlers(items, marker, ours, before)
  {
    kept, found := [], before;
    ghost var all := KeepHandlers(items, marker, ours, before);
    assert items[0..] == items;
    for k := 0 to |items|
      invariant kept + KeepHandlers(items[k..], marker, ours, found).items == all.items
      invariant KeepHandlers(items[k..], marker, ours, found).found == all.found
    {
      HandlersNext(items, k, marker, ours, found, kept);
      var item := items[k];
      if item.command.None? {
        kept := kept + [item];
      } else if item.command.value == marker {
        if !found {
          found := true;
          kept := kept + [item];
        }
      } else if !ours(item.command.value) {
        kept := kept + [item];
      }
    }
  }

  /** The loop over the groups of one event. */
  method MergeHooks(groups: seq<Group>, marker: string, ours: string -> bool, body: string) returns (merged: seq<Group>)
    ensures merged == Merge(groups, marker, ours, body)
  {
    merged := [];
    var found := false;
    ghost var all := KeepGroups(groups, marker, ours, false);
    assert groups[0..] == groups;
    for i := 0 to |groups|
      invariant merged + KeepGroups(groups[i..], marker, ours, found).items == all.items
      invariant KeepGroups(groups[i..], marker, ours, found).found == all.found
    {
      KeepNext(groups, i, marker, ours, found, merged);
      var group := groups[i];
      match group.handlers
      case None =>
        merged := merged + [group];
      case Some(items) =>
        var kept;
        kept, found := FilterHandlers(items, marker, ours, found);
        if kept != [] {
          merged := merged + [group.(handlers := Some(kept))];
        }
    }
    assert merged == all.items;
    if !found {
      merged := merged + [Addition(marker, body)];
    }
  }

  // ---- what the merge promises ----

  function Flat(groups: seq<Group>): seq<Handler> {
    if groups == [] then []
    else (if groups[0].handlers.None? then [] else groups[0].handlers.value) + Flat(groups[1..])
  }

  predicate Unrelated(h: Handler, marker: string, ours: string -> bool) {
    h.command.Some? ==> h.command.value != marker && !ours(h.command.value)
  }

  function Others(items: seq<Handler>, marker: string, ours: string -> bool): seq<Handler> {
    if items == [] then []
    else (if Unrelated(items[0], marker, ours) then [items[0]] else []) + Others(items[1..], marker, ours)
  }

  function Markers(items: seq<Handler>, marker: string): nat {
    if items == [] then 0 else (if IsMarker(items[0], marker) then 1 else 0) + Markers(items[1..], marker)
  }

  lemma {:induction false} OthersAppend(a: seq<Handler>, b: seq<Handler>, marker: string, ours: string -> bool)
    ensures Others(a + b, marker, ours) == Others(a, marker, ours) + Others(b, marker, ours)
    ensures Markers(a + b, marker) == Markers(a, marker) + Markers(b, marker)
  {
    if a == [] {
      assert a + b == b;
    } else {
      assert (a + b)[0] == a[0] && (a + b)[1..] == a[1..] + b;
      OthersAppend(a[1..], b, marker, ours);
      var first := if Unrelated(a[0], marker, ours) then [a[0]] else [];
      assert first + (Others(a[1..], marker, ours) + Others(b, marker, ours))
          == (first + Others(a[1..], marker, ours)) + Others(b, marker, ours);
    }
  }

  lemma {:induction false} FlatAppend(a: seq<Group>, b: seq<Group>)
    ensures Flat(a + b) == Flat(a) + Flat(b)
  {
    if a == [] {
      assert a + b == b;
    } else {
      assert (a + b)[0] == a[0] && (a + b)[1..] == a[1..] + b;
      FlatAppend(a[1..], b);
    }
  }

  lemma {:induction false} KeptHandlers(items: seq<Handler>, marker: string, ours: string -> bool, found: bool)
    ensures var kept := KeepHandlers(items, marker, ours, found);
            && Others(kept.items, marker, ours) == Others(items, marker, ours)
            && (forall h | h in kept.items :: IsMarker(h, marker) || Unrelated(h, marker, ours))
            && Markers(kept.items, marker) == (if kept.found && !found then 1 else 0)
            && (found ==> kept.found)
  {
    if items != [] {
      var rest := KeepHandlers(items[1..], marker, ours, found || IsMarker(items[0], marker));
      KeptHandlers(items[1..], marker, ours, found || IsMarker(items[0], marker));
      if Stays(items[0], marker, ours, found) {
        assert ([items[0]] + rest.items)[1..] == rest.items;
      } else {
        assert [] + rest.items == rest.items;
      }
    }
  }

  function HandlersOf(g: Group): seq<Handler> { if g.handlers.None? then [] else g.handlers.value }

  lemma FlatCons(g: Group, rest: seq<Group>)
    ensures Flat([g] + rest) == HandlersOf(g) + Flat(rest)
  {
    assert ([g] + rest)[1..] == rest;
  }

  lemma KeepCons(groups: seq<Group>, marker: string, ours: string -> bool, found: bool)
    requires groups != []
    ensures var kept := KeepHandlers(HandlersOf(groups[0]), marker, ours, found);
            var rest := KeepGroups(groups[1..], marker, ours, kept.found);
            Flat(KeepGroups(groups, marker, ours, found).items) == kept.items + Flat(rest.items)
            && KeepGroups(groups, marker, ours, found).found == rest.found
  {
    var kept := KeepHandlers(HandlersOf(groups[0]), marker, ours, found);
    var rest := KeepGroups(groups[1..], marker, ours, kept.found);
    if groups[0].handlers.None? {
      FlatCons(groups[0], rest.items);
    } else if kept.items == [] {
      assert [] + rest.items == rest.items;
      assert [] + Flat(rest.items) == Flat(rest.items);
    } else {
      FlatCons(groups[0].(handlers := Some(kept.items)), rest.items);
    }
  }

  lemma {:induction false} KeptGroups(groups: seq<Group>, marker: string, ours: string -> bool, found: bool)
    ensures var kept := KeepGroups(groups, marker, ours, found);
            && Others(Flat(kept.items), marker, ours) == Others(Flat(groups), marker, ours)
            && (forall h | h in Flat(kept.items) :: IsMarker(h, marker) || Unrelated(h, marker, ours))
            && Markers(Flat(kept.items), marker) == (if kept.found && !found then 1 else 0)
            && (found ==> kept.found)
  {
    if groups != [] {
      var items := HandlersOf(groups[0]);
      var kept := KeepHandlers(items, marker, ours, found);
      var rest := KeepGroups(groups[1..], marker, ours, kept.found);
      KeepCons(groups, marker, ours, found);
      KeptHandlers(items, marker, ours, found);
      KeptGroups(groups[1..], marker, ours, kept.found);
      assert Flat(groups) == items + Flat(groups[1..]);
      OthersAppend(items, Flat(groups[1..]), marker, ours);
      OthersAppend(kept.items, Flat(rest.items), marker, ours);
    }
  }

  /** After the merge the event has exactly one current dispatcher and no older form, and
      every unrelated handler is still there, in the same order. */
  lemma MergeInstallsOneDispatcher(groups: seq<Group>, marker: string, ours: string -> bool, body: string)
    ensures var merged := Flat(Merge(groups, marker, ours, body));
            && Markers(merged, marker) == 1
            && (forall h | h in merged && h.command.Some? && h.command.value != marker :: !ours(h.command.value))
            && Others(merged, marker, ours) == Others(Flat(groups), marker, ours)
  {
    var kept := KeepGroups(groups, marker, ours, false);
    KeptGroups(groups, marker, ours, false);
    if !kept.found {
      var added := [Addition(marker, body)];
      FlatAppend(kept.items, added);
      assert Flat(added) == [Handler(Some(marker), body)];
      OthersAppend(Flat(kept.items), Flat(added), marker, ours);
      assert Others(Flat(added), marker, ours) == [];
      assert Markers(Flat(added), marker) == 1;
    }
  }

  /** The groups without RepoSync's own handlers, matcher and order kept; a group that held
      nothing else is gone. */
  function Stripped(groups: seq<Group>, marker: string, ours: string -> bool): seq<Group> {
    if groups == [] then []
    else if groups[0].handlers.None? then [groups[0]] + Stripped(groups[1..], marker, ours)
    else
      var others := Others(groups[0].handlers.value, marker, ours);
      (if others == [] then [] else [groups[0].(handlers := Some(others))]) + Stripped(groups[1..], marker, ours)
  }

  lemma StrippedCons(g: Group, rest: seq<Group>, marker: string, ours: string -> bool)
    ensures Stripped([g] + rest, marker, ours) == Stripped([g], marker, ours) + Stripped(rest, marker, ours)
  {
    assert ([g] + rest)[1..] == rest && [g][1..] == [];
    assert forall a: seq<Group> :: a + [] == a;
  }

  lemma {:induction false} StrippedAppend(a: seq<Group>, b: seq<Group>, marker: string, ours: string -> bool)
    ensures Stripped(a + b, marker, ours) == Stripped(a, marker, ours) + Stripped(b, marker, ours)
  {
    if a == [] {
      assert a + b == b;
    } else {
      assert a + b == [a[0]] + (a[1..] + b) && a == [a[0]] + a[1..];
      StrippedAppend(a[1..], b, marker, ours);
      StrippedCons(a[0], a[1..] + b, marker, ours);
      StrippedCons(a[0], a[1..], marker, ours);
    }
  }

  lemma {:induction false} KeptStripped(groups: seq<Group>, marker: string, ours: string -> bool, found: bool)
    ensures Stripped(KeepGroups(groups, marker, ours, found).items, marker, ours) == Stripped(groups, marker, ours)
  {
    if groups != [] {
      var kept := KeepHandlers(HandlersOf(groups[0]), marker, ours, found);
      var rest := KeepGroups(groups[1..], marker, ours, kept.found);
      KeptStripped(groups[1..], marker, ours, kept.found);
      KeptHandlers(HandlersOf(groups[0]), marker, ours, found);
      if groups[0].handlers.None? {
        StrippedCons(groups[0], rest.items, marker, ours);
      } else if kept.items == [] {
        assert [] + rest.items == rest.items;
        assert [] + Stripped(groups[1..], marker, ours) == Stripped(groups[1..], marker, ours);
      } else {
        StrippedCons(groups[0].(handlers := Some(kept.items)), rest.items, marker, ours);
      }
    }
  }

  /** The merge leaves every unrelated handler in its own group, with its matcher, and the
      groups in order: without RepoSync's handlers the file is the same before and after. */
  lemma MergeKeepsGroups(groups: seq<Group>, marker: string, ours: string -> bool, body: string)
    ensures Stripped(Merge(groups, marker, ours, body), marker, ours) == Stripped(groups, marker, ours)
  {
    var kept := KeepGroups(groups, marker, ours, false);
    KeptStripped(groups, marker, ours, false);
    if !kept.found {
      var own := Handler(Some(marker), body);
      StrippedAppend(kept.items, [Addition(marker, body)], marker, ours);
      assert Others([own], marker, ours) == [];
      assert Stripped([Addition(marker, body)], marker, ours) == [];
      assert Stripped(kept.items, marker, ours) + [] == Stripped(kept.items, marker, ours);
    }
  }

  predicate Settled(h: Handler, marker: string, ours: string -> bool) { IsMarker(h, marker) || Unrelated(h, marker, ours) }

  lemma {:induction false} SettledHandlersStay(items: seq<Handler>, marker: string, ours: string -> bool, found: bool)
    requires forall h | h in items :: Settled(h, marker, ours)
    requires Markers(items, marker) <= if found then 0 else 1
    ensures KeepHandlers(items, marker, ours, found).items == items
    ensures KeepHandlers(items, marker, ours, found).found <==> found || Markers(items, marker) == 1
  {
    if items != [] {
      assert Settled(items[0], marker, ours);
      SettledHandlersStay(items[1..], marker, ours, found || IsMarker(items[0], marker));
      assert items == [items[0]] + items[1..];
    }
  }

  lemma {:induction false} SettledGroupsStay(groups: seq<Group>, marker: string, ours: string -> bool, found: bool)
    requires forall h | h in Flat(groups) :: Settled(h, marker, ours)
    requires Markers(Flat(groups), marker) <= if found then 0 else 1
    requires forall g | g in groups :: g.handlers != Some([])
    ensures KeepGroups(groups, marker, ours, found).items == groups
    ensures KeepGroups(groups, marker, ours, found).found <==> found || Markers(Flat(groups), marker) == 1
  {
    if groups != [] {
      assert groups == [groups[0]] + groups[1..];
      if groups[0].handlers.None? {
        assert Flat(groups) == Flat(groups[1..]);
        SettledGroupsStay(groups[1..], marker, ours, found);
      } else {
        var items := groups[0].handlers.value;
        OthersAppend(items, Flat(groups[1..]), marker, ours);
        SettledHandlersStay(items, marker, ours, found);
        SettledGroupsStay(groups[1..], marker, ours, found || Markers(items, marker) == 1);
        assert groups[0] in groups;
      }
    }
  }

  lemma {:induction false} NoEmptyGroupIsKept(groups: seq<Group>, marker: string, ours: string -> bool, found: bool)
    ensures forall g | g in KeepGroups(groups, marker, ours, found).items :: g.handlers != Some([])
  {
    if groups != [] {
      if groups[0].handlers.None? {
        NoEmptyGroupIsKept(groups[1..], marker, ours, found);
      } else {
        NoEmptyGroupIsKept(groups[1..], marker, ours, KeepHandlers(groups[0].handlers.value, marker, ours, found).found);
      }
    }
  }

  /** Merging again changes nothing. */
  lemma MergeIsIdempotent(groups: seq<Group>, marker: string, ours: string -> bool, body: string)
    ensures var once := Merge(groups, marker, ours, body); Merge(once, marker, ours, body) == once
  {
    var once := Merge(groups, marker, ours, body);
    MergeInstallsOneDispatcher(groups, marker, ours, body);
    NoEmptyGroupIsKept(groups, marker, ours, false);
    forall h | h in Flat(once) ensures Settled(h, marker, ours) {
    }
    SettledGroupsStay(once, marker, ours, false);
  }

  /** A handler that one merge regards as unrelated keeps its number of copies. */
  lemma {:induction false} UnrelatedMarkersStay(items: seq<Handler>, other: string, marker: string, ours: string -> bool)
    requires other != marker && !ours(other)
    ensures Markers(Others(items, marker, ours), other) == Markers(items, other)
  {
    if items != [] {
      UnrelatedMarkersStay(items[1..], other, marker, ours);
      var rest := Others(items[1..], marker, ours);
      if Unrelated(items[0], marker, ours) {
        assert ([items[0]] + rest)[1..] == rest;
      } else {
        assert [] + rest == rest;
      }
    }
  }

  /** Two merges that do not claim each other's marker leave one dispatcher each, in either
      order. */
  lemma MergesAreIndependent(groups: seq<Group>, a: string, oursA: string -> bool, b: string, oursB: string -> bool, body: string)
    requires a != b && !oursB(a)
    ensures var both := Flat(Merge(Merge(groups, a, oursA, body), b, oursB, body));
            Markers(both, a) == 1 && Markers(both, b) == 1
  {
    var first := Merge(groups, a, oursA, body);
    MergeInstallsOneDispatcher(groups, a, oursA, body);
    MergeInstallsOneDispatcher(first, b, oursB, body);
    UnrelatedMarkersStay(Flat(first), a, b, oursB);
    UnrelatedMarkersStay(Flat(Merge(first, b, oursB, body)), a, b, oursB);
  }

  // ---- which commands are RepoSync's ----

  function IsSpace(c: char): bool { IsWhitespace(c) }

  /** The components of a path that name something. */
  function Named(parts: seq<string>): seq<string> {
    if parts == [] then [] else (if parts[0] == "" || parts[0] == "." then [] else [parts[0]]) + Named(parts[1..])
  }

  function Names(path: string): seq<string> { Named(Split(path, IsSlash)) }

  function FileName(path: string): Option<string> {
    var names := Names(path);
    if names == [] || names[|names| - 1] == ".." then None else Some(names[|names| - 1])
  }

  /** The file name of the parent directory. */
  function ParentName(path: string): Option<string> {
    var names := Names(path);
    if |names| < 2 || names[|names| - 2] == ".." then None else Some(names[|names| - 2])
  }

  function NonEmpty(parts: seq<string>): seq<string> {
    if parts == [] then [] else (if parts[0] == "" then [] else [parts[0]]) + NonEmpty(parts[1..])
  }

  function Words(text: string): seq<string> { NonEmpty(Split(text, IsSpace)) }

  function TrimStart(text: string, drop: char -> bool): string {
    if text != "" && drop(text[0]) then TrimStart(text[1..], drop) else text
  }

  function TrimEnd(text: string, drop: char -> bool): string {
    if text != "" && drop(text[|text| - 1]) then TrimEnd(text[..|text| - 1], drop) else text
  }

  function Trim(text: string, drop: char -> bool): string { TrimEnd(TrimStart(text, drop), drop) }

  function IsQuoteMark(c: char): bool { c == '\'' || c == '"' }

  function Unquoted(text: string): string { Trim(Trim(text, IsSpace), IsQuoteMark) }

  predicate IsDispatcher(command: string, prefix: string) {
    var path := Unquoted(command);
    FileName(path).Some? && prefix <= FileName(path).value && ParentName(path) == Some(DIRECTORY)
  }

  predicate Calls(command: string, executable: string, subcommand: string) {
    var words := Words(command);
    |words| >= 2 && FileName(Unquoted(words[0])) == Some(executable) && words[1] == subcommand
  }

  const PROJECT_PREFIX := "codex-"
  const WORKSPACE_PREFIX := "codex-workspace-"
  const EXECUTABLE := "resync"
  const PROJECT_HOOK := "codex-hook"
  const WORKSPACE_HOOK := "codex-workspace-hook"

  predicate InvokesResync(command: string, subcommand: string) { Calls(command, EXECUTABLE, subcommand) }

  predicate IsProjectCommand(command: string) {
    (IsDispatcher(command, PROJECT_PREFIX) && !IsDispatcher(command, WORKSPACE_PREFIX)) || InvokesResync(command, PROJECT_HOOK)
  }

  predicate IsWorkspaceCommand(command: string) {
    IsDispatcher(command, WORKSPACE_PREFIX) || InvokesResync(command, WORKSPACE_HOOK)
  }

  const DIRECTORY := "hook-dispatchers"

  /** The marker of a dispatcher: its quoted path beneath the state root. */
  function Marker(root: string, file: string): string { Quote(root + "/" + DIRECTORY + "/" + file) }

  function ProjectMarker(root: string, digest: string): string { Marker(root, PROJECT_PREFIX + digest) }

  function WorkspaceMarker(root: string, digest: string): string { Marker(root, WORKSPACE_PREFIX + digest) }

  predicate IsHex(digest: string) { digest != "" && forall c | c in digest :: c in "0123456789abcdef" }

  // ---- recognising the dispatchers ----

  lemma {:induction false} NamedAppend(a: seq<string>, b: seq<string>)
    ensures Named(a + b) == Named(a) + Named(b)
  {
    if a == [] {
      assert a + b == b;
    } else {
      assert (a + b)[0] == a[0] && (a + b)[1..] == a[1..] + b;
      NamedAppend(a[1..], b);
    }
  }

  /** A slash separates path names. */
  lemma NamesAppend(a: string, b: string)
    ensures Names(a + "/" + b) == Names(a) + Names(b)
  {
    SplitAt(a, '/', b, IsSlash);
    NamedAppend(Split(a, IsSlash), Split(b, IsSlash));
  }

  lemma OneName(name: string)
    requires forall c | c in name :: c != '/'
    ensures Split(name, IsSlash) == [name]
  {
    NoSeparator(name, IsSlash);
  }

  lemma {:induction false} EscapedAppend(a: string, b: string)
    ensures Escaped(a + b) == Escaped(a) + Escaped(b)
    decreases |a|
  {
    if a == "" {
      assert a + b == b;
    } else {
      assert (a + b)[0] == a[0] && (a + b)[1..] == a[1..] + b;
      EscapedAppend(a[1..], b);
      var first := if a[0] == '\'' then "'\\''" else [a[0]];
      assert first + (Escaped(a[1..]) + Escaped(b)) == (first + Escaped(a[1..])) + Escaped(b);
    }
  }

  lemma {:induction false} NothingToEscape(a: string)
    requires forall c | c in a :: c != '\''
    ensures Escaped(a) == a
  {
    if a != "" {
      assert forall c | c in a[1..] :: c in a;
      assert a[0] in a;
      NothingToEscape(a[1..]);
      assert a == [a[0]] + a[1..];
    }
  }

  lemma TrimKeeps(text: string, drop: char -> bool)
    requires text != "" && !drop(text[0]) && !drop(text[|text| - 1])
    ensures Trim(text, drop) == text
  {
  }

  lemma EscapedEnds(path: string)
    requires |path| > 1 && path[0] == '/' && !IsQuoteMark(path[|path| - 1])
    ensures var text := Escaped(path); text != "" && text[0] == '/' && text[|text| - 1] == path[|path| - 1]
  {
    var n := |path| - 1;
    EscapedAppend(path[..n], path[n..]);
    assert path[..n] + path[n..] == path;
    assert path[n..] == [path[n]];
    NothingToEscape(path[n..]);
  }

  lemma TrimQuotes(mark: char, text: string)
    requires text != "" && !IsQuoteMark(text[0]) && !IsQuoteMark(text[|text| - 1]) && mark in "'\""
    ensures Trim([mark] + text + [mark], IsQuoteMark) == text
  {
    var quoted, inner := [mark] + text + [mark], text + [mark];
    assert quoted[1..] == inner;
    assert TrimStart(inner, IsQuoteMark) == inner;
    assert TrimStart(quoted, IsQuoteMark) == inner;
    assert inner[..|inner| - 1] == text;
    assert TrimEnd(text, IsQuoteMark) == text;
    assert TrimEnd(inner, IsQuoteMark) == text;
  }

  /** Unquoting a quoted absolute path leaves its escaped text. */
  lemma UnquotedQuote(path: string)
    requires |path| > 1 && path[0] == '/' && !IsQuoteMark(path[|path| - 1])
    ensures Unquoted(Quote(path)) == Escaped(path)
  {
    EscapedEnds(path);
    TrimKeeps(Quote(path), IsSpace);
    TrimQuotes('\'', Escaped(path));
  }

  predicate PlainName(file: string) {
    && file != "" && file != "." && file != ".." && !IsQuoteMark(file[|file| - 1])
    && forall c | c in file :: c != '/' && c != '\''
  }

  /** The file name of a path is its last component; there is none when that is `..`. */
  lemma FileNameIs(directory: string, name: string)
    requires name != "" && name != "." && forall c | c in name :: c != '/'
    ensures FileName(directory + "/" + name) == if name == ".." then None else Some(name)
    ensures ParentName(directory + "/" + name) == FileName(directory)
  {
    NamesAppend(directory, name);
    OneName(name);
    assert Named([name]) == [name];
  }

  lemma TwoNames(directory: string, file: string)
    requires directory != "" && directory != "." && file != "" && file != "."
    requires (forall c | c in directory :: c != '/') && (forall c | c in file :: c != '/')
    ensures Names(directory + "/" + file) == [directory, file]
  {
    NamesAppend(directory, file);
    OneName(directory);
    OneName(file);
    assert Named([directory]) == [directory] && Named([file]) == [file];
    assert [directory] + [file] == [directory, file];
  }

  lemma TailNames(file: string)
    requires PlainName(file)
    ensures Names(DIRECTORY + "/" + file) == [DIRECTORY, file]
  {
    assert forall c | c in DIRECTORY :: c != '/';
    TwoNames(DIRECTORY, file);
  }

  lemma EscapedPath(root: string, name: string)
    requires forall c | c in name :: c != '\''
    ensures Escaped(root + "/" + name) == Escaped(root) + "/" + name
  {
    assert root + "/" + name == root + ("/" + name);
    EscapedAppend(root, "/" + name);
    NothingToEscape("/" + name);
  }

  lemma MarkerNames(root: string, file: string)
    requires root != "" && root[0] == '/' && PlainName(file)
    ensures Names(Unquoted(Marker(root, file))) == Names(Escaped(root)) + [DIRECTORY, file]
  {
    var name := DIRECTORY + "/" + file;
    assert root + "/" + DIRECTORY + "/" + file == root + "/" + name;
    assert forall c | c in DIRECTORY :: c != '\'';
    UnquotedQuote(root + "/" + name);
    EscapedPath(root, name);
    NamesAppend(Escaped(root), name);
    TailNames(file);
  }

  lemma MarkerIsDispatcherIff(root: string, file: string, prefix: string)
    requires root != "" && root[0] == '/' && PlainName(file)
    ensures IsDispatcher(Marker(root, file), prefix) <==> prefix <= file
  {
    MarkerNames(root, file);
    assert DIRECTORY != "..";
  }

  /** Of all quoted absolute paths, a merge takes as its dispatchers exactly those directly in
      a directory of the dispatchers' name whose file name starts with its prefix: the paths
      of other programs are left alone. */
  lemma PathIsDispatcherIff(root: string, directory: string, file: string, prefix: string)
    requires root != "" && root[0] == '/' && PlainName(directory) && PlainName(file)
    ensures IsDispatcher(Quote(root + "/" + (directory + "/" + file)), prefix)
       <==> prefix <= file && directory == "hook-dispatchers"
  {
    PathNames(root, directory, file);
  }

  /** The same for a path between marks of either kind, as it stands. */
  lemma MarkedPathIsDispatcherIff(mark: char, root: string, directory: string, file: string, prefix: string)
    requires root != "" && root[0] == '/' && PlainName(directory) && PlainName(file) && mark in "'\""
    ensures IsDispatcher([mark] + (root + "/" + (directory + "/" + file)) + [mark], prefix)
       <==> prefix <= file && directory == "hook-dispatchers"
  {
    var name := directory + "/" + file;
    var path := root + "/" + name;
    assert path[|path| - 1] == file[|file| - 1] && path[0] == '/';
    TrimKeeps([mark] + path + [mark], IsSpace);
    TrimQuotes(mark, path);
    NamesAppend(root, name);
    TwoNames(directory, file);
  }

  lemma PathNames(root: string, directory: string, file: string)
    requires root != "" && root[0] == '/' && PlainName(directory) && PlainName(file)
    ensures Names(Unquoted(Quote(root + "/" + (directory + "/" + file)))) == Names(Escaped(root)) + [directory, file]
  {
    var name := directory + "/" + file;
    UnquotedQuote(root + "/" + name);
    EscapedPath(root, name);
    NamesAppend(Escaped(root), name);
    TwoNames(directory, file);
  }

  lemma HexIsPlain(prefix: string, digest: string)
    requires IsHex(digest) && (prefix == PROJECT_PREFIX || prefix == WORKSPACE_PREFIX)
    ensures PlainName(prefix + digest)
  {
    var file := prefix + digest;
    assert digest[|digest| - 1] in digest && file[|file| - 1] == digest[|digest| - 1];
    assert file[0] == 'c';
    forall c | c in file ensures c != '/' && c != '\'' {
      if c in digest {
        assert c in "0123456789abcdef";
      } else {
        assert c in prefix;
      }
    }
  }

  /** The current dispatchers are recognised by their own merge.  The other merge takes one
      for an old form exactly when its quoted path happens to read as a call of `resync`,
      which needs white space in the state root. */
  lemma WhoClaimsAMarker(root: string, digest: string)
    requires root != "" && root[0] == '/' && IsHex(digest)
    ensures IsProjectCommand(ProjectMarker(root, digest)) && IsWorkspaceCommand(WorkspaceMarker(root, digest))
    ensures !IsDispatcher(ProjectMarker(root, digest), WORKSPACE_PREFIX)
    ensures IsDispatcher(WorkspaceMarker(root, digest), WORKSPACE_PREFIX)
    ensures IsWorkspaceCommand(ProjectMarker(root, digest)) <==> InvokesResync(ProjectMarker(root, digest), WORKSPACE_HOOK)
    ensures IsProjectCommand(WorkspaceMarker(root, digest)) <==> InvokesResync(WorkspaceMarker(root, digest), PROJECT_HOOK)
  {
    var project, workspace := PROJECT_PREFIX + digest, WORKSPACE_PREFIX + digest;
    HexIsPlain(PROJECT_PREFIX, digest);
    HexIsPlain(WORKSPACE_PREFIX, digest);
    MarkerIsDispatcherIff(root, project, PROJECT_PREFIX);
    MarkerIsDispatcherIff(root, project, WORKSPACE_PREFIX);
    MarkerIsDispatcherIff(root, workspace, PROJECT_PREFIX);
    MarkerIsDispatcherIff(root, workspace, WORKSPACE_PREFIX);
    assert PROJECT_PREFIX <= project && WORKSPACE_PREFIX <= workspace && PROJECT_PREFIX <= WORKSPACE_PREFIX;
    assert workspace[..6] == PROJECT_PREFIX;
    assert project[6] == digest[0] && digest[0] in digest && WORKSPACE_PREFIX[6] == 'w';
  }

  lemma NoSpaceIsOneWord(text: string)
    requires forall c | c in text :: !IsWhitespace(c)
    ensures Split(text, IsSpace) == [text]
  {
    NoSeparator(text, IsSpace);
  }

  lemma {:induction false} EscapedHasNoSpace(text: string)
    requires forall c | c in text :: !IsWhitespace(c)
    ensures forall c | c in Escaped(text) :: !IsWhitespace(c)
  {
    if text != "" {
      assert forall c | c in text[1..] :: c in text;
      assert text[0] in text;
      EscapedHasNoSpace(text[1..]);
    }
  }

  lemma TwoWords(first: string, second: string, rest: string)
    requires first != "" && second != ""
    requires (forall c | c in first :: !IsWhitespace(c)) && (forall c | c in second :: !IsWhitespace(c))
    ensures var words := Words(first + " " + (second + " " + rest));
            |words| >= 2 && words[0] == first && words[1] == second
  {
    var parts := Split(rest, IsSpace);
    NoSpaceIsOneWord(first);
    NoSpaceIsOneWord(second);
    SplitAt(second, ' ', rest, IsSpace);
    SplitAt(first, ' ', second + " " + rest, IsSpace);
    var all := [first] + ([second] + parts);
    assert all[1..] == [second] + parts && all[1..][1..] == parts;
    assert NonEmpty([second] + parts) == [second] + NonEmpty(parts);
    assert NonEmpty(all) == [first] + NonEmpty([second] + parts);
  }

  lemma TrimFirst(text: string, drop: char -> bool)
    requires |text| > 1 && drop(text[0]) && !drop(text[1]) && !drop(text[|text| - 1])
    ensures Trim(text, drop) == text[1..]
  {
    assert TrimStart(text[1..], drop) == text[1..];
    assert TrimEnd(text[1..], drop) == text[1..];
  }

  lemma RootedName(name: string)
    requires name != "" && name != "." && name != ".." && (forall c | c in name :: c != '/')
    ensures FileName("" + "/" + name) == Some(name)
  {
    NamesAppend("", name);
    SingleName(name);
    NoName();
  }

  lemma SingleName(name: string)
    requires name != "" && name != "." && (forall c | c in name :: c != '/')
    ensures Names(name) == [name]
  {
    OneName(name);
    assert Named([name]) == [name];
  }

  lemma NoName()
    ensures Names("") == []
  {
    OneName("");
    assert Named([""]) == [];
  }

  lemma QuotedName(directory: string, name: string)
    requires name != "" && name != "." && name != ".." && (forall c | c in name :: c != '/')
    requires !IsWhitespace(name[|name| - 1]) && !IsQuoteMark(name[|name| - 1])
    requires directory == "'/"
    ensures FileName(Unquoted(directory + name)) == Some(name)
  {
    var text := directory + name;
    TrimKeeps(text, IsSpace);
    TrimFirst(text, IsQuoteMark);
    assert text[1..] == "" + "/" + name;
    RootedName(name);
  }

  /** Of all commands that call a program by its path with a first argument, exactly those
      that call `resync` with the subcommand are taken for an older form. */
  lemma CallIsOursIff(directory: string, program: string, argument: string, rest: string, subcommand: string)
    requires PlainName(program) && argument != "" && (directory == "" || directory[0] == '/')
    requires forall c | c in directory || c in program || c in argument :: !IsWhitespace(c)
    ensures InvokesResync((directory + "/" + program) + " " + (argument + " " + rest), subcommand)
       <==> program == "resync" && argument == subcommand
  {
    var path := directory + "/" + program;
    forall c | c in path ensures !IsWhitespace(c) {
      assert c in directory || c == '/' || c in program;
    }
    TwoWords(path, argument, rest);
    PlainPathName(directory, program);
  }

  lemma PlainPathName(directory: string, program: string)
    requires PlainName(program) && (directory == "" || directory[0] == '/')
    requires !IsWhitespace(program[|program| - 1])
    ensures FileName(Unquoted(directory + "/" + program)) == Some(program)
  {
    var path := directory + "/" + program;
    assert path[|path| - 1] == program[|program| - 1] && path[0] == '/';
    TrimKeeps(path, IsSpace);
    TrimKeeps(path, IsQuoteMark);
    NamesAppend(directory, program);
    SingleName(program);
  }

  predicate PlainWord(word: string) {
    word != "" && forall c | c in word :: !IsWhitespace(c) && !IsQuoteMark(c) && c != '/'
  }

  lemma EscapedStart(start: string, end: string)
    requires forall c | c in start :: c != '\''
    ensures Escaped(start + end) == start + Escaped(end)
  {
    EscapedAppend(start, end);
    NothingToEscape(start);
  }

  lemma Regrouped(name: string, second: string, end: string)
    ensures "'" + ((("/" + name) + " " + second + " ") + end) + "'" == ("'/" + name) + " " + (second + " " + (end + "'"))
  {
  }

  lemma QuotedStart(name: string, second: string, end: string)
    requires PlainWord(name) && PlainWord(second)
    ensures Quote(("/" + name) + " " + (second + " " + end)) == ("'/" + name) + " " + (second + " " + (Escaped(end) + "'"))
  {
    var start := ("/" + name) + " " + second + " ";
    assert ("/" + name) + " " + (second + " " + end) == start + end;
    EscapedStart(start, end);
    Regrouped(name, second, Escaped(end));
  }

  lemma ReadsAsCall(name: string, second: string, end: string)
    requires PlainWord(name) && name != "." && name != ".." && PlainWord(second)
    ensures var words := Words(Quote(("/" + name) + " " + (second + " " + end)));
            |words| >= 2 && FileName(Unquoted(words[0])) == Some(name) && words[1] == second
  {
    QuotedStart(name, second, end);
    TwoWords("'/" + name, second, Escaped(end) + "'");
    QuotedName("'/", name);
  }

  lemma SpacedPath(name: string, second: string, tail: string, file: string)
    ensures (("/" + name) + " " + (second + " " + tail)) + "/" + DIRECTORY + "/" + file
         == ("/" + name) + " " + (second + " " + (tail + "/" + DIRECTORY + "/" + file))
  {
  }

  /** State roots with white space exist whose dispatchers read as a call: beneath
      `/resync codex-workspace-hook x` a workspace merge removes the project dispatcher, and
      beneath `/resync codex-hook x` a project merge removes the workspace dispatcher. */
  lemma MarkerReadsAsCall(name: string, second: string, tail: string, prefix: string, digest: string)
    requires PlainWord(name) && name != "." && name != ".." && PlainWord(second)
    ensures Calls(Marker(("/" + name) + " " + (second + " " + tail), prefix + digest), name, second)
  {
    SpacedPath(name, second, tail, prefix + digest);
    ReadsAsCall(name, second, tail + "/" + DIRECTORY + "/" + (prefix + digest));
  }

  lemma LettersArePlain(word: string)
    requires word != "" && forall c | c in word :: 'a' <= c <= 'z' || c == '-'
    ensures PlainWord(word) && word != "." && word != ".."
  {
    assert word[0] in word;
  }

  lemma HookWordsArePlain()
    ensures PlainWord(EXECUTABLE) && EXECUTABLE != "." && EXECUTABLE != ".."
    ensures PlainWord(PROJECT_HOOK) && PlainWord(WORKSPACE_HOOK)
  {
    LettersArePlain(EXECUTABLE);
    LettersArePlain(PROJECT_HOOK);
    LettersArePlain(WORKSPACE_HOOK);
  }

  /** A state root whose dispatchers read as a call of one of the two hooks. */
  function SpacedRoot(hook: string, tail: string): string { ("/" + EXECUTABLE) + " " + (hook + " " + tail) }

  lemma SpacedRootReadsAsCall(hook: string, tail: string, prefix: string, digest: string)
    requires hook == PROJECT_HOOK || hook == WORKSPACE_HOOK
    ensures InvokesResync(Marker(SpacedRoot(hook, tail), prefix + digest), hook)
    ensures SpacedRoot(hook, tail) != "" && SpacedRoot(hook, tail)[0] == '/'
  {
    HookWordsArePlain();
    MarkerReadsAsCall(EXECUTABLE, hook, tail, prefix, digest);
  }

  lemma MarkerHasNoSpace(root: string, prefix: string, digest: string)
    requires IsHex(digest) && (prefix == PROJECT_PREFIX || prefix == WORKSPACE_PREFIX)
    requires forall c | c in root :: !IsWhitespace(c)
    ensures forall subcommand: string :: !InvokesResync(Marker(root, prefix + digest), subcommand)
  {
    var path := root + "/" + DIRECTORY + "/" + (prefix + digest);
    forall c | c in path ensures !IsWhitespace(c) {
      if c !in root && c !in digest && c !in prefix {
        assert c == '/' || c in DIRECTORY;
      }
    }
    EscapedHasNoSpace(path);
    NoSpaceIsOneWord(Quote(path));
    assert NonEmpty([Quote(path)]) == [Quote(path)];
  }

  /** In a state root without white space, project and workspace merges leave each other's
      dispatcher alone, in either order. */
  lemma ProjectAndWorkspaceMergesCoexist(groups: seq<Group>, root: string, projectDigest: string, workspaceDigest: string, body: string)
    requires root != "" && root[0] == '/' && IsHex(projectDigest) && IsHex(workspaceDigest)
    requires forall c | c in root :: !IsWhitespace(c)
    ensures var p, w := ProjectMarker(root, projectDigest), WorkspaceMarker(root, workspaceDigest);
            var after := Flat(Merge(Merge(groups, p, IsProject, body), w, IsWorkspace, body));
            Markers(after, p) == 1 && Markers(after, w) == 1
    ensures var p, w := ProjectMarker(root, projectDigest), WorkspaceMarker(root, workspaceDigest);
            var after := Flat(Merge(Merge(groups, w, IsWorkspace, body), p, IsProject, body));
            Markers(after, p) == 1 && Markers(after, w) == 1
  {
    var p, w := ProjectMarker(root, projectDigest), WorkspaceMarker(root, workspaceDigest);
    WhoClaimsAMarker(root, projectDigest);
    WhoClaimsAMarker(root, workspaceDigest);
    MarkerHasNoSpace(root, PROJECT_PREFIX, projectDigest);
    MarkerHasNoSpace(root, WORKSPACE_PREFIX, workspaceDigest);
    assert IsProjectCommand(p) && !IsProjectCommand(w);
    MergesAreIndependent(groups, p, IsProject, w, IsWorkspace, body);
    MergesAreIndependent(groups, w, IsWorkspace, p, IsProject, body);
  }

  function IsProject(command: string): bool { IsProjectCommand(command) }

  function IsWorkspace(command: string): bool { IsWorkspaceCommand(command) }

  /** What a workspace merge does to a project dispatcher, for every state root. */
  lemma WorkspaceMergeKeepsProjectDispatcherIff(groups: seq<Group>, root: string, digest: string, workspaceDigest: string, body: string)
    requires root != "" && root[0] == '/' && IsHex(digest) && IsHex(workspaceDigest)
    ensures var p, w := ProjectMarker(root, digest), WorkspaceMarker(root, workspaceDigest);
            Markers(Flat(Merge(groups, w, IsWorkspace, body)), p)
            == if InvokesResync(p, WORKSPACE_HOOK) then 0 else Markers(Flat(groups), p)
  {
    var p, w := ProjectMarker(root, digest), WorkspaceMarker(root, workspaceDigest);
    var merged := Flat(Merge(groups, w, IsWorkspace, body));
    WhoClaimsAMarker(root, digest);
    WhoClaimsAMarker(root, workspaceDigest);
    assert p != w;
    MergeInstallsOneDispatcher(groups, w, IsWorkspace, body);
    if IsWorkspaceCommand(p) {
      NoMarker(merged, p);
    } else {
      UnrelatedMarkersStay(merged, p, w, IsWorkspace);
      UnrelatedMarkersStay(Flat(groups), p, w, IsWorkspace);
    }
  }

  /** What a project merge does to a workspace dispatcher, for every state root. */
  lemma ProjectMergeKeepsWorkspaceDispatcherIff(groups: seq<Group>, root: string, digest: string, workspaceDigest: string, body: string)
    requires root != "" && root[0] == '/' && IsHex(digest) && IsHex(workspaceDigest)
    ensures var p, w := ProjectMarker(root, digest), WorkspaceMarker(root, workspaceDigest);
            Markers(Flat(Merge(groups, p, IsProject, body)), w)
            == if InvokesResync(w, PROJECT_HOOK) then 0 else Markers(Flat(groups), w)
  {
    var p, w := ProjectMarker(root, digest), WorkspaceMarker(root, workspaceDigest);
    var merged := Flat(Merge(groups, p, IsProject, body));
    WhoClaimsAMarker(root, digest);
    WhoClaimsAMarker(root, workspaceDigest);
    assert p != w;
    MergeInstallsOneDispatcher(groups, p, IsProject, body);
    if IsProjectCommand(w) {
      NoMarker(merged, w);
    } else {
      UnrelatedMarkersStay(merged, w, p, IsProject);
      UnrelatedMarkersStay(Flat(groups), w, p, IsProject);
    }
  }

  /** Both losses happen: beneath such a state root a workspace merge removes every project
      dispatcher, and beneath the other a project merge every workspace dispatcher. */
  lemma SpacedRootsLoseDispatchers(groups: seq<Group>, tail: string, digest: string, workspaceDigest: string, body: string)
    requires IsHex(digest) && IsHex(workspaceDigest)
    ensures var root := SpacedRoot(WORKSPACE_HOOK, tail);
            Markers(Flat(Merge(groups, WorkspaceMarker(root, workspaceDigest), IsWorkspace, body)), ProjectMarker(root, digest)) == 0
    ensures var root := SpacedRoot(PROJECT_HOOK, tail);
            Markers(Flat(Merge(groups, ProjectMarker(root, digest), IsProject, body)), WorkspaceMarker(root, workspaceDigest)) == 0
  {
    SpacedRootReadsAsCall(WORKSPACE_HOOK, tail, PROJECT_PREFIX, digest);
    WorkspaceMergeKeepsProjectDispatcherIff(groups, SpacedRoot(WORKSPACE_HOOK, tail), digest, workspaceDigest, body);
    SpacedRootReadsAsCall(PROJECT_HOOK, tail, WORKSPACE_PREFIX, workspaceDigest);
    ProjectMergeKeepsWorkspaceDispatcherIff(groups, SpacedRoot(PROJECT_HOOK, tail), digest, workspaceDigest, body);
  }

  lemma {:induction false} NoMarker(items: seq<Handler>, marker: string)
    requires forall h | h in items :: h.command != Some(marker)
    ensures Markers(items, marker) == 0
  {
    if items != [] {
      assert forall h | h in items[1..] :: h in items;
      assert items[0] in items;
      NoMarker(items[1..], marker);
    }
  }
}
