/**
 Agent definition files: which subagents are listed, and what a name resolves to. The listing
 merges every definition found on disk with the built-in subagents; the lookup by name goes
 straight to `<name>.md`. The listing promises that every agent it shows can be called.
 */
module Discovery {
  import opened Prelude

  datatype Scope = Project | User | Bundled | BuiltIn

  datatype Definition = Definition(name: string, description: string, scope: Scope)

  // A `.md` file: its stem, and the name and description its front matter declares if it parses.
  datatype File = File(stem: string, parsed: Option<Header>)

  datatype Header = Header(name: string, description: string)

  datatype Dir = Dir(files: seq<File>, scope: Scope)

  // The agent directories in search order, and the descriptions of the built-in agents.
  datatype Tree = Tree(project: seq<Dir>, user: seq<Dir>, about: string -> string)

  const BUILTIN_NAMES: seq<string> := [
    "qidi-build", "qidi-build-concise", "qidi-build-plan", "qidi-build-plan-no-subagents",
    "qidi-build-ask-user", "codex", "opencode", "general-purpose", "explore", "plan",
    "browser-use", "cf-tools-orchestrator"]

  const SUBAGENT_NAMES: seq<string> := ["general-purpose", "explore", "plan"]

  predicate IsBuiltin(name: string) {
    name in BUILTIN_NAMES
  }

  predicate IsSubagent(name: string) {
    name in SUBAGENT_NAMES
  }

  // ------------------------------------------------------------- discovery --

  function Read(file: File, scope: Scope): Definition
    requires file.parsed.Some?
  {
    Definition(file.parsed.value.name, file.parsed.value.description, scope)
  }

  // Every definition in a list of files, in order.
  function DefinitionsIn(files: seq<File>, scope: Scope): seq<Definition> {
    if files == [] then []
    else
      var before, file := DefinitionsIn(files[..|files| - 1], scope), files[|files| - 1];
      if file.parsed.Some? then before + [Read(file, scope)] else before
  }

  function AllDefinitions(dirs: seq<Dir>): seq<Definition> {
    if dirs == [] then []
    else
      var dir := dirs[|dirs| - 1];
      AllDefinitions(dirs[..|dirs| - 1]) + DefinitionsIn(dir.files, dir.scope)
  }

  // The first definition that declares `name`.
  function Lookup(defs: seq<Definition>, name: string): Option<Definition> {
    if defs == [] then None
    else
      var before, def := Lookup(defs[..|defs| - 1], name), defs[|defs| - 1];
      if before.Some? then before else if def.name == name then Some(def) else None
  }

  // The definitions that are the first of their name.
  function FirstOfName(defs: seq<Definition>): seq<Definition> {
    if defs == [] then []
    else
      var before, def := FirstOfName(defs[..|defs| - 1]), defs[|defs| - 1];
      if Lookup(defs[..|defs| - 1], def.name).Some? then before else before + [def]
  }

  class Discovered {
    var definitions: seq<Definition>
    var seenNames: set<string>
    ghost var read: seq<Definition>  // everything that parsed so far

    constructor ()
      ensures Valid() && read == []
    {
      definitions, seenNames, read := [], {}, [];
    }

    ghost predicate Valid()
      reads this
    {
      && definitions == FirstOfName(read)
      && forall name :: name in seenNames <==> Lookup(read, name).Some?
    }

    method LoadDefinitionsFromDir(dir: Dir)
      requires Valid()
      modifies this
      ensures Valid() && read == old(read) + DefinitionsIn(dir.files, dir.scope)
    {
      ghost var before := read;
      assert DefinitionsIn(dir.files[..0], dir.scope) == [] && before + [] == before;
      for i := 0 to |dir.files|
        invariant Valid() && read == before + DefinitionsIn(dir.files[..i], dir.scope)
      {
        var file := dir.files[i];
        DefinitionsSnoc(dir.files, i, dir.scope);
        hide DefinitionsIn, FirstOfName, Lookup;
        if file.parsed.Some? {
          ConcatAssociates(before, DefinitionsIn(dir.files[..i], dir.scope), [Read(file, dir.scope)]);
          Keep(Read(file, dir.scope));
        }
      }
      assert dir.files[..|dir.files|] == dir.files;
    }

    method Keep(def: Definition)
      requires Valid()
      modifies this
      ensures Valid() && read == old(read) + [def]
    {
      FirstOfNameSnoc(read, def);
      if def.name !in seenNames {
        seenNames := seenNames + {def.name};
        definitions := definitions + [def];
      }
      read := read + [def];
    }

    method DiscoverIn(dirs: seq<Dir>)
      requires Valid()
      modifies this
      ensures Valid() && read == old(read) + AllDefinitions(dirs)
    {
      ghost var before := read;
      assert AllDefinitions(dirs[..0]) == [] && before + [] == before;
      for i := 0 to |dirs|
        invariant Valid() && read == before + AllDefinitions(dirs[..i])
      {
        assert dirs[..i + 1][..i] == dirs[..i];
        ghost var more := DefinitionsIn(dirs[i].files, dirs[i].scope);
        assert AllDefinitions(dirs[..i + 1]) == AllDefinitions(dirs[..i]) + more;
        hide AllDefinitions, DefinitionsIn, FirstOfName, Lookup;
        ConcatAssociates(before, AllDefinitions(dirs[..i]), more);
        LoadDefinitionsFromDir(dirs[i]);
      }
      assert dirs[..|dirs|] == dirs;
    }
  }

  lemma DefinitionsSnoc(files: seq<File>, i: nat, scope: Scope)
    requires i < |files|
    ensures DefinitionsIn(files[..i + 1], scope)
            == if files[i].parsed.Some? then DefinitionsIn(files[..i], scope) + [Read(files[i], scope)]
               else DefinitionsIn(files[..i], scope)
  {
    assert files[..i + 1][..i] == files[..i];
  }

  lemma FirstOfNameSnoc(defs: seq<Definition>, def: Definition)
    ensures FirstOfName(defs + [def])
            == if Lookup(defs, def.name).Some? then FirstOfName(defs) else FirstOfName(defs) + [def]
    ensures forall name :: Lookup(defs + [def], name).Some?
                           <==> Lookup(defs, name).Some? || name == def.name
  {
    assert (defs + [def])[..|defs|] == defs;
  }

  // What is kept of a whole tree: project directories first, then the user's and the bundled ones.
  function Found(tree: Tree): seq<Definition> {
    FirstOfName(AllDefinitions(tree.project) + AllDefinitions(tree.user))
  }

  method Discover(tree: Tree) returns (definitions: seq<Definition>)
    ensures definitions == Found(tree)
  {
    var found := new Discovered();
    found.DiscoverIn(tree.project);
    found.DiscoverIn(tree.user);
    definitions := found.definitions;
    assert [] + AllDefinitions(tree.project) == AllDefinitions(tree.project);
  }

  // ----------------------------------------------------------------- lookup --

  function LoadByName(files: seq<File>, name: string, scope: Scope): Option<Definition> {
    if files == [] then None
    else if files[|files| - 1].stem == name then
      if files[|files| - 1].parsed.Some? then Some(Read(files[|files| - 1], scope)) else None
    else LoadByName(files[..|files| - 1], name, scope)
  }

  // The first directory with a readable `<name>.md`.
  function SearchDirs(dirs: seq<Dir>, name: string): Option<Definition> {
    if dirs == [] then None
    else
      var before, dir := SearchDirs(dirs[..|dirs| - 1], name), dirs[|dirs| - 1];
      if before.Some? then before else LoadByName(dir.files, name, dir.scope)
  }

  function ByName(tree: Tree, name: string): Option<Definition> {
    if IsBuiltin(name) then Some(Definition(name, tree.about(name), BuiltIn))
    else SearchDirs(tree.user, name)
  }

  function ByNameInCwd(tree: Tree, name: string): Option<Definition> {
    var project := SearchDirs(tree.project, name);
    if project.Some? then project else ByName(tree, name)
  }

  // ------------------------------------------------------------------ merge --

  datatype Source = Builtin | UserDefined(scope: Scope)

  datatype Entry = Entry(name: string, description: string, source: Source, shadowsBuiltin: bool)

  function Priority(scope: Scope): nat {
    match scope
    case Project => 3
    case User => 2
    case Bundled => 1
    case BuiltIn => 0
  }

  // Only a project may redefine a built-in subagent.
  predicate Admitted(def: Definition) {
    def.scope != BuiltIn && (IsSubagent(def.name) ==> def.scope == Project)
  }

  // What a listing of `defs` says about `name`: the first admitted definition of the highest
  // scope, if there is one.
  function Best(defs: seq<Definition>, name: string): Option<Definition> {
    if defs == [] then None
    else
      var before, def := Best(defs[..|defs| - 1], name), defs[|defs| - 1];
      if Admitted(def) && def.name == name && (before.None? || Priority(def.scope) > Priority(before.value.scope))
      then Some(def) else before
  }

  function Listed(defs: seq<Definition>): seq<string> {
    if defs == [] then SUBAGENT_NAMES
    else
      var before, def := Listed(defs[..|defs| - 1]), defs[|defs| - 1];
      if Admitted(def) && def.name !in before then before + [def.name] else before
  }

  function EntryFor(best: Option<Definition>, name: string, about: string -> string): Entry {
    match best
    case None => Entry(name, about(name), Builtin, false)
    case Some(def) => Entry(name, def.description, UserDefined(def.scope), IsSubagent(name))
  }

  function Entries(defs: seq<Definition>, names: seq<string>, about: string -> string): seq<Entry> {
    if names == [] then []
    else Entries(defs, names[..|names| - 1], about)
         + [EntryFor(Best(defs, names[|names| - 1]), names[|names| - 1], about)]
  }

  predicate Enabled(toggle: map<string, bool>, name: string) {
    name !in toggle || toggle[name]
  }

  function Filtered(entries: seq<Entry>, toggle: map<string, bool>): seq<Entry> {
    if entries == [] then []
    else
      var before, entry := Filtered(entries[..|entries| - 1], toggle), entries[|entries| - 1];
      if Enabled(toggle, entry.name) then before + [entry] else before
  }

  lemma {:induction false} EntriesAt(defs: seq<Definition>, names: seq<string>, about: string -> string)
    ensures |Entries(defs, names, about)| == |names|
    ensures forall k :: 0 <= k < |names| ==>
              Entries(defs, names, about)[k] == EntryFor(Best(defs, names[k]), names[k], about)
  {
    if names != [] {
      EntriesAt(defs, names[..|names| - 1], about);
    }
  }

  lemma {:induction false} ListedOnce(defs: seq<Definition>)
    ensures forall j, k :: 0 <= j < k < |Listed(defs)| ==> Listed(defs)[j] != Listed(defs)[k]
  {
    if defs == [] {
      assert |"general-purpose"| == 15 && |"explore"| == 7 && |"plan"| == 4;
    } else {
      ListedOnce(defs[..|defs| - 1]);
    }
  }

  method Position(entries: seq<Entry>, name: string) returns (pos: Option<nat>)
    ensures pos.None? ==> forall e :: e in entries ==> e.name != name
    ensures pos.Some? ==> pos.value < |entries| && entries[pos.value].name == name
  {
    for i := 0 to |entries|
      invariant forall j :: 0 <= j < i ==> entries[j].name != name
    {
      if entries[i].name == name {
        return Some(i);
      }
    }
    pos := None;
  }

  ghost predicate IsListing(entries: seq<Entry>, defs: seq<Definition>, names: seq<string>, about: string -> string) {
    && |entries| == |names|
    && forall k :: 0 <= k < |names| ==> entries[k] == EntryFor(Best(defs, names[k]), names[k], about)
  }

  lemma ListingIsEntries(entries: seq<Entry>, defs: seq<Definition>, names: seq<string>, about: string -> string)
    requires IsListing(entries, defs, names, about)
    ensures entries == Entries(defs, names, about)
  {
    EntriesAt(defs, names, about);
    hide Entries, EntryFor, Best;
  }

  lemma BestSnoc(defs: seq<Definition>, def: Definition, name: string)
    ensures var best := Best(defs, name);
            Best(defs + [def], name)
            == if Admitted(def) && def.name == name
                  && (best.None? || Priority(def.scope) > Priority(best.value.scope)) then Some(def) else best
  {
    assert (defs + [def])[..|defs|] == defs;
  }

  lemma ListedSnoc(defs: seq<Definition>, def: Definition)
    ensures Listed(defs + [def])
            == if Admitted(def) && def.name !in Listed(defs) then Listed(defs) + [def.name] else Listed(defs)
  {
    assert (defs + [def])[..|defs|] == defs;
  }

  lemma {:induction false} BestIsListed(defs: seq<Definition>, name: string)
    ensures Best(defs, name).Some? ==> Best(defs, name).value.name == name && Admitted(Best(defs, name).value)
    ensures name in Listed(defs) <==> IsSubagent(name) || Best(defs, name).Some?
  {
    if defs != [] {
      BestIsListed(defs[..|defs| - 1], name);
    }
  }

  // One definition is preferred to another: the project's to the user's to a bundled one, then the
  // one found first.
  predicate Preferred(defs: seq<Definition>, i: nat, j: nat)
    requires i < |defs| && j < |defs|
  {
    match defs[i].scope
    case Project => defs[j].scope != Project || i <= j
    case User => defs[j].scope == Bundled || (defs[j].scope == User && i <= j)
    case _ => defs[j].scope == defs[i].scope && i <= j
  }

  // The entry of a name shows the definition preferred to all other admitted ones of that name.
  lemma {:induction false} BestIsPreferred(defs: seq<Definition>, name: string) returns (i: nat)
    requires Best(defs, name).Some?
    ensures i < |defs| && Best(defs, name) == Some(defs[i]) && Admitted(defs[i]) && defs[i].name == name
    ensures forall j :: 0 <= j < |defs| && Admitted(defs[j]) && defs[j].name == name ==> Preferred(defs, i, j)
  {
    var n := |defs| - 1;
    var front := defs[..n];
    BestIsListed(front, name);
    NoneAdmitted(front, name);
    if Best(front, name).None? {
      i := n;
    } else {
      var before := BestIsPreferred(front, name);
      assert forall j :: 0 <= j < n && Admitted(defs[j]) && defs[j].name == name ==> Preferred(front, before, j);
      i := if Best(defs, name) == Best(front, name) then before else n;
    }
    hide IsSubagent;
  }

  lemma {:induction false} NoneAdmitted(defs: seq<Definition>, name: string)
    ensures Best(defs, name).None? ==> forall j :: 0 <= j < |defs| && Admitted(defs[j]) ==> defs[j].name != name
  {
    if defs != [] {
      NoneAdmitted(defs[..|defs| - 1], name);
    }
  }

  // A definition of any other name leaves an entry alone.
  lemma OthersKept(entries: seq<Entry>, defs: seq<Definition>, names: seq<string>, about: string -> string,
                   def: Definition)
    requires IsListing(entries, defs, names, about)
    requires forall k :: 0 <= k < |names| ==> Admitted(def) ==> names[k] != def.name
    ensures IsListing(entries, defs + [def], names, about)
  {
    forall k | 0 <= k < |names| ensures entries[k] == EntryFor(Best(defs + [def], names[k]), names[k], about) {
      BestSnoc(defs, def, names[k]);
    }
  }

  lemma NewName(entries: seq<Entry>, defs: seq<Definition>, about: string -> string, def: Definition)
    requires IsListing(entries, defs, Listed(defs), about) && Admitted(def) && def.name !in Listed(defs)
    ensures IsListing(entries + [Entry(def.name, def.description, UserDefined(def.scope), false)],
                      defs + [def], Listed(defs + [def]), about)
  {
    OthersKept(entries, defs, Listed(defs), about, def);
    BestIsListed(defs, def.name);
    BestSnoc(defs, def, def.name);
    ListedSnoc(defs, def);
    hide Listed, Best, IsSubagent;
  }

  lemma KnownName(entries: seq<Entry>, defs: seq<Definition>, about: string -> string, def: Definition, pos: nat)
    requires IsListing(entries, defs, Listed(defs), about) && Admitted(def)
    requires pos < |entries| && entries[pos].name == def.name
    ensures var entry := EntryFor(Best(defs + [def], def.name), def.name, about);
            IsListing(entries[pos := entry], defs + [def], Listed(defs + [def]), about)
  {
    ListedSnoc(defs, def);
    ListedOnce(defs);
    hide Listed;
    forall k | 0 <= k < |entries| && k != pos
      ensures Best(defs + [def], Listed(defs)[k]) == Best(defs, Listed(defs)[k])
    {
      BestSnoc(defs, def, Listed(defs)[k]);
    }
    hide Best;
  }

  lemma NotListed(entries: seq<Entry>, defs: seq<Definition>, about: string -> string, name: string)
    requires IsListing(entries, defs, Listed(defs), about)
    requires forall e :: e in entries ==> e.name != name
    ensures name !in Listed(defs)
  {
    hide Listed, Best;
    forall k | 0 <= k < |Listed(defs)| ensures Listed(defs)[k] != name {
      assert entries[k] in entries;
    }
  }

  method MergeOne(entries: seq<Entry>, def: Definition, about: string -> string, ghost before: seq<Definition>)
      returns (merged: seq<Entry>)
    requires IsListing(entries, before, Listed(before), about)
    ensures IsListing(merged, before + [def], Listed(before + [def]), about)
  {
    var builtinName := IsSubagent(def.name);
    if def.scope == BuiltIn || (builtinName && def.scope != Project) {
      OthersKept(entries, before, Listed(before), about, def);
      ListedSnoc(before, def);
      return entries;
    }
    var pos := Position(entries, def.name);
    assert pos.Some? ==> entries[pos.value] == EntryFor(Best(before, def.name), def.name, about);
    if pos.None? {
      NotListed(entries, before, about, def.name);
    }
    hide IsListing, Listed, IsSubagent, Best;
    if pos.Some? {
      KnownName(entries, before, about, def, pos.value);
      BestSnoc(before, def, def.name);
      var shouldReplace := match entries[pos.value].source
        case Builtin => true
        case UserDefined(scope) => Priority(def.scope) > Priority(scope);
      merged := entries;
      if shouldReplace {
        merged := entries[pos.value := Entry(def.name, def.description, UserDefined(def.scope), builtinName)];
      }
    } else {
      NewName(entries, before, about, def);
      merged := entries + [Entry(def.name, def.description, UserDefined(def.scope), false)];
    }
  }

  method SeedBuiltins(about: string -> string) returns (entries: seq<Entry>)
    ensures IsListing(entries, [], SUBAGENT_NAMES, about)
  {
    entries := [];
    for i := 0 to |SUBAGENT_NAMES|
      invariant IsListing(entries, [], SUBAGENT_NAMES[..i], about)
    {
      entries := entries + [Entry(SUBAGENT_NAMES[i], about(SUBAGENT_NAMES[i]), Builtin, false)];
    }
    assert SUBAGENT_NAMES[..|SUBAGENT_NAMES|] == SUBAGENT_NAMES;
  }

  // A toggle hides the names it maps to false and no others; what is left is in the same order and
  // as often as before.
  ghost predicate HidesByToggle(visible: seq<Entry>, entries: seq<Entry>, toggle: map<string, bool>) {
    && Subsequence(visible, entries)
    && (forall e :: multiset(visible)[e]
                    == if e.name in toggle && toggle[e.name] == false then 0 else multiset(entries)[e])
    && (toggle == map[] ==> visible == entries)
  }

  lemma {:induction false} FilteredHides(entries: seq<Entry>, toggle: map<string, bool>)
    ensures HidesByToggle(Filtered(entries, toggle), entries, toggle)
  {
    if entries != [] {
      var front, e := entries[..|entries| - 1], entries[|entries| - 1];
      FilteredHides(front, toggle);
      var before := Filtered(front, toggle);
      FrontAndLast(entries);
      SubsequenceSnoc(before, front, e);
      hide Subsequence;
    }
  }

  method FilterByToggle(entries: seq<Entry>, toggle: map<string, bool>) returns (visible: seq<Entry>)
    ensures visible == Filtered(entries, toggle) && HidesByToggle(visible, entries, toggle)
  {
    visible := [];
    for i := 0 to |entries|
      invariant visible == Filtered(entries[..i], toggle)
    {
      assert entries[..i + 1][..i] == entries[..i];
      if entries[i].name !in toggle || toggle[entries[i].name] {
        visible := visible + [entries[i]];
      }
    }
    assert entries[..|entries|] == entries;
    FilteredHides(entries, toggle);
  }

  method MergeSubagents(discovered: seq<Definition>, toggle: map<string, bool>, about: string -> string)
      returns (visible: seq<Entry>)
    ensures visible == Filtered(Entries(discovered, Listed(discovered), about), toggle)
    ensures HidesByToggle(visible, Entries(discovered, Listed(discovered), about), toggle)
  {
    var entries := SeedBuiltins(about);
    assert Listed([]) == SUBAGENT_NAMES;
    hide IsListing, Listed;
    for i := 0 to |discovered|
      invariant IsListing(entries, discovered[..i], Listed(discovered[..i]), about)
    {
      assert discovered[..i] + [discovered[i]] == discovered[..i + 1];
      entries := MergeOne(entries, discovered[i], about, discovered[..i]);
    }
    assert discovered[..|discovered|] == discovered;
    ListingIsEntries(entries, discovered, Listed(discovered), about);
    visible := FilterByToggle(entries, toggle);
  }

  // What is listed for `tree`, before and after the toggles.
  function AllEntries(tree: Tree): seq<Entry> {
    Entries(Found(tree), Listed(Found(tree)), tree.about)
  }

  method AllSubagents(tree: Tree, toggle: map<string, bool>) returns (visible: seq<Entry>)
    ensures visible == Filtered(AllEntries(tree), toggle)
    ensures HidesByToggle(visible, AllEntries(tree), toggle)
    ensures forall e :: e in visible <==> e in AllEntries(tree) && !(e.name in toggle && toggle[e.name] == false)
  {
    var definitions := Discover(tree);
    visible := MergeSubagents(definitions, toggle, tree.about);
    hide Subsequence, Filtered;
    forall e ensures e in visible <==> e in AllEntries(tree) && !(e.name in toggle && toggle[e.name] == false) {
      assert e in visible <==> multiset(visible)[e] > 0;
      assert e in AllEntries(tree) <==> multiset(AllEntries(tree))[e] > 0;
    }
  }

  // ---------------------------------------------------- visible == callable --

  ghost predicate DistinctStems(files: seq<File>) {
    forall i, j :: 0 <= i < j < |files| ==> files[i].stem != files[j].stem
  }

  // What a file system gives: the scopes of the directories, and no two files of one name.
  ghost predicate ValidTree(tree: Tree) {
    && (forall d :: d in tree.project ==> d.scope == Project)
    && (forall d :: d in tree.user ==> d.scope == User || d.scope == Bundled)
    && (forall d :: d in tree.project + tree.user ==> DistinctStems(d.files))
  }

  // A readable file answers to the name it declares, and to the name it is called by.
  datatype Key = Declared | Called

  predicate Matches(file: File, name: string, key: Key) {
    file.parsed.Some? && name == (if key.Declared? then file.parsed.value.name else file.stem)
  }

  ghost predicate NoneIn(files: seq<File>, name: string, key: Key) {
    forall f :: f in files ==> !Matches(f, name, key)
  }

  ghost predicate NoneOf(dirs: seq<Dir>, name: string, key: Key) {
    forall d :: d in dirs ==> NoneIn(d.files, name, key)
  }

  // File `i` of directory `d` is the first that answers to `name`, in search order.
  ghost predicate First(dirs: seq<Dir>, name: string, key: Key, d: nat, i: nat) {
    && d < |dirs| && NoneOf(dirs[..d], name, key)
    && FirstIn(dirs[d].files, name, key, i)
  }

  ghost predicate FirstIn(files: seq<File>, name: string, key: Key, i: nat) {
    i < |files| && Matches(files[i], name, key) && NoneIn(files[..i], name, key)
  }

  ghost predicate AllDistinctStems(dirs: seq<Dir>) {
    forall d :: d in dirs ==> DistinctStems(d.files)
  }

  // No readable file declares `name` or is called by it; or the first that declares it and the
  // first that is called by it have one header and one scope (usually they are one file).
  ghost predicate FiledAsDeclared(dirs: seq<Dir>, name: string) {
    || (NoneOf(dirs, name, Declared) && NoneOf(dirs, name, Called))
    || exists d: nat, i: nat, c: nat, j: nat ::
         First(dirs, name, Declared, d, i) && First(dirs, name, Called, c, j) && Agree(dirs, d, i, c, j)
  }

  predicate Agree(dirs: seq<Dir>, d: nat, i: nat, c: nat, j: nat)
    requires d < |dirs| && i < |dirs[d].files| && c < |dirs| && j < |dirs[c].files|
  {
    dirs[d].files[i].parsed == dirs[c].files[j].parsed && dirs[d].scope == dirs[c].scope
  }

  // The readable files that declare `name` are those called `<name>.md`.
  ghost predicate AllNamedByStem(dirs: seq<Dir>, name: string) {
    forall d, f :: d in dirs && f in d.files ==> (Matches(f, name, Declared) <==> Matches(f, name, Called))
  }

  lemma LookupSnoc(defs: seq<Definition>, def: Definition, name: string)
    ensures Lookup(defs + [def], name)
            == if Lookup(defs, name).Some? then Lookup(defs, name) else if def.name == name then Some(def) else None
  {
    assert (defs + [def])[..|defs|] == defs;
  }

  lemma {:induction false} LookupAppend(a: seq<Definition>, b: seq<Definition>, name: string)
    ensures Lookup(a + b, name) == if Lookup(a, name).Some? then Lookup(a, name) else Lookup(b, name)
    decreases |b|
  {
    if b == [] {
      assert a + b == a;
    } else {
      var front, def := b[..|b| - 1], b[|b| - 1];
      LookupAppend(a, front, name);
      LookupSnoc(a + front, def, name);
      LookupSnoc(front, def, name);
      assert b == front + [def];
      hide Lookup;
      ConcatAssociates(a, front, [def]);
    }
  }

  // The definition of `name` that a scan of `dirs` sees first.
  function Seen(dirs: seq<Dir>, name: string): Option<Definition> {
    Lookup(AllDefinitions(dirs), name)
  }

  lemma SeenStep(dirs: seq<Dir>, name: string)
    requires dirs != []
    ensures var front, dir := dirs[..|dirs| - 1], dirs[|dirs| - 1];
            Seen(dirs, name)
            == if Seen(front, name).Some? then Seen(front, name) else Lookup(DefinitionsIn(dir.files, dir.scope), name)
  {
    var front, dir := dirs[..|dirs| - 1], dirs[|dirs| - 1];
    LookupAppend(AllDefinitions(front), DefinitionsIn(dir.files, dir.scope), name);
    hide Lookup, DefinitionsIn;
  }

  // What one directory, and a list of them, give for `name`: to the scan, and to the lookup.
  function AnswerIn(files: seq<File>, scope: Scope, name: string, key: Key): Option<Definition> {
    if key.Declared? then Lookup(DefinitionsIn(files, scope), name) else LoadByName(files, name, scope)
  }

  function Answer(dirs: seq<Dir>, name: string, key: Key): Option<Definition> {
    if key.Declared? then Seen(dirs, name) else SearchDirs(dirs, name)
  }

  lemma NoneInSnoc(files: seq<File>, file: File, name: string, key: Key)
    ensures NoneIn(files + [file], name, key) <==> NoneIn(files, name, key) && !Matches(file, name, key)
  {
    hide Matches;
    assert file in files + [file];
  }

  lemma {:induction false} NoSuchStem(files: seq<File>, name: string, scope: Scope)
    requires forall f :: f in files ==> f.stem != name
    ensures LoadByName(files, name, scope) == None
  {
    if files != [] {
      NoSuchStem(files[..|files| - 1], name, scope);
    }
  }

  lemma LastStem(files: seq<File>, name: string, scope: Scope)
    requires DistinctStems(files) && files != []
    ensures DistinctStems(files[..|files| - 1])
    ensures files[|files| - 1].stem == name ==> LoadByName(files[..|files| - 1], name, scope) == None
  {
    var front, file := files[..|files| - 1], files[|files| - 1];
    assert forall f :: f in front ==> f.stem != file.stem;
    if file.stem == name {
      NoSuchStem(front, name, scope);
    }
  }

  lemma AnswerInStep(files: seq<File>, scope: Scope, name: string, key: Key)
    requires files != [] && DistinctStems(files)
    ensures var front, file := files[..|files| - 1], files[|files| - 1];
            && DistinctStems(front)
            && AnswerIn(files, scope, name, key)
               == if AnswerIn(front, scope, name, key).Some? then AnswerIn(front, scope, name, key)
                  else if Matches(file, name, key) then Some(Read(file, scope)) else None
  {
    var front, file := files[..|files| - 1], files[|files| - 1];
    LastStem(files, name, scope);
    if file.parsed.Some? {
      LookupSnoc(DefinitionsIn(front, scope), Read(file, scope), name);
    }
    hide DistinctStems, Lookup;
  }

  lemma {:induction false} FirstIsFoundIn(files: seq<File>, scope: Scope, name: string, key: Key) returns (i: nat)
    requires DistinctStems(files)
    ensures AnswerIn(files, scope, name, key).None? ==> NoneIn(files, name, key)
    ensures AnswerIn(files, scope, name, key).Some? ==>
              FirstIn(files, name, key, i) && AnswerIn(files, scope, name, key) == Some(Read(files[i], scope))
  {
    i := 0;
    if files != [] {
      var n := |files| - 1;
      var front, file := files[..n], files[n];
      AnswerInStep(files, scope, name, key);
      NoneInSnoc(front, file, name, key);
      assert files == front + [file];
      assert Matches(file, name, key) ==> file.parsed.Some?;
      hide DistinctStems, NoneIn, AnswerIn, Matches;
      i := FirstIsFoundIn(front, scope, name, key);
      if AnswerIn(front, scope, name, key).None? {
        i := n;
      } else {
        assert files[..i] == front[..i];
      }
    }
  }

  lemma AnswerStep(dirs: seq<Dir>, name: string, key: Key)
    requires dirs != []
    ensures var front, dir := dirs[..|dirs| - 1], dirs[|dirs| - 1];
            Answer(dirs, name, key) == if Answer(front, name, key).Some? then Answer(front, name, key)
                                       else AnswerIn(dir.files, dir.scope, name, key)
  {
    SeenStep(dirs, name);
    hide Seen, Lookup, DefinitionsIn, LoadByName;
  }

  // The scan takes what it says of `name` from the first readable file that declares it, and the
  // lookup from the first one called by it.
  lemma {:induction false} FirstIsFound(dirs: seq<Dir>, name: string, key: Key) returns (d: nat, i: nat)
    requires AllDistinctStems(dirs)
    ensures Answer(dirs, name, key).None? ==> NoneOf(dirs, name, key)
    ensures Answer(dirs, name, key).Some? ==>
              && First(dirs, name, key, d, i) && !NoneOf(dirs, name, key)
              && Answer(dirs, name, key) == Some(Read(dirs[d].files[i], dirs[d].scope))
  {
    d, i := 0, 0;
    if dirs == [] {
      assert AllDefinitions(dirs) == [];
    } else {
      var n := |dirs| - 1;
      var front, dir := dirs[..n], dirs[n];
      assert dirs == front + [dir];
      assert dir in dirs && forall e :: e in front ==> e in dirs;
      AnswerStep(dirs, name, key);
      hide Answer, AnswerIn, DistinctStems, NoneIn, Matches;
      d, i := FirstIsFound(front, name, key);
      if Answer(front, name, key).None? {
        d := n;
        i := FirstIsFoundIn(dir.files, dir.scope, name, key);
        if AnswerIn(dir.files, dir.scope, name, key).Some? {
          FirstIsThere(dir.files, name, key, i);
        }
      } else {
        assert dirs[..d] == front[..d];
      }
    }
  }

  lemma FirstIsThere(files: seq<File>, name: string, key: Key, i: nat)
    requires FirstIn(files, name, key, i)
    ensures !NoneIn(files, name, key)
  {
    assert files[i] in files;
  }

  lemma NoneBefore(dirs: seq<Dir>, name: string, key: Key, d: nat, e: nat, j: nat)
    requires e < d <= |dirs| && NoneOf(dirs[..d], name, key) && j < |dirs[e].files|
    ensures !Matches(dirs[e].files[j], name, key)
  {
    assert dirs[e] in dirs[..d];
  }

  lemma NoneBeforeIn(files: seq<File>, name: string, key: Key, i: nat, j: nat)
    requires j < i <= |files| && NoneIn(files[..i], name, key)
    ensures !Matches(files[j], name, key)
  {
    assert files[j] in files[..i];
  }

  lemma FirstIsUnique(dirs: seq<Dir>, name: string, key: Key, d: nat, i: nat, e: nat, j: nat)
    requires First(dirs, name, key, d, i) && First(dirs, name, key, e, j)
    ensures d == e && i == j
  {
    hide NoneOf, NoneIn, Matches;
    if d < e {
      NoneBefore(dirs, name, key, e, d, i);
    } else if e < d {
      NoneBefore(dirs, name, key, d, e, j);
    } else if i < j {
      NoneBeforeIn(dirs[d].files, name, key, j, i);
    } else if j < i {
      NoneBeforeIn(dirs[d].files, name, key, i, j);
    }
  }

  lemma FiledMeansAgree(dirs: seq<Dir>, name: string, d: nat, i: nat, c: nat, j: nat)
    requires First(dirs, name, Declared, d, i) && First(dirs, name, Called, c, j)
    requires !NoneOf(dirs, name, Declared)
    ensures FiledAsDeclared(dirs, name) <==> Agree(dirs, d, i, c, j)
  {
    if FiledAsDeclared(dirs, name) {
      var e: nat, k: nat, b: nat, l: nat :|
        First(dirs, name, Declared, e, k) && First(dirs, name, Called, b, l) && Agree(dirs, e, k, b, l);
      FirstIsUnique(dirs, name, Declared, d, i, e, k);
      FirstIsUnique(dirs, name, Called, c, j, b, l);
    }
  }

  // Hence the lookup finds what the scan sees exactly when the files are filed as they declare.
  lemma LookupIsScanIff(dirs: seq<Dir>, name: string)
    requires AllDistinctStems(dirs)
    ensures SearchDirs(dirs, name) == Seen(dirs, name) <==> FiledAsDeclared(dirs, name)
  {
    var d, i := FirstIsFound(dirs, name, Declared);
    var c, j := FirstIsFound(dirs, name, Called);
    hide Seen, SearchDirs, NoneOf, NoneIn, AllDistinctStems;
    if Seen(dirs, name).Some? && SearchDirs(dirs, name).Some? {
      FiledMeansAgree(dirs, name, d, i, c, j);
      hide FiledAsDeclared;
    } else if FiledAsDeclared(dirs, name) {
      NoneOfOrNeither(dirs, name);
    }
  }

  lemma NoneOfOrNeither(dirs: seq<Dir>, name: string)
    requires FiledAsDeclared(dirs, name)
    ensures NoneOf(dirs, name, Declared) <==> NoneOf(dirs, name, Called)
  {
    if !(NoneOf(dirs, name, Declared) && NoneOf(dirs, name, Called)) {
      var d: nat, i: nat, c: nat, j: nat :|
        First(dirs, name, Declared, d, i) && First(dirs, name, Called, c, j) && Agree(dirs, d, i, c, j);
      hide NoneIn;
      FirstIsThere(dirs[d].files, name, Declared, i);
      FirstIsThere(dirs[c].files, name, Called, j);
      assert dirs[d] in dirs && dirs[c] in dirs;
    }
  }

  // Where the readable files that declare `name` are those called by it, that is so.
  lemma ScanFindsTheSame(dirs: seq<Dir>, name: string)
    requires AllDistinctStems(dirs) && AllNamedByStem(dirs, name)
    ensures FiledAsDeclared(dirs, name)
    ensures Seen(dirs, name) == SearchDirs(dirs, name)
  {
    var d, i := FirstIsFound(dirs, name, Declared);
    LookupIsScanIff(dirs, name);
    hide Seen, SearchDirs, Matches, AllDistinctStems;
    if Seen(dirs, name).Some? {
      FirstForBoth(dirs, name, d, i);
      assert Agree(dirs, d, i, d, i);
    } else {
      NoneForBoth(dirs, name);
    }
  }

  lemma NoneForBoth(dirs: seq<Dir>, name: string)
    requires AllNamedByStem(dirs, name) && NoneOf(dirs, name, Declared)
    ensures NoneOf(dirs, name, Called)
  {
    hide Matches;
  }

  lemma FirstForBoth(dirs: seq<Dir>, name: string, d: nat, i: nat)
    requires AllNamedByStem(dirs, name) && First(dirs, name, Declared, d, i)
    ensures First(dirs, name, Called, d, i)
  {
    hide Matches;
    assert dirs[d] in dirs && dirs[d].files[i] in dirs[d].files;
    assert forall e :: e in dirs[..d] ==> e in dirs;
    NoneForBoth(dirs[..d], name);
  }

  // Of definitions that share a name only the first is kept, so a listing shows that one or none.
  lemma {:induction false} BestOfFirst(defs: seq<Definition>, name: string)
    ensures var first := Lookup(defs, name);
            Best(FirstOfName(defs), name) == if first.Some? && Admitted(first.value) then first else None
  {
    if defs != [] {
      var front, def := defs[..|defs| - 1], defs[|defs| - 1];
      BestOfFirst(front, name);
      BestSnoc(FirstOfName(front), def, name);
      NameOfLookup(front, name);
      hide Best, Admitted;
    }
  }

  lemma {:induction false} NameOfLookup(defs: seq<Definition>, name: string)
    ensures Lookup(defs, name).Some? ==> Lookup(defs, name).value.name == name
  {
    if defs != [] {
      NameOfLookup(defs[..|defs| - 1], name);
    }
  }

  // A built-in agent that is not offered as a subagent keeps its name for itself unless a project
  // redefines it.
  ghost predicate Reserved(tree: Tree, name: string) {
    IsBuiltin(name) && !IsSubagent(name) && NoneOf(tree.project, name, Called)
  }

  function ScopeOf(entry: Entry): Scope {
    match entry.source
    case Builtin => BuiltIn
    case UserDefined(scope) => scope
  }

  predicate Resolves(entry: Entry, def: Option<Definition>) {
    def == Some(Definition(entry.name, entry.description, ScopeOf(entry)))
  }

  // On the files: those of the project are filed as they declare, and so are the user's if no
  // project file declares the name and it is not built in.
  ghost predicate Filed(tree: Tree, name: string) {
    && FiledAsDeclared(tree.project, name)
    && (NoneOf(tree.project, name, Declared) && !IsBuiltin(name) ==> FiledAsDeclared(tree.user, name))
  }

  lemma BestInTree(tree: Tree, name: string)
    requires ValidTree(tree)
    ensures var project, user := Seen(tree.project, name), Seen(tree.user, name);
            && Best(Found(tree), name)
               == (if project.Some? then project else if user.Some? && !IsSubagent(name) then user else None)
    ensures AnswersFrom(tree.project, name, {Project}) && AnswersFrom(tree.user, name, {User, Bundled})
  {
    ScopesOfAnswers(tree.project, name, {Project});
    ScopesOfAnswers(tree.user, name, {User, Bundled});
    LookupAppend(AllDefinitions(tree.project), AllDefinitions(tree.user), name);
    BestOfFirst(AllDefinitions(tree.project) + AllDefinitions(tree.user), name);
    hide Lookup, Best, FirstOfName, AllDefinitions, SearchDirs, IsSubagent, DistinctStems;
  }

  // What the scan and the lookup find in directories of some scopes.
  ghost predicate AnswersFrom(dirs: seq<Dir>, name: string, scopes: set<Scope>) {
    var seen, filed := Seen(dirs, name), SearchDirs(dirs, name);
    && (seen.None? <==> NoneOf(dirs, name, Declared)) && (filed.None? <==> NoneOf(dirs, name, Called))
    && (seen.Some? ==> seen.value.name == name && seen.value.scope in scopes)
    && (filed.Some? ==> filed.value.scope in scopes)
    && (filed == seen <==> FiledAsDeclared(dirs, name))
  }

  lemma ScopesOfAnswers(dirs: seq<Dir>, name: string, scopes: set<Scope>)
    requires AllDistinctStems(dirs) && forall d :: d in dirs ==> d.scope in scopes
    ensures AnswersFrom(dirs, name, scopes)
  {
    LookupIsScanIff(dirs, name);
    var d, i := FirstIsFound(dirs, name, Declared);
    var c, j := FirstIsFound(dirs, name, Called);
    hide Seen, SearchDirs, NoneOf, NoneIn, FiledAsDeclared, AllDistinctStems;
  }

  lemma SubagentsAreBuiltin(name: string)
    requires IsSubagent(name)
    ensures IsBuiltin(name)
  {
    assert BUILTIN_NAMES[7] == SUBAGENT_NAMES[0] && BUILTIN_NAMES[8] == SUBAGENT_NAMES[1]
           && BUILTIN_NAMES[9] == SUBAGENT_NAMES[2];
  }

  // For every tree: an agent that is listed can be called by its name, with the scope and
  // description shown, exactly when the files of its name are filed as they declare and its name is
  // not reserved.
  lemma VisibleIsCallable(tree: Tree, name: string)
    requires ValidTree(tree)
    requires name in Listed(Found(tree))
    ensures var best := Best(Found(tree), name);
            Resolves(EntryFor(best, name, tree.about), ByNameInCwd(tree, name))
            <==> Filed(tree, name) && !Reserved(tree, name)
  {
    BestInTree(tree, name);
    BestIsListed(Found(tree), name);
    hide Best, Listed, Found, SearchDirs, Seen, NoneOf, FiledAsDeclared;
    if IsSubagent(name) {
      SubagentsAreBuiltin(name);
    }
    hide IsSubagent, IsBuiltin;
  }

  // And a name is listed exactly when it is a subagent's or a readable file declares it; it can be
  // called exactly when it is built in or a readable file is called by it.
  lemma CallableIsVisible(tree: Tree, name: string)
    requires ValidTree(tree)
    ensures name in Listed(Found(tree))
            <==> IsSubagent(name) || !NoneOf(tree.project, name, Declared) || !NoneOf(tree.user, name, Declared)
    ensures ByNameInCwd(tree, name).Some?
            <==> IsBuiltin(name) || !NoneOf(tree.project, name, Called) || !NoneOf(tree.user, name, Called)
  {
    BestInTree(tree, name);
    BestIsListed(Found(tree), name);
    hide Best, Listed, Found, SearchDirs, Seen, NoneOf, FiledAsDeclared, IsSubagent, IsBuiltin;
  }

  lemma {:induction false} FilteredHas(entries: seq<Entry>, toggle: map<string, bool>, e: Entry)
    ensures e in Filtered(entries, toggle) <==> e in entries && Enabled(toggle, e.name)
  {
    if entries != [] {
      FilteredHas(entries[..|entries| - 1], toggle, e);
      assert entries == entries[..|entries| - 1] + [entries[|entries| - 1]];
    }
  }

  // The promise of the listing as the user sees it, after the toggles.
  lemma EveryVisibleEntryResolves(tree: Tree, toggle: map<string, bool>, e: Entry)
    requires ValidTree(tree) && e in Filtered(AllEntries(tree), toggle)
    ensures Resolves(e, ByNameInCwd(tree, e.name)) <==> Filed(tree, e.name) && !Reserved(tree, e.name)
    ensures Enabled(toggle, e.name)
    ensures e.shadowsBuiltin <==> IsSubagent(e.name) && e.source == UserDefined(Project)
  {
    FilteredHas(AllEntries(tree), toggle, e);
    var k := EntryIndex(Found(tree), Listed(Found(tree)), tree.about, e);
    assert e.name == Listed(Found(tree))[k];
    VisibleIsCallable(tree, e.name);
    ShadowsAreProject(tree, e.name);
    hide *;
  }

  lemma EntryIndex(defs: seq<Definition>, names: seq<string>, about: string -> string, e: Entry) returns (k: nat)
    requires e in Entries(defs, names, about)
    ensures k < |names| && e == EntryFor(Best(defs, names[k]), names[k], about) && e.name == names[k]
  {
    EntriesAt(defs, names, about);
    hide Entries, Best;
    k :| 0 <= k < |names| && e == Entries(defs, names, about)[k];
  }

  lemma ShadowsAreProject(tree: Tree, name: string)
    ensures var e := EntryFor(Best(Found(tree), name), name, tree.about);
            e.shadowsBuiltin <==> IsSubagent(name) && e.source == UserDefined(Project)
  {
    BestIsListed(Found(tree), name);
    hide Best, Listed, Found, IsSubagent;
  }

  // The names that fail. A user's file declares the name of a built-in agent that is no subagent:
  // it is listed with the user's description, and the built-in agent is called.
  lemma ReservedNamesAreListed(tree: Tree, name: string)
    requires ValidTree(tree) && Reserved(tree, name)
    requires NoneOf(tree.project, name, Declared) && !NoneOf(tree.user, name, Declared)
    ensures name in Listed(Found(tree)) && Best(Found(tree), name) == Seen(tree.user, name)
    ensures ByNameInCwd(tree, name) == Some(Definition(name, tree.about(name), BuiltIn))
    ensures !Resolves(EntryFor(Best(Found(tree), name), name, tree.about), ByNameInCwd(tree, name))
  {
    CallableIsVisible(tree, name);
    BestInTree(tree, name);
    hide Best, Listed, Found, SearchDirs, Seen, NoneOf, FiledAsDeclared, IsSubagent, IsBuiltin;
  }

  // A readable file declares a name that is not built in and no readable file is called by: it is
  // listed, and the name resolves to nothing.
  lemma MisnamedFilesAreListed(tree: Tree, name: string)
    requires ValidTree(tree) && !IsBuiltin(name)
    requires !NoneOf(tree.project, name, Declared) || !NoneOf(tree.user, name, Declared)
    requires NoneOf(tree.project, name, Called) && NoneOf(tree.user, name, Called)
    ensures name in Listed(Found(tree)) && Best(Found(tree), name).Some?
    ensures ByNameInCwd(tree, name) == None
  {
    CallableIsVisible(tree, name);
    BestInTree(tree, name);
    if IsSubagent(name) {
      SubagentsAreBuiltin(name);
    }
    hide Best, Listed, Found, SearchDirs, Seen, NoneOf, FiledAsDeclared, IsSubagent, IsBuiltin;
  }

  // `codex` is a built-in agent, not a subagent: a user's own `codex` is listed and never called.
  lemma ReservedNameIsListed(about: string -> string, text: string)
    ensures var tree := Tree([], [Dir([File("codex", Some(Header("codex", text)))], User)], about);
            && ValidTree(tree)
            && Entry("codex", text, UserDefined(User), false) in AllEntries(tree)
            && ByNameInCwd(tree, "codex") == Some(Definition("codex", about("codex"), BuiltIn))
  {
    var file := File("codex", Some(Header("codex", text)));
    var tree := Tree([], [Dir([file], User)], about);
    var def := Definition("codex", text, User);
    OneFile(file, User);
    CodexIsReserved();
    hide IsSubagent, IsBuiltin;
    assert AllDefinitions([]) + [def] == [def];
    OneDefinition(def);
    EntriesAt([def], Listed([def]), about);
    assert Listed([def])[3] == "codex";
    assert AllEntries(tree)[3] == Entry("codex", text, UserDefined(User), false);
  }

  // A file whose declared name is not its stem is listed under a name that resolves to nothing.
  lemma MisnamedFileIsListed(about: string -> string, text: string)
    ensures var tree := Tree([Dir([File("planner", Some(Header("critic", text)))], Project)], [], about);
            && Entry("critic", text, UserDefined(Project), false) in AllEntries(tree)
            && ByNameInCwd(tree, "critic") == None
  {
    var file := File("planner", Some(Header("critic", text)));
    var tree := Tree([Dir([file], Project)], [], about);
    var def := Definition("critic", text, Project);
    OneFile(file, Project);
    NotBuiltin();
    hide IsSubagent, IsBuiltin;
    assert [def] + AllDefinitions([]) == [def];
    OneDefinition(def);
    EntriesAt([def], Listed([def]), about);
    assert Listed([def])[3] == "critic";
    assert AllEntries(tree)[3] == Entry("critic", text, UserDefined(Project), false);
    OneDirSearch(Dir([file], Project), "critic");
  }

  lemma OneDirSearch(dir: Dir, name: string)
    requires |dir.files| == 1 && dir.files[0].stem != name
    ensures SearchDirs([dir], name) == None
  {
    assert [dir][..0] == [] && dir.files[..0] == [];
    assert SearchDirs([], name) == None && LoadByName([], name, dir.scope) == None;
  }

  // The built-in agents and the subagents among them, by name.
  lemma NamesAre(name: string)
    ensures IsSubagent(name) <==> name == "general-purpose" || name == "explore" || name == "plan"
    ensures IsBuiltin(name)
            <==> || IsSubagent(name) || name == "qidi-build" || name == "qidi-build-concise"
                 || name == "qidi-build-plan" || name == "qidi-build-plan-no-subagents"
                 || name == "qidi-build-ask-user" || name == "codex" || name == "opencode"
                 || name == "browser-use" || name == "cf-tools-orchestrator"
  {
  }

  // Without definition files and toggles the three subagents are listed, as built in.
  lemma DefaultListing(about: string -> string)
    ensures AllEntries(Tree([], [], about))
            == [Entry("general-purpose", about("general-purpose"), Builtin, false),
                Entry("explore", about("explore"), Builtin, false),
                Entry("plan", about("plan"), Builtin, false)]
  {
    var none: seq<Definition> := [];
    assert AllDefinitions([]) == none && none + none == none && FirstOfName(none) == none;
    assert Listed(none) == ["general-purpose", "explore", "plan"];
    EntriesAt(none, Listed(none), about);
    assert forall name :: Best(none, name) == None;
  }

  lemma CodexIsReserved()
    ensures IsBuiltin("codex") && !IsSubagent("codex")
  {
    assert BUILTIN_NAMES[5] == "codex";
  }

  lemma NotBuiltin()
    ensures !IsSubagent("critic") && !IsBuiltin("critic")
  {
    var name := "critic";
    assert |name| == 6;
    assert forall k :: 0 <= k < |BUILTIN_NAMES| ==> |BUILTIN_NAMES[k]| != 6;
  }

  lemma OneFile(file: File, scope: Scope)
    requires file.parsed.Some?
    ensures AllDefinitions([Dir([file], scope)]) == [Read(file, scope)]
  {
    assert DefinitionsIn([file], scope) == [] + [Read(file, scope)];
    assert [Dir([file], scope)][..0] == [];
    assert AllDefinitions([]) + [Read(file, scope)] == [Read(file, scope)];
  }

  lemma OneDefinition(def: Definition)
    requires Admitted(def) && !IsSubagent(def.name)
    ensures FirstOfName([def]) == [def]
    ensures Listed([def]) == SUBAGENT_NAMES + [def.name] && Best([def], def.name) == Some(def)
  {
    var none: seq<Definition> := [];
    assert none + [def] == [def];
    assert FirstOfName(none) == none && Lookup(none, def.name).None?;
    FirstOfNameSnoc(none, def);
    assert FirstOfName([def]) == [def];
    assert def.name !in Listed(none);
    ListedSnoc(none, def);
    assert Listed([def]) == SUBAGENT_NAMES + [def.name];
    assert Best(none, def.name).None?;
    BestSnoc(none, def, def.name);
  }
}
