/** The walk over a Python interpreter's install (packages/agents/src/toolchains.ts, lines 156-288).

`lstat`, `readdir`, `realpath` and `readlink` are functions of the path: the tree is fixed while the walk
runs.  A directory's listing names nothing twice. */
module PythonInstall {
  import opened Basics
  import opened ToolTrust

  datatype Host = Host(
    stat: Path -> StatResult,
    list: Path -> Option<seq<Name>>,
    resolve: Path -> Option<Path>,
    readLink: Path -> Option<Path>,
    standard: Name -> bool)

  const INSTALL_MAX_ENTRIES := 200_000

  function Up(path: Path): Path {
    if path == [] then [] else path[..|path| - 1]
  }

  // ---------------------------------------------------------------- the rule

  /** The nearest directory there is, from one upwards, through its links. */
  function Nearest(host: Host, directory: Path): Option<Path>
    decreases |directory|
  {
    if host.resolve(directory).Some? then host.resolve(directory)
    else if directory == [] then None
    else Nearest(host, Up(directory))
  }

  /** Only root could create what the link leads to. */
  predicate DanglingFine(host: Host, link: Path) {
    var target := host.readLink(link);
    target.Some? &&
    var nearest := Nearest(host, Up(target.value));
    nearest.Some? && Trusted(nearest.value, Folder, host.stat)
  }

  /** What is not there is passed over; a link counts by what it leads to. */
  predicate EntryFine(host: Host, path: Path) {
    var found := host.stat(path);
    if !found.Found? then true
    else if found.status.kind == SymbolicLink then
      if host.resolve(path).Some? then Trusted(host.resolve(path).value, Any, host.stat) else DanglingFine(host, path)
    else Owned(found.status)
  }

  predicate IsDirectory(host: Host, path: Path) {
    host.stat(path).Found? && host.stat(path).status.kind == Directory
  }

  predicate Lists(host: Host, directory: Path, name: Name) {
    host.list(directory).Some? && name in host.list(directory).value
  }

  /** An entry of a directory, or when the walk is deep an entry of a directory at any depth in it. */
  predicate Reached(host: Host, directory: Path, path: Path, deep: bool) {
    && Below(directory, path, deep)
    && forall k | |directory| <= k < |path| ::
         Lists(host, path[..k], path[k]) && (k > |directory| ==> IsDirectory(host, path[..k]))
  }

  predicate Below(directory: Path, path: Path, deep: bool) {
    directory < path && (deep || |path| == |directory| + 1)
  }

  predicate PathFine(host: Host, path: Path, deep: bool) {
    EntryFine(host, path) && (deep && IsDirectory(host, path) ==> host.list(path).Some?)
  }

  /** The directory can be listed, and everything in it meets the rule. */
  ghost predicate WalkFine(host: Host, directory: Path, deep: bool) {
    host.list(directory).Some? && forall path | Reached(host, directory, path, deep) :: PathFine(host, path, deep)
  }

  lemma ReachedByName(host: Host, directory: Path, path: Path, deep: bool)
    requires Below(directory, path, deep)
    ensures var next := directory + [path[|directory|]];
      Reached(host, directory, path, deep) <==>
      && Lists(host, directory, path[|directory|])
      && (path == next || (deep && IsDirectory(host, next) && Reached(host, next, path, true)))
  {
    var d := |directory|;
    var next := directory + [path[d]];
    assert path[..d] == directory && path[..d + 1] == next;
    if |path| > d + 1 { assert next < path; } else { assert path == next; }
  }

  /** One entry, and what is in it when the walk is deep. */
  ghost predicate NameFine(host: Host, path: Path, deep: bool) {
    EntryFine(host, path) && (deep && IsDirectory(host, path) ==> WalkFine(host, path, true))
  }

  /** The rule, one directory at a time. */
  lemma WalkFineByName(host: Host, directory: Path, deep: bool)
    requires host.list(directory).Some?
    ensures WalkFine(host, directory, deep) <==>
      forall name | name in host.list(directory).value :: NameFine(host, directory + [name], deep)
  {
    if WalkFine(host, directory, deep) {
      forall name | name in host.list(directory).value ensures NameFine(host, directory + [name], deep) {
        NameFromWalk(host, directory, name, deep);
      }
    }
    if forall name | name in host.list(directory).value :: NameFine(host, directory + [name], deep) {
      forall path | Reached(host, directory, path, deep) ensures PathFine(host, path, deep) {
        ReachedByName(host, directory, path, deep);
        assert NameFine(host, directory + [path[|directory|]], deep);
      }
    }
  }

  lemma NameFromWalk(host: Host, directory: Path, name: Name, deep: bool)
    requires WalkFine(host, directory, deep) && name in host.list(directory).value
    ensures NameFine(host, directory + [name], deep)
  {
    var next := directory + [name];
    ReachedByName(host, directory, next, deep);
    assert PathFine(host, next, deep);
    if deep && IsDirectory(host, next) {
      forall path | Reached(host, next, path, true) ensures PathFine(host, path, true) {
        assert path[..|next|] == next && path[|directory|] == name;
        ReachedByName(host, directory, path, deep);
      }
    }
  }

  /** The entry itself, and what a walk from it reaches. */
  predicate FromEntry(host: Host, entry: Path, path: Path, deep: bool) {
    path == entry || (deep && IsDirectory(host, entry) && Reached(host, entry, path, true))
  }

  lemma FromEntryReached(host: Host, directory: Path, name: Name, path: Path, deep: bool)
    requires Lists(host, directory, name) && FromEntry(host, directory + [name], path, deep)
    ensures Reached(host, directory, path, deep) && path[|directory|] == name
  {
    var next := directory + [name];
    assert path[..|next|] == next && path[|directory|] == name;
    ReachedByName(host, directory, path, deep);
  }

  lemma BelowByName(directory: Path, name: Name, path: Path, deep: bool)
    requires path == directory + [name] || (deep && Below(directory + [name], path, true))
    ensures Below(directory, path, deep) && path[|directory|] == name
  {
    var next := directory + [name];
    assert path[..|next|] == next && path[..|directory|] == directory;
  }

  lemma BelowOne(directory: Path, name: Name, other: Name, path: Path)
    requires name != other && Below(directory + [name], path, true)
    ensures !Below(directory + [other], path, true)
  {
    assert path[|directory|] == (directory + [name])[|directory|] == name;
    assert (directory + [other])[|directory|] == other;
  }

  ghost predicate NamesOnce(host: Host) {
    forall d, i, j | host.list(d).Some? && 0 <= i < j < |host.list(d).value| ::
      host.list(d).value[i] != host.list(d).value[j]
  }

  // ---------------------------------------------------------------- an install

  const LIB: Name := "lib"
  const BIN: Name := "bin"

  function Prefix(interpreter: Path): Path {
    Up(Up(interpreter))
  }

  function Library(interpreter: Path): Path {
    Prefix(interpreter) + [LIB]
  }

  function Standards(host: Host, names: seq<Name>): seq<Name> {
    if names == [] then []
    else
      var front, last := Standards(host, names[..|names| - 1]), names[|names| - 1];
      if host.standard(last) then front + [last] else front
  }

  lemma {:induction false} StandardsAre(host: Host, names: seq<Name>)
    ensures forall name :: name in Standards(host, names) <==> name in names && host.standard(name)
    ensures (forall i, j | 0 <= i < j < |names| :: names[i] != names[j]) ==>
      forall i, j | 0 <= i < j < |Standards(host, names)| :: Standards(host, names)[i] != Standards(host, names)[j]
  {
    if names != [] {
      StandardsAre(host, names[..|names| - 1]);
      assert names == names[..|names| - 1] + [names[|names| - 1]];
    }
  }

  /** A name in `lib` that is a standard library's. */
  predicate IsStandard(host: Host, interpreter: Path, name: Name) {
    Lists(host, Library(interpreter), name) && host.standard(name)
  }

  ghost predicate StandardFine(host: Host, directory: Path) {
    Trusted(directory, Folder, host.stat) && WalkFine(host, directory, true)
  }

  /** The prefix, `lib` and each standard library, of which there is one at least, are trusted; and so is
      every entry of a standard library at any depth, and every one directly in `lib`, `bin` and the
      prefix. */
  ghost predicate InstallFine(host: Host, interpreter: Path) {
    var prefix, library := Prefix(interpreter), Library(interpreter);
    && Trusted(prefix, Folder, host.stat) && Trusted(library, Folder, host.stat)
    && (exists name :: IsStandard(host, interpreter, name))
    && (forall name | IsStandard(host, interpreter, name) :: StandardFine(host, library + [name]))
    && PlacesFine(host, prefix)
  }

  ghost predicate PlacesFine(host: Host, prefix: Path) {
    WalkFine(host, prefix + [LIB], false) && WalkFine(host, prefix + [BIN], false) && WalkFine(host, prefix, false)
  }

  ghost predicate InPlaces(host: Host, prefix: Path, path: Path) {
    || Reached(host, prefix + [LIB], path, false) || Reached(host, prefix + [BIN], path, false)
    || Reached(host, prefix, path, false)
  }

  ghost predicate LibrariesFine(host: Host, library: Path, names: seq<Name>) {
    forall name | name in names :: WalkFine(host, library + [name], true)
  }

  ghost predicate InLibraries(host: Host, library: Path, names: seq<Name>, path: Path) {
    exists name :: name in names && Reached(host, library + [name], path, true)
  }

  /** The entries that are looked at. */
  ghost predicate Walked(host: Host, interpreter: Path, path: Path) {
    WalkedBelow(host, interpreter, path) || InPlaces(host, Prefix(interpreter), path)
  }

  ghost predicate WalkedBelow(host: Host, interpreter: Path, path: Path) {
    exists name :: IsStandard(host, interpreter, name) && Reached(host, Library(interpreter) + [name], path, true)
  }

  // ---------------------------------------------------------------- the walk

  class Install {
    const host: Host
    var seen: nat
    ghost var visited: set<Path>

    /** Each entry is counted once. */
    ghost predicate Valid() reads this {
      |visited| == seen
    }

    constructor (host: Host)
      ensures Valid() && this.host == host && seen == 0 && visited == {}
    {
      this.host := host;
      seen := 0;
      visited := {};
    }

    /** `danglingLinkProblem`. */
    method DanglingLinkProblem(link: Path) returns (problem: Option<Code>)
      ensures problem.None? <==> DanglingFine(host, link)
    {
      var target := host.readLink(link);
      if target.None? { return Some(Linked); }
      var directory := Up(target.value);
      while true
        invariant Nearest(host, directory) == Nearest(host, Up(target.value))
        decreases |directory|
      {
        var nearest := host.resolve(directory);
        if nearest.Some? {
          problem := TrustedPathProblem(nearest, Folder, host.stat);
          return;
        }
        if directory == [] { return Some(Linked); }
        directory := Up(directory);
      }
    }

    method EntryProblem(path: Path) returns (problem: Option<Code>)
      requires Valid() && path !in visited
      modifies this
      ensures Valid() && visited == old(visited) + {path} && seen == old(seen) + 1
      ensures problem.None? <==> seen <= INSTALL_MAX_ENTRIES && EntryFine(host, path)
    {
      seen := seen + 1;
      visited := visited + {path};
      if seen > INSTALL_MAX_ENTRIES { return Some(NotRegular); }
      var found := host.stat(path);
      if !found.Found? { return None; }
      if found.status.kind == SymbolicLink {
        var target := host.resolve(path);
        if target.None? {
          problem := DanglingLinkProblem(path);
        } else {
          problem := TrustedPathProblem(target, Any, host.stat);
        }
        return;
      }
      return ComponentProblem(found.status, Any);
    }

    /** One entry of a directory; in a deep walk, and if it is a directory, what is below it too. */
    method WalkEntry(path: Path, deep: bool) returns (problem: Option<Code>)
      requires Valid() && seen <= INSTALL_MAX_ENTRIES && NamesOnce(host)
      requires path !in visited && (deep ==> forall p | p in visited :: !Below(path, p, true))
      modifies this
      ensures Valid() && old(visited) <= visited && old(seen) <= seen
      ensures forall p | p in visited :: p in old(visited) || FromEntry(host, path, p, deep)
      ensures problem.None? ==> seen <= INSTALL_MAX_ENTRIES && NameFine(host, path, deep)
      ensures problem.Some? ==> seen > INSTALL_MAX_ENTRIES || !NameFine(host, path, deep)
      decreases INSTALL_MAX_ENTRIES - seen, 0
    {
      problem := EntryProblem(path);
      if problem.None? && deep && IsDirectory(host, path) {
        problem := Walk(path, true);
      }
    }

    method Walk(directory: Path, deep: bool) returns (problem: Option<Code>)
      requires Valid() && seen <= INSTALL_MAX_ENTRIES && NamesOnce(host)
      requires forall p | p in visited :: !Below(directory, p, deep)
      modifies this
      ensures Valid() && old(visited) <= visited && old(seen) <= seen
      ensures forall p | p in visited :: p in old(visited) || Reached(host, directory, p, deep)
      ensures problem.None? ==> seen <= INSTALL_MAX_ENTRIES && WalkFine(host, directory, deep)
      ensures problem.Some? ==> seen > INSTALL_MAX_ENTRIES || !WalkFine(host, directory, deep)
      decreases INSTALL_MAX_ENTRIES - seen, 1
    {
      var listed := host.list(directory);
      if listed.None? { return Some(UntrustedOwner); }
      WalkFineByName(host, directory, deep);
      for k := 0 to |listed.value|
        invariant Valid() && seen <= INSTALL_MAX_ENTRIES && old(seen) <= seen && old(visited) <= visited
        invariant forall p | p in visited ::
          p in old(visited) || (Reached(host, directory, p, deep) && p[|directory|] in listed.value[..k])
        invariant forall j | 0 <= j < k :: NameFine(host, directory + [listed.value[j]], deep)
      {
        var path := directory + [listed.value[k]];
        forall p | p in visited ensures p != path && (deep ==> !Below(path, p, true)) {
          if p == path || (deep && Below(path, p, true)) {
            BelowByName(directory, listed.value[k], p, deep);
            assert false;
          }
        }
        problem := WalkEntry(path, deep);
        forall p | p in visited && FromEntry(host, path, p, deep)
          ensures Reached(host, directory, p, deep) && p[|directory|] == listed.value[k]
        {
          FromEntryReached(host, directory, listed.value[k], p, deep);
        }
        if problem.Some? { return; }
      }
      return None;
    }

    /** Each standard library, at any depth. */
    method WalkStandards(library: Path, names: seq<Name>) returns (problem: Option<Code>)
      requires Valid() && seen == 0 && visited == {} && NamesOnce(host)
      requires forall i, j | 0 <= i < j < |names| :: names[i] != names[j]
      modifies this
      ensures Valid()
      ensures forall p | p in visited :: InLibraries(host, library, names, p)
      ensures problem.None? ==> seen <= INSTALL_MAX_ENTRIES && LibrariesFine(host, library, names)
      ensures problem.Some? ==> seen > INSTALL_MAX_ENTRIES || !LibrariesFine(host, library, names)
    {
      for k := 0 to |names|
        invariant Valid() && seen <= INSTALL_MAX_ENTRIES
        invariant forall p | p in visited :: exists j :: 0 <= j < k && Reached(host, library + [names[j]], p, true)
        invariant forall j | 0 <= j < k :: WalkFine(host, library + [names[j]], true)
      {
        forall p | p in visited ensures !Below(library + [names[k]], p, true) {
          var j :| 0 <= j < k && Reached(host, library + [names[j]], p, true);
          BelowOne(library, names[j], names[k], p);
        }
        problem := Walk(library + [names[k]], true);
        if problem.Some? {
          assert names[k] in names;
          return;
        }
      }
      return None;
    }

    /** What is directly in `lib`, in `bin` and in the prefix, after the standard libraries. */
    method WalkPlaces(prefix: Path) returns (problem: Option<Code>)
      requires Valid() && seen <= INSTALL_MAX_ENTRIES && NamesOnce(host)
      requires forall p | p in visited :: |p| > |prefix| + 2 && p[|prefix|] == LIB
      modifies this
      ensures Valid()
      ensures forall p | p in visited :: p in old(visited) || InPlaces(host, prefix, p)
      ensures problem.None? ==> seen <= INSTALL_MAX_ENTRIES && PlacesFine(host, prefix)
      ensures problem.Some? ==> seen > INSTALL_MAX_ENTRIES || !PlacesFine(host, prefix)
    {
      problem := Walk(prefix + [LIB], false);
      if problem.None? {
        assert forall p | p in visited :: |p| >= |prefix| + 2 && p[|prefix|] == LIB;
        problem := Walk(prefix + [BIN], false);
        if problem.None? {
          assert forall p | p in visited :: |p| >= |prefix| + 2;
          problem := Walk(prefix, false);
        }
      }
    }

    /** The rest of `pythonInstallProblem`, once the directories are trusted. */
    method WalkAll(prefix: Path, names: seq<Name>) returns (problem: Option<Code>)
      requires Valid() && seen == 0 && visited == {} && NamesOnce(host)
      requires forall i, j | 0 <= i < j < |names| :: names[i] != names[j]
      modifies this
      ensures Valid()
      ensures forall p | p in visited :: InPlaces(host, prefix, p) || InLibraries(host, prefix + [LIB], names, p)
      ensures problem.None? ==>
        seen <= INSTALL_MAX_ENTRIES && PlacesFine(host, prefix) && LibrariesFine(host, prefix + [LIB], names)
      ensures problem.Some? ==>
        seen > INSTALL_MAX_ENTRIES || !PlacesFine(host, prefix) || !LibrariesFine(host, prefix + [LIB], names)
    {
      problem := WalkStandards(prefix + [LIB], names);
      if problem.None? {
        forall p | p in visited ensures |p| > |prefix| + 2 && p[|prefix|] == LIB {
          var name :| name in names && Reached(host, prefix + [LIB] + [name], p, true);
          assert p[..|prefix| + 2] == prefix + [LIB] + [name];
        }
        problem := WalkPlaces(prefix);
      }
    }
  }

  /** `pythonInstallProblem`: what it accepts meets the rule; and where there are no more entries to look at
      than it counts to, it accepts exactly what does. */
  method PythonInstallProblem(host: Host, interpreter: Path, ghost all: set<Path>) returns (problem: Option<Code>)
    requires NamesOnce(host)
    ensures problem.None? ==> InstallFine(host, interpreter)
    ensures |all| <= INSTALL_MAX_ENTRIES && (forall p | Walked(host, interpreter, p) :: p in all) ==>
      (problem.None? <==> InstallFine(host, interpreter))
  {
    var prefix, library := Prefix(interpreter), Library(interpreter);
    problem := TrustedPathProblem(Some(prefix), Folder, host.stat);
    if problem.Some? { return; }
    problem := TrustedPathProblem(Some(library), Folder, host.stat);
    if problem.Some? { return; }
    var listed := host.list(library);
    var names := if listed.None? then [] else Standards(host, listed.value);
    if listed.Some? { StandardsAre(host, listed.value); }
    assert forall name :: name in names <==> IsStandard(host, interpreter, name);
    if names == [] { return Some(Missing); }
    assert names[0] in names;
    for k := 0 to |names|
      invariant forall j | 0 <= j < k :: Trusted(library + [names[j]], Folder, host.stat)
    {
      problem := TrustedPathProblem(Some(library + [names[k]]), Folder, host.stat);
      if problem.Some? {
        assert names[k] in names && !StandardFine(host, library + [names[k]]);
        return;
      }
    }
    var install := new Install(host);
    problem := install.WalkAll(prefix, names);
    if |all| <= INSTALL_MAX_ENTRIES && forall p | Walked(host, interpreter, p) :: p in all {
      SubsetSize(install.visited, all);
    }
  }
}
