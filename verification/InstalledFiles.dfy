/** What the rule for a Python install is for (packages/agents/src/toolchains.ts, lines 197-206): what it
accepts, nobody but root can change, and nothing new can appear there. */
module InstalledFiles {
  import opened Basics
  import opened ToolTrust
  import opened TrustedFiles
  import opened PythonInstall

  predicate IsLink(fs: Files, path: Path) {
    Resolve(fs, path).Some? && fs[Resolve(fs, path).value].content.Target?
  }

  predicate IsFolder(fs: Files, path: Path) {
    Resolve(fs, path).Some? && fs[Resolve(fs, path).value].content.Entries?
  }

  /** No component before the last is a link. */
  predicate LinkFree(fs: Files, path: Path) {
    forall n | 0 <= n < |path| :: !IsLink(fs, path[..n])
  }

  predicate ListsAll(host: Host, fs: Files, path: Path, name: Name) {
    host.list(path).Some? && HasEntry(fs, path, name) ==> name in host.list(path).value
  }

  predicate HasEntry(fs: Files, path: Path, name: Name) {
    Resolve(fs, path).Some? && Entry(fs, Resolve(fs, path).value, name).Some?
  }

  /** `lstat` and `readdir` tell what is in the file system, but a listing may also name what has gone since;
      of a path through a link they may tell anything. */
  ghost predicate Mirrors(host: Host, fs: Files) {
    && (forall path | LinkFree(fs, path) :: host.stat(path) == StatOf(fs, path))
    && (forall path, name | LinkFree(fs, path) :: ListsAll(host, fs, path, name))
  }

  lemma LinkFreePrefix(fs: Files, path: Path, n: nat)
    requires n <= |path| && forall m | 0 <= m < n :: !IsLink(fs, path[..m])
    ensures LinkFree(fs, path[..n])
  {
    assert forall m | 0 <= m < n :: path[..n][..m] == path[..m];
  }

  lemma {:induction false} TrustedMirrored(host: Host, fs: Files, path: Path, wanted: Wanted, n: nat)
    requires Mirrors(host, fs) && Trusted(path, wanted, host.stat) && n <= |path|
    ensures forall m | 0 <= m <= n :: host.stat(path[..m]) == StatOf(fs, path[..m]) && !IsLink(fs, path[..m])
  {
    if n > 0 { TrustedMirrored(host, fs, path, wanted, n - 1); }
    LinkFreePrefix(fs, path, n);
    assert Fine(path, n, wanted, host.stat);
  }

  /** What is trusted by what the host tells is trusted by what there is. */
  lemma TrustedThere(host: Host, fs: Files, path: Path, wanted: Wanted)
    requires Mirrors(host, fs) && Trusted(path, wanted, host.stat)
    ensures Trusted(path, wanted, p => StatOf(fs, p)) && LinkFree(fs, path)
  {
    TrustedMirrored(host, fs, path, wanted, |path|);
    var stat := p => StatOf(fs, p);
    forall n | 0 <= n <= |path| ensures Fine(path, n, wanted, stat) {
      assert Fine(path, n, wanted, host.stat);
    }
  }

  lemma AnyIsTrusted(fs: Files, path: Path)
    requires Trusted(path, Folder, p => StatOf(fs, p))
    ensures Trusted(path, Any, p => StatOf(fs, p)) && !IsLink(fs, path)
  {
    assert path[..|path|] == path;
    var stat := p => StatOf(fs, p);
    forall n | 0 <= n <= |path| ensures Fine(path, n, Any, stat) {
      assert Fine(path, n, Folder, stat);
    }
    assert Fine(path, |path|, Folder, stat);
  }

  lemma ReachedMore(host: Host, top: Path, path: Path)
    requires top < path && Lists(host, Up(path), path[|path| - 1])
    requires Up(path) != top ==> Reached(host, top, Up(path), true) && IsDirectory(host, Up(path))
    requires top <= Up(path)
    ensures Reached(host, top, path, true)
  {
    var parent := Up(path);
    forall k | |top| <= k < |path|
      ensures Lists(host, path[..k], path[k]) && (k > |top| ==> IsDirectory(host, path[..k]))
    {
      if k < |parent| { assert path[..k] == parent[..k] && path[k] == parent[k]; } else { assert path[..k] == parent; }
    }
  }

  lemma TrustedMore(fs: Files, path: Path)
    requires path != [] && Trusted(Up(path), Any, p => StatOf(fs, p))
    requires Resolve(fs, path).Some? && Owned(StatusOf(fs[Resolve(fs, path).value]))
    ensures Trusted(path, Any, p => StatOf(fs, p))
  {
    var parent := Up(path);
    var stat := p => StatOf(fs, p);
    forall n | 0 <= n <= |path| ensures Fine(path, n, Any, stat) {
      if n < |path| {
        assert path[..n] == parent[..n] && Fine(parent, n, Any, stat);
      } else {
        assert path[..n] == path;
      }
    }
  }

  lemma ParentIsFolder(fs: Files, path: Path)
    requires path != [] && Resolve(fs, path).Some?
    ensures IsFolder(fs, Up(path)) && HasEntry(fs, Up(path), path[|path| - 1])
  {}

  lemma LinkFreeMore(fs: Files, path: Path)
    requires path != [] && LinkFree(fs, Up(path)) && !IsLink(fs, Up(path))
    ensures LinkFree(fs, path)
  {
    forall n | 0 <= n < |path| ensures !IsLink(fs, path[..n]) {
      if n < |path| - 1 { assert path[..n] == Up(path)[..n]; } else { assert path[..n] == Up(path); }
    }
  }

  /** What there is below a standard library, the walk reaches. */
  lemma {:induction false} BelowReached(host: Host, fs: Files, top: Path, path: Path)
    requires Mirrors(host, fs) && StandardFine(host, top) && top <= path && Resolve(fs, path).Some?
    ensures LinkFree(fs, path) && (!IsLink(fs, path) ==> Trusted(path, Any, p => StatOf(fs, p)))
    ensures path != top ==> Reached(host, top, path, true)
    decreases |path|
  {
    if path == top {
      TrustedThere(host, fs, top, Folder);
      AnyIsTrusted(fs, top);
    } else {
      var parent := Up(path);
      ParentIsFolder(fs, path);
      BelowReached(host, fs, top, parent);
      LinkFreeMore(fs, path);
      ParentListed(host, fs, top, parent);
      assert ListsAll(host, fs, parent, path[|path| - 1]);
      ReachedMore(host, top, path);
      assert PathFine(host, path, true);
      if !IsLink(fs, path) { TrustedMore(fs, path); }
    }
  }

  lemma ParentListed(host: Host, fs: Files, top: Path, parent: Path)
    requires Mirrors(host, fs) && StandardFine(host, top) && LinkFree(fs, parent) && IsFolder(fs, parent)
    requires parent == top || Reached(host, top, parent, true)
    ensures host.list(parent).Some? && IsDirectory(host, parent)
  {
    assert host.stat(parent) == StatOf(fs, parent);
    if parent != top { assert PathFine(host, parent, true); }
  }

  // ---------------------------------------------------------------- main results

  /** Whatever accounts other than root do, everything in a standard library of an install that meets the
      rule stays as it is; and so does what a link in it leads to. */
  lemma InstallStays(host: Host, fs: Files, interpreter: Path, rules: Rules, name: Name, path: Path)
    requires Mirrors(host, fs) && InstallFine(host, interpreter) && IsStandard(host, interpreter, name)
    requires Library(interpreter) + [name] <= path && Resolve(fs, path).Some?
    ensures !IsLink(fs, path) ==> Stays(rules, fs, path)
    ensures IsLink(fs, path) && host.resolve(path).Some? ==>
      var target := host.resolve(path).value; Resolve(fs, target).Some? && Stays(rules, fs, target)
  {
    var top := Library(interpreter) + [name];
    assert StandardFine(host, top);
    BelowReached(host, fs, top, path);
    if !IsLink(fs, path) {
      AcceptedStays(rules, fs, path, Any);
    } else if host.resolve(path).Some? {
      if path == top {
        TrustedThere(host, fs, top, Folder);
        AnyIsTrusted(fs, top);
        assert false;
      }
      var target := host.resolve(path).value;
      assert PathFine(host, path, true) && host.stat(path) == StatOf(fs, path);
      TrustedThere(host, fs, target, Any);
      AcceptedStays(rules, fs, target, Any);
    }
  }

  /** Every entry of a directory leads to a node. */
  predicate Whole(fs: Files) {
    forall d, name | d in fs && fs[d].content.Entries? && name in fs[d].content.names :: fs[d].content.names[name] in fs
  }

  lemma {:induction false} LinkKeepsTarget(rules: Rules, fs: Files, run: Run, id: Id)
    requires Possible(rules, fs, run) && id in fs && fs[id].content.Target?
    ensures id in After(rules, fs, run) && After(rules, fs, run)[id].content == fs[id].content
    decreases |run|
  {
    if run != [] {
      LinkKept(rules, fs, run[0].0, run[0].1, id);
      LinkKeepsTarget(rules, Apply(rules, fs, run[0].0, run[0].1), run[1..], id);
    }
  }

  lemma LinkKept(rules: Rules, fs: Files, user: User, op: Op, id: Id)
    requires Enabled(rules, fs, user, op) && id in fs && fs[id].content.Target?
    ensures id in Apply(rules, fs, user, op) && Apply(rules, fs, user, op)[id].content == fs[id].content
  {}

  lemma FolderKeeps(rules: Rules, fs: Files, path: Path, run: Run, name: Name)
    requires Whole(fs) && Resolve(fs, path).Some? && Possible(rules, fs, run)
    requires IsLink(fs, path) || Stays(rules, fs, path)
    requires Resolve(After(rules, fs, run), path) == Resolve(fs, path)
    requires Entry(After(rules, fs, run), Resolve(fs, path).value, name).Some?
    ensures Entry(fs, Resolve(fs, path).value, name) == Entry(After(rules, fs, run), Resolve(fs, path).value, name)
  {
    var id := Resolve(fs, path).value;
    if IsLink(fs, path) {
      LinkKeepsTarget(rules, fs, run, id);
      assert false;
    } else {
      assert StaysAfter(rules, fs, path, run);
    }
  }

  /** Nor can anything appear in it: what a path below a standard library names after those steps, it named
      before. */
  lemma {:induction false} NothingAppears(host: Host, fs: Files, interpreter: Path, rules: Rules, name: Name,
                                          path: Path, run: Run)
    requires Mirrors(host, fs) && Whole(fs) && InstallFine(host, interpreter) && IsStandard(host, interpreter, name)
    requires Library(interpreter) + [name] <= path && Possible(rules, fs, run)
    requires Resolve(After(rules, fs, run), path).Some?
    ensures Resolve(After(rules, fs, run), path) == Resolve(fs, path)
    decreases |path|
  {
    var top := Library(interpreter) + [name];
    if path == top {
      assert StandardFine(host, top);
      TrustedThere(host, fs, top, Folder);
      AcceptedStays(rules, fs, top, Folder);
      assert StaysAfter(rules, fs, top, run);
    } else {
      var parent := Up(path);
      NothingAppears(host, fs, interpreter, rules, name, parent, run);
      InstallStays(host, fs, interpreter, rules, name, parent);
      FolderKeeps(rules, fs, parent, run, path[|path| - 1]);
    }
  }

  // ---------------------------------------------------------------- a link to nothing

  /** `realpath` of a path without links is the path, when there is something at it. */
  ghost predicate ResolvesPlain(host: Host, fs: Files) {
    forall path | LinkFree(fs, path) && !IsLink(fs, path) ::
      host.resolve(path) == if Resolve(fs, path).Some? then Some(path) else None
  }

  lemma {:induction false} NearestAbove(host: Host, fs: Files, path: Path) returns (n: nat)
    requires ResolvesPlain(host, fs) && LinkFree(fs, path) && !IsLink(fs, path) && Nearest(host, path).Some?
    ensures n <= |path| && Nearest(host, path) == Some(path[..n]) && Resolve(fs, path[..n]).Some?
    ensures n < |path| ==> Resolve(fs, path[..n + 1]).None?
    decreases |path|
  {
    if host.resolve(path).Some? {
      n := |path|;
      assert path[..n] == path;
    } else {
      UpPlain(fs, path);
      n := NearestAbove(host, fs, Up(path));
      UpSlices(path, n);
    }
  }

  lemma UpPlain(fs: Files, path: Path)
    requires path != [] && LinkFree(fs, path)
    ensures LinkFree(fs, Up(path)) && !IsLink(fs, Up(path))
  {
    LinkFreePrefix(fs, path, |path| - 1);
  }

  lemma UpSlices(path: Path, n: nat)
    requires n < |path|
    ensures Up(path)[..n] == path[..n]
    ensures path[..n + 1] == if n + 1 < |path| then Up(path)[..n + 1] else path
  {}

  lemma {:induction false} NothingBelow(fs: Files, path: Path, n: nat)
    requires n <= |path| && Resolve(fs, path[..n]).None?
    ensures Resolve(fs, path).None?
    decreases |path|
  {
    if n == |path| {
      assert path[..n] == path;
    } else {
      assert Up(path)[..n] == path[..n];
      NothingBelow(fs, Up(path), n);
    }
  }

  lemma NoNewEntry(rules: Rules, fs: Files, run: Run, path: Path, n: nat)
    requires Whole(fs) && Possible(rules, fs, run) && n < |path|
    requires Resolve(fs, path[..n]).Some? && Stays(rules, fs, path[..n]) && Resolve(fs, path[..n + 1]).None?
    ensures Resolve(After(rules, fs, run), path).None?
  {
    assert StaysAfter(rules, fs, path[..n], run);
    assert path[..n + 1][..n] == path[..n];
    NothingBelow(After(rules, fs, run), path, n + 1);
  }

  /** What an accepted link to nothing leads to, nobody but root can create (for a target without links). */
  lemma DanglingStays(host: Host, fs: Files, rules: Rules, link: Path, target: Path, run: Run)
    requires Mirrors(host, fs) && ResolvesPlain(host, fs) && Whole(fs) && Possible(rules, fs, run)
    requires DanglingFine(host, link) && host.readLink(link) == Some(target)
    requires target != [] && LinkFree(fs, target) && Resolve(fs, target).None?
    ensures Resolve(After(rules, fs, run), target).None?
  {
    var above := Up(target);
    UpPlain(fs, target);
    var n := NearestAbove(host, fs, above);
    UpSlices(target, n);
    TrustedThere(host, fs, target[..n], Folder);
    AcceptedStays(rules, fs, target[..n], Folder);
    NoNewEntry(rules, fs, run, target, n);
  }

  // ---------------------------------------------------------------- what is accepted, where there are no links

  /** On the way to `lib`, in or below a standard library, or directly in `lib`, in `bin` or in the prefix. */
  ghost predicate Inside(host: Host, interpreter: Path, path: Path) {
    var prefix := Up(Up(interpreter));
    || path <= prefix + ["lib"]
    || (exists name :: host.standard(name) && prefix + ["lib", name] <= path)
    || (path != [] && (Up(path) == prefix + ["lib"] || Up(path) == prefix + ["bin"] || Up(path) == prefix))
  }

  /** Nothing there is a link, and what is there is root's and shared with nobody. */
  ghost predicate NoLinks(host: Host, fs: Files, interpreter: Path) {
    forall path | Inside(host, interpreter, path) :: !IsLink(fs, path)
  }

  ghost predicate AllOwned(host: Host, fs: Files, interpreter: Path) {
    forall path | Inside(host, interpreter, path) && Resolve(fs, path).Some? ::
      fs[Resolve(fs, path).value].uid == 0 && fs[Resolve(fs, path).value].mode & 0x12 == 0
  }

  /** The directories are there, one standard library at least among them, and can be listed. */
  ghost predicate Complete(host: Host, fs: Files, interpreter: Path) {
    var prefix := Up(Up(interpreter));
    && IsFolder(fs, prefix) && IsFolder(fs, prefix + ["lib"]) && IsFolder(fs, prefix + ["bin"])
    && (exists name :: IsStandard(host, interpreter, name))
    && (forall name | IsStandard(host, interpreter, name) :: IsFolder(fs, prefix + ["lib", name]))
    && (forall path | IsFolder(fs, path) :: host.list(path).Some?)
  }

  lemma InsidePrefix(host: Host, interpreter: Path, path: Path, n: nat)
    requires Inside(host, interpreter, path) && n <= |path|
    ensures Inside(host, interpreter, path[..n])
  {
    var library := Up(Up(interpreter)) + ["lib"];
    if path <= library {
    } else if name :| host.standard(name) && Up(Up(interpreter)) + ["lib", name] <= path {
      assert Up(Up(interpreter)) + ["lib", name] == library + [name];
      if n <= |library| { assert path[..n] == library[..n]; } else { assert library + [name] <= path[..n]; }
    } else {
      ChildPrefix(host, interpreter, path, n);
    }
  }

  lemma ChildPrefix(host: Host, interpreter: Path, path: Path, n: nat)
    requires path != [] && n <= |path|
    requires var prefix := Up(Up(interpreter));
      Up(path) == prefix + ["lib"] || Up(path) == prefix + ["bin"] || Up(path) == prefix
    ensures Inside(host, interpreter, path[..n])
  {
    var prefix := Up(Up(interpreter));
    if n == |path| {
      assert path[..n] == path;
    } else {
      assert path[..n] == Up(path)[..n];
      if n == |prefix| + 1 { assert Up(path[..n]) == prefix; } else { assert path[..n] == prefix[..n]; }
    }
  }

  lemma InsideLinkFree(host: Host, fs: Files, interpreter: Path, path: Path)
    requires NoLinks(host, fs, interpreter) && Inside(host, interpreter, path) && Mirrors(host, fs)
    ensures LinkFree(fs, path) && host.stat(path) == StatOf(fs, path)
  {
    forall n | 0 <= n < |path| ensures !IsLink(fs, path[..n]) { InsidePrefix(host, interpreter, path, n); }
  }

  lemma InsideOwned(host: Host, fs: Files, interpreter: Path, path: Path)
    requires NoLinks(host, fs, interpreter) && AllOwned(host, fs, interpreter) && Mirrors(host, fs)
    requires Inside(host, interpreter, path)
    ensures host.stat(path) == StatOf(fs, path) && EntryFine(host, path)
    ensures Resolve(fs, path).Some? ==> host.stat(path).Found? && Owned(host.stat(path).status)
  {
    InsideLinkFree(host, fs, interpreter, path);
  }

  lemma {:induction false} ResolvesAbove(fs: Files, path: Path, n: nat)
    requires Resolve(fs, path).Some? && n <= |path|
    ensures Resolve(fs, path[..n]).Some?
    decreases |path|
  {
    if n == |path| {
      assert path[..n] == path;
    } else {
      ResolvesAbove(fs, Up(path), n);
      assert path[..n] == Up(path)[..n];
    }
  }

  lemma FolderTrusted(host: Host, fs: Files, interpreter: Path, path: Path)
    requires NoLinks(host, fs, interpreter) && AllOwned(host, fs, interpreter) && Mirrors(host, fs)
    requires Inside(host, interpreter, path) && IsFolder(fs, path)
    ensures Trusted(path, Folder, host.stat)
  {
    forall n | 0 <= n <= |path| ensures Fine(path, n, Folder, host.stat) {
      InsidePrefix(host, interpreter, path, n);
      ResolvesAbove(fs, path, n);
      InsideOwned(host, fs, interpreter, path[..n]);
      if n == |path| { assert path[..n] == path; }
    }
  }

  lemma WalkAccepts(host: Host, fs: Files, interpreter: Path, directory: Path, deep: bool)
    requires NoLinks(host, fs, interpreter) && AllOwned(host, fs, interpreter) && Mirrors(host, fs)
    requires Complete(host, fs, interpreter) && IsFolder(fs, directory)
    requires forall path | Below(directory, path, deep) :: Inside(host, interpreter, path)
    ensures WalkFine(host, directory, deep)
  {
    forall path | Reached(host, directory, path, deep) ensures PathFine(host, path, deep) {
      InsideOwned(host, fs, interpreter, path);
    }
  }

  lemma BelowInside(host: Host, interpreter: Path, name: Name)
    requires host.standard(name)
    ensures forall path | Below(Library(interpreter) + [name], path, true) :: Inside(host, interpreter, path)
  {
    assert Library(interpreter) + [name] == Up(Up(interpreter)) + ["lib", name];
  }

  lemma ChildInside(host: Host, interpreter: Path, directory: Path)
    requires var prefix := Up(Up(interpreter));
      directory == prefix + ["lib"] || directory == prefix + ["bin"] || directory == prefix
    ensures forall path | Below(directory, path, false) :: Inside(host, interpreter, path)
  {
    forall path | Below(directory, path, false) ensures Inside(host, interpreter, path) {
      assert Up(path) == directory;
    }
  }

  lemma OwnedIsAccepted(host: Host, fs: Files, interpreter: Path)
    requires Mirrors(host, fs) && NoLinks(host, fs, interpreter) && Complete(host, fs, interpreter)
    requires AllOwned(host, fs, interpreter)
    ensures InstallFine(host, interpreter)
  {
    var prefix, library := Prefix(interpreter), Library(interpreter);
    assert prefix <= library;
    FolderTrusted(host, fs, interpreter, prefix);
    FolderTrusted(host, fs, interpreter, library);
    forall name | IsStandard(host, interpreter, name) ensures StandardFine(host, library + [name]) {
      assert library + [name] == prefix + ["lib", name];
      FolderTrusted(host, fs, interpreter, library + [name]);
      BelowInside(host, interpreter, name);
      WalkAccepts(host, fs, interpreter, library + [name], true);
    }
    ChildInside(host, interpreter, prefix + [LIB]);
    ChildInside(host, interpreter, prefix + [BIN]);
    ChildInside(host, interpreter, prefix);
    WalkAccepts(host, fs, interpreter, prefix + [LIB], false);
    WalkAccepts(host, fs, interpreter, prefix + [BIN], false);
    WalkAccepts(host, fs, interpreter, prefix, false);
  }

  lemma ChildAccepted(host: Host, fs: Files, interpreter: Path, path: Path)
    requires Mirrors(host, fs) && NoLinks(host, fs, interpreter) && Inside(host, interpreter, path)
    requires path != [] && Resolve(fs, path).Some? && WalkFine(host, Up(path), false)
    ensures Owned(StatusOf(fs[Resolve(fs, path).value]))
  {
    var parent := Up(path);
    InsideLinkFree(host, fs, interpreter, path);
    ParentIsFolder(fs, path);
    LinkFreePrefix(fs, path, |parent|);
    assert ListsAll(host, fs, parent, path[|path| - 1]);
    forall k | |parent| <= k < |path| ensures Lists(host, path[..k], path[k]) { assert path[..k] == parent; }
    assert Reached(host, parent, path, false);
    assert PathFine(host, path, false);
  }

  lemma StandardIsListed(host: Host, fs: Files, interpreter: Path, name: Name)
    requires Mirrors(host, fs) && InstallFine(host, interpreter) && host.standard(name)
    requires host.list(Library(interpreter)).Some? && Resolve(fs, Library(interpreter) + [name]).Some?
    ensures IsStandard(host, interpreter, name)
  {
    var library := Library(interpreter);
    var top := library + [name];
    assert Up(top) == library && top[|top| - 1] == name;
    ParentIsFolder(fs, top);
    TrustedThere(host, fs, library, Folder);
    assert ListsAll(host, fs, library, name);
  }

  lemma BelowIsOwned(host: Host, fs: Files, interpreter: Path, name: Name, path: Path)
    requires Mirrors(host, fs) && NoLinks(host, fs, interpreter) && Complete(host, fs, interpreter)
    requires InstallFine(host, interpreter) && Inside(host, interpreter, path) && Resolve(fs, path).Some?
    requires host.standard(name) && Library(interpreter) + [name] <= path
    ensures Owned(StatusOf(fs[Resolve(fs, path).value]))
  {
    var top := Library(interpreter) + [name];
    ResolvesAbove(fs, path, |top|);
    assert path[..|top|] == top;
    StandardIsListed(host, fs, interpreter, name);
    assert StandardFine(host, top);
    BelowReached(host, fs, top, path);
    TrustedIsOwned(fs, path, Any, |path|);
    assert path[..|path|] == path;
  }

  lemma AboveIsOwned(host: Host, fs: Files, interpreter: Path, path: Path)
    requires Mirrors(host, fs) && Trusted(Library(interpreter), Folder, host.stat) && path <= Library(interpreter)
    ensures Resolve(fs, path).Some? && Owned(StatusOf(fs[Resolve(fs, path).value]))
  {
    TrustedThere(host, fs, Library(interpreter), Folder);
    TrustedIsOwned(fs, Library(interpreter), Folder, |path|);
    assert Library(interpreter)[..|path|] == path;
  }

  lemma PlaceWalked(host: Host, interpreter: Path, directory: Path)
    requires InstallFine(host, interpreter)
    requires var prefix := Up(Up(interpreter));
      directory == prefix + ["lib"] || directory == prefix + ["bin"] || directory == prefix
    ensures WalkFine(host, directory, false)
  {
    assert PlacesFine(host, Prefix(interpreter));
  }

  lemma AcceptedIsOwned(host: Host, fs: Files, interpreter: Path, path: Path)
    requires Mirrors(host, fs) && NoLinks(host, fs, interpreter) && Complete(host, fs, interpreter)
    requires InstallFine(host, interpreter) && Inside(host, interpreter, path) && Resolve(fs, path).Some?
    ensures Owned(StatusOf(fs[Resolve(fs, path).value]))
  {
    var prefix := Up(Up(interpreter));
    if path <= prefix + ["lib"] {
      AboveIsOwned(host, fs, interpreter, path);
    } else if path != [] && (Up(path) == prefix + ["lib"] || Up(path) == prefix + ["bin"] || Up(path) == prefix) {
      PlaceWalked(host, interpreter, Up(path));
      ChildAccepted(host, fs, interpreter, path);
    } else {
      var name :| host.standard(name) && prefix + ["lib", name] <= path;
      assert prefix + ["lib", name] == Library(interpreter) + [name];
      BelowIsOwned(host, fs, interpreter, name, path);
    }
  }

  /** Of an install without links, whose directories are there, exactly that is accepted in which everything
      Python may load is root's and shared with nobody: the directories on the way, the standard libraries at any
      depth, and what is directly in `lib`, in `bin` and in the prefix. */
  lemma AcceptedExactlyWhenOwned(host: Host, fs: Files, interpreter: Path)
    requires Mirrors(host, fs) && NoLinks(host, fs, interpreter) && Complete(host, fs, interpreter)
    ensures InstallFine(host, interpreter) <==> AllOwned(host, fs, interpreter)
  {
    if AllOwned(host, fs, interpreter) {
      OwnedIsAccepted(host, fs, interpreter);
    } else if InstallFine(host, interpreter) {
      forall path | Inside(host, interpreter, path) && Resolve(fs, path).Some?
        ensures Owned(StatusOf(fs[Resolve(fs, path).value]))
      {
        AcceptedIsOwned(host, fs, interpreter, path);
      }
      assert false;
    }
  }
}
