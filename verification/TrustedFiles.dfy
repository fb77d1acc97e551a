/** What the rule of ToolTrust is for (packages/agents/src/toolchains.ts, lines 87-149): a file system of
nodes with owners, groups and modes, and the steps that accounts other than root can take in it.

The rules of POSIX about sticky directories and about searching the directories on the way can be left out
of a step, which allows more steps. */
module TrustedFiles {
  import opened Basics
  import opened ToolTrust

  type Id = nat

  datatype Content =
    | Bytes(data: seq<nat>)
    | Entries(names: map<Name, Id>)
    | Target(path: Path)
    | Special

  datatype Node = Node(content: Content, uid: nat, group: nat, mode: bv16)

  type Files = map<Id, Node>

  const ROOT: Id := 0

  datatype User = User(uid: nat, groups: set<nat>)

  datatype Op =
    | Write(id: Id, data: seq<nat>)
    | Create(dir: Id, name: Name, id: Id, content: Content, group: nat, mode: bv16)
    | HardLink(dir: Id, name: Name, id: Id)
    | Remove(dir: Id, name: Name)
    | Move(dir: Id, name: Name, to: Id, newName: Name)
    | ChangeMode(id: Id, mode: bv16)
    | ChangeGroup(id: Id, group: nat)

  /** Whether a sticky directory protects its entries, and whether a node must be reached through
      directories that may be searched. */
  datatype Rules = Rules(sticky: bool, search: bool)

  const POSIX := Rules(true, true)

  const OWNER_WRITE: bv16 := 0x80
  const OWNER_SEARCH: bv16 := 0x40
  const GROUP_WRITE: bv16 := 0x10
  const GROUP_SEARCH: bv16 := 0x08
  const OTHER_WRITE: bv16 := 0x02
  const OTHER_SEARCH: bv16 := 0x01
  const SHARED_SEARCH: bv16 := 0x09
  const STICKY: bv16 := 0x200

  function KindOf(content: Content): Kind {
    match content
    case Bytes(_) => RegularFile
    case Entries(_) => Directory
    case Target(_) => SymbolicLink
    case Special => OtherKind
  }

  function StatusOf(node: Node): Status {
    Status(KindOf(node.content), node.uid, node.mode)
  }

  /** What a path names, when no component before the last is a link. */
  function Resolve(fs: Files, path: Path): (id: Option<Id>)
    ensures id.Some? ==> id.value in fs
  {
    if path == [] then (if ROOT in fs then Some(ROOT) else None)
    else
      var parent := Resolve(fs, path[..|path| - 1]);
      if parent.None? then None else Entry(fs, parent.value, path[|path| - 1])
  }

  function Entry(fs: Files, dir: Id, name: Name): (id: Option<Id>)
    requires dir in fs
    ensures id.Some? ==> id.value in fs
  {
    if fs[dir].content.Entries? && name in fs[dir].content.names && fs[dir].content.names[name] in fs
    then Some(fs[dir].content.names[name])
    else None
  }

  function StatOf(fs: Files, path: Path): StatResult {
    var id := Resolve(fs, path);
    if id.None? then Absent else Found(StatusOf(fs[id.value]))
  }

  // ---------------------------------------------------------------- steps

  predicate MayWrite(user: User, node: Node) {
    if user.uid == node.uid then node.mode & OWNER_WRITE != 0
    else if node.group in user.groups then node.mode & GROUP_WRITE != 0
    else node.mode & OTHER_WRITE != 0
  }

  predicate MaySearch(user: User, node: Node) {
    if user.uid == node.uid then node.mode & OWNER_SEARCH != 0
    else if node.group in user.groups then node.mode & GROUP_SEARCH != 0
    else node.mode & OTHER_SEARCH != 0
  }

  predicate Searches(fs: Files, user: User, path: Path) {
    Resolve(fs, path).Some? && MaySearch(user, fs[Resolve(fs, path).value])
  }

  predicate ReachedBy(fs: Files, user: User, path: Path, id: Id) {
    Resolve(fs, path) == Some(id) && forall n | 0 <= n < |path| :: Searches(fs, user, path[..n])
  }

  ghost predicate Reaches(rules: Rules, fs: Files, user: User, id: Id) {
    rules.search ==> exists path :: ReachedBy(fs, user, path, id)
  }

  ghost predicate WritableDirectory(rules: Rules, fs: Files, user: User, dir: Id) {
    && dir in fs && fs[dir].content.Entries? && MayWrite(user, fs[dir])
    && Reaches(rules, fs, user, dir) && (rules.search ==> MaySearch(user, fs[dir]))
  }

  /** An entry of a sticky directory goes only by the hand of the directory's owner or its own. */
  predicate MayTake(rules: Rules, fs: Files, user: User, dir: Id, name: Name)
    requires dir in fs && fs[dir].content.Entries? && name in fs[dir].content.names
  {
    rules.sticky && fs[dir].mode & STICKY != 0 && user.uid != fs[dir].uid ==>
      Entry(fs, dir, name).Some? ==> user.uid == fs[Entry(fs, dir, name).value].uid
  }

  /** A directory goes only when it is empty. */
  predicate Replaceable(fs: Files, dir: Id, name: Name)
    requires dir in fs
  {
    Entry(fs, dir, name).Some? ==>
      var content := fs[Entry(fs, dir, name).value].content; content.Entries? ==> content.names == map[]
  }

  ghost predicate Enabled(rules: Rules, fs: Files, user: User, op: Op) {
    match op
    case Write(id, data) =>
      id in fs && fs[id].content.Bytes? && MayWrite(user, fs[id]) && Reaches(rules, fs, user, id)
    case Create(dir, name, id, content, group, mode) =>
      && WritableDirectory(rules, fs, user, dir) && name !in fs[dir].content.names && id !in fs
      && (content.Entries? ==> content.names == map[])
    case HardLink(dir, name, id) =>
      && WritableDirectory(rules, fs, user, dir) && name !in fs[dir].content.names
      && id in fs && !fs[id].content.Entries? && Reaches(rules, fs, user, id)
    case Remove(dir, name) =>
      && WritableDirectory(rules, fs, user, dir) && name in fs[dir].content.names
      && MayTake(rules, fs, user, dir, name) && Replaceable(fs, dir, name)
    case Move(dir, name, to, newName) =>
      && WritableDirectory(rules, fs, user, dir) && name in fs[dir].content.names
      && MayTake(rules, fs, user, dir, name) && WritableDirectory(rules, fs, user, to)
      && (newName in fs[to].content.names ==> MayTake(rules, fs, user, to, newName) && Replaceable(fs, to, newName))
    case ChangeMode(id, mode) => id in fs && fs[id].uid == user.uid && Reaches(rules, fs, user, id)
    case ChangeGroup(id, group) =>
      id in fs && fs[id].uid == user.uid && group in user.groups && Reaches(rules, fs, user, id)
  }

  function SetEntry(fs: Files, dir: Id, name: Name, id: Id): Files
    requires dir in fs && fs[dir].content.Entries?
  {
    fs[dir := fs[dir].(content := Entries(fs[dir].content.names[name := id]))]
  }

  function DropEntry(fs: Files, dir: Id, name: Name): Files
    requires dir in fs && fs[dir].content.Entries?
  {
    fs[dir := fs[dir].(content := Entries(fs[dir].content.names - {name}))]
  }

  ghost function Apply(rules: Rules, fs: Files, user: User, op: Op): Files
    requires Enabled(rules, fs, user, op)
  {
    match op
    case Write(id, data) => fs[id := fs[id].(content := Bytes(data))]
    case Create(dir, name, id, content, group, mode) =>
      SetEntry(fs, dir, name, id)[id := Node(content, user.uid, group, mode)]
    case HardLink(dir, name, id) => SetEntry(fs, dir, name, id)
    case Remove(dir, name) => DropEntry(fs, dir, name)
    case Move(dir, name, to, newName) =>
      SetEntry(DropEntry(fs, dir, name), to, newName, fs[dir].content.names[name])
    case ChangeMode(id, mode) => fs[id := fs[id].(mode := mode)]
    case ChangeGroup(id, group) => fs[id := fs[id].(group := group)]
  }

  type Run = seq<(User, Op)>

  /** A run of steps, none of them root's. */
  ghost predicate Possible(rules: Rules, fs: Files, run: Run)
    decreases |run|
  {
    run == [] ||
    (run[0].0.uid != 0 && Enabled(rules, fs, run[0].0, run[0].1) &&
     Possible(rules, Apply(rules, fs, run[0].0, run[0].1), run[1..]))
  }

  ghost function After(rules: Rules, fs: Files, run: Run): Files
    requires Possible(rules, fs, run)
    decreases |run|
  {
    if run == [] then fs else After(rules, Apply(rules, fs, run[0].0, run[0].1), run[1..])
  }

  // ---------------------------------------------------------------- what root owns

  lemma NobodyElseWrites(user: User, node: Node)
    requires user.uid != 0 && node.uid == 0 && node.mode & SHARED_WRITE == 0
    ensures !MayWrite(user, node)
  {
    assert node.mode & GROUP_WRITE == 0 && node.mode & OTHER_WRITE == 0;
  }

  /** What root owns keeps its owner, its mode, its group and its kind. */
  lemma RootsStays(rules: Rules, fs: Files, user: User, op: Op, id: Id)
    requires user.uid != 0 && Enabled(rules, fs, user, op) && id in fs && fs[id].uid == 0
    ensures id in Apply(rules, fs, user, op)
    ensures var node := Apply(rules, fs, user, op)[id];
      && node.uid == 0 && node.mode == fs[id].mode && node.group == fs[id].group
      && KindOf(node.content) == KindOf(fs[id].content)
  {}

  lemma NodeStays(rules: Rules, fs: Files, user: User, op: Op, id: Id)
    requires user.uid != 0 && Enabled(rules, fs, user, op)
    requires id in fs && fs[id].uid == 0 && fs[id].mode & SHARED_WRITE == 0
    ensures id in Apply(rules, fs, user, op) && Apply(rules, fs, user, op)[id] == fs[id]
  {
    NobodyElseWrites(user, fs[id]);
  }

  /** An entry that may not be taken keeps leading where it leads. */
  lemma NameStays(rules: Rules, fs: Files, user: User, op: Op, dir: Id, name: Name)
    requires Enabled(rules, fs, user, op) && dir in fs && fs[dir].content.Entries?
    requires name in fs[dir].content.names && !MayTake(rules, fs, user, dir, name)
    ensures var t := Apply(rules, fs, user, op);
      && dir in t && t[dir].content.Entries? && name in t[dir].content.names
      && t[dir].content.names[name] == fs[dir].content.names[name]
  {}

  /** Nobody else takes an entry of root's from a directory of root's that is not shared, or is sticky. */
  lemma EntryStays(rules: Rules, fs: Files, user: User, op: Op, dir: Id, name: Name)
    requires user.uid != 0 && Enabled(rules, fs, user, op) && dir in fs && fs[dir].uid == 0
    requires fs[dir].mode & SHARED_WRITE == 0 || (rules.sticky && fs[dir].mode & STICKY != 0)
    requires Entry(fs, dir, name).Some? && fs[Entry(fs, dir, name).value].uid == 0
    ensures dir in Apply(rules, fs, user, op)
    ensures Entry(Apply(rules, fs, user, op), dir, name) == Entry(fs, dir, name)
  {
    RootsStays(rules, fs, user, op, Entry(fs, dir, name).value);
    if fs[dir].mode & SHARED_WRITE == 0 {
      NodeStays(rules, fs, user, op, dir);
    } else {
      NameStays(rules, fs, user, op, dir, name);
    }
  }

  // ---------------------------------------------------------------- a safe path stays

  predicate RootsAt(fs: Files, path: Path, n: nat)
    requires n <= |path|
  {
    var id := Resolve(fs, path[..n]);
    id.Some? && fs[id.value].uid == 0
  }

  /** Root's, and shared with nobody; or, on the way, a directory that is sticky. */
  predicate Safe(rules: Rules, fs: Files, path: Path, n: nat)
    requires n <= |path|
  {
    RootsAt(fs, path, n) &&
    var mode := fs[Resolve(fs, path[..n]).value].mode;
    mode & SHARED_WRITE == 0 || (rules.sticky && n < |path| && mode & STICKY != 0)
  }

  /** One step leaves a way where it leads, when each directory on it is safe and its end is root's. */
  lemma {:induction false} WayStays(rules: Rules, fs: Files, user: User, op: Op, path: Path, n: nat)
    requires user.uid != 0 && Enabled(rules, fs, user, op) && n <= |path|
    requires (forall m | 0 <= m < n :: Safe(rules, fs, path, m)) && RootsAt(fs, path, n)
    ensures Resolve(Apply(rules, fs, user, op), path[..n]) == Resolve(fs, path[..n])
    decreases n
  {
    if n == 0 {
      assert path[..0] == [];
      RootsStays(rules, fs, user, op, ROOT);
    } else {
      assert Safe(rules, fs, path, n - 1);
      WayStays(rules, fs, user, op, path, n - 1);
      assert path[..n][..n - 1] == path[..n - 1];
      EntryStays(rules, fs, user, op, Resolve(fs, path[..n - 1]).value, path[n - 1]);
    }
  }

  lemma SafeStays(rules: Rules, fs: Files, user: User, op: Op, path: Path, n: nat)
    requires user.uid != 0 && Enabled(rules, fs, user, op) && n <= |path|
    requires forall m | 0 <= m <= n :: Safe(rules, fs, path, m)
    ensures Safe(rules, Apply(rules, fs, user, op), path, n)
    ensures Resolve(Apply(rules, fs, user, op), path[..n]) == Resolve(fs, path[..n])
  {
    assert Safe(rules, fs, path, n);
    WayStays(rules, fs, user, op, path, n);
    RootsStays(rules, fs, user, op, Resolve(fs, path[..n]).value);
  }

  ghost predicate StaysAfter(rules: Rules, fs: Files, path: Path, run: Run)
    requires Resolve(fs, path).Some? && Possible(rules, fs, run)
  {
    var id := Resolve(fs, path);
    Resolve(After(rules, fs, run), path) == id && After(rules, fs, run)[id.value] == fs[id.value]
  }

  /** Whatever accounts other than root do, the path names the same node, unchanged. */
  ghost predicate Stays(rules: Rules, fs: Files, path: Path)
    requires Resolve(fs, path).Some?
  {
    forall run | Possible(rules, fs, run) :: StaysAfter(rules, fs, path, run)
  }

  ghost predicate AllSafe(rules: Rules, fs: Files, path: Path) {
    forall n | 0 <= n <= |path| :: Safe(rules, fs, path, n)
  }

  lemma {:induction false} SafeStaysAfter(rules: Rules, fs: Files, path: Path, run: Run)
    requires AllSafe(rules, fs, path) && Possible(rules, fs, run)
    ensures Resolve(fs, path).Some? && StaysAfter(rules, fs, path, run)
    decreases |run|
  {
    assert Safe(rules, fs, path, |path|) && path[..|path|] == path;
    if run != [] {
      var next := Apply(rules, fs, run[0].0, run[0].1);
      forall n | 0 <= n <= |path| ensures Safe(rules, next, path, n) {
        SafeStays(rules, fs, run[0].0, run[0].1, path, n);
      }
      SafeStays(rules, fs, run[0].0, run[0].1, path, |path|);
      NodeStays(rules, fs, run[0].0, run[0].1, Resolve(fs, path).value);
      SafeStaysAfter(rules, next, path, run[1..]);
    }
  }

  lemma TrustedIsOwned(fs: Files, path: Path, wanted: Wanted, n: nat)
    requires Trusted(path, wanted, p => StatOf(fs, p)) && n <= |path|
    ensures Resolve(fs, path[..n]).Some? && Owned(StatusOf(fs[Resolve(fs, path[..n]).value]))
  {
    assert Fine(path, n, wanted, p => StatOf(fs, p));
  }

  /** A path that is accepted names the same node, unchanged, after whatever accounts other than root do:
      also where nothing protects the entries of a sticky directory and nothing needs to be searched. */
  lemma AcceptedStays(rules: Rules, fs: Files, path: Path, wanted: Wanted)
    requires Trusted(path, wanted, p => StatOf(fs, p))
    ensures Resolve(fs, path).Some? && Stays(rules, fs, path)
  {
    forall n | 0 <= n <= |path| ensures Safe(rules, fs, path, n) { TrustedIsOwned(fs, path, wanted, n); }
    assert Safe(rules, fs, path, |path|) && path[..|path|] == path;
    forall run | Possible(rules, fs, run) ensures StaysAfter(rules, fs, path, run) {
      SafeStaysAfter(rules, fs, path, run);
    }
  }

  // ---------------------------------------------------------------- a shielded path stays

  /** A directory of root's that nobody else may search. */
  predicate SealedAt(fs: Files, path: Path, n: nat)
    requires n <= |path|
  {
    RootsAt(fs, path, n) &&
    var node := fs[Resolve(fs, path[..n]).value];
    node.content.Entries? && node.mode & SHARED_SEARCH == 0
  }

  /** On the way there is a directory that nobody else may search, and the way to it is safe. */
  ghost predicate Shielded(rules: Rules, fs: Files, path: Path) {
    rules.search &&
    exists k :: 0 <= k < |path| && SealedAt(fs, path, k) && forall n | 0 <= n < k :: Safe(rules, fs, path, n)
  }

  /** The one entry that leads to a node is in a certain directory. */
  ghost predicate OnlyFrom(fs: Files, id: Id, dir: Id) {
    id != ROOT && forall d, name | d in fs && fs[d].content.Entries? && name in fs[d].content.names ::
      fs[d].content.names[name] == id ==> d == dir
  }

  /** The nodes from the sealed directory on: each is there, and is led to by the one before it. */
  ghost predicate Behind(fs: Files, ids: seq<Id>) {
    && ids != [] && (forall k | 0 <= k < |ids| :: ids[k] in fs)
    && (forall k | 0 < k < |ids| :: OnlyFrom(fs, ids[k], ids[k - 1]))
    && fs[ids[0]].uid == 0 && fs[ids[0]].content.Entries? && fs[ids[0]].mode & SHARED_SEARCH == 0
  }

  lemma NobodyElseSearches(user: User, node: Node)
    requires user.uid != 0 && node.uid == 0 && node.mode & SHARED_SEARCH == 0
    ensures !MaySearch(user, node)
  {
    assert node.mode & GROUP_SEARCH == 0 && node.mode & OTHER_SEARCH == 0;
  }

  /** Nobody else reaches a node behind a sealed directory. */
  lemma {:induction false} OutOfReach(fs: Files, user: User, ids: seq<Id>, k: nat, path: Path)
    requires user.uid != 0 && Behind(fs, ids) && 0 < k < |ids|
    ensures !ReachedBy(fs, user, path, ids[k])
    decreases |path|
  {
    if ReachedBy(fs, user, path, ids[k]) {
      assert OnlyFrom(fs, ids[k], ids[k - 1]);
      var front := path[..|path| - 1];
      assert Searches(fs, user, front);
      if k == 1 {
        NobodyElseSearches(user, fs[ids[0]]);
      } else {
        assert forall n | 0 <= n < |front| :: front[..n] == path[..n];
        OutOfReach(fs, user, ids, k - 1, front);
      }
      assert false;
    }
  }

  lemma NotReached(rules: Rules, fs: Files, user: User, ids: seq<Id>, k: nat)
    requires rules.search && user.uid != 0 && Behind(fs, ids) && 0 < k < |ids|
    ensures !Reaches(rules, fs, user, ids[k])
  {
    forall path ensures !ReachedBy(fs, user, path, ids[k]) { OutOfReach(fs, user, ids, k, path); }
  }

  /** No step writes the sealed directory or what is behind it, or leads there. */
  lemma BehindNode(rules: Rules, fs: Files, user: User, op: Op, ids: seq<Id>, k: nat)
    requires rules.search && user.uid != 0 && Behind(fs, ids) && Enabled(rules, fs, user, op) && k < |ids|
    ensures ids[k] in Apply(rules, fs, user, op) && Apply(rules, fs, user, op)[ids[k]] == fs[ids[k]]
  {
    if k == 0 { NobodyElseSearches(user, fs[ids[0]]); } else { NotReached(rules, fs, user, ids, k); }
  }

  lemma BehindEntry(rules: Rules, fs: Files, user: User, op: Op, ids: seq<Id>, k: nat)
    requires rules.search && user.uid != 0 && Behind(fs, ids) && Enabled(rules, fs, user, op) && 0 < k < |ids|
    ensures OnlyFrom(Apply(rules, fs, user, op), ids[k], ids[k - 1])
  {
    assert OnlyFrom(fs, ids[k], ids[k - 1]);
    NotReached(rules, fs, user, ids, k);
    if k == 1 { NobodyElseSearches(user, fs[ids[0]]); } else { NotReached(rules, fs, user, ids, k - 1); }
  }

  lemma BehindStays(rules: Rules, fs: Files, user: User, op: Op, ids: seq<Id>)
    requires rules.search && user.uid != 0 && Behind(fs, ids) && Enabled(rules, fs, user, op)
    ensures Behind(Apply(rules, fs, user, op), ids)
    ensures forall k | 0 <= k < |ids| :: Apply(rules, fs, user, op)[ids[k]] == fs[ids[k]]
  {
    forall k | 0 <= k < |ids|
      ensures ids[k] in Apply(rules, fs, user, op) && Apply(rules, fs, user, op)[ids[k]] == fs[ids[k]]
    {
      BehindNode(rules, fs, user, op, ids, k);
    }
    forall k | 0 < k < |ids| ensures OnlyFrom(Apply(rules, fs, user, op), ids[k], ids[k - 1]) {
      BehindEntry(rules, fs, user, op, ids, k);
    }
  }

  /** Each component but `/` has one entry in the whole file system: the one the path goes through. */
  ghost predicate OneWayIn(fs: Files, path: Path) {
    forall n | 0 <= n < |path| :: OneWayInAt(fs, path, n)
  }

  ghost predicate OneWayInAt(fs: Files, path: Path, n: nat)
    requires n < |path|
  {
    var dir, id := Resolve(fs, path[..n]), Resolve(fs, path[..n + 1]);
    dir.Some? && id.Some? ==> OnlyFrom(fs, id.value, dir.value)
  }

  /** The nodes of a path from its `k`-th component on. */
  ghost predicate Chain(fs: Files, path: Path, k: nat, ids: seq<Id>) {
    && k <= |path| && |ids| == |path| - k + 1 && Resolve(fs, path[..k]) == Some(ids[0])
    && forall j | 0 <= j < |ids| - 1 :: ids[j] in fs && Entry(fs, ids[j], path[k + j]) == Some(ids[j + 1])
  }

  lemma {:induction false} ChainResolves(fs: Files, path: Path, k: nat, ids: seq<Id>, j: nat)
    requires Chain(fs, path, k, ids) && j < |ids|
    ensures Resolve(fs, path[..k + j]) == Some(ids[j])
    decreases j
  {
    if j > 0 {
      ChainResolves(fs, path, k, ids, j - 1);
      assert path[..k + j][..k + j - 1] == path[..k + j - 1];
    }
  }

  lemma ChainEnds(fs: Files, path: Path, k: nat, ids: seq<Id>)
    requires Chain(fs, path, k, ids)
    ensures Resolve(fs, path) == Some(ids[|ids| - 1])
  {
    ChainResolves(fs, path, k, ids, |ids| - 1);
    assert path[..|path|] == path;
  }

  /** A chain behind a safe way to a sealed directory. */
  ghost predicate Sheltered(rules: Rules, fs: Files, path: Path, k: nat, ids: seq<Id>) {
    && rules.search && Chain(fs, path, k, ids) && Behind(fs, ids)
    && forall n | 0 <= n < k :: Safe(rules, fs, path, n)
  }

  lemma ShelteredStays(rules: Rules, fs: Files, user: User, op: Op, path: Path, k: nat, ids: seq<Id>)
    requires user.uid != 0 && Enabled(rules, fs, user, op) && Sheltered(rules, fs, path, k, ids)
    ensures Sheltered(rules, Apply(rules, fs, user, op), path, k, ids)
    ensures Apply(rules, fs, user, op)[ids[|ids| - 1]] == fs[ids[|ids| - 1]]
  {
    BehindStays(rules, fs, user, op, ids);
    WayStays(rules, fs, user, op, path, k);
    forall n | 0 <= n < k ensures Safe(rules, Apply(rules, fs, user, op), path, n) {
      SafeStays(rules, fs, user, op, path, n);
    }
  }

  lemma {:induction false} ShelteredStaysAfter(rules: Rules, fs: Files, path: Path, k: nat, ids: seq<Id>, run: Run)
    requires Sheltered(rules, fs, path, k, ids) && Possible(rules, fs, run)
    ensures Resolve(fs, path).Some? && StaysAfter(rules, fs, path, run)
    decreases |run|
  {
    ChainEnds(fs, path, k, ids);
    if run != [] {
      var next := Apply(rules, fs, run[0].0, run[0].1);
      ShelteredStays(rules, fs, run[0].0, run[0].1, path, k, ids);
      ShelteredStaysAfter(rules, next, path, k, ids, run[1..]);
      ChainEnds(next, path, k, ids);
    }
  }

  /** What a shielded path names, from the sealed directory on. */
  lemma FindsShelter(rules: Rules, fs: Files, path: Path, k: nat) returns (ids: seq<Id>)
    requires rules.search && k < |path| && SealedAt(fs, path, k) && forall n | 0 <= n < k :: Safe(rules, fs, path, n)
    requires OneWayIn(fs, path) && Resolve(fs, path).Some?
    ensures Sheltered(rules, fs, path, k, ids)
  {
    forall n | 0 <= n <= |path| ensures Resolve(fs, path[..n]).Some? { OnTheWay(fs, path, n); }
    ids := seq(|path| - k + 1, j requires 0 <= j < |path| - k + 1 => Resolve(fs, path[..k + j]).value);
    forall j | 0 <= j < |ids| - 1
      ensures Entry(fs, ids[j], path[k + j]) == Some(ids[j + 1]) && OnlyFrom(fs, ids[j + 1], ids[j])
    {
      assert path[..k + j + 1][..k + j] == path[..k + j];
      assert OneWayInAt(fs, path, k + j);
    }
  }

  lemma {:induction false} OnTheWay(fs: Files, path: Path, n: nat)
    requires n <= |path| && Resolve(fs, path).Some?
    ensures Resolve(fs, path[..n]).Some?
    ensures n < |path| ==> fs[Resolve(fs, path[..n]).value].content.Entries?
    decreases |path|
  {
    if n == |path| {
      assert path[..n] == path;
    } else {
      OnTheWay(fs, path[..|path| - 1], n);
      assert path[..|path| - 1][..n] == path[..n];
    }
  }

  lemma ShieldedStays(rules: Rules, fs: Files, path: Path)
    requires Resolve(fs, path).Some? && OneWayIn(fs, path) && Shielded(rules, fs, path)
    ensures Stays(rules, fs, path)
  {
    var k :| 0 <= k < |path| && SealedAt(fs, path, k) && forall n | 0 <= n < k :: Safe(rules, fs, path, n);
    var ids := FindsShelter(rules, fs, path, k);
    forall run | Possible(rules, fs, run) ensures StaysAfter(rules, fs, path, run) {
      ShelteredStaysAfter(rules, fs, path, k, ids, run);
    }
  }

  // ---------------------------------------------------------------- and no other file does

  /** Everybody may search a directory of root's, or nobody else may. */
  predicate PlainAt(fs: Files, path: Path, n: nat)
    requires n <= |path|
  {
    RootsAt(fs, path, n) ==>
      var mode := fs[Resolve(fs, path[..n]).value].mode;
      mode & SHARED_SEARCH == 0 || mode & SHARED_SEARCH == SHARED_SEARCH
  }

  lemma EverybodySearches(user: User, node: Node)
    requires user.uid != 0 && node.uid == 0 && node.mode & SHARED_SEARCH == SHARED_SEARCH
    ensures MaySearch(user, node)
  {
    assert node.mode & GROUP_SEARCH != 0 && node.mode & OTHER_SEARCH != 0;
  }

  /** The way to a component is safe, and everybody may search it. */
  ghost predicate OpenWay(fs: Files, path: Path, n: nat)
    requires n <= |path|
  {
    forall m | 0 <= m < n ::
      RootsAt(fs, path, m) && fs[Resolve(fs, path[..m]).value].mode & SHARED_SEARCH == SHARED_SEARCH
  }

  lemma OpenIsReached(fs: Files, path: Path, n: nat, user: User)
    requires user.uid != 0 && n <= |path| && OpenWay(fs, path, n) && Resolve(fs, path[..n]).Some?
    ensures ReachedBy(fs, user, path[..n], Resolve(fs, path[..n]).value)
  {
    forall m | 0 <= m < n ensures Searches(fs, user, path[..n][..m]) {
      assert path[..n][..m] == path[..m];
      EverybodySearches(user, fs[Resolve(fs, path[..m]).value]);
    }
  }

  /** Entries are only fewer. */
  lemma {:induction false} ResolveFewer(fs: Files, dir: Id, name: Name, path: Path)
    requires dir in fs && fs[dir].content.Entries?
    ensures var after := Resolve(DropEntry(fs, dir, name), path); after.None? || after == Resolve(fs, path)
    decreases |path|
  {
    if path != [] { ResolveFewer(fs, dir, name, path[..|path| - 1]); }
  }

  lemma {:induction false} NoneBeyond(fs: Files, path: Path, n: nat)
    requires n <= |path| && Resolve(fs, path[..n]).None?
    ensures Resolve(fs, path).None?
    decreases |path|
  {
    if n == |path| {
      assert path[..n] == path;
    } else {
      assert path[..|path| - 1][..n] == path[..n];
      NoneBeyond(fs, path[..|path| - 1], n);
    }
  }

  /** A path through a directory ends where its next entry is gone. */
  lemma DropEnds(fs: Files, path: Path, n: nat)
    requires n < |path| && Resolve(fs, path[..n]).Some? && fs[Resolve(fs, path[..n]).value].content.Entries?
    ensures Resolve(DropEntry(fs, Resolve(fs, path[..n]).value, path[n]), path).None?
  {
    var dir := Resolve(fs, path[..n]).value;
    ResolveFewer(fs, dir, path[n], path[..n]);
    assert path[..n + 1][..n] == path[..n];
    NoneBeyond(DropEntry(fs, dir, path[n]), path, n + 1);
  }

  /** A new entry leaves every path that does not go by its name. */
  lemma {:induction false} ResolveAside(fs: Files, dir: Id, name: Name, id: Id, path: Path)
    requires dir in fs && fs[dir].content.Entries? && name !in path
    ensures Resolve(SetEntry(fs, dir, name, id), path) == Resolve(fs, path)
    decreases |path|
  {
    if path != [] { ResolveAside(fs, dir, name, id, path[..|path| - 1]); }
  }

  /** A path through a directory ends where its next entry has been given another name. */
  lemma MoveEnds(fs: Files, path: Path, n: nat, newName: Name)
    requires n < |path| && Resolve(fs, path[..n]).Some? && newName !in path
    requires var dir := Resolve(fs, path[..n]).value;
      fs[dir].content.Entries? && path[n] in fs[dir].content.names
    ensures var dir := Resolve(fs, path[..n]).value;
      Resolve(SetEntry(DropEntry(fs, dir, path[n]), dir, newName, fs[dir].content.names[path[n]]), path).None?
  {
    var dir := Resolve(fs, path[..n]).value;
    DropEnds(fs, path, n);
    ResolveAside(DropEntry(fs, dir, path[n]), dir, newName, fs[dir].content.names[path[n]], path);
  }

  lemma LongerThanAll(names: set<Name>) returns (n: nat)
    ensures forall name | name in names :: |name| < n
    decreases |names|
  {
    if names == {} { return 0; }
    var some :| some in names;
    n := LongerThanAll(names - {some});
    n := if n > |some| then n else |some| + 1;
  }

  lemma FreshName(names: set<Name>) returns (name: Name)
    ensures name !in names
  {
    var n := LongerThanAll(names);
    name := seq(n, _ => 'x');
  }

  lemma {:induction false} ModeAside(fs: Files, id: Id, mode: bv16, path: Path)
    requires id in fs
    ensures Resolve(fs[id := fs[id].(mode := mode)], path) == Resolve(fs, path)
    decreases |path|
  {
    if path != [] { ModeAside(fs, id, mode, path[..|path| - 1]); }
  }

  lemma OpenAside(fs: Files, path: Path, n: nat, id: Id, mode: bv16)
    requires n <= |path| && OpenWay(fs, path, n) && id in fs && fs[id].uid != 0
    ensures OpenWay(fs[id := fs[id].(mode := mode)], path, n)
  {
    forall m | 0 <= m < n ensures Resolve(fs[id := fs[id].(mode := mode)], path[..m]) == Resolve(fs, path[..m]) {
      ModeAside(fs, id, mode, path[..m]);
    }
    assert forall m | 0 <= m < n :: RootsAt(fs, path, m);
  }

  /** Whose a node is, or who may write it, when it is not root's alone. */
  function Outsider(node: Node): User {
    if node.uid != 0 then User(node.uid, {})
    else if node.mode & GROUP_WRITE != 0 then User(1, {node.group})
    else User(1, {})
  }

  lemma OutsiderMayWrite(node: Node)
    requires node.uid == 0 && node.mode & SHARED_WRITE != 0
    ensures MayWrite(Outsider(node), node)
  {
    if node.mode & GROUP_WRITE == 0 {
      assert node.mode & OTHER_WRITE != 0;
    }
  }

  lemma OneStep(rules: Rules, fs: Files, user: User, op: Op) returns (run: Run)
    requires user.uid != 0 && Enabled(rules, fs, user, op)
    ensures run == [(user, op)] && Possible(rules, fs, run) && After(rules, fs, run) == Apply(rules, fs, user, op)
  {
    run := [(user, op)];
    assert run[1..] == [];
    assert Possible(rules, Apply(rules, fs, user, op), run[1..]);
  }

  lemma TwoSteps(rules: Rules, fs: Files, user: User, op: Op, then': Op) returns (run: Run)
    requires user.uid != 0 && Enabled(rules, fs, user, op) && Enabled(rules, Apply(rules, fs, user, op), user, then')
    ensures Possible(rules, fs, run)
    ensures After(rules, fs, run) == Apply(rules, Apply(rules, fs, user, op), user, then')
  {
    var rest := OneStep(rules, Apply(rules, fs, user, op), user, then');
    run := [(user, op)] + rest;
    assert run[1..] == rest;
  }

  /** One step of an outsider changes a file that is not root's alone. */
  lemma FileChanged(fs: Files, path: Path) returns (run: Run)
    requires Resolve(fs, path).Some? && fs[Resolve(fs, path).value].content.Bytes?
    requires OpenWay(fs, path, |path|) && !Safe(POSIX, fs, path, |path|)
    ensures Possible(POSIX, fs, run) && !StaysAfter(POSIX, fs, path, run)
  {
    assert path[..|path|] == path;
    var id := Resolve(fs, path).value;
    var node := fs[id];
    var user := Outsider(node);
    OpenIsReached(fs, path, |path|, user);
    if node.uid != 0 {
      run := OneStep(POSIX, fs, user, ChangeMode(id, if node.mode == 0 then 1 else 0));
    } else {
      OutsiderMayWrite(node);
      run := OneStep(POSIX, fs, user, Write(id, node.content.data + [0]));
      assert |node.content.data + [0]| != |node.content.data|;
    }
  }

  /** Two steps of an outsider move away what a directory leads to, when it is not root's alone. */
  lemma EntryTaken(fs: Files, path: Path, n: nat) returns (run: Run)
    requires n < |path| && Resolve(fs, path).Some? && OpenWay(fs, path, n) && !Safe(POSIX, fs, path, n)
    requires PlainAt(fs, path, n) && !SealedAt(fs, path, n)
    ensures Possible(POSIX, fs, run) && !StaysAfter(POSIX, fs, path, run)
  {
    OnTheWay(fs, path, n);
    OnTheWay(fs, path, n + 1);
    assert path[..n + 1][..n] == path[..n];
    var dir := Resolve(fs, path[..n]).value;
    var user := Outsider(fs[dir]);
    OpenIsReached(fs, path, n, user);
    var aside := FreshName(fs[dir].content.names.Keys + set name | name in path);
    if fs[dir].uid != 0 {
      var mode := OWNER_WRITE | OWNER_SEARCH;
      var mine := fs[dir := fs[dir].(mode := mode)];
      ModeAside(fs, dir, mode, path[..n]);
      OpenAside(fs, path, n, dir, mode);
      OpenIsReached(mine, path, n, user);
      assert mode & OWNER_WRITE != 0 && mode & OWNER_SEARCH != 0;
      run := TwoSteps(POSIX, fs, user, ChangeMode(dir, mode), Move(dir, path[n], dir, aside));
      MoveEnds(mine, path, n, aside);
    } else {
      OutsiderMayWrite(fs[dir]);
      EverybodySearches(user, fs[dir]);
      run := OneStep(POSIX, fs, user, Move(dir, path[n], dir, aside));
      MoveEnds(fs, path, n, aside);
    }
  }

  /** The first component that is not safe. */
  lemma {:induction false} FirstUnsafe(rules: Rules, fs: Files, path: Path, n: nat) returns (first: nat)
    requires n <= |path| && !Safe(rules, fs, path, n)
    ensures first <= n && !Safe(rules, fs, path, first) && forall m | 0 <= m < first :: Safe(rules, fs, path, m)
    decreases n
  {
    if m :| 0 <= m < n && !Safe(rules, fs, path, m) {
      first := FirstUnsafe(rules, fs, path, m);
    } else {
      first := n;
    }
  }

  /** Without safety and without a shield, somebody can change what a path to a file names. */
  lemma ChangedOtherwise(fs: Files, path: Path) returns (run: Run)
    requires Resolve(fs, path).Some? && fs[Resolve(fs, path).value].content.Bytes?
    requires forall n | 0 <= n < |path| :: PlainAt(fs, path, n)
    requires !AllSafe(POSIX, fs, path) && !Shielded(POSIX, fs, path)
    ensures Possible(POSIX, fs, run) && !StaysAfter(POSIX, fs, path, run)
  {
    var some :| 0 <= some <= |path| && !Safe(POSIX, fs, path, some);
    var n := FirstUnsafe(POSIX, fs, path, some);
    forall m | 0 <= m < n
      ensures RootsAt(fs, path, m) && fs[Resolve(fs, path[..m]).value].mode & SHARED_SEARCH == SHARED_SEARCH
    {
      assert Safe(POSIX, fs, path, m) && PlainAt(fs, path, m);
      OnTheWay(fs, path, m);
      assert !SealedAt(fs, path, m);
    }
    if n == |path| {
      run := FileChanged(fs, path);
    } else {
      assert PlainAt(fs, path, n) && !SealedAt(fs, path, n);
      run := EntryTaken(fs, path, n);
    }
  }

  /** What the path to a file names stays, whatever accounts other than root do, exactly when every
      component is root's and shared with nobody but for sticky directories, at least down to a directory
      of root's that nobody else may search. */
  lemma StaysExactlyWhen(fs: Files, path: Path)
    requires Resolve(fs, path).Some? && fs[Resolve(fs, path).value].content.Bytes?
    requires (forall n | 0 <= n < |path| :: PlainAt(fs, path, n)) && OneWayIn(fs, path)
    ensures Stays(POSIX, fs, path) <==> AllSafe(POSIX, fs, path) || Shielded(POSIX, fs, path)
  {
    if AllSafe(POSIX, fs, path) {
      forall run | Possible(POSIX, fs, run) ensures StaysAfter(POSIX, fs, path, run) {
        SafeStaysAfter(POSIX, fs, path, run);
      }
    } else if Shielded(POSIX, fs, path) {
      ShieldedStays(POSIX, fs, path);
    } else {
      var run := ChangedOtherwise(fs, path);
    }
  }

  // ---------------------------------------------------------------- where the rule is exact, and where stricter

  lemma TrustedExactly(fs: Files, path: Path)
    requires Resolve(fs, path).Some? && fs[Resolve(fs, path).value].content.Bytes?
    ensures Trusted(path, File, p => StatOf(fs, p)) <==> AllSafe(Rules(false, true), fs, path)
  {
    assert path[..|path|] == path;
    var rules, stat := Rules(false, true), p => StatOf(fs, p);
    if Trusted(path, File, stat) {
      forall n | 0 <= n <= |path| ensures Safe(rules, fs, path, n) { TrustedIsOwned(fs, path, File, n); }
    }
    if AllSafe(rules, fs, path) {
      forall n | 0 <= n <= |path| ensures Fine(path, n, File, stat) {
        assert Safe(rules, fs, path, n);
        OnTheWay(fs, path, n);
      }
    }
  }

  /** A directory of root's that everybody may search and that, if it is shared, is not sticky. */
  predicate OpenAt(fs: Files, path: Path, n: nat)
    requires n <= |path|
  {
    RootsAt(fs, path, n) ==>
      var mode := fs[Resolve(fs, path[..n]).value].mode;
      mode & SHARED_SEARCH == SHARED_SEARCH && (mode & SHARED_WRITE != 0 ==> mode & STICKY == 0)
  }

  /** Where everybody may search the directories on the way and no shared one is sticky, a file is accepted
      exactly when nothing that accounts other than root can do changes what its path names. */
  lemma AcceptedExactlyWhenItStays(fs: Files, path: Path)
    requires Resolve(fs, path).Some? && fs[Resolve(fs, path).value].content.Bytes?
    requires forall n | 0 <= n < |path| :: OpenAt(fs, path, n)
    ensures Trusted(path, File, p => StatOf(fs, p)) <==> Stays(POSIX, fs, path)
  {
    TrustedExactly(fs, path);
    if Trusted(path, File, p => StatOf(fs, p)) {
      AcceptedStays(POSIX, fs, path, File);
    } else {
      var n :| 0 <= n <= |path| && !Safe(Rules(false, true), fs, path, n);
      assert n < |path| ==> OpenAt(fs, path, n);
      assert !Safe(POSIX, fs, path, n);
      forall m | 0 <= m < |path| ensures PlainAt(fs, path, m) && !SealedAt(fs, path, m) { assert OpenAt(fs, path, m); }
      var run := ChangedOtherwise(fs, path);
    }
  }

  /** A file of root's in a directory that is shared but sticky: refused, and yet it stays. */
  lemma StickyIsRefused() returns (fs: Files, path: Path)
    ensures Resolve(fs, path).Some? && fs[Resolve(fs, path).value].content.Bytes?
    ensures !Trusted(path, File, p => StatOf(fs, p)) && Stays(POSIX, fs, path)
  {
    path := ["tmp", "tool"];
    fs := map[0 := Node(Entries(map["tmp" := 1]), 0, 0, 0x1ED),
              1 := Node(Entries(map["tool" := 2]), 0, 0, 0x3FF),
              2 := Node(Bytes([]), 0, 0, 0x1A4)];
    TwoDeep(fs, path, 1, 2);
    assert Safe(POSIX, fs, path, 0) && Safe(POSIX, fs, path, 1) && Safe(POSIX, fs, path, 2);
    assert AllSafe(POSIX, fs, path);
    forall run | Possible(POSIX, fs, run) ensures StaysAfter(POSIX, fs, path, run) {
      SafeStaysAfter(POSIX, fs, path, run);
    }
    TrustedExactly(fs, path);
    assert !Safe(Rules(false, true), fs, path, 1);
  }

  /** A shared directory below one that only root may search: refused, and yet the file in it stays. */
  lemma SealedIsRefused() returns (fs: Files, path: Path)
    ensures Resolve(fs, path).Some? && fs[Resolve(fs, path).value].content.Bytes?
    ensures !Trusted(path, File, p => StatOf(fs, p)) && Stays(POSIX, fs, path)
  {
    path := ["shared", "tool"];
    fs := map[0 := Node(Entries(map["shared" := 1]), 0, 0, 0x1C0),
              1 := Node(Entries(map["tool" := 2]), 0, 0, 0x1FF),
              2 := Node(Bytes([]), 0, 0, 0x1A4)];
    TwoDeep(fs, path, 1, 2);
    assert SealedAt(fs, path, 0);
    assert OneWayInAt(fs, path, 0) && OneWayInAt(fs, path, 1);
    ShieldedStays(POSIX, fs, path);
    TrustedExactly(fs, path);
    assert !Safe(Rules(false, true), fs, path, 1);
  }

  lemma TwoDeep(fs: Files, path: Path, first: Id, second: Id)
    requires |path| == 2 && ROOT in fs && Entry(fs, ROOT, path[0]) == Some(first)
    requires Entry(fs, first, path[1]) == Some(second)
    ensures Resolve(fs, path[..0]) == Some(ROOT) && Resolve(fs, path[..1]) == Some(first)
    ensures Resolve(fs, path[..2]) == Resolve(fs, path) == Some(second)
  {
    assert path[..2] == path && path[..2][..1] == path[..1] && path[..1][..0] == path[..0] == [];
  }
}
