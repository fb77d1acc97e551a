/** Which paths the daemon trusts as a tool's (packages/agents/src/toolchains.ts, lines 93-149).

A path is the list of its components from `/` down; `None` stands for a string that is not an absolute,
normalized path.  `stat` is `lstat`. */
module ToolTrust {
  import opened Basics

  type Name = string
  type Path = seq<Name>

  datatype Kind = RegularFile | Directory | SymbolicLink | OtherKind
  datatype Status = Status(kind: Kind, uid: nat, mode: bv16)
  datatype StatResult = Found(status: Status) | Absent | Unreadable
  datatype Wanted = File | Folder | Any
  datatype Code = Linked | UntrustedOwner | Writable | NotRegular | Missing

  /** The write bits of the group and of others, octal 022. */
  const SHARED_WRITE: bv16 := 0x12

  /** `componentProblem`. */
  function ComponentProblem(status: Status, last: Wanted): Option<Code> {
    if status.kind == SymbolicLink then Some(Linked)
    else if status.uid != 0 then Some(UntrustedOwner)
    else if status.mode & SHARED_WRITE != 0 then Some(Writable)
    else if last == File && status.kind != RegularFile then Some(NotRegular)
    else if last == Folder && status.kind != Directory then Some(NotRegular)
    else None
  }

  /** No link, root's, and written by nobody else. */
  predicate Owned(status: Status) {
    status.kind != SymbolicLink && status.uid == 0 && status.mode & SHARED_WRITE == 0
  }

  predicate OfKind(status: Status, wanted: Wanted) {
    match wanted
    case File => status.kind == RegularFile
    case Folder => status.kind == Directory
    case Any => true
  }

  predicate Fine(path: Path, n: nat, wanted: Wanted, stat: Path -> StatResult)
    requires n <= |path|
  {
    var found := stat(path[..n]);
    found.Found? && Owned(found.status) && (n == |path| ==> OfKind(found.status, wanted))
  }

  /** Every component from `/` down is there and meets the rule, and the last is of the kind that is
      wanted. */
  predicate Trusted(path: Path, wanted: Wanted, stat: Path -> StatResult) {
    forall n | 0 <= n <= |path| :: Fine(path, n, wanted, stat)
  }

  /** What is wrong with the first `n` components, taken by themselves. */
  function ProblemAt(path: Path, n: nat, wanted: Wanted, stat: Path -> StatResult): Option<Code>
    requires n <= |path|
  {
    match stat(path[..n])
    case Absent => Some(Missing)
    case Unreadable => Some(UntrustedOwner)
    case Found(status) => ComponentProblem(status, if n == |path| then wanted else Any)
  }

  /** `trustedPathProblem`: nothing exactly for a trusted path, and otherwise the problem of the first
      component that has one. */
  method TrustedPathProblem(named: Option<Path>, wanted: Wanted, stat: Path -> StatResult)
    returns (problem: Option<Code>)
    ensures problem.None? <==> named.Some? && Trusted(named.value, wanted, stat)
    ensures named.None? ==> problem == Some(Linked)
    ensures named.Some? && problem.Some? ==>
      exists n :: 0 <= n <= |named.value| && ProblemAt(named.value, n, wanted, stat) == problem &&
        forall m | 0 <= m < n :: ProblemAt(named.value, m, wanted, stat).None?
  {
    if named.None? { return Some(Linked); }
    var path := named.value;
    var current: Path := [];
    for index := 0 to |path| + 1
      invariant index > 0 ==> current == path[..index - 1]
      invariant index == 0 ==> current == []
      invariant forall m | 0 <= m < index :: ProblemAt(path, m, wanted, stat).None?
      invariant forall m | 0 <= m < index :: Fine(path, m, wanted, stat)
    {
      if index > 0 { current := current + [path[index - 1]]; }
      assert current == path[..index];
      var found := stat(current);
      match found {
        case Absent =>
          assert ProblemAt(path, index, wanted, stat) == Some(Missing) && !Fine(path, index, wanted, stat);
          return Some(Missing);
        case Unreadable =>
          assert ProblemAt(path, index, wanted, stat) == Some(UntrustedOwner) && !Fine(path, index, wanted, stat);
          return Some(UntrustedOwner);
        case Found(status) =>
          var last := if index == |path| then wanted else Any;
          problem := ComponentProblem(status, last);
          if problem.Some? {
            assert ProblemAt(path, index, wanted, stat) == problem && !Fine(path, index, wanted, stat);
            return;
          }
          assert Fine(path, index, wanted, stat);
      }
    }
    return None;
  }
}
