/** A daemon's start and stop (apps/server/src/daemon-start.ts; instance-lock.ts, lines 76-234).

A daemon takes two locks before its runtime opens, its data directory's and its agents' root's,
and gives them back after the runtime has closed.  Each lock is an abstract socket, which the
kernel scopes to a network namespace, and then the socket file of module InstanceLock.  Here any
number of daemons start, fail, are signalled and are killed, and every step of a lock's own
protocol is a step of this system.
 */
module DaemonStart {
  import opened Basics
  import Lock = InstanceLock

  type Pid = Lock.Pid   // a process, not a number that the kernel hands out again
  type Id = Lock.Id
  type Net = nat

  datatype Resource = Data(dir: nat) | Root(dir: nat)
  datatype Which = DataLock | RootLock

  datatype Phase =
    | Abstract(which: Which)      // taking the abstract socket
    | File(which: Which)          // taking the socket file
    | Opening | Open | Draining | CloseFailed
    | DropFile(which: Which)      // releasing the socket file
    | DropAbstract(which: Which)
    | Over
    | Dead

  /** A daemon: where it runs, what it locks, and the attempt it last made at each socket file. */
  datatype Daemon = Daemon(net: Net, linux: bool, data: nat, root: nat,
                           phase: Phase, dataTry: Option<Id>, rootTry: Option<Id>)

  datatype State = State(files: map<Resource, Lock.State>,
                         abstracts: map<(Net, Resource), Pid>,
                         daemons: map<Pid, Daemon>)

  datatype Action =
    | Start(p: Pid, net: Net, linux: bool, data: nat, root: nat)
    | TakeAbstract(p: Pid)
    | AbstractFails(p: Pid)
    | LockStep(p: Pid, step: Lock.Action)
    | FileTaken(p: Pid)
    | FileFails(p: Pid)
    | RuntimeOpens(p: Pid)
    | RuntimeFails(p: Pid)
    | Signal(p: Pid)
    | RuntimeCloses(p: Pid)
    | CloseThrows(p: Pid)
    | FileDropped(p: Pid)
    | AbstractDropped(p: Pid)
    | Crash(p: Pid)

  function Of(d: Daemon, w: Which): Resource {
    if w == DataLock then Data(d.data) else Root(d.root)
  }

  function Try(d: Daemon, w: Which): Option<Id> {
    if w == DataLock then d.dataTry else d.rootTry
  }

  function SetTry(d: Daemon, w: Which, i: Id): Daemon {
    if w == DataLock then d.(dataTry := Some(i)) else d.(rootTry := Some(i))
  }

  /** The phase of the daemon's last attempt at a socket file; none yet reads as an ended one. */
  function TryPhase(s: State, d: Daemon, w: Which): Lock.Phase {
    if Try(d, w).Some? && Of(d, w) in s.files && Try(d, w).value in s.files[Of(d, w)].attempts
    then s.files[Of(d, w)].attempts[Try(d, w).value].phase
    else Lock.Ended(Lock.Failed)
  }

  /** A runtime is up from the moment its creation begins, for restart recovery runs then. */
  predicate RuntimeUp(p: Phase) {
    p.Opening? || p.Open? || p.Draining? || p.CloseFailed?
  }

  predicate HoldsFile(p: Phase, w: Which) {
    || RuntimeUp(p)
    || (w == DataLock &&
        (p == Abstract(RootLock) || p == File(RootLock) || p == DropFile(RootLock) || p == DropAbstract(RootLock)))
  }

  predicate HoldsAbstract(p: Phase, w: Which) {
    HoldsFile(p, w) || p == File(w) || p == DropFile(w) || p == DropAbstract(w)
  }

  // ---------------------------------------------------------------- the steps

  /** Whether a daemon in this phase may take this step of a lock: acquiring it, or giving it back. */
  predicate MayStep(s: State, p: Pid, d: Daemon, a: Lock.Action) {
    match d.phase
    case File(w) =>
      && Of(d, w) in s.files && Lock.Enabled(s.files[Of(d, w)], a)
      && (match a
          case Begin(_, pid) => pid == p && Try(d, w).None?
          case Crash(_) => false
          case Release(_) => false
          case _ => Try(d, w) == Some(a.i))
    case DropFile(w) =>
      && Of(d, w) in s.files && Lock.Enabled(s.files[Of(d, w)], a)
      && (a.Release? || a.Unpublish? || a.Close?) && Try(d, w) == Some(a.i)
    case _ => false
  }

  /** An attempt that ended for good: refused, failed, or withdrawn for the last time. */
  predicate GaveUp(s: State, d: Daemon, w: Which) {
    && Try(d, w).Some? && Of(d, w) in s.files && Try(d, w).value in s.files[Of(d, w)].attempts
    && var t := s.files[Of(d, w)].attempts[Try(d, w).value];
       t.phase.Ended? && (t.phase.ending == Lock.Withdrawn ==> t.tries >= Lock.WITHDRAWN_RETRIES)
  }

  predicate Enabled(s: State, a: Action) {
    if a.Start? then
      && a.p !in s.daemons && Data(a.data) in s.files && Root(a.root) in s.files
      && (forall r, k | r in s.files && k in s.files[r].attempts :: s.files[r].attempts[k].pid != a.p)
    else
      a.p in s.daemons && EnabledFor(s, a, s.daemons[a.p])
  }

  predicate EnabledFor(s: State, a: Action, d: Daemon)
    requires !a.Start?
  {
    match a
    case TakeAbstract(_) => d.phase.Abstract? && (d.linux ==> (d.net, Of(d, d.phase.which)) !in s.abstracts)
    case AbstractFails(_) => d.phase.Abstract?
    case LockStep(p, step) => MayStep(s, p, d, step)
    case FileTaken(_) => d.phase.File? && TryPhase(s, d, d.phase.which) == Lock.Holding
    case FileFails(_) => d.phase.File? && GaveUp(s, d, d.phase.which)
    case RuntimeOpens(_) => d.phase.Opening?
    case RuntimeFails(_) => d.phase.Opening?
    case Signal(_) => d.phase.Open? || d.phase.Draining?
    case RuntimeCloses(_) => d.phase.Draining?
    case CloseThrows(_) => d.phase.Draining?
    case FileDropped(_) => d.phase.DropFile? && TryPhase(s, d, d.phase.which).Ended?
    case AbstractDropped(_) => d.phase.DropAbstract?
    case Crash(_) => !d.phase.Over? && !d.phase.Dead?
  }

  function Goto(s: State, p: Pid, q: Phase): State
    requires p in s.daemons
  {
    s.(daemons := s.daemons[p := s.daemons[p].(phase := q)])
  }

  /** Which attempt a step of the lock leaves as the daemon's last. */
  function Follows(d: Daemon, w: Which, a: Lock.Action): Daemon {
    match a
    case Begin(i, _) => SetTry(d, w, i)
    case Retry(_, next) => SetTry(d, w, next)
    case _ => d
  }

  function Apply(s: State, a: Action): State
    requires Enabled(s, a)
  {
    match a
    case Start(p, net, linux, data, root) =>
      s.(daemons := s.daemons[p := Daemon(net, linux, data, root, Abstract(DataLock), None, None)])
    case TakeAbstract(p) =>
      var d := s.daemons[p];
      var s1 := if d.linux then s.(abstracts := s.abstracts[(d.net, Of(d, d.phase.which)) := p]) else s;
      Goto(s1, p, File(d.phase.which))
    // A refused part releases what was taken before it, last first.
    case AbstractFails(p) =>
      Goto(s, p, if s.daemons[p].phase.which == DataLock then Over else DropFile(DataLock))
    case LockStep(p, step) =>
      var d := s.daemons[p];
      var w := d.phase.which;
      s.(files := s.files[Of(d, w) := Lock.Next(s.files[Of(d, w)], step)],
         daemons := s.daemons[p := Follows(d, w, step)])
    case FileTaken(p) =>
      Goto(s, p, if s.daemons[p].phase.which == DataLock then Abstract(RootLock) else Opening)
    case FileFails(p) => Goto(s, p, DropAbstract(s.daemons[p].phase.which))
    case RuntimeOpens(p) => Goto(s, p, Open)
    case RuntimeFails(p) => Goto(s, p, DropFile(RootLock))
    // The first signal begins the drain; another only hastens it.
    case Signal(p) => Goto(s, p, Draining)
    case RuntimeCloses(p) => Goto(s, p, DropFile(RootLock))
    case CloseThrows(p) => Goto(s, p, CloseFailed)
    case FileDropped(p) => Goto(s, p, DropAbstract(s.daemons[p].phase.which))
    case AbstractDropped(p) =>
      var d := s.daemons[p];
      var s1 := if d.linux then s.(abstracts := s.abstracts - {(d.net, Of(d, d.phase.which))}) else s;
      Goto(s1, p, if d.phase.which == RootLock then DropFile(DataLock) else Over)
    case Crash(p) =>
      Goto(State(map r | r in s.files :: Lock.CrashAll(s.files[r], p),
                 map x | x in s.abstracts && s.abstracts[x] != p :: s.abstracts[x],
                 s.daemons), p, Dead)
  }

  /** The state after an action, as long as it is enabled. */
  function Next(s: State, a: Action): State {
    if Enabled(s, a) then Apply(s, a) else s
  }

  predicate Init(s: State) {
    s.abstracts == map[] && s.daemons == map[] && forall r | r in s.files :: Lock.Init(s.files[r])
  }

  datatype Outcome = Stuck | At(state: State)

  function Exec(s: State, actions: seq<Action>): Outcome
    decreases |actions|
  {
    if actions == [] then At(s)
    else
      match Exec(s, actions[..|actions| - 1])
      case Stuck => Stuck
      case At(mid) =>
        var a := actions[|actions| - 1];
        if Enabled(mid, a) then At(Next(mid, a)) else Stuck
  }

  // ---------------------------------------------------------------- the invariant

  /** What the phase of daemon `p` says about its attempts at one of its socket files. */
  predicate FileSound(s: State, p: Pid, d: Daemon, w: Which) {
    && Of(d, w) in s.files
    && (Try(d, w).Some? ==>
          && Try(d, w).value in s.files[Of(d, w)].attempts
          && s.files[Of(d, w)].attempts[Try(d, w).value].pid == p)
    && (HoldsFile(d.phase, w) ==> Try(d, w).Some? && TryPhase(s, d, w) == Lock.Holding)
    && (!HoldsFile(d.phase, w) && d.phase != File(w) && d.phase != DropFile(w) && d.phase != Dead ==>
          TryPhase(s, d, w).Ended?)
    && (d.phase != Dead ==> !TryPhase(s, d, w).Crashed?)
  }

  /** An attempt at a socket file that still runs is the last one of a daemon for that file. */
  predicate Owned(s: State, r: Resource, k: Id)
    requires r in s.files && k in s.files[r].attempts
  {
    var t := s.files[r].attempts[k];
    && (t.pid in s.daemons ==>
          var d := s.daemons[t.pid];
          || t.phase.Ended?
          || (t.phase.Crashed? && d.phase == Dead)
          || (r == Of(d, DataLock) && d.dataTry == Some(k))
          || (r == Of(d, RootLock) && d.rootTry == Some(k)))
    && (t.pid !in s.daemons ==> t.phase == Lock.Crashed)
  }

  predicate AbstractSound(s: State, x: (Net, Resource))
    requires x in s.abstracts
  {
    var p := s.abstracts[x];
    && p in s.daemons
    && var d := s.daemons[p];
       && x.0 == d.net && d.linux
       && ((x.1 == Of(d, DataLock) && HoldsAbstract(d.phase, DataLock)) ||
           (x.1 == Of(d, RootLock) && HoldsAbstract(d.phase, RootLock)))
  }

  predicate AbstractHeld(s: State, p: Pid, d: Daemon, w: Which) {
    d.linux && HoldsAbstract(d.phase, w) ==>
      (d.net, Of(d, w)) in s.abstracts && s.abstracts[(d.net, Of(d, w))] == p
  }

  ghost predicate LocksSound(s: State) {
    forall r | r in s.files :: Lock.Inv(s.files[r])
  }

  ghost predicate DaemonsSound(s: State) {
    && (forall p, w | p in s.daemons :: FileSound(s, p, s.daemons[p], w))
    && (forall p, w | p in s.daemons :: AbstractHeld(s, p, s.daemons[p], w))
    && (forall r, k | r in s.files && k in s.files[r].attempts :: Owned(s, r, k))
    && (forall x | x in s.abstracts :: AbstractSound(s, x))
  }

  ghost predicate Inv(s: State) {
    LocksSound(s) && DaemonsSound(s)
  }

  lemma InitInv(s: State)
    requires Init(s)
    ensures Inv(s)
  {
    forall r | r in s.files ensures Lock.Inv(s.files[r]) { Lock.InitInv(s.files[r]); }
  }

  /** The step of the lock that a daemon's step is. */
  function LockActionOf(a: Action): Lock.Action
    requires a.LockStep? || a.Crash?
  {
    if a.LockStep? then a.step else Lock.Crash(a.p)
  }

  /** What a step does to one directory: nothing, or one step of its lock. */
  lemma LockAfter(s: State, a: Action, r: Resource)
    requires Enabled(s, a) && r in Next(s, a).files
    ensures r in s.files
    ensures Next(s, a).files[r] != s.files[r] ==>
      && (a.LockStep? || a.Crash?) && Lock.Enabled(s.files[r], LockActionOf(a))
      && Next(s, a).files[r] == Lock.Next(s.files[r], LockActionOf(a))
  {}

  lemma LocksKept(s: State, a: Action, r: Resource)
    requires Inv(s) && Enabled(s, a) && r in Next(s, a).files
    ensures Lock.Inv(Next(s, a).files[r])
  {
    LockAfter(s, a, r);
    if Next(s, a).files[r] != s.files[r] {
      Lock.StepInv(s.files[r], LockActionOf(a));
    }
  }

  /** The attempt of another process keeps its phase, but for what its listing has seen. */
  lemma OthersAttempt(s: State, p: Pid, d: Daemon, step: Lock.Action, k: Id)
    requires d.phase.File? || d.phase.DropFile?
    requires FileSound(s, p, d, d.phase.which) && MayStep(s, p, d, step)
    requires k in s.files[Of(d, d.phase.which)].attempts
    requires s.files[Of(d, d.phase.which)].attempts[k].pid != p
    ensures var f := s.files[Of(d, d.phase.which)];
      && k in Lock.Next(f, step).attempts
      && Lock.Next(f, step).attempts[k].pid == f.attempts[k].pid
      && var x, y := f.attempts[k].phase, Lock.Next(f, step).attempts[k].phase;
         y == x || (x.Listing? && y.Listing?)
  {
    if !step.Begin? { Lock.Bystander(s.files[Of(d, d.phase.which)], step, k); }
  }

  /** The daemon's own last attempt, after a step of it. */
  lemma OwnAttempt(s: State, p: Pid, d: Daemon, step: Lock.Action)
    requires d.phase.File? || d.phase.DropFile?
    requires FileSound(s, p, d, d.phase.which) && MayStep(s, p, d, step) && !TryPhase(s, d, d.phase.which).Crashed?
    ensures var w := d.phase.which;
      var f := Lock.Next(s.files[Of(d, w)], step);
      var d' := Follows(d, w, step);
      && Try(d', w).Some? && Try(d', w).value in f.attempts && f.attempts[Try(d', w).value].pid == p
      && !f.attempts[Try(d', w).value].phase.Crashed?
      && d'.phase == d.phase && Of(d', DataLock) == Of(d, DataLock) && Of(d', RootLock) == Of(d, RootLock)
      && (forall v | v != w :: Try(d', v) == Try(d, v))
  {}

  lemma FileSoundOwnStep(s: State, a: Action, w: Which)
    requires a.LockStep? && Enabled(s, a) && FileSound(s, a.p, s.daemons[a.p], w)
    requires s.daemons[a.p].phase.File? || s.daemons[a.p].phase.DropFile?
    requires FileSound(s, a.p, s.daemons[a.p], s.daemons[a.p].phase.which)
    ensures FileSound(Next(s, a), a.p, Next(s, a).daemons[a.p], w)
  {
    OwnAttempt(s, a.p, s.daemons[a.p], a.step);
  }

  lemma FileSoundOthersStep(s: State, a: Action, p: Pid, w: Which)
    requires a.LockStep? && Enabled(s, a) && p in s.daemons && p != a.p && FileSound(s, p, s.daemons[p], w)
    requires s.daemons[a.p].phase.File? || s.daemons[a.p].phase.DropFile?
    requires FileSound(s, a.p, s.daemons[a.p], s.daemons[a.p].phase.which)
    ensures FileSound(Next(s, a), p, Next(s, a).daemons[p], w)
  {
    var d, actor := s.daemons[p], s.daemons[a.p];
    if Try(d, w).Some? && Of(d, w) == Of(actor, actor.phase.which) {
      OthersAttempt(s, a.p, actor, a.step, Try(d, w).value);
    }
  }

  lemma FileSoundStep(s: State, a: Action, p: Pid, w: Which)
    requires a.LockStep? && Enabled(s, a) && p in s.daemons && FileSound(s, p, s.daemons[p], w)
    requires s.daemons[a.p].phase.File? || s.daemons[a.p].phase.DropFile?
    requires FileSound(s, a.p, s.daemons[a.p], s.daemons[a.p].phase.which)
    ensures FileSound(Next(s, a), p, Next(s, a).daemons[p], w)
  {
    if p == a.p { FileSoundOwnStep(s, a, w); } else { FileSoundOthersStep(s, a, p, w); }
  }

  lemma FileSoundCrash(s: State, a: Action, p: Pid, w: Which)
    requires a.Crash? && Enabled(s, a) && p in s.daemons && FileSound(s, p, s.daemons[p], w)
    ensures FileSound(Next(s, a), p, Next(s, a).daemons[p], w)
  {}

  /** With the same socket files, a daemon's soundness is a matter of its phase. */
  lemma FileSoundIn(s: State, t: State, p: Pid, d: Daemon, w: Which)
    requires t.files == s.files && FileSound(s, p, d, w)
    ensures FileSound(t, p, d, w)
  {}

  predicate MovesTo(s: State, d: Daemon, w: Which, q: Phase) {
    && (HoldsFile(q, w) ==> HoldsFile(d.phase, w) || TryPhase(s, d, w) == Lock.Holding)
    && (!HoldsFile(q, w) && q != File(w) && q != DropFile(w) ==> q != Dead && TryPhase(s, d, w).Ended?)
    && d.phase != Dead
  }

  lemma FileSoundTo(s: State, p: Pid, d: Daemon, w: Which, q: Phase)
    requires FileSound(s, p, d, w) && MovesTo(s, d, w, q)
    ensures FileSound(s, p, d.(phase := q), w)
  {
    assert TryPhase(s, d.(phase := q), w) == TryPhase(s, d, w);
  }

  /** A step that touches no lock changes the daemon's phase alone. */
  lemma MoveIsSound(s: State, a: Action, w: Which)
    requires Enabled(s, a) && !a.Start? && !a.LockStep? && !a.Crash? && FileSound(s, a.p, s.daemons[a.p], w)
    ensures var d, d' := s.daemons[a.p], Next(s, a).daemons[a.p];
      d' == d.(phase := d'.phase) && MovesTo(s, d, w, d'.phase)
  {}

  lemma FileSoundMove(s: State, a: Action, p: Pid, w: Which)
    requires Enabled(s, a) && p in Next(s, a).daemons && !a.LockStep? && !a.Crash?
    requires p in s.daemons ==> FileSound(s, p, s.daemons[p], w)
    ensures FileSound(Next(s, a), p, Next(s, a).daemons[p], w)
  {
    var d' := Next(s, a).daemons[p];
    if !a.Start? {
      if p == a.p {
        MoveIsSound(s, a, w);
        FileSoundTo(s, p, s.daemons[p], w, d'.phase);
      }
      FileSoundIn(s, Next(s, a), p, d', w);
    }
  }

  /** Only what an attempt is and its daemon's last attempts decide whose it is. */
  lemma OwnedIn(s: State, t: State, r: Resource, k: Id)
    requires r in s.files && k in s.files[r].attempts && Owned(s, r, k)
    requires r in t.files && k in t.files[r].attempts && t.daemons.Keys == s.daemons.Keys
    requires var x, y := s.files[r].attempts[k], t.files[r].attempts[k];
      x.pid == y.pid && (y.phase == x.phase || (x.phase.Listing? && y.phase.Listing?))
    requires var p := s.files[r].attempts[k].pid; p in s.daemons ==> t.daemons[p] == s.daemons[p]
    ensures Owned(t, r, k)
  {}

  /** An attempt of another process, or at another socket file. */
  lemma OwnedOther(s: State, a: Action, r: Resource, k: Id)
    requires a.LockStep? && Enabled(s, a) && r in s.files && k in s.files[r].attempts && Owned(s, r, k)
    requires s.daemons[a.p].phase.File? || s.daemons[a.p].phase.DropFile?
    requires FileSound(s, a.p, s.daemons[a.p], s.daemons[a.p].phase.which)
    requires s.files[r].attempts[k].pid != a.p
    ensures r in Next(s, a).files && k in Next(s, a).files[r].attempts && Owned(Next(s, a), r, k)
  {
    var d := s.daemons[a.p];
    if r == Of(d, d.phase.which) { OthersAttempt(s, a.p, d, a.step, k); }
    OwnedIn(s, Next(s, a), r, k);
  }

  /** The process's own attempts at another socket file. */
  lemma OwnedElsewhere(s: State, a: Action, r: Resource, k: Id)
    requires a.LockStep? && Enabled(s, a) && r in s.files && k in s.files[r].attempts && Owned(s, r, k)
    requires s.daemons[a.p].phase.File? || s.daemons[a.p].phase.DropFile?
    requires FileSound(s, a.p, s.daemons[a.p], s.daemons[a.p].phase.which)
    requires s.files[r].attempts[k].pid == a.p && r != Of(s.daemons[a.p], s.daemons[a.p].phase.which)
    ensures r in Next(s, a).files && k in Next(s, a).files[r].attempts && Owned(Next(s, a), r, k)
  {
    OwnAttempt(s, a.p, s.daemons[a.p], a.step);
  }

  /** The process's attempts at the file whose lock it takes or gives back. */
  lemma OwnedOwn(s: State, a: Action, k: Id)
    requires a.LockStep? && Enabled(s, a)
    requires s.daemons[a.p].phase.File? || s.daemons[a.p].phase.DropFile?
    requires FileSound(s, a.p, s.daemons[a.p], s.daemons[a.p].phase.which)
    requires var r := Of(s.daemons[a.p], s.daemons[a.p].phase.which);
      && k in Next(s, a).files[r].attempts
      && (k in s.files[r].attempts ==> Owned(s, r, k) && s.files[r].attempts[k].pid == a.p)
    ensures Owned(Next(s, a), Of(s.daemons[a.p], s.daemons[a.p].phase.which), k)
  {
    var d := s.daemons[a.p];
    var r := Of(d, d.phase.which);
    OwnAttempt(s, a.p, d, a.step);
    if k in s.files[r].attempts && !a.step.Begin? && k != a.step.i { Lock.Bystander(s.files[r], a.step, k); }
  }

  lemma OwnedStep(s: State, a: Action, r: Resource, k: Id)
    requires a.LockStep? && Enabled(s, a) && r in s.files && k in Next(s, a).files[r].attempts
    requires s.daemons[a.p].phase.File? || s.daemons[a.p].phase.DropFile?
    requires FileSound(s, a.p, s.daemons[a.p], s.daemons[a.p].phase.which)
    requires k in s.files[r].attempts ==> Owned(s, r, k)
    ensures Owned(Next(s, a), r, k)
  {
    var here := r == Of(s.daemons[a.p], s.daemons[a.p].phase.which);
    if k in s.files[r].attempts && s.files[r].attempts[k].pid != a.p { OwnedOther(s, a, r, k); }
    else if here { OwnedOwn(s, a, k); }
    else { OwnedElsewhere(s, a, r, k); }
  }

  lemma OwnedKept(s: State, a: Action, r: Resource, k: Id)
    requires Enabled(s, a) && !a.LockStep? && r in s.files && k in s.files[r].attempts && Owned(s, r, k)
    ensures Owned(Next(s, a), r, k)
  {}

  lemma AbstractSoundOwn(s: State, a: Action, x: (Net, Resource))
    requires Enabled(s, a) && !a.Start? && !a.Crash? && x in Next(s, a).abstracts
    requires x in s.abstracts ==> s.abstracts[x] == a.p && AbstractSound(s, x)
    ensures AbstractSound(Next(s, a), x)
  {}

  lemma AbstractSoundKept(s: State, a: Action, x: (Net, Resource))
    requires Enabled(s, a) && x in Next(s, a).abstracts
    requires x in s.abstracts ==> AbstractSound(s, x)
    ensures AbstractSound(Next(s, a), x)
  {
    if a.Start? || a.Crash? {
    } else if x !in s.abstracts || s.abstracts[x] == a.p {
      AbstractSoundOwn(s, a, x);
    }
  }

  /** The steps that take or give up an abstract socket. */
  predicate TouchesAbstract(a: Action) {
    a.TakeAbstract? || a.AbstractDropped? || a.Crash?
  }

  lemma AbstractHeldPhase(s: State, a: Action, w: Which)
    requires Enabled(s, a) && !a.Start? && !TouchesAbstract(a) && AbstractHeld(s, a.p, s.daemons[a.p], w)
    ensures a.p in Next(s, a).daemons && AbstractHeld(Next(s, a), a.p, Next(s, a).daemons[a.p], w)
  {}

  lemma AbstractHeldOwn(s: State, a: Action, w: Which)
    requires Enabled(s, a) && !a.Start? && AbstractHeld(s, a.p, s.daemons[a.p], w)
    requires a.AbstractDropped? ==> AbstractHeld(s, a.p, s.daemons[a.p], s.daemons[a.p].phase.which)
    ensures a.p in Next(s, a).daemons && AbstractHeld(Next(s, a), a.p, Next(s, a).daemons[a.p], w)
  {
    if !TouchesAbstract(a) { AbstractHeldPhase(s, a, w); }
  }

  lemma AbstractHeldOther(s: State, a: Action, p: Pid, w: Which)
    requires Enabled(s, a) && p in Next(s, a).daemons && p != a.p
    requires p in s.daemons ==> AbstractHeld(s, p, s.daemons[p], w)
    requires a.AbstractDropped? ==> AbstractHeld(s, a.p, s.daemons[a.p], s.daemons[a.p].phase.which)
    ensures AbstractHeld(Next(s, a), p, Next(s, a).daemons[p], w)
  {}

  lemma AbstractHeldKept(s: State, a: Action, p: Pid, w: Which)
    requires Enabled(s, a) && p in Next(s, a).daemons
    requires p in s.daemons ==> AbstractHeld(s, p, s.daemons[p], w)
    requires a.AbstractDropped? ==> AbstractHeld(s, a.p, s.daemons[a.p], s.daemons[a.p].phase.which)
    ensures AbstractHeld(Next(s, a), p, Next(s, a).daemons[p], w)
  {
    if p != a.p { AbstractHeldOther(s, a, p, w); } else if !a.Start? { AbstractHeldOwn(s, a, w); }
  }

  lemma StepInv(s: State, a: Action)
    requires Inv(s) && Enabled(s, a)
    ensures Inv(Next(s, a))
  {
    var t := Next(s, a);
    forall r | r in t.files ensures Lock.Inv(t.files[r]) { LocksKept(s, a, r); }
    forall p, w | p in t.daemons ensures FileSound(t, p, t.daemons[p], w) {
      if a.LockStep? { FileSoundStep(s, a, p, w); }
      else if a.Crash? { FileSoundCrash(s, a, p, w); }
      else { FileSoundMove(s, a, p, w); }
    }
    forall p, w | p in t.daemons ensures AbstractHeld(t, p, t.daemons[p], w) { AbstractHeldKept(s, a, p, w); }
    forall r, k | r in t.files && k in t.files[r].attempts ensures Owned(t, r, k) {
      if a.LockStep? { OwnedStep(s, a, r, k); } else { OwnedKept(s, a, r, k); }
    }
    forall x | x in t.abstracts ensures AbstractSound(t, x) { AbstractSoundKept(s, a, x); }
  }

  lemma {:induction false} ReachableInv(s0: State, actions: seq<Action>)
    requires Init(s0) && Exec(s0, actions).At?
    ensures Inv(Exec(s0, actions).state)
    decreases |actions|
  {
    if actions == [] {
      InitInv(s0);
    } else {
      ReachableInv(s0, actions[..|actions| - 1]);
      StepInv(Exec(s0, actions[..|actions| - 1]).state, actions[|actions| - 1]);
    }
  }

  // ---------------------------------------------------------------- what a start promises

  /** Both locks are held for as long as a runtime is up, each with both of its parts. */
  lemma RuntimeHoldsBothLocks(s0: State, actions: seq<Action>, p: Pid, w: Which)
    requires Init(s0) && Exec(s0, actions).At? && p in Exec(s0, actions).state.daemons
    requires RuntimeUp(Exec(s0, actions).state.daemons[p].phase)
    ensures var s := Exec(s0, actions).state;
      var d := s.daemons[p];
      && (d.linux ==> (d.net, Of(d, w)) in s.abstracts && s.abstracts[(d.net, Of(d, w))] == p)
      && Of(d, w) in s.files && Try(d, w).Some? && Try(d, w).value in s.files[Of(d, w)].attempts
      && s.files[Of(d, w)].attempts[Try(d, w).value].pid == p
      && s.files[Of(d, w)].attempts[Try(d, w).value].phase == Lock.Holding
      && Lock.Published(Try(d, w).value) in s.files[Of(d, w)].dir
  {
    var s := Exec(s0, actions).state;
    ReachableInv(s0, actions);
    assert FileSound(s, p, s.daemons[p], w) && AbstractHeld(s, p, s.daemons[p], w);
    assert Lock.Sound(s.files[Of(s.daemons[p], w)], Try(s.daemons[p], w).value);
  }

  /** At most one daemon has a runtime up for a data directory, and at most one for an agents' root,
      whatever network namespaces they run in. */
  lemma OneRuntimePerDirectory(s0: State, actions: seq<Action>, p: Pid, q: Pid)
    requires Init(s0) && Exec(s0, actions).At?
    requires p in Exec(s0, actions).state.daemons && q in Exec(s0, actions).state.daemons
    requires RuntimeUp(Exec(s0, actions).state.daemons[p].phase)
    requires RuntimeUp(Exec(s0, actions).state.daemons[q].phase)
    requires Exec(s0, actions).state.daemons[p].data == Exec(s0, actions).state.daemons[q].data ||
             Exec(s0, actions).state.daemons[p].root == Exec(s0, actions).state.daemons[q].root
    ensures p == q
  {
    var s := Exec(s0, actions).state;
    var w := if s.daemons[p].data == s.daemons[q].data then DataLock else RootLock;
    ReachableInv(s0, actions);
    RuntimeHoldsBothLocks(s0, actions, p, w);
    RuntimeHoldsBothLocks(s0, actions, q, w);
    assert Lock.OneMeets(s.files[Of(s.daemons[p], w)], Try(s.daemons[p], w).value, Try(s.daemons[q], w).value);
  }

  /** A start that failed at any point, and a daemon that stopped, holds neither lock and leaves
      no socket of its own in any directory. */
  lemma OverHoldsNothing(s0: State, actions: seq<Action>, p: Pid)
    requires Init(s0) && Exec(s0, actions).At? && p in Exec(s0, actions).state.daemons
    requires Exec(s0, actions).state.daemons[p].phase == Over
    ensures forall x | x in Exec(s0, actions).state.abstracts :: Exec(s0, actions).state.abstracts[x] != p
    ensures forall r, k | r in Exec(s0, actions).state.files && k in Exec(s0, actions).state.files[r].attempts
      && Exec(s0, actions).state.files[r].attempts[k].pid == p ::
        && Exec(s0, actions).state.files[r].attempts[k].phase.Ended?
        && Lock.Published(k) !in Exec(s0, actions).state.files[r].dir
        && Lock.Starting(k) !in Exec(s0, actions).state.files[r].dir
  {
    var s := Exec(s0, actions).state;
    ReachableInv(s0, actions);
    forall x | x in s.abstracts ensures s.abstracts[x] != p { assert AbstractSound(s, x); }
    forall r, k | r in s.files && k in s.files[r].attempts && s.files[r].attempts[k].pid == p
      ensures s.files[r].attempts[k].phase.Ended?
      ensures Lock.Published(k) !in s.files[r].dir && Lock.Starting(k) !in s.files[r].dir
    {
      assert Owned(s, r, k);
      assert FileSound(s, p, s.daemons[p], DataLock) && FileSound(s, p, s.daemons[p], RootLock);
      assert Lock.Sound(s.files[r], k);
    }
  }
}
