/** That a daemon's start and stop get to their ends (apps/server/src/daemon-start.ts; instance-lock.ts, lines
89-178): a start on its own opens its runtime, and whatever ends a start or a run gives both locks back. */
module DaemonProgress {
  import opened Basics
  import opened DaemonStart
  import Lock = InstanceLock

  /** A step that daemon `p` takes by itself: no signal, no crash, no error as its runtime closes. */
  predicate Own(a: Action, p: Pid) {
    a.p == p && !a.Signal? && !a.Crash? && !a.CloseThrows? && !a.Start?
  }

  /** How many of some steps are daemon `p`'s own. */
  function OwnSteps(actions: seq<Action>, p: Pid): nat {
    if actions == [] then 0
    else OwnSteps(actions[..|actions| - 1], p) + (if Own(actions[|actions| - 1], p) then 1 else 0)
  }

  // ---------------------------------------------------------------- giving the locks back

  /** On its way to holding nothing: drained, or giving back one of its locks. */
  predicate Leaving(p: Phase) {
    p.Draining? || p.DropFile? || p.DropAbstract? || p.Over?
  }

  function FileLeft(p: Lock.Phase): nat {
    if p.Holding? then 3 else if p.Unpublishing? then 2 else if p.Closing? then 1 else 0
  }

  /** The steps left to the end. */
  function LeavingLeft(s: State, d: Daemon): nat {
    match d.phase
    case Draining => 11
    case DropFile(w) => FileLeft(TryPhase(s, d, w)) + 2 + (if w == RootLock then 5 else 0)
    case DropAbstract(w) => 1 + (if w == RootLock then 5 else 0)
    case _ => 0
  }

  /** The lock that is given back is held, or on its way to being over. */
  predicate GivesBack(s: State, d: Daemon) {
    match d.phase
    case DropFile(w) =>
      var p := TryPhase(s, d, w);
      && Try(d, w).Some? && Of(d, w) in s.files && Try(d, w).value in s.files[Of(d, w)].attempts
      && (p.Holding? || p.Unpublishing? || p.Closing? || p.Ended?)
    case _ => true
  }

  /** Whatever step ends a start, or a run, begins to give back what it held; only a runtime that throws as it
      closes keeps its locks. */
  lemma EndingsGiveBack(s: State, a: Action)
    requires Enabled(s, a) && !a.Start?
    ensures a.AbstractFails? || a.FileFails? || a.RuntimeFails? || a.RuntimeCloses? || a.Signal? ==>
      Leaving(Next(s, a).daemons[a.p].phase)
    ensures a.RuntimeOpens? ==> Next(s, a).daemons[a.p].phase.Open?
    ensures Next(s, a).daemons[a.p].phase.CloseFailed? ==> a.CloseThrows?
  {}

  /** The phase of an attempt, and that there is one. */
  ghost predicate SameTry(s: State, t: State, d: Daemon, w: Which) {
    && (Of(d, w) in s.files ==> Of(d, w) in t.files)
    && (Of(d, w) in s.files && Try(d, w).Some? && Try(d, w).value in s.files[Of(d, w)].attempts ==>
          Try(d, w).value in t.files[Of(d, w)].attempts)
    && var x, y := TryPhase(s, d, w), TryPhase(t, d, w); y == x || (x.Listing? && y.Listing?)
  }

  lemma OthersLock(s: State, a: Action, p: Pid, w: Which)
    requires Inv(s) && Enabled(s, a) && p in s.daemons && a.p != p && a.LockStep?
    ensures SameTry(s, Next(s, a), s.daemons[p], w)
  {
    var d, other := s.daemons[p], s.daemons[a.p];
    assert FileSound(s, p, d, w);
    if Of(d, w) == Of(other, other.phase.which) && Try(d, w).Some? {
      assert FileSound(s, a.p, other, other.phase.which);
      OthersAttempt(s, a.p, other, a.step, Try(d, w).value);
    }
  }

  lemma OthersCrash(s: State, a: Action, p: Pid, w: Which)
    requires Inv(s) && Enabled(s, a) && p in s.daemons && a.p != p && a.Crash?
    ensures SameTry(s, Next(s, a), s.daemons[p], w)
  {
    assert FileSound(s, p, s.daemons[p], w);
  }

  lemma FilesStay(s: State, a: Action)
    requires Enabled(s, a) && !a.LockStep? && !a.Crash?
    ensures Next(s, a).files == s.files
  {}

  /** A step of another daemon leaves this one as it is, and the phases of its attempts but for what a
      listing has seen. */
  lemma OthersLeave(s: State, a: Action, p: Pid, w: Which)
    requires Inv(s) && Enabled(s, a) && p in s.daemons && a.p != p
    ensures SameTry(s, Next(s, a), s.daemons[p], w)
  {
    if a.LockStep? { OthersLock(s, a, p, w); } else if a.Crash? { OthersCrash(s, a, p, w); } else { FilesStay(s, a); }
  }

  lemma OthersStay(s: State, a: Action, p: Pid)
    requires Enabled(s, a) && p in s.daemons && a.p != p
    ensures p in Next(s, a).daemons && Next(s, a).daemons[p] == s.daemons[p]
  {}

  lemma GivesBackKept(s: State, a: Action, p: Pid)
    requires Inv(s) && Enabled(s, a) && p in s.daemons && GivesBack(s, s.daemons[p])
    ensures p in Next(s, a).daemons && GivesBack(Next(s, a), Next(s, a).daemons[p])
  {
    if a.p != p {
      OthersStay(s, a, p);
      if s.daemons[p].phase.DropFile? { OthersLeave(s, a, p, s.daemons[p].phase.which); }
    } else if !a.Crash? && !a.Start? {
      OwnGivesBack(s, a);
    }
  }

  /** A lock is held when its release begins. */
  lemma OwnGivesBack(s: State, a: Action)
    requires Inv(s) && Enabled(s, a) && !a.Crash? && !a.Start? && GivesBack(s, s.daemons[a.p])
    ensures GivesBack(Next(s, a), Next(s, a).daemons[a.p])
  {
    var d := s.daemons[a.p];
    assert FileSound(s, a.p, d, DataLock) && FileSound(s, a.p, d, RootLock);
    if a.LockStep? {
      if d.phase.DropFile? { DropStep(s, a, d, d.phase.which); }
    } else {
      MoveGivesBack(s, a, d);
    }
  }

  lemma MoveGivesBack(s: State, a: Action, d: Daemon)
    requires Enabled(s, a) && !a.Crash? && !a.Start? && !a.LockStep? && d == s.daemons[a.p]
    requires FileSound(s, a.p, d, DataLock) && FileSound(s, a.p, d, RootLock)
    ensures GivesBack(Next(s, a), Next(s, a).daemons[a.p])
  {
    var n := Next(s, a).daemons[a.p];
    assert n.phase.DropFile? ==> n.phase != d.phase && HoldsFile(d.phase, n.phase.which);
    assert n == d.(phase := n.phase) && Next(s, a).files == s.files;
  }

  /** One step of the release of a socket file. */
  lemma DropStep(s: State, a: Action, d: Daemon, w: Which)
    requires a.LockStep? && Enabled(s, a) && d == s.daemons[a.p] && d.phase == DropFile(w) && GivesBack(s, d)
    ensures var t := Next(s, a);
      && t.daemons[a.p] == d && GivesBack(t, d)
      && FileLeft(TryPhase(t, d, w)) < FileLeft(TryPhase(s, d, w))
      && forall v | v != w :: TryPhase(t, d, v) == TryPhase(s, d, v)
  {}

  lemma LeavingMoves(s: State, a: Action, d: Daemon)
    requires Enabled(s, a) && Own(a, a.p) && !a.LockStep? && d == s.daemons[a.p] && Leaving(d.phase)
    requires FileSound(s, a.p, d, DataLock) && FileSound(s, a.p, d, RootLock)
    ensures var n := Next(s, a).daemons[a.p];
      Leaving(n.phase) && LeavingLeft(Next(s, a), n) < LeavingLeft(s, d)
  {
    FilesStay(s, a);
    var n := Next(s, a).daemons[a.p];
    assert n == d.(phase := n.phase);
  }

  /** Each of its own steps brings a daemon that leaves closer to its end. */
  lemma LeavingAdvances(s: State, a: Action)
    requires Inv(s) && Enabled(s, a) && Own(a, a.p) && Leaving(s.daemons[a.p].phase) && GivesBack(s, s.daemons[a.p])
    ensures var n := Next(s, a).daemons[a.p];
      Leaving(n.phase) && LeavingLeft(Next(s, a), n) < LeavingLeft(s, s.daemons[a.p])
  {
    var d := s.daemons[a.p];
    assert FileSound(s, a.p, d, DataLock) && FileSound(s, a.p, d, RootLock);
    if a.LockStep? { DropStep(s, a, d, d.phase.which); } else { LeavingMoves(s, a, d); }
  }

  /** And until it is over it can take one. */
  lemma NextLeaving(s: State, p: Pid) returns (a: Action)
    requires Inv(s) && p in s.daemons && Leaving(s.daemons[p].phase) && !s.daemons[p].phase.Over?
    requires GivesBack(s, s.daemons[p])
    ensures Enabled(s, a) && Own(a, p)
  {
    var d := s.daemons[p];
    match d.phase {
      case Draining => a := RuntimeCloses(p);
      case DropAbstract(_) => a := AbstractDropped(p);
      case DropFile(w) =>
        var i := Try(d, w).value;
        match TryPhase(s, d, w) {
          case Holding => a := LockStep(p, Lock.Release(i));
          case Unpublishing(_) => a := LockStep(p, Lock.Unpublish(i));
          case Closing(_) => a := LockStep(p, Lock.Close(i));
          case _ => a := FileDropped(p);
        }
    }
  }

  lemma SignalStays(s: State, a: Action)
    requires Enabled(s, a) && a.Signal? && Leaving(s.daemons[a.p].phase)
    ensures Next(s, a).files == s.files && Next(s, a).daemons[a.p] == s.daemons[a.p]
  {}

  lemma LeavingWaits(s: State, a: Action, p: Pid)
    requires Inv(s) && Enabled(s, a) && p in s.daemons && (a.p != p || a.Signal?)
    requires Leaving(s.daemons[p].phase) && GivesBack(s, s.daemons[p])
    ensures p in Next(s, a).daemons
    ensures var n := Next(s, a).daemons[p];
      Leaving(n.phase) && LeavingLeft(Next(s, a), n) == LeavingLeft(s, s.daemons[p])
  {
    if a.p != p {
      OthersStay(s, a, p);
      if s.daemons[p].phase.DropFile? { OthersLeave(s, a, p, s.daemons[p].phase.which); }
    } else {
      SignalStays(s, a);
    }
  }

  /** A daemon that leaves is over after at most eleven steps of its own, whatever other daemons do meanwhile,
      and until then it can always take the next. */
  lemma {:induction false} LeavesInTime(s: State, p: Pid, actions: seq<Action>) returns (next: Action)
    requires Inv(s) && p in s.daemons && Leaving(s.daemons[p].phase) && GivesBack(s, s.daemons[p])
    requires Exec(s, actions).At? && Crash(p) !in actions && CloseThrows(p) !in actions
    ensures var t := Exec(s, actions).state;
      && Inv(t) && p in t.daemons && Leaving(t.daemons[p].phase) && GivesBack(t, t.daemons[p])
      && OwnSteps(actions, p) + LeavingLeft(t, t.daemons[p]) <= LeavingLeft(s, s.daemons[p]) <= 11
      && (!t.daemons[p].phase.Over? ==> Enabled(t, next) && Own(next, p))
    decreases |actions|
  {
    next := RuntimeCloses(p);
    if actions != [] {
      var front, a := actions[..|actions| - 1], actions[|actions| - 1];
      var mid := Exec(s, front).state;
      var _ := LeavesInTime(s, p, front);
      StepInv(mid, a);
      GivesBackKept(mid, a, p);
      assert a in actions;
      if Own(a, p) { LeavingAdvances(mid, a); } else { LeavingWaits(mid, a, p); }
    }
    var t := Exec(s, actions).state;
    if !t.daemons[p].phase.Over? { next := NextLeaving(t, p); }
  }

  /** Every daemon that leaves in a reachable state gives back what it holds. */
  lemma {:induction false} ReachableGivesBack(s0: State, actions: seq<Action>, p: Pid)
    requires Init(s0) && Exec(s0, actions).At? && p in Exec(s0, actions).state.daemons
    ensures Inv(Exec(s0, actions).state)
    ensures GivesBack(Exec(s0, actions).state, Exec(s0, actions).state.daemons[p])
    decreases |actions|
  {
    ReachableInv(s0, actions);
    if actions != [] {
      var front, a := actions[..|actions| - 1], actions[|actions| - 1];
      var mid := Exec(s0, front).state;
      if p in mid.daemons {
        ReachableGivesBack(s0, front, p);
        GivesBackKept(mid, a, p);
      }
    }
  }

  // ---------------------------------------------------------------- a start on its own

  predicate LoneStep(step: Lock.Action) {
    match step
    case Begin(_, _) => true
    case Crash(_) => false
    case _ => Lock.Undisturbed(step, step.i)
  }

  /** The steps of a start that nothing disturbs. */
  predicate Undisturbed(a: Action, p: Pid) {
    match a
    case TakeAbstract(q) => q == p
    case LockStep(q, step) => q == p && LoneStep(step)
    case FileTaken(q) => q == p
    case RuntimeOpens(q) => q == p
    case _ => false
  }

  predicate Starting(d: Daemon) {
    match d.phase
    case Abstract(w) => d.rootTry.None? && (w == DataLock ==> d.dataTry.None?)
    case File(w) => w == DataLock ==> d.rootTry.None?
    case Opening => true
    case Open => true
    case _ => false
  }

  /** At one socket file every attempt but the daemon's own is over. */
  ghost predicate AloneAt(s: State, d: Daemon, w: Which) {
    Of(d, w) in s.files &&
    forall k | k in s.files[Of(d, w)].attempts && Lock.Active(s.files[Of(d, w)].attempts[k].phase) ::
      Try(d, w) == Some(k)
  }

  ghost predicate Climbing(s: State, d: Daemon) {
    d.phase.File? && Try(d, d.phase.which).Some? && Of(d, d.phase.which) in s.files ==>
      var f, i := s.files[Of(d, d.phase.which)], Try(d, d.phase.which).value;
      i in f.attempts && Lock.OnItsWay(f, f.attempts[i].phase, i)
  }

  /** Daemon `p` is starting, and nobody else lives that takes its locks. */
  ghost predicate Unopposed(s: State, p: Pid) {
    && Inv(s) && p in s.daemons && Starting(s.daemons[p])
    && (forall q | q in s.daemons && q != p :: s.daemons[q].phase.Over? || s.daemons[q].phase.Dead?)
    && AloneAt(s, s.daemons[p], DataLock) && AloneAt(s, s.daemons[p], RootLock)
    && Climbing(s, s.daemons[p])
  }

  function Fresh(s: State, d: Daemon, w: Which): nat {
    if Of(d, w) in s.files then 1 + Lock.Left(Lock.Begun, |s.files[Of(d, w)].dir|) else 0
  }

  function Taking(s: State, d: Daemon, w: Which): nat {
    if Try(d, w).None? then Fresh(s, d, w)
    else if Of(d, w) in s.files && Try(d, w).value in s.files[Of(d, w)].attempts
    then Lock.StepsLeft(s.files[Of(d, w)], Try(d, w).value)
    else 0
  }

  /** The steps left until the runtime is open. */
  function StartLeft(s: State, d: Daemon): nat {
    match d.phase
    case Abstract(w) =>
      if w == DataLock then 1 + Fresh(s, d, DataLock) + 1 + 1 + Fresh(s, d, RootLock) + 2
      else 1 + Fresh(s, d, RootLock) + 2
    case File(w) =>
      if w == DataLock then Taking(s, d, DataLock) + 1 + 1 + Fresh(s, d, RootLock) + 2
      else Taking(s, d, RootLock) + 2
    case Opening => 1
    case _ => 0
  }

  /** A daemon that starts where every other is over, or dead, is unopposed. */
  lemma StartsUnopposed(s: State, a: Action)
    requires Inv(s) && a.Start? && Enabled(s, a)
    requires forall q | q in s.daemons :: s.daemons[q].phase.Over? || s.daemons[q].phase.Dead?
    requires forall r, k | r in s.files && k in s.files[r].attempts :: !Lock.Active(s.files[r].attempts[k].phase)
    ensures Unopposed(Next(s, a), a.p)
  {
    StepInv(s, a);
  }

  lemma FileAlone(s: State, p: Pid, w: Which)
    requires Unopposed(s, p) && s.daemons[p].phase == File(w) && Try(s.daemons[p], w).Some?
    ensures Of(s.daemons[p], w) in s.files && Lock.Alone(s.files[Of(s.daemons[p], w)], Try(s.daemons[p], w).value)
  {}

  /** A step of the lock that the daemon is taking. */
  lemma TakingStep(s: State, p: Pid, step: Lock.Action, w: Which)
    requires Unopposed(s, p) && s.daemons[p].phase == File(w) && MayStep(s, p, s.daemons[p], step) && LoneStep(step)
    ensures var d := s.daemons[p];
      var f, e := Lock.Next(s.files[Of(d, w)], step), Follows(d, w, step);
      && Try(e, w).Some? && Lock.Alone(f, Try(e, w).value)
      && Lock.StepsLeft(f, Try(e, w).value) < Taking(s, d, w)
  {
    var d := s.daemons[p];
    var f := s.files[Of(d, w)];
    if step.Begin? {
      assert Lock.Inv(f);
      Lock.BeginsAlone(f, step.i, step.pid);
    } else {
      FileAlone(s, p, w);
      Lock.AloneStays(f, step.i, step);
      Lock.UndisturbedAdvances(f, step.i, step);
    }
  }

  /** What a step of the lock changes. */
  ghost predicate Took(s: State, t: State, p: Pid, f: Lock.State, w: Which)
    requires p in s.daemons
  {
    var d := s.daemons[p];
    && p in t.daemons && t.daemons[p].phase == d.phase == File(w) && t.files == s.files[Of(d, w) := f]
    && (forall q | q in t.daemons && q != p :: q in s.daemons && t.daemons[q] == s.daemons[q])
    && (forall v :: Of(t.daemons[p], v) == Of(d, v))
    && (forall v | v != w :: Try(t.daemons[p], v) == Try(d, v))
  }

  lemma StepTakes(s: State, p: Pid, step: Lock.Action, w: Which)
    requires p in s.daemons && s.daemons[p].phase == File(w) && Enabled(s, LockStep(p, step)) && LoneStep(step)
    ensures var t := Next(s, LockStep(p, step));
      && Took(s, t, p, Lock.Next(s.files[Of(s.daemons[p], w)], step), w)
      && t.daemons[p] == Follows(s.daemons[p], w, step)
  {}

  lemma TookAlone(s: State, t: State, p: Pid, f: Lock.State, w: Which, v: Which)
    requires p in s.daemons && AloneAt(s, s.daemons[p], v) && Took(s, t, p, f, w)
    requires Try(t.daemons[p], w).Some? && Lock.Alone(f, Try(t.daemons[p], w).value)
    ensures AloneAt(t, t.daemons[p], v)
  {
    assert Of(t.daemons[p], v) == Of(s.daemons[p], v);
    if v != w { assert Try(t.daemons[p], v) == Try(s.daemons[p], v); }
  }

  lemma TookUnopposed(s: State, t: State, p: Pid, f: Lock.State, w: Which)
    requires Unopposed(s, p) && Inv(t) && Took(s, t, p, f, w)
    requires Try(t.daemons[p], w).Some? && Lock.Alone(f, Try(t.daemons[p], w).value)
    ensures Unopposed(t, p)
  {
    TookAlone(s, t, p, f, w, DataLock);
    TookAlone(s, t, p, f, w, RootLock);
    assert Starting(t.daemons[p]) by {
      assert w == DataLock ==> Try(t.daemons[p], RootLock) == Try(s.daemons[p], RootLock);
    }
    assert Climbing(t, t.daemons[p]) by { assert Of(t.daemons[p], w) == Of(s.daemons[p], w); }
  }

  lemma TookLess(s: State, t: State, p: Pid, f: Lock.State, w: Which)
    requires p in s.daemons && Took(s, t, p, f, w) && Of(s.daemons[p], w) in s.files
    requires Try(t.daemons[p], w).Some? && Try(t.daemons[p], w).value in f.attempts
    requires Lock.StepsLeft(f, Try(t.daemons[p], w).value) < Taking(s, s.daemons[p], w)
    ensures StartLeft(t, t.daemons[p]) < StartLeft(s, s.daemons[p])
  {
    assert Fresh(t, t.daemons[p], RootLock) == Fresh(s, s.daemons[p], RootLock) || w == RootLock;
  }

  lemma LockStepAdvances(s: State, p: Pid, step: Lock.Action)
    requires Unopposed(s, p) && Enabled(s, LockStep(p, step)) && LoneStep(step) && s.daemons[p].phase.File?
    ensures var t := Next(s, LockStep(p, step));
      Unopposed(t, p) && StartLeft(t, t.daemons[p]) < StartLeft(s, s.daemons[p])
  {
    var w := s.daemons[p].phase.which;
    var t, f := Next(s, LockStep(p, step)), Lock.Next(s.files[Of(s.daemons[p], w)], step);
    StepInv(s, LockStep(p, step));
    StepTakes(s, p, step, w);
    TakingStep(s, p, step, w);
    TookUnopposed(s, t, p, f, w);
    TookLess(s, t, p, f, w);
  }

  /** The other steps of a start. */
  lemma MoveAdvances(s: State, p: Pid, a: Action)
    requires Unopposed(s, p) && Enabled(s, a) && Undisturbed(a, p) && !a.LockStep?
    ensures var t := Next(s, a); Unopposed(t, p) && StartLeft(t, t.daemons[p]) < StartLeft(s, s.daemons[p])
  {
    StepInv(s, a);
    FilesStay(s, a);
    assert FileSound(s, p, s.daemons[p], DataLock);
  }

  lemma LocksFree(s: State, p: Pid, w: Which)
    requires Unopposed(s, p) && s.daemons[p].phase == Abstract(w)
    ensures (s.daemons[p].net, Of(s.daemons[p], w)) !in s.abstracts
  {}

  lemma {:induction false} FreshId(ids: set<Id>) returns (i: Id)
    ensures forall k | k in ids :: k < i
    decreases |ids|
  {
    if ids == {} {
      i := 0;
    } else {
      var some :| some in ids;
      i := FreshId(ids - {some});
      if some >= i { i := some + 1; }
      assert forall k | k in ids :: k == some || k in ids - {some};
    }
  }

  /** Until its runtime is open, an unopposed start has a next step. */
  lemma NextStarting(s: State, p: Pid) returns (a: Action)
    requires Unopposed(s, p) && !s.daemons[p].phase.Open?
    ensures Enabled(s, a) && Undisturbed(a, p)
  {
    var d := s.daemons[p];
    match d.phase {
      case Abstract(w) =>
        LocksFree(s, p, w);
        a := TakeAbstract(p);
      case File(w) => a := NextTaking(s, p, w);
      case _ => a := RuntimeOpens(p);
    }
  }

  lemma NextTaking(s: State, p: Pid, w: Which) returns (a: Action)
    requires Unopposed(s, p) && s.daemons[p].phase == File(w)
    ensures Enabled(s, a) && Undisturbed(a, p)
  {
    var d := s.daemons[p];
    var f := s.files[Of(d, w)];
    if Try(d, w).None? {
      var i := FreshId(f.attempts.Keys);
      a := LockStep(p, Lock.Begin(i, p));
    } else {
      var i := Try(d, w).value;
      FileAlone(s, p, w);
      if f.attempts[i].phase == Lock.Holding {
        a := FileTaken(p);
      } else {
        var step := Lock.NextStep(f, i);
        a := LockStep(p, step);
      }
    }
  }

  /** However an unopposed start runs on, it takes no more than so many steps, and until its runtime is open it
      can take another: what other daemons left in its directories, or at its sockets, stops no start. */
  lemma {:induction false} UnopposedStartOpens(s: State, p: Pid, actions: seq<Action>) returns (next: Action)
    requires Unopposed(s, p) && Exec(s, actions).At?
    requires forall k | 0 <= k < |actions| :: Undisturbed(actions[k], p)
    ensures var t := Exec(s, actions).state;
      && Unopposed(t, p) && |actions| + StartLeft(t, t.daemons[p]) <= StartLeft(s, s.daemons[p])
      && (!t.daemons[p].phase.Open? ==> Enabled(t, next) && Undisturbed(next, p))
    decreases |actions|
  {
    next := RuntimeOpens(p);
    if actions != [] {
      var front, a := actions[..|actions| - 1], actions[|actions| - 1];
      var mid := Exec(s, front).state;
      var _ := UnopposedStartOpens(s, p, front);
      if a.LockStep? { LockStepAdvances(mid, p, a.step); } else { MoveAdvances(mid, p, a); }
    }
    var t := Exec(s, actions).state;
    if !t.daemons[p].phase.Open? { next := NextStarting(t, p); }
  }
}
