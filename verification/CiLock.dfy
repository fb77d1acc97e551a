/** The per-workflow CI lock (packages/agents/src/local-check.ts, lines 509-623).

The lock is a directory made by mkdir; its maker then writes `owner.json` into it.  A lock whose
owner died, or that nobody named within ten seconds, is stale, and contenders remove a stale lock
under a guard directory.  Every read, write and clock step below is a single action, so a
contender may be overtaken between any two of them, and any process may die at any point.

Whether the lock excludes depends on three times: how long a live process takes from mkdir to
its name (and from unlinking its name to removing the directory), how long it stays in the
guarded section, and how long it lives on after a release.  `ExcludesExactlyWhen` says for which
of them it does.
 */
module CiLock {
  import opened Basics

  /** A process with its start time: what `processIdentity` names, never reused. */
  type Pid = nat

  datatype OwnerFile = NoFile | Empty(pid: Pid) | Named(pid: Pid)
  datatype LockDir = LockDir(maker: Pid, owner: OwnerFile, mtime: nat)
  datatype GuardDir = GuardDir(pid: Pid, mtime: nat)

  /** Where `staleLock` is called from: the waiting loop, or the section guarded since a time. */
  datatype Where = Outer | Under(since: nat)

  datatype Pc =
    | Idle
    | Try                           // about to mkdir the lock
    | Made(since: nat)              // made it; `owner.json` not opened yet
    | Created(since: nat)           // opened it, empty so far
    | Holding
    | Look(at: Where)               // about to read the owner
    | Check(at: Where, owner: Pid)  // read a name: about to ask whether that process lives
    | Age(at: Where)                // read no name: about to read the lock's age
    | Guarding                      // saw a stale lock: about to mkdir the guard
    | GuardAge                      // the guard exists: about to read its age
    | GuardExpired                  // saw it older than ten seconds: about to remove it
    | Unlinking(since: nat)         // decided again under the guard: about to unlink the name
    | Rmdir(since: nat)
    | Unguard(since: nat)
    | RelRead                       // releasing: about to read the owner
    | RelUnlink
    | RelRmdir(since: nat)
    | Dead

  /** A process, and when it last finished releasing the lock. */
  datatype Proc = Proc(pc: Pc, freed: Option<nat>)

  datatype State = State(now: nat, lock: Option<LockDir>, guard: Option<GuardDir>, procs: map<Pid, Proc>)

  /** What is assumed of live processes, in milliseconds. */
  datatype Timing = Timing(naming: nat, section: nat, linger: nat)

  const STALE_MS := 10_000

  datatype Action =
    | Arrive(p: Pid)
    | Mkdir(p: Pid)
    | Create(p: Pid)
    | Write(p: Pid)
    | ReadOwner(p: Pid)
    | CheckOwner(p: Pid)
    | StatLock(p: Pid)
    | MkGuard(p: Pid)
    | StatGuard(p: Pid)
    | RmGuard(p: Pid)     // the removal of a guard seen expired, lines 556-558
    | Unlink(p: Pid)
    | RemoveDir(p: Pid)
    | DropGuard(p: Pid)
    | Release(p: Pid)
    | RelCheck(p: Pid)
    | RelDrop(p: Pid)
    | RelRemove(p: Pid)
    | GiveUp(p: Pid)
    | Die(p: Pid)
    | Tick(to: nat)

  /** The time the guarded section of a process began. */
  function Guarded(pc: Pc): Option<nat> {
    match pc
    case Look(Under(t)) => Some(t)
    case Check(Under(t), _) => Some(t)
    case Age(Under(t)) => Some(t)
    case Unlinking(t) => Some(t)
    case Rmdir(t) => Some(t)
    case Unguard(t) => Some(t)
    case _ => None
  }

  /** Whether a live process in this state still keeps to its times at `now`. */
  predicate InTime(t: Timing, pc: Pc, now: nat) {
    && (pc.Made? || pc.Created? || pc.RelRmdir? ==> now <= pc.since + t.naming)
    && (Guarded(pc).Some? ==> now <= Guarded(pc).value + t.section)
  }

  predicate Enabled(t: Timing, s: State, a: Action) {
    if a.Tick? then
      s.now <= a.to && forall p | p in s.procs :: InTime(t, s.procs[p].pc, a.to)
    else
      a.p in s.procs && EnabledAt(t, s, a, s.procs[a.p])
  }

  predicate EnabledAt(t: Timing, s: State, a: Action, me: Proc)
    requires !a.Tick?
  {
    match a
    case Arrive(_) => me.pc == Idle
    case Mkdir(_) => me.pc == Try
    case Create(_) => me.pc.Made?
    case Write(_) => me.pc.Created?
    case ReadOwner(_) => me.pc.Look?
    case CheckOwner(_) => me.pc.Check?
    case StatLock(_) => me.pc.Age?
    case MkGuard(_) => me.pc == Guarding
    case StatGuard(_) => me.pc == GuardAge
    case RmGuard(_) => me.pc == GuardExpired
    case Unlink(_) => me.pc.Unlinking?
    case RemoveDir(_) => me.pc.Rmdir?
    case DropGuard(_) => me.pc.Unguard?
    case Release(_) => me.pc == Holding
    case RelCheck(_) => me.pc == RelRead
    case RelDrop(_) => me.pc == RelUnlink
    case RelRemove(_) => me.pc.RelRmdir?
    case GiveUp(_) => me.pc == Try
    case Die(_) => me.pc != Dead && (me.freed.Some? ==> me.freed.value + t.linger <= s.now)
  }

  function Goto(s: State, p: Pid, pc: Pc): State
    requires p in s.procs
  {
    s.(procs := s.procs[p := s.procs[p].(pc := pc)])
  }

  /** After `staleLock`: a stale lock is reclaimed, another is waited for. */
  function Decided(at: Where, stale: bool): Pc {
    match at
    case Outer => if stale then Guarding else Try
    case Under(t) => if stale then Unlinking(t) else Unguard(t)
  }

  predicate IsDead(s: State, p: Pid) {
    p in s.procs && s.procs[p].pc == Dead
  }

  function Apply(t: Timing, s: State, a: Action): State
    requires Enabled(t, s, a)
  {
    match a
    case Tick(to) => s.(now := to)
    case Arrive(p) => Goto(s, p, Try)
    case Mkdir(p) =>
      if s.lock.None?
      then Goto(s.(lock := Some(LockDir(p, NoFile, s.now))), p, Made(s.now))
      else Goto(s, p, Look(Outer))
    // Opening for writing makes the file or empties it; a directory gone meanwhile is an error.
    case Create(p) =>
      if s.lock.None? then Goto(s, p, Idle)
      else
        var l := s.lock.value;
        var mtime := if l.owner.NoFile? then s.now else l.mtime;
        Goto(s.(lock := Some(LockDir(l.maker, Empty(p), mtime))), p, Created(s.procs[p].pc.since))
    case Write(p) =>
      var s1 := if s.lock.Some? && s.lock.value.owner == Empty(p)
                then s.(lock := Some(s.lock.value.(owner := Named(p)))) else s;
      Goto(s1, p, Holding)
    case ReadOwner(p) =>
      var at := s.procs[p].pc.at;
      Goto(s, p, if s.lock.Some? && s.lock.value.owner.Named? then Check(at, s.lock.value.owner.pid) else Age(at))
    case CheckOwner(p) => Goto(s, p, Decided(s.procs[p].pc.at, IsDead(s, s.procs[p].pc.owner)))
    case StatLock(p) =>
      Goto(s, p, Decided(s.procs[p].pc.at, s.lock.Some? && s.now > s.lock.value.mtime + STALE_MS))
    case MkGuard(p) =>
      if s.guard.None? then Goto(s.(guard := Some(GuardDir(p, s.now))), p, Look(Under(s.now)))
      else Goto(s, p, GuardAge)
    case StatGuard(p) =>
      Goto(s, p, if s.guard.Some? && s.now > s.guard.value.mtime + STALE_MS then GuardExpired else Try)
    case RmGuard(p) => Goto(s.(guard := None), p, Try)
    case Unlink(p) => Goto(DropName(s), p, Rmdir(s.procs[p].pc.since))
    case RemoveDir(p) => Goto(DropDir(s), p, Unguard(s.procs[p].pc.since))
    case DropGuard(p) => Goto(s.(guard := None), p, Try)
    case Release(p) => Goto(s, p, RelRead)
    case RelCheck(p) =>
      Goto(s, p, if s.lock.Some? && s.lock.value.owner == Named(p) then RelUnlink else Idle)
    case RelDrop(p) => Goto(DropName(s), p, RelRmdir(s.now))
    case RelRemove(p) =>
      var s1 := DropDir(s);
      s1.(procs := s1.procs[p := Proc(Idle, Some(s.now))])
    case GiveUp(p) => Goto(s, p, Idle)
    case Die(p) => Goto(s, p, Dead)
  }

  function DropName(s: State): State {
    if s.lock.Some? && !s.lock.value.owner.NoFile?
    then s.(lock := Some(LockDir(s.lock.value.maker, NoFile, s.now))) else s
  }

  /** Only an empty directory is removed. */
  function DropDir(s: State): State {
    if s.lock.Some? && s.lock.value.owner.NoFile? then s.(lock := None) else s
  }

  /** At the beginning processes are outside the protocol or about to try; what is on disk was left
      by processes that died. */
  predicate Init(s: State) {
    && (forall p | p in s.procs :: s.procs[p].freed.None? && (s.procs[p].pc in {Idle, Try, Dead}))
    && (s.lock.Some? ==>
          && IsDead(s, s.lock.value.maker)
          && (s.lock.value.owner.NoFile? || s.lock.value.owner.pid == s.lock.value.maker))
    && (s.guard.Some? ==> IsDead(s, s.guard.value.pid))
  }

  datatype Outcome = Stuck | At(state: State)

  function Exec(t: Timing, s: State, actions: seq<Action>): Outcome
    decreases |actions|
  {
    if actions == [] then At(s)
    else
      match Exec(t, s, actions[..|actions| - 1])
      case Stuck => Stuck
      case At(mid) =>
        var a := actions[|actions| - 1];
        if Enabled(t, mid, a) then At(Apply(t, mid, a)) else Stuck
  }

  predicate NoGuardExpires(actions: seq<Action>) {
    forall k | 0 <= k < |actions| :: !actions[k].RmGuard?
  }

  predicate Exclusive(s: State) {
    forall p, q | p in s.procs && q in s.procs && s.procs[p].pc == Holding && s.procs[q].pc == Holding :: p == q
  }

  // ---------------------------------------------------------------- the invariant

  /** From mkdir to rmdir: what the lock directory holds while its live maker works on it. */
  predicate Working(pc: Pc) {
    pc.Made? || pc.Created? || pc.Holding? || pc.RelRead? || pc.RelUnlink? || pc.RelRmdir?
  }

  predicate MakerSound(s: State, p: Pid)
    requires p in s.procs
  {
    var pc := s.procs[p].pc;
    Working(pc) ==>
      && s.lock.Some? && s.lock.value.maker == p
      && var l := s.lock.value;
         match pc
         case Made(since) => l.owner == NoFile && since <= l.mtime && since <= s.now
         case Created(since) => l.owner == Empty(p) && since <= l.mtime
         case RelRmdir(since) => l.owner == NoFile && since <= l.mtime
         case _ => l.owner == Named(p)
  }

  predicate LockSound(s: State) {
    s.lock.Some? ==>
      var l := s.lock.value;
      && l.maker in s.procs
      && (s.procs[l.maker].pc == Dead || Working(s.procs[l.maker].pc))
      && (l.owner.NoFile? || l.owner.pid == l.maker)
  }

  /** The owner a guarded reader read made the lock there is, or released it since the guard was taken. */
  predicate CheckSound(t: Timing, s: State, since: nat, owner: Pid) {
    || (s.lock.Some? && s.lock.value.maker == owner)
    || (owner in s.procs && s.procs[owner].freed.Some? && since <= s.procs[owner].freed.value
        && (s.procs[owner].pc == Dead ==> s.procs[owner].freed.value + t.linger <= s.now))
  }

  /** Where a guarded reader read no name, a live maker that named the lock since did so in time. */
  predicate AgeSound(t: Timing, s: State, since: nat) {
    s.lock.Some? && IsNamed(s, s.lock.value.maker) ==> since <= s.lock.value.mtime + t.naming
  }

  predicate IsNamed(s: State, p: Pid) {
    p in s.procs && (s.procs[p].pc.Holding? || s.procs[p].pc.RelRead? || s.procs[p].pc.RelUnlink?)
  }

  predicate GuardSound(t: Timing, s: State, p: Pid)
    requires p in s.procs
  {
    var pc := s.procs[p].pc;
    && (Guarded(pc).Some? ==> s.guard == Some(GuardDir(p, Guarded(pc).value)) && Guarded(pc).value <= s.now)
    && (pc.Check? && pc.at.Under? ==> CheckSound(t, s, pc.at.since, pc.owner))
    && (pc.Age? && pc.at.Under? ==> AgeSound(t, s, pc.at.since))
    && (pc.Unlinking? || pc.Rmdir? ==> s.lock.Some? && IsDead(s, s.lock.value.maker))
  }

  ghost predicate Inv(t: Timing, s: State) {
    && LockSound(s)
    && (forall p | p in s.procs :: MakerSound(s, p))
    && (forall p | p in s.procs :: GuardSound(t, s, p))
    && (forall p | p in s.procs :: InTime(t, s.procs[p].pc, s.now))
  }

  /** The times under which the lock excludes. */
  predicate Prompt(t: Timing) {
    t.naming + t.section <= STALE_MS && t.section < t.linger
  }

  lemma LockSoundKept(t: Timing, s: State, a: Action)
    requires Inv(t, s) && Prompt(t) && Enabled(t, s, a) && !a.RmGuard?
    ensures LockSound(Apply(t, s, a))
  {
    if !a.Tick? { assert MakerSound(s, a.p) && GuardSound(t, s, a.p); }
  }

  /** The facts of the invariant that concern one process and the directories. */
  predicate SoundFor(t: Timing, s: State, p: Pid)
    requires p in s.procs
  {
    LockSound(s) && MakerSound(s, p) && GuardSound(t, s, p) && InTime(t, s.procs[p].pc, s.now)
  }

  lemma MakerSoundOwn(t: Timing, s: State, a: Action)
    requires Enabled(t, s, a) && !a.RmGuard? && !a.Tick? && SoundFor(t, s, a.p)
    ensures MakerSound(Apply(t, s, a), a.p)
  {}

  /** What another process does: it leaves the lock of a live maker. */
  lemma OtherLeavesLock(t: Timing, s: State, a: Action, p: Pid)
    requires Enabled(t, s, a) && !a.RmGuard? && !a.Tick? && p in s.procs && p != a.p && SoundFor(t, s, a.p)
    requires Working(s.procs[p].pc) && s.lock.Some? && s.lock.value.maker == p
    ensures Apply(t, s, a).lock == s.lock
  {}

  /** Only the process that acts changes. */
  lemma OthersStay(t: Timing, s: State, a: Action, p: Pid)
    requires Enabled(t, s, a) && p in s.procs && (!a.Tick? ==> p != a.p)
    ensures p in Apply(t, s, a).procs && Apply(t, s, a).procs[p] == s.procs[p]
    ensures Apply(t, s, a).now == (if a.Tick? then a.to else s.now)
    ensures a.Tick? ==> Apply(t, s, a).lock == s.lock && Apply(t, s, a).guard == s.guard
  {}

  lemma MakerSoundKept(t: Timing, s: State, a: Action, p: Pid)
    requires Enabled(t, s, a) && !a.RmGuard? && p in s.procs
    requires SoundFor(t, s, p) && (!a.Tick? ==> SoundFor(t, s, a.p))
    ensures p in Apply(t, s, a).procs && MakerSound(Apply(t, s, a), p)
  {
    if !a.Tick? && p == a.p { MakerSoundOwn(t, s, a); }
    else {
      OthersStay(t, s, a, p);
      if !a.Tick? && Working(s.procs[p].pc) { OtherLeavesLock(t, s, a, p); }
    }
  }

  /** The process that acts. */
  lemma GuardSoundOwn(t: Timing, s: State, a: Action, p: Pid)
    requires Prompt(t) && Enabled(t, s, a) && !a.RmGuard? && !a.Tick? && p == a.p && SoundFor(t, s, p)
    requires s.lock.Some? && s.lock.value.maker in s.procs ==> SoundFor(t, s, s.lock.value.maker)
    ensures GuardSound(t, Apply(t, s, a), p)
  {
  }

  /** Whoever acts elsewhere, a name read under the guard stays accounted for. */
  lemma CheckKept(t: Timing, s: State, a: Action, since: nat, owner: Pid)
    requires Enabled(t, s, a) && CheckSound(t, s, since, owner) && since <= s.now
    requires !a.Tick? ==> SoundFor(t, s, a.p) && Guarded(s.procs[a.p].pc).None?
    ensures CheckSound(t, Apply(t, s, a), since, owner)
  {}

  lemma AgeKept(t: Timing, s: State, a: Action, since: nat)
    requires Enabled(t, s, a) && AgeSound(t, s, since) && since <= s.now && LockSound(s)
    requires !a.Tick? ==> SoundFor(t, s, a.p) && Guarded(s.procs[a.p].pc).None?
    ensures AgeSound(t, Apply(t, s, a), since)
  {}

  /** A process outside its guarded section leaves the guard there is, and the lock of a dead process. */
  lemma OtherLeavesGuard(t: Timing, s: State, a: Action)
    requires Enabled(t, s, a) && !a.RmGuard? && s.guard.Some? && (!a.Tick? ==> Guarded(s.procs[a.p].pc).None?)
    ensures Apply(t, s, a).guard == s.guard
  {}

  lemma DeadLockKept(t: Timing, s: State, a: Action)
    requires Enabled(t, s, a) && s.lock.Some? && IsDead(s, s.lock.value.maker)
    requires !a.Tick? ==> SoundFor(t, s, a.p) && Guarded(s.procs[a.p].pc).None?
    ensures var u := Apply(t, s, a); u.lock.Some? && IsDead(u, u.lock.value.maker)
  {}

  /** Another process, inside its guarded section or not. */
  lemma GuardSoundOther(t: Timing, s: State, a: Action, p: Pid)
    requires Enabled(t, s, a) && !a.RmGuard? && p in s.procs && (!a.Tick? ==> p != a.p)
    requires SoundFor(t, s, p) && (!a.Tick? ==> SoundFor(t, s, a.p))
    ensures GuardSound(t, Apply(t, s, a), p)
  {
    var pc := s.procs[p].pc;
    OthersStay(t, s, a, p);
    if Guarded(pc).Some? {
      assert !a.Tick? ==> Guarded(s.procs[a.p].pc).None?;
      OtherLeavesGuard(t, s, a);
      if pc.Check? { CheckKept(t, s, a, pc.at.since, pc.owner); }
      else if pc.Age? { AgeKept(t, s, a, pc.at.since); }
      else if pc.Unlinking? || pc.Rmdir? { DeadLockKept(t, s, a); }
    }
  }

  lemma InTimeKept(t: Timing, s: State, a: Action, p: Pid)
    requires Enabled(t, s, a) && p in s.procs && InTime(t, s.procs[p].pc, s.now)
    ensures InTime(t, Apply(t, s, a).procs[p].pc, Apply(t, s, a).now)
  {
    if a.Tick? || p != a.p { OthersStay(t, s, a, p); }
  }

  lemma StepInv(t: Timing, s: State, a: Action)
    requires Inv(t, s) && Prompt(t) && Enabled(t, s, a) && !a.RmGuard?
    ensures Inv(t, Apply(t, s, a))
  {
    var u := Apply(t, s, a);
    LockSoundKept(t, s, a);
    assert !a.Tick? ==> SoundFor(t, s, a.p);
    forall p | p in u.procs ensures MakerSound(u, p) && GuardSound(t, u, p) && InTime(t, u.procs[p].pc, u.now) {
      assert p in s.procs && SoundFor(t, s, p);
      MakerSoundKept(t, s, a, p);
      InTimeKept(t, s, a, p);
      if !a.Tick? && p == a.p { GuardSoundOwn(t, s, a, p); } else { GuardSoundOther(t, s, a, p); }
    }
  }

  lemma InitInv(t: Timing, s: State)
    requires Init(s)
    ensures Inv(t, s)
  {}

  lemma {:induction false} ReachableInv(t: Timing, s0: State, actions: seq<Action>)
    requires Prompt(t) && Init(s0) && Exec(t, s0, actions).At? && NoGuardExpires(actions)
    ensures Inv(t, Exec(t, s0, actions).state)
    decreases |actions|
  {
    if actions == [] {
      InitInv(t, s0);
    } else {
      ReachableInv(t, s0, actions[..|actions| - 1]);
      StepInv(t, Exec(t, s0, actions[..|actions| - 1]).state, actions[|actions| - 1]);
    }
  }

  /** A reclaimer that has decided only ever removes a lock whose maker is dead. */
  lemma ReclaimsOnlyTheDead(t: Timing, s0: State, actions: seq<Action>, p: Pid)
    requires Prompt(t) && Init(s0) && Exec(t, s0, actions).At? && NoGuardExpires(actions)
    requires p in Exec(t, s0, actions).state.procs
    requires var pc := Exec(t, s0, actions).state.procs[p].pc; pc.Unlinking? || pc.Rmdir?
    ensures Exec(t, s0, actions).state.lock.Some?
    ensures IsDead(Exec(t, s0, actions).state, Exec(t, s0, actions).state.lock.value.maker)
  {
    ReachableInv(t, s0, actions);
    assert GuardSound(t, Exec(t, s0, actions).state, p);
  }

  /** While a process holds the lock, the directory is there and names that process. */
  lemma HolderIsNamed(t: Timing, s0: State, actions: seq<Action>, p: Pid)
    requires Prompt(t) && Init(s0) && Exec(t, s0, actions).At? && NoGuardExpires(actions)
    requires p in Exec(t, s0, actions).state.procs
    requires Exec(t, s0, actions).state.procs[p].pc == Holding
    ensures Exec(t, s0, actions).state.lock.Some?
    ensures Exec(t, s0, actions).state.lock.value.owner == Named(p)
  {
    ReachableInv(t, s0, actions);
    assert MakerSound(Exec(t, s0, actions).state, p);
  }

  /** Every run in which no guard is removed as expired keeps the lock with one process at a time. */
  ghost predicate Excludes(t: Timing) {
    forall s0, actions | Init(s0) && NoGuardExpires(actions) && Exec(t, s0, actions).At? ::
      Exclusive(Exec(t, s0, actions).state)
  }

  // ---------------------------------------------------------------- runs that break it

  /** `u` is reached from `s0`, with or without the removal of an expired guard. */
  ghost predicate Reaches(t: Timing, s0: State, u: State, expiry: bool) {
    exists actions :: Exec(t, s0, actions) == At(u) && (expiry || NoGuardExpires(actions))
  }

  lemma ReachesStart(t: Timing, s0: State, expiry: bool)
    ensures Reaches(t, s0, s0, expiry)
  {
    assert Exec(t, s0, []) == At(s0) && NoGuardExpires([]);
  }

  lemma ReachesStep(t: Timing, s0: State, u: State, a: Action, v: State, expiry: bool)
    requires Reaches(t, s0, u, expiry) && Enabled(t, u, a) && v == Apply(t, u, a) && (expiry || !a.RmGuard?)
    ensures Reaches(t, s0, v, expiry)
  {
    var actions :| Exec(t, s0, actions) == At(u) && (expiry || NoGuardExpires(actions));
    assert (actions + [a])[..|actions|] == actions;
    assert Exec(t, s0, actions + [a]) == At(v);
  }

  /** The process in a given state, everything else as it is. */
  function With(s: State, lock: Option<LockDir>, guard: Option<GuardDir>, p: Pid, pc: Pc): State
    requires p in s.procs
  {
    State(s.now, lock, guard, s.procs[p := s.procs[p].(pc := pc)])
  }

  /** A contender sees the lock of a dead process and goes on to reclaim it. */
  lemma SeesStale(t: Timing, s0: State, u: State, p: Pid, expiry: bool)
    requires Reaches(t, s0, u, expiry) && p in u.procs && u.procs[p].pc == Try
    requires u.lock.Some? && u.lock.value.owner.Named? && u.lock.value.owner.pid != p
    requires IsDead(u, u.lock.value.owner.pid)
    ensures Reaches(t, s0, With(u, u.lock, u.guard, p, Guarding), expiry)
  {
    var d := u.lock.value.owner.pid;
    var u1 := With(u, u.lock, u.guard, p, Look(Outer));
    var u2 := With(u, u.lock, u.guard, p, Check(Outer, d));
    ReachesStep(t, s0, u, Mkdir(p), u1, expiry);
    assert Apply(t, u1, ReadOwner(p)) == u2;
    ReachesStep(t, s0, u1, ReadOwner(p), u2, expiry);
    assert Apply(t, u2, CheckOwner(p)) == With(u, u.lock, u.guard, p, Guarding);
    ReachesStep(t, s0, u2, CheckOwner(p), With(u, u.lock, u.guard, p, Guarding), expiry);
  }

  /** With the guard to itself, it reads the owner's name again. */
  lemma ReadsUnderGuard(t: Timing, s0: State, u: State, p: Pid, expiry: bool)
    requires Reaches(t, s0, u, expiry) && p in u.procs && u.procs[p].pc == Guarding && u.guard.None?
    requires u.lock.Some? && u.lock.value.owner.Named?
    ensures Reaches(t, s0, With(u, u.lock, Some(GuardDir(p, u.now)), p,
                                Check(Under(u.now), u.lock.value.owner.pid)), expiry)
  {
    var g := Some(GuardDir(p, u.now));
    var u1 := With(u, u.lock, g, p, Look(Under(u.now)));
    var u2 := With(u, u.lock, g, p, Check(Under(u.now), u.lock.value.owner.pid));
    ReachesStep(t, s0, u, MkGuard(p), u1, expiry);
    assert Apply(t, u1, ReadOwner(p)) == u2;
    ReachesStep(t, s0, u1, ReadOwner(p), u2, expiry);
  }

  /** Finding that process dead, it decides to remove the lock. */
  lemma DecidesStale(t: Timing, s0: State, u: State, p: Pid, expiry: bool)
    requires Reaches(t, s0, u, expiry) && p in u.procs && u.procs[p].pc.Check? && u.procs[p].pc.at.Under?
    requires IsDead(u, u.procs[p].pc.owner)
    ensures Reaches(t, s0, With(u, u.lock, u.guard, p, Unlinking(u.procs[p].pc.at.since)), expiry)
  {
    ReachesStep(t, s0, u, CheckOwner(p), With(u, u.lock, u.guard, p, Unlinking(u.procs[p].pc.at.since)), expiry);
  }

  /** Having decided, it removes whatever lock is there, and the guard. */
  lemma Evicts(t: Timing, s0: State, u: State, p: Pid, expiry: bool)
    requires Reaches(t, s0, u, expiry) && p in u.procs && u.procs[p].pc.Unlinking? && u.lock.Some?
    ensures Reaches(t, s0, With(u, None, None, p, Try), expiry)
  {
    var since := u.procs[p].pc.since;
    var mtime := if u.lock.value.owner.NoFile? then u.lock.value.mtime else u.now;
    var u1 := With(u, Some(LockDir(u.lock.value.maker, NoFile, mtime)), u.guard, p, Rmdir(since));
    var u2 := With(u, None, u.guard, p, Unguard(since));
    assert Apply(t, u, Unlink(p)) == u1;
    ReachesStep(t, s0, u, Unlink(p), u1, expiry);
    assert Apply(t, u1, RemoveDir(p)) == u2;
    ReachesStep(t, s0, u1, RemoveDir(p), u2, expiry);
    assert Apply(t, u2, DropGuard(p)) == With(u, None, None, p, Try);
    ReachesStep(t, s0, u2, DropGuard(p), With(u, None, None, p, Try), expiry);
  }

  /** It makes the lock and opens `owner.json`. */
  lemma Creates(t: Timing, s0: State, u: State, p: Pid, expiry: bool)
    requires Reaches(t, s0, u, expiry) && p in u.procs && u.procs[p].pc == Try && u.lock.None?
    ensures Reaches(t, s0, With(u, Some(LockDir(p, Empty(p), u.now)), u.guard, p, Created(u.now)), expiry)
  {
    var u1 := With(u, Some(LockDir(p, NoFile, u.now)), u.guard, p, Made(u.now));
    var u2 := With(u, Some(LockDir(p, Empty(p), u.now)), u.guard, p, Created(u.now));
    ReachesStep(t, s0, u, Mkdir(p), u1, expiry);
    assert Apply(t, u1, Create(p)) == u2;
    ReachesStep(t, s0, u1, Create(p), u2, expiry);
  }

  lemma Takes(t: Timing, s0: State, u: State, p: Pid, expiry: bool)
    requires Reaches(t, s0, u, expiry) && p in u.procs && u.procs[p].pc == Try && u.lock.None?
    ensures Reaches(t, s0, With(u, Some(LockDir(p, Named(p), u.now)), u.guard, p, Holding), expiry)
  {
    Creates(t, s0, u, p, expiry);
    var u1 := With(u, Some(LockDir(p, Empty(p), u.now)), u.guard, p, Created(u.now));
    var u2 := With(u, Some(LockDir(p, Named(p), u.now)), u.guard, p, Holding);
    assert Apply(t, u1, Write(p)) == u2;
    ReachesStep(t, s0, u1, Write(p), u2, expiry);
  }

  const CORPSE: Pid := 0

  /** The dead process and the three contenders. */
  function Contenders(one: Pc, two: Proc, three: Pc): map<Pid, Proc> {
    map[CORPSE := Proc(Dead, None), 1 := Proc(one, None), 2 := two, 3 := Proc(three, None)]
  }

  lemma SetOne(one: Pc, two: Proc, three: Pc, next: Pc)
    ensures Contenders(one, two, three)[1 := Proc(next, None)] == Contenders(next, two, three)
  {}

  lemma SetThree(one: Pc, two: Proc, three: Pc, next: Pc)
    ensures Contenders(one, two, three)[3 := Proc(next, None)] == Contenders(one, two, next)
  {}

  lemma SetTwo(one: Pc, two: Proc, three: Pc, next: Proc)
    ensures Contenders(one, two, three)[2 := next] == Contenders(one, next, three)
  {}

  /** A lock left by a dead process, and three contenders. */
  function Leftover(): State {
    State(0, Some(LockDir(CORPSE, Named(CORPSE), 0)), None, Contenders(Try, Proc(Try, None), Try))
  }

  /** Contender 1 has seen the leftover stale and is overtaken; contender 2 has removed it. */
  function Overtaken(): State {
    State(0, None, None, Contenders(Guarding, Proc(Try, None), Try))
  }

  lemma ReachesOvertaken(t: Timing)
    ensures Reaches(t, Leftover(), Overtaken(), false)
  {
    var s0 := Leftover();
    ReachesStart(t, s0, false);
    SeesStale(t, s0, s0, 1, false);
    var u1 := With(s0, s0.lock, None, 1, Guarding);
    SeesStale(t, s0, u1, 2, false);
    var u2 := With(u1, u1.lock, None, 2, Guarding);
    ReadsUnderGuard(t, s0, u2, 2, false);
    var u3 := With(u2, u2.lock, Some(GuardDir(2, 0)), 2, Check(Under(0), CORPSE));
    DecidesStale(t, s0, u3, 2, false);
    var u4 := With(u3, u3.lock, u3.guard, 2, Unlinking(0));
    Evicts(t, s0, u4, 2, false);
    assert With(u4, None, None, 2, Try) == Overtaken();
  }

  /** With the guard to itself, a contender reads no name. */
  lemma ReadsNoName(t: Timing, s0: State, u: State, p: Pid)
    requires Reaches(t, s0, u, false) && p in u.procs && u.procs[p].pc == Guarding && u.guard.None?
    requires u.lock.Some? && !u.lock.value.owner.Named?
    ensures Reaches(t, s0, With(u, u.lock, Some(GuardDir(p, u.now)), p, Age(Under(u.now))), false)
  {
    var g := Some(GuardDir(p, u.now));
    var u1 := With(u, u.lock, g, p, Look(Under(u.now)));
    ReachesStep(t, s0, u, MkGuard(p), u1, false);
    assert Apply(t, u1, ReadOwner(p)) == With(u, u.lock, g, p, Age(Under(u.now)));
    ReachesStep(t, s0, u1, ReadOwner(p), With(u, u.lock, g, p, Age(Under(u.now))), false);
  }

  /** The maker writes its name, the clock moves on, and the reader finds the directory old. */
  lemma ReadsOldAge(t: Timing, s0: State, u: State, p: Pid, q: Pid, to: nat)
    requires Reaches(t, s0, u, false) && p in u.procs && q in u.procs && p != q
    requires u.procs[p].pc.Age? && u.procs[p].pc.at.Under? && u.procs[q].pc.Created?
    requires u.lock.Some? && u.lock.value.owner == Empty(q) && u.lock.value.mtime + STALE_MS < to
    requires u.now <= to && forall r | r in u.procs && r != q :: InTime(t, u.procs[r].pc, to)
    ensures Reaches(t, s0, State(to, Some(u.lock.value.(owner := Named(q))), u.guard,
      u.procs[q := u.procs[q].(pc := Holding)][p := u.procs[p].(pc := Unlinking(u.procs[p].pc.at.since))]), false)
  {
    var u1 := With(u, Some(u.lock.value.(owner := Named(q))), u.guard, q, Holding);
    ReachesStep(t, s0, u, Write(q), u1, false);
    var u2 := State(to, u1.lock, u1.guard, u1.procs);
    ReachesStep(t, s0, u1, Tick(to), u2, false);
    ReachesStep(t, s0, u2, StatLock(p), With(u2, u2.lock, u2.guard, p, Unlinking(u.procs[p].pc.at.since)), false);
  }

  /** Contender 2 has opened the file for its name. */
  function Naming(one: Pc): State {
    State(0, Some(LockDir(2, Empty(2), 0)), None, Contenders(one, Proc(Created(0), None), Try))
  }

  lemma ReachesNaming(t: Timing)
    ensures Reaches(t, Leftover(), Naming(Guarding), false)
  {
    ReachesOvertaken(t);
    Creates(t, Leftover(), Overtaken(), 2, false);
    SetTwo(Guarding, Proc(Try, None), Try, Proc(Created(0), None));
  }

  lemma NamingTakesTime(t: Timing)
    ensures Reaches(t, Leftover(), Naming(Guarding).(now := t.naming), false)
  {
    ReachesNaming(t);
    ReachesStep(t, Leftover(), Naming(Guarding), Tick(t.naming), Naming(Guarding).(now := t.naming), false);
  }

  /** Contender 1 reads no name while 2 still writes it. */
  lemma ReadsWhileNaming(t: Timing)
    ensures Reaches(t, Leftover(), State(t.naming, Some(LockDir(2, Empty(2), 0)), Some(GuardDir(1, t.naming)),
      Contenders(Age(Under(t.naming)), Proc(Created(0), None), Try)), false)
  {
    NamingTakesTime(t);
    ReadsNoName(t, Leftover(), Naming(Guarding).(now := t.naming), 1);
    SetOne(Guarding, Proc(Created(0), None), Try, Age(Under(t.naming)));
  }

  /** Naming and guarded section together longer than ten seconds: the directory has become old by
      the time contender 1 reads its age. */
  lemma SlowNamingBreaks(t: Timing)
    requires t.naming + t.section > STALE_MS
    ensures Breaks(t, false)
  {
    var c := Contenders(Age(Under(t.naming)), Proc(Created(0), None), Try);
    var u := State(t.naming, Some(LockDir(2, Empty(2), 0)), Some(GuardDir(1, t.naming)), c);
    var e := t.naming + t.section;
    ReadsWhileNaming(t);
    ReadsOldAge(t, Leftover(), u, 1, 2, e);
    EvictsAndTakes(t, Leftover(), State(e, Some(LockDir(2, Named(2), 0)), u.guard,
      c[2 := c[2].(pc := Holding)][1 := c[1].(pc := Unlinking(t.naming))]), 1, 2, false);
  }

  /** Some run, with or without the removal of an expired guard, has two holders. */
  ghost predicate Breaks(t: Timing, expiry: bool) {
    exists s0, u :: Init(s0) && Reaches(t, s0, u, expiry) && !Exclusive(u)
  }

  /** A reclaimer that has decided while another process holds the lock ends up holding it too. */
  lemma EvictsAndTakes(t: Timing, s0: State, u: State, p: Pid, q: Pid, expiry: bool)
    requires Init(s0) && Reaches(t, s0, u, expiry) && p in u.procs && q in u.procs && p != q
    requires u.procs[p].pc.Unlinking? && u.procs[q].pc == Holding && u.lock.Some?
    ensures Breaks(t, expiry)
  {
    Evicts(t, s0, u, p, expiry);
    var v := With(u, None, None, p, Try);
    Takes(t, s0, v, p, expiry);
    var w := With(v, Some(LockDir(p, Named(p), v.now)), None, p, Holding);
    assert w.procs[p].pc == Holding && w.procs[q].pc == Holding;
  }

  /** A releaser that has found its own name removes it and the directory. */
  lemma DropsLock(t: Timing, s0: State, u: State, p: Pid)
    requires Reaches(t, s0, u, false) && p in u.procs && u.procs[p].pc == RelUnlink
    requires u.lock.Some? && u.lock.value.owner == Named(p)
    ensures Reaches(t, s0, State(u.now, None, u.guard, u.procs[p := Proc(Idle, Some(u.now))]), false)
  {
    var u1 := With(u, Some(LockDir(u.lock.value.maker, NoFile, u.now)), u.guard, p, RelRmdir(u.now));
    assert Apply(t, u, RelDrop(p)) == u1;
    ReachesStep(t, s0, u, RelDrop(p), u1, false);
    var u2 := State(u.now, None, u.guard, u.procs[p := Proc(Idle, Some(u.now))]);
    assert Apply(t, u1, RelRemove(p)) == u2;
    ReachesStep(t, s0, u1, RelRemove(p), u2, false);
  }

  /** The holder of a lock gives it back. */
  lemma Releases(t: Timing, s0: State, u: State, p: Pid)
    requires Reaches(t, s0, u, false) && p in u.procs && u.procs[p].pc == Holding
    requires u.lock.Some? && u.lock.value.owner == Named(p)
    ensures Reaches(t, s0, State(u.now, None, u.guard, u.procs[p := Proc(Idle, Some(u.now))]), false)
  {
    var u1 := With(u, u.lock, u.guard, p, RelRead);
    ReachesStep(t, s0, u, Release(p), u1, false);
    var u2 := With(u, u.lock, u.guard, p, RelUnlink);
    assert Apply(t, u1, RelCheck(p)) == u2;
    ReachesStep(t, s0, u1, RelCheck(p), u2, false);
    DropsLock(t, s0, u2, p);
    assert u2.procs[p := Proc(Idle, Some(u.now))] == u.procs[p := Proc(Idle, Some(u.now))];
  }

  /** Contender 1, under the guard, has read the name of 2, which then releases the lock. */
  lemma ReleasesAfterRead(t: Timing)
    ensures Reaches(t, Leftover(), State(0, None, Some(GuardDir(1, 0)),
      Contenders(Check(Under(0), 2), Proc(Idle, Some(0)), Try)), false)
  {
    var s0 := Leftover();
    var named := Some(LockDir(2, Named(2), 0));
    var g := Some(GuardDir(1, 0));
    var waits := Check(Under(0), 2);
    ReachesOvertaken(t);
    Takes(t, s0, Overtaken(), 2, false);
    var u1 := State(0, named, None, Contenders(Guarding, Proc(Holding, None), Try));
    assert u1 == With(Overtaken(), named, None, 2, Holding);
    ReadsUnderGuard(t, s0, u1, 1, false);
    var u2 := State(0, named, g, Contenders(waits, Proc(Holding, None), Try));
    assert u2 == With(u1, named, g, 1, waits);
    Releases(t, s0, u2, 2);
    assert Contenders(waits, Proc(Idle, Some(0)), Try) == u2.procs[2 := Proc(Idle, Some(0))];
  }

  /** A releaser that ends within the guarded section: 3 takes the lock that 2 released. */
  lemma TakesAfterExit(t: Timing)
    requires t.section >= t.linger
    ensures Reaches(t, Leftover(), State(t.linger, Some(LockDir(3, Named(3), t.linger)), Some(GuardDir(1, 0)),
      Contenders(Check(Under(0), 2), Proc(Dead, Some(0)), Holding)), false)
  {
    var s0 := Leftover();
    var e := t.linger;
    var g := Some(GuardDir(1, 0));
    var c := Contenders(Check(Under(0), 2), Proc(Idle, Some(0)), Try);
    var d := Contenders(Check(Under(0), 2), Proc(Dead, Some(0)), Try);
    ReleasesAfterRead(t);
    ReachesStep(t, s0, State(0, None, g, c), Tick(e), State(e, None, g, c), false);
    SetTwo(Check(Under(0), 2), Proc(Idle, Some(0)), Try, Proc(Dead, Some(0)));
    ReachesStep(t, s0, State(e, None, g, c), Die(2), State(e, None, g, d), false);
    Takes(t, s0, State(e, None, g, d), 3, false);
    SetThree(Check(Under(0), 2), Proc(Dead, Some(0)), Try, Holding);
  }

  /** Contender 1, which had read the name of 2, finds it dead and removes the lock of 3. */
  lemma EarlyExitBreaks(t: Timing)
    requires t.section >= t.linger
    ensures Breaks(t, false)
  {
    TakesAfterExit(t);
    var u := State(t.linger, Some(LockDir(3, Named(3), t.linger)), Some(GuardDir(1, 0)),
                   Contenders(Check(Under(0), 2), Proc(Dead, Some(0)), Holding));
    DecidesStale(t, Leftover(), u, 1, false);
    EvictsAndTakes(t, Leftover(), With(u, u.lock, u.guard, 1, Unlinking(0)), 1, 3, false);
  }

  /** The leftover lock, with a guard left by a process that died under it. */
  function LeftoverGuarded(): State {
    Leftover().(guard := Some(GuardDir(CORPSE, 0)))
  }

  /** Contenders 1 and 2 find that guard, 3 has yet to. */
  lemma FindGuard(t: Timing)
    ensures Reaches(t, LeftoverGuarded(), LeftoverGuarded().(procs :=
      Contenders(GuardAge, Proc(GuardAge, None), Guarding)), true)
  {
    var s0 := LeftoverGuarded();
    ReachesStart(t, s0, true);
    SeesStale(t, s0, s0, 3, true);
    SetThree(Try, Proc(Try, None), Try, Guarding);
    SeesGuard(t, s0, s0.(procs := Contenders(Try, Proc(Try, None), Guarding)), 1);
    SetOne(Try, Proc(Try, None), Guarding, GuardAge);
    SeesGuard(t, s0, s0.(procs := Contenders(GuardAge, Proc(Try, None), Guarding)), 2);
    SetTwo(GuardAge, Proc(Try, None), Guarding, Proc(GuardAge, None));
  }

  /** Both see it expired. */
  lemma SeeGuardExpired(t: Timing)
    ensures Reaches(t, LeftoverGuarded(), State(STALE_MS + 1, Leftover().lock, Some(GuardDir(CORPSE, 0)),
      Contenders(GuardExpired, Proc(GuardExpired, None), Guarding)), true)
  {
    var s0, now := LeftoverGuarded(), STALE_MS + 1;
    FindGuard(t);
    var c := Contenders(GuardAge, Proc(GuardAge, None), Guarding);
    var d := Contenders(GuardExpired, Proc(GuardAge, None), Guarding);
    ReachesStep(t, s0, s0.(procs := c), Tick(now), State(now, s0.lock, s0.guard, c), true);
    SetOne(GuardAge, Proc(GuardAge, None), Guarding, GuardExpired);
    ReachesStep(t, s0, State(now, s0.lock, s0.guard, c), StatGuard(1), State(now, s0.lock, s0.guard, d), true);
    SetTwo(GuardExpired, Proc(GuardAge, None), Guarding, Proc(GuardExpired, None));
    ReachesStep(t, s0, State(now, s0.lock, s0.guard, d), StatGuard(2),
      State(now, s0.lock, s0.guard, Contenders(GuardExpired, Proc(GuardExpired, None), Guarding)), true);
  }

  /** A contender sees the leftover stale and finds the guard taken. */
  lemma SeesGuard(t: Timing, s0: State, u: State, p: Pid)
    requires Reaches(t, s0, u, true) && p in u.procs && u.procs[p].pc == Try && u.guard.Some?
    requires u.lock.Some? && u.lock.value.owner.Named? && u.lock.value.owner.pid != p
    requires IsDead(u, u.lock.value.owner.pid)
    ensures Reaches(t, s0, With(u, u.lock, u.guard, p, GuardAge), true)
  {
    SeesStale(t, s0, u, p, true);
    var v := With(u, u.lock, u.guard, p, Guarding);
    assert Apply(t, v, MkGuard(p)) == With(u, u.lock, u.guard, p, GuardAge);
    ReachesStep(t, s0, v, MkGuard(p), With(u, u.lock, u.guard, p, GuardAge), true);
  }

  /** Contenders 1 and 3 have both decided, each under a guard of its own. */
  lemma BothDecide(t: Timing) returns (s0: State, u: State)
    ensures Init(s0) && Reaches(t, s0, u, true)
    ensures u == State(STALE_MS + 1, Leftover().lock, Some(GuardDir(1, STALE_MS + 1)),
                       Contenders(Unlinking(STALE_MS + 1), Proc(Try, None), Unlinking(STALE_MS + 1)))
  {
    var lock, now := Leftover().lock, STALE_MS + 1;
    SeeGuardExpired(t);
    s0, u := LeftoverGuarded(), State(now, lock, Some(GuardDir(CORPSE, 0)),
                                      Contenders(GuardExpired, Proc(GuardExpired, None), Guarding));
    var c1 := Contenders(Try, Proc(GuardExpired, None), Guarding);
    SetOne(GuardExpired, Proc(GuardExpired, None), Guarding, Try);
    ReachesStep(t, s0, u, RmGuard(1), State(now, lock, None, c1), true);
    ReadsUnderGuard(t, s0, State(now, lock, None, c1), 3, true);
    SetThree(Try, Proc(GuardExpired, None), Guarding, Check(Under(now), CORPSE));
    var g3 := Some(GuardDir(3, now));
    var checked := Contenders(Try, Proc(GuardExpired, None), Check(Under(now), CORPSE));
    DecidesStale(t, s0, State(now, lock, g3, checked), 3, true);
    SetThree(Try, Proc(GuardExpired, None), Check(Under(now), CORPSE), Unlinking(now));
    var c2 := Contenders(Try, Proc(GuardExpired, None), Unlinking(now));
    var c3 := Contenders(Try, Proc(Try, None), Unlinking(now));
    SetTwo(Try, Proc(GuardExpired, None), Unlinking(now), Proc(Try, None));
    ReachesStep(t, s0, State(now, lock, g3, c2), RmGuard(2), State(now, lock, None, c3), true);
    u := State(now, lock, None, c3);
    u := SecondDecides(t, s0, u);
  }

  /** With the guard of 3 removed, contender 1 decides too. */
  lemma SecondDecides(t: Timing, s0: State, u: State) returns (v: State)
    requires Reaches(t, s0, u, true)
    requires u == State(STALE_MS + 1, Leftover().lock, None, Contenders(Try, Proc(Try, None), Unlinking(STALE_MS + 1)))
    ensures Reaches(t, s0, v, true)
    ensures v == State(STALE_MS + 1, Leftover().lock, Some(GuardDir(1, STALE_MS + 1)),
                       Contenders(Unlinking(STALE_MS + 1), Proc(Try, None), Unlinking(STALE_MS + 1)))
  {
    var lock, now := Leftover().lock, STALE_MS + 1;
    var g := Some(GuardDir(1, now));
    SeesStale(t, s0, u, 1, true);
    SetOne(Try, Proc(Try, None), Unlinking(now), Guarding);
    ReadsUnderGuard(t, s0, State(now, lock, None, Contenders(Guarding, Proc(Try, None), Unlinking(now))), 1, true);
    SetOne(Guarding, Proc(Try, None), Unlinking(now), Check(Under(now), CORPSE));
    var checked := Contenders(Check(Under(now), CORPSE), Proc(Try, None), Unlinking(now));
    DecidesStale(t, s0, State(now, lock, g, checked), 1, true);
    SetOne(Check(Under(now), CORPSE), Proc(Try, None), Unlinking(now), Unlinking(now));
    v := State(now, lock, g, Contenders(Unlinking(now), Proc(Try, None), Unlinking(now)));
  }

  /** The removal of an expired guard is not decided again, so it can remove the guard of a live
      reclaimer: the lock then fails however prompt the live processes are. */
  lemma GuardExpiryBreaks(t: Timing)
    ensures Breaks(t, true)
  {
    var now := STALE_MS + 1;
    var s0, u := BothDecide(t);
    Evicts(t, s0, u, 1, true);
    var v := With(u, None, None, 1, Try);
    Takes(t, s0, v, 1, true);
    EvictsAndTakes(t, s0, With(v, Some(LockDir(1, Named(1), now)), None, 1, Holding), 3, 1, true);
  }

  /** The lock excludes for exactly the times under which naming and the guarded section together
      fit in the ten seconds, and a releaser outlives the guarded section. */
  lemma ExcludesExactlyWhen(t: Timing)
    ensures Excludes(t) <==> t.naming + t.section <= 10_000 && t.section < t.linger
  {
    if Prompt(t) {
      forall s0, actions | Init(s0) && NoGuardExpires(actions) && Exec(t, s0, actions).At?
        ensures Exclusive(Exec(t, s0, actions).state)
      {
        ReachableInv(t, s0, actions);
        var s := Exec(t, s0, actions).state;
        forall p, q | p in s.procs && q in s.procs && s.procs[p].pc == Holding && s.procs[q].pc == Holding
          ensures p == q
        {
          assert MakerSound(s, p) && MakerSound(s, q);
        }
      }
    } else {
      if t.naming + t.section > STALE_MS { SlowNamingBreaks(t); } else { EarlyExitBreaks(t); }
      var s0, u :| Init(s0) && Reaches(t, s0, u, false) && !Exclusive(u);
      var actions :| Exec(t, s0, actions) == At(u) && (false || NoGuardExpires(actions));
      assert !Exclusive(Exec(t, s0, actions).state);
    }
  }

  // ---------------------------------------------------------------- what dead processes left is reclaimed

  /** No lock, or one named by a dead process, or one that nobody named within ten seconds. */
  predicate Stale(s: State) {
    s.lock.Some? ==>
      if s.lock.value.owner.Named? then IsDead(s, s.lock.value.owner.pid) else s.now > s.lock.value.mtime + 10_000
  }

  /** No guard, or one older than ten seconds. */
  predicate GuardStale(s: State) {
    s.guard.Some? ==> s.now > s.guard.value.mtime + 10_000
  }

  /** The contender's own steps, until it holds the lock, and the clock's. */
  predicate Alone(a: Action, p: Pid) {
    a.Tick? || (a.p == p && !a.GiveUp? && !a.Die? && !a.Release?)
  }

  function OwnSteps(actions: seq<Action>): nat {
    if actions == [] then 0
    else OwnSteps(actions[..|actions| - 1]) + if actions[|actions| - 1].Tick? then 0 else 1
  }

  /** Where a contender on its own is, from its first try on. */
  predicate Reclaiming(s: State, p: Pid) {
    p in s.procs &&
    match s.procs[p].pc
    case Try => Stale(s) && GuardStale(s)
    case Look(Outer) => s.lock.Some? && Stale(s) && GuardStale(s)
    case Check(Outer, owner) => s.lock.Some? && s.lock.value.owner == Named(owner) && Stale(s) && GuardStale(s)
    case Age(Outer) => s.lock.Some? && !s.lock.value.owner.Named? && Stale(s) && GuardStale(s)
    case Guarding => s.lock.Some? && Stale(s) && GuardStale(s)
    case GuardAge => s.lock.Some? && Stale(s) && s.guard.Some? && GuardStale(s)
    case GuardExpired => s.lock.Some? && Stale(s) && s.guard.Some?
    case Look(Under(_)) => s.lock.Some? && Stale(s)
    case Check(Under(_), owner) => s.lock.Some? && s.lock.value.owner == Named(owner) && Stale(s)
    case Age(Under(_)) => s.lock.Some? && !s.lock.value.owner.Named? && Stale(s)
    case Unlinking(_) => s.lock.Some?
    case Rmdir(_) => s.lock.Some? && s.lock.value.owner == NoFile
    case Unguard(_) => s.lock.None?
    case Made(_) => s.lock.Some?
    case Created(_) => s.lock.Some? && s.lock.value.owner == Empty(p)
    case Holding => s.lock.Some? && s.lock.value.owner == Named(p)
    case _ => false
  }

  /** The steps left to holding; a guard to remove costs six more. */
  function StepsLeft(s: State, p: Pid): nat
    requires p in s.procs
  {
    var more := if s.guard.Some? then 6 else 0;
    match s.procs[p].pc
    case Try => if s.lock.Some? then 12 + more else 3
    case Look(Outer) => 11 + more
    case Check(Outer, _) => 10 + more
    case Age(Outer) => 10 + more
    case Guarding => 9 + more
    case GuardAge => 14
    case GuardExpired => 13
    case Look(Under(_)) => 8
    case Check(Under(_), _) => 7
    case Age(Under(_)) => 7
    case Unlinking(_) => 6
    case Rmdir(_) => 5
    case Unguard(_) => 4
    case Made(_) => 2
    case Created(_) => 1
    case _ => 0
  }

  lemma ClockKeepsReclaiming(t: Timing, s: State, a: Action, p: Pid)
    requires Reclaiming(s, p) && Enabled(t, s, a) && a.Tick?
    ensures Reclaiming(Apply(t, s, a), p) && StepsLeft(Apply(t, s, a), p) == StepsLeft(s, p)
  {}

  lemma LookReclaims(t: Timing, s: State, a: Action, p: Pid)
    requires Reclaiming(s, p) && Enabled(t, s, a) && Alone(a, p)
    requires a.Mkdir? || a.ReadOwner? || a.CheckOwner? || a.StatLock? || a.MkGuard? || a.StatGuard?
    ensures Reclaiming(Apply(t, s, a), p) && StepsLeft(Apply(t, s, a), p) < StepsLeft(s, p)
  {}

  lemma StepReclaims(t: Timing, s: State, a: Action, p: Pid)
    requires Reclaiming(s, p) && Enabled(t, s, a) && Alone(a, p) && !a.Tick?
    ensures Reclaiming(Apply(t, s, a), p) && StepsLeft(Apply(t, s, a), p) < StepsLeft(s, p)
  {
    if a.Mkdir? || a.ReadOwner? || a.CheckOwner? || a.StatLock? || a.MkGuard? || a.StatGuard? {
      LookReclaims(t, s, a, p);
    }
  }

  lemma NextReclaims(t: Timing, s: State, p: Pid) returns (a: Action)
    requires Reclaiming(s, p) && s.procs[p].pc != Holding
    ensures Enabled(t, s, a) && Alone(a, p) && !a.Tick?
  {
    match s.procs[p].pc {
      case Try => a := Mkdir(p);
      case Look(_) => a := ReadOwner(p);
      case Check(_, _) => a := CheckOwner(p);
      case Age(_) => a := StatLock(p);
      case Guarding => a := MkGuard(p);
      case GuardAge => a := StatGuard(p);
      case GuardExpired => a := RmGuard(p);
      case Unlinking(_) => a := Unlink(p);
      case Rmdir(_) => a := RemoveDir(p);
      case Unguard(_) => a := DropGuard(p);
      case Made(_) => a := Create(p);
      case Created(_) => a := Write(p);
    }
  }

  /** Whatever dead processes left, a lock that one of them named, a lock older than ten seconds that none
      named, a guard older than ten seconds: a contender that nobody else disturbs holds the lock after at
      most eighteen steps of its own, and can always take another until then. */
  lemma {:induction false} LoneContenderHolds(t: Timing, s: State, p: Pid, actions: seq<Action>) returns (next: Action)
    requires p in s.procs && s.procs[p].pc == Try && Stale(s) && GuardStale(s)
    requires Exec(t, s, actions).At? && forall k | 0 <= k < |actions| :: Alone(actions[k], p)
    ensures var u := Exec(t, s, actions).state;
      && Reclaiming(u, p) && OwnSteps(actions) + StepsLeft(u, p) <= StepsLeft(s, p) <= 18
      && (u.procs[p].pc == Holding || (Enabled(t, u, next) && Alone(next, p) && !next.Tick?))
    decreases |actions|
  {
    next := Arrive(p);
    if actions != [] {
      var n := |actions| - 1;
      var _ := LoneContenderHolds(t, s, p, actions[..n]);
      var u := Exec(t, s, actions[..n]).state;
      if actions[n].Tick? { ClockKeepsReclaiming(t, u, actions[n], p); } else { StepReclaims(t, u, actions[n], p); }
    }
    if Exec(t, s, actions).state.procs[p].pc != Holding { next := NextReclaims(t, Exec(t, s, actions).state, p); }
  }

  /** Under the times that exclude, a lock that is there is that of a dead process or of one at work on it:
      a process that released its lock has left none. */
  lemma ReleasedIsGone(t: Timing, s0: State, actions: seq<Action>)
    requires Prompt(t) && Init(s0) && Exec(t, s0, actions).At? && NoGuardExpires(actions)
    ensures var s := Exec(t, s0, actions).state;
      s.lock.Some? ==>
        && s.lock.value.maker in s.procs
        && (s.procs[s.lock.value.maker].pc == Dead || Working(s.procs[s.lock.value.maker].pc))
  {
    ReachableInv(t, s0, actions);
  }

  /** The holder of a lock that nobody else disturbs gives it back in four steps. */
  lemma ReleaseFrees(t: Timing, s: State, p: Pid)
    requires p in s.procs && s.procs[p].pc == Holding && s.lock.Some? && s.lock.value.owner == Named(p)
    ensures Exec(t, s, [Release(p), RelCheck(p), RelDrop(p), RelRemove(p)]) ==
      At(State(s.now, None, s.guard, s.procs[p := Proc(Idle, Some(s.now))]))
  {
    assert [] + [Release(p)] == [Release(p)] && [Release(p)] + [RelCheck(p)] == [Release(p), RelCheck(p)];
    assert [Release(p), RelCheck(p)] + [RelDrop(p)] == [Release(p), RelCheck(p), RelDrop(p)];
    assert [Release(p), RelCheck(p), RelDrop(p)] + [RelRemove(p)] ==
      [Release(p), RelCheck(p), RelDrop(p), RelRemove(p)];
    var u1, u2 := With(s, s.lock, s.guard, p, RelRead), With(s, s.lock, s.guard, p, RelUnlink);
    var u3 := With(s, Some(LockDir(s.lock.value.maker, NoFile, s.now)), s.guard, p, RelRmdir(s.now));
    ExecMore(t, s, [], s, Release(p), u1);
    assert Apply(t, u1, RelCheck(p)) == u2;
    ExecMore(t, s, [Release(p)], u1, RelCheck(p), u2);
    assert Apply(t, u2, RelDrop(p)) == u3;
    ExecMore(t, s, [Release(p), RelCheck(p)], u2, RelDrop(p), u3);
    var u4 := State(s.now, None, s.guard, s.procs[p := Proc(Idle, Some(s.now))]);
    assert Apply(t, u3, RelRemove(p)) == u4;
    ExecMore(t, s, [Release(p), RelCheck(p), RelDrop(p)], u3, RelRemove(p), u4);
  }

  lemma ExecMore(t: Timing, s: State, actions: seq<Action>, u: State, a: Action, v: State)
    requires Exec(t, s, actions) == At(u) && Enabled(t, u, a) && v == Apply(t, u, a)
    ensures Exec(t, s, actions + [a]) == At(v)
  {
    assert (actions + [a])[..|actions|] == actions;
  }

  // ---------------------------------------------------------------- no pass of the loop is endless

  /** How far process `p` is in a pass of the waiting loop, in taking the lock or in its release. */
  function PassLeft(pc: Pc): nat {
    match pc
    case Made(_) => 2
    case Created(_) => 1
    case Look(at) => if at == Outer then 8 else 5
    case Check(at, _) => if at == Outer then 7 else 4
    case Age(at) => if at == Outer then 7 else 4
    case Guarding => 6
    case GuardAge => 2
    case GuardExpired => 1
    case Unlinking(_) => 3
    case Rmdir(_) => 2
    case Unguard(_) => 1
    case RelRead => 3
    case RelUnlink => 2
    case RelRmdir(_) => 1
    case _ => 0
  }

  /** Whether an action is process `p`'s own, but for its death. */
  predicate OwnStep(a: Action, p: Pid) {
    !a.Tick? && !a.Die? && a.p == p
  }

  function OwnStepsOf(actions: seq<Action>, p: Pid): nat {
    if actions == [] then 0
    else OwnStepsOf(actions[..|actions| - 1], p) + (if OwnStep(actions[|actions| - 1], p) then 1 else 0)
  }

  /** Where a pass ends: about to try again, holding, or out of the protocol. */
  predicate AtRest(pc: Pc) {
    pc == Try || pc == Idle || pc == Holding || pc == Dead
  }

  predicate BusyAfter(t: Timing, s: State, p: Pid, actions: seq<Action>) {
    var u := Exec(t, s, actions);
    u.At? && p in u.state.procs && !AtRest(u.state.procs[p].pc)
  }

  lemma PassAdvances(t: Timing, s: State, a: Action)
    requires Enabled(t, s, a) && !a.Tick? && !a.Die? && !AtRest(s.procs[a.p].pc)
    ensures a.p in Apply(t, s, a).procs && PassLeft(Apply(t, s, a).procs[a.p].pc) < PassLeft(s.procs[a.p].pc)
  {}

  lemma OthersKeepPc(t: Timing, s: State, a: Action, p: Pid)
    requires Enabled(t, s, a) && p in s.procs && (a.Tick? || a.p != p)
    ensures p in Apply(t, s, a).procs && Apply(t, s, a).procs[p] == s.procs[p]
  {}

  lemma RestLeft(pc: Pc)
    ensures PassLeft(pc) == 0 <==> AtRest(pc)
    ensures PassLeft(pc) <= 8
  {}

  lemma DeathEnds(t: Timing, s: State, a: Action)
    requires Enabled(t, s, a) && a.Die?
    ensures Apply(t, s, a).procs[a.p].pc == Dead
  {}

  /** A process is at rest again after at most eight steps of its own, whatever others do meanwhile: no pass of
      its waiting loop, no naming and no release goes on for ever. */
  lemma {:induction false} PassEnds(t: Timing, s: State, p: Pid, actions: seq<Action>)
    requires p in s.procs && Exec(t, s, actions).At?
    requires forall k | 0 <= k < |actions| :: BusyAfter(t, s, p, actions[..k])
    ensures p in Exec(t, s, actions).state.procs
    ensures OwnStepsOf(actions, p) + PassLeft(Exec(t, s, actions).state.procs[p].pc) <= PassLeft(s.procs[p].pc) <= 8
    decreases |actions|
  {
    RestLeft(s.procs[p].pc);
    if actions != [] {
      var front, a := actions[..|actions| - 1], actions[|actions| - 1];
      var mid := Exec(t, s, front).state;
      forall k | 0 <= k < |front| ensures front[..k] == actions[..k] {}
      PassEnds(t, s, p, front);
      assert BusyAfter(t, s, p, actions[..|front|]);
      if OwnStep(a, p) { PassAdvances(t, mid, a); }
      else if a.Die? && a.p == p { DeathEnds(t, mid, a); }
      else { OthersKeepPc(t, mid, a, p); }
    }
  }

  /** A process comes to hold the lock only by writing its name into the file that it made. */
  lemma HoldsByNaming(t: Timing, s: State, a: Action, p: Pid)
    requires Enabled(t, s, a) && p in s.procs && s.procs[p].pc != Holding
    ensures p in Apply(t, s, a).procs
    ensures Apply(t, s, a).procs[p].pc == Holding <==> a == Write(p)
  {}
}
