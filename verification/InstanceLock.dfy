/** The socket-file lock of one directory (apps/server/src/instance-lock.ts, lines 236-430).

Each start publishes a socket of its own, `<prefix>.<id>`: it looks for a live holder, binds a
temporary name, listens, renames the socket into place, and looks again.  Any number of
processes do this at once, and each may be killed between any two file operations.  The module
states the protocol as a transition system whose actions are those single operations, and
proves that at most one start ever holds the lock.
 */
module InstanceLock {
  import opened Basics

  /** The random part of a socket's name.  Every attempt draws a new one. */
  type Id = nat
  type Pid = nat

  /** An entry of the lock directory: a published socket, one not yet published, or anything else. */
  datatype Name = Published(id: Id) | Starting(id: Id) | Other(text: string)

  /** Which of the two looks for a live holder an attempt is making. */
  datatype Look = First | Second

  /** How an attempt ended. */
  datatype Ending =
    | Refused    // the first look found a holder
    | Withdrawn  // another holder appeared, or the temporary name was gone at the rename
    | Retried    // withdrawn, and followed by another attempt of the same start
    | Failed     // a system error
    | Released   // held, then released

  /** Where an attempt has got to. */
  datatype Phase =
    | Begun
    // Reading the directory: an entry there all along is listed, one there for a while may be.
    | Listing(look: Look, throughout: set<Name>, sometime: set<Name>)
    | Scanning(look: Look, todo: set<Name>)
    | Removing(look: Look, todo: set<Name>, name: Name)
    | Clear        // the first look found nobody
    | Bound        // bound to the temporary name, not yet listening
    | Listening
    | Placed       // renamed into place, the second look not begun
    | Holding
    | Unpublishing(ending: Ending)
    | Closing(ending: Ending)
    | Unbinding    // bound but never listening, after an error
    | Ended(ending: Ending)
    | Crashed

  datatype Attempt = Attempt(pid: Pid, tries: nat, phase: Phase)

  /** The directory's entries and every attempt ever made there. */
  datatype State = State(dir: set<Name>, attempts: map<Id, Attempt>)

  const WITHDRAWN_RETRIES := 5

  /** What `askHolder` makes of one connection. */
  datatype Answer =
    | Answers   // a holder named itself
    | Silent    // no answer in time, or not a holder's answer
    | NoAnswer  // refused, or no such entry

  datatype Action =
    | Begin(i: Id, pid: Pid)
    | ListBegin(i: Id)
    | ListEnd(i: Id, snapshot: set<Name>)
    | Skip(i: Id, name: Name)
    | Ask(i: Id, name: Name, answer: Answer)
    | Remove(i: Id)
    | Finish(i: Id)
    | Bind(i: Id)
    | Listen(i: Id)
    | Rename(i: Id)
    | Unpublish(i: Id)
    | Close(i: Id)
    | Fail(i: Id)
    | Retry(i: Id, next: Id)
    | Release(i: Id)
    | Crash(pid: Pid)

  // ---------------------------------------------------------------- what an attempt's phase says

  /** Whether a connection to the attempt's socket is accepted: the kernel does so once it listens. */
  predicate Accepts(p: Phase) {
    p.Listening? || InPlace(p) || p.Unpublishing? || p.Closing?
  }

  /** Published, alive, and not withdrawing: what another start must not overlook. */
  predicate InPlace(p: Phase) {
    p.Placed? || p.Holding? || ((p.Listing? || p.Scanning? || p.Removing?) && p.look == Second)
  }

  /** Past the rename: only these phases can have had a published name. */
  predicate WasPublished(p: Phase) {
    InPlace(p) || p.Unpublishing? || p.Closing? || p.Ended? || p.Crashed?
  }

  /** Whether the attempt still runs code of the protocol. */
  predicate Active(p: Phase) {
    !p.Ended? && !p.Crashed?
  }

  // ---------------------------------------------------------------- the file operations

  /** A reader that lists while a name is removed no longer has it throughout. */
  function SeenRemoved(p: Phase, name: Name): Phase {
    if p.Listing? then Listing(p.look, p.throughout - {name}, p.sometime) else p
  }

  /** A reader that lists while a name is added may or may not list it. */
  function SeenAdded(p: Phase, name: Name): Phase {
    if p.Listing? then Listing(p.look, p.throughout, p.sometime + {name}) else p
  }

  function Drop(s: State, name: Name): State {
    State(s.dir - {name},
          map i | i in s.attempts :: s.attempts[i].(phase := SeenRemoved(s.attempts[i].phase, name)))
  }

  function Add(s: State, name: Name): State {
    State(s.dir + {name},
          map i | i in s.attempts :: s.attempts[i].(phase := SeenAdded(s.attempts[i].phase, name)))
  }

  function Goto(s: State, i: Id, p: Phase): State
    requires i in s.attempts
  {
    s.(attempts := s.attempts[i := s.attempts[i].(phase := p)])
  }

  /** The name the second look leaves out: the attempt's own. */
  predicate Excepted(look: Look, i: Id, name: Name) {
    look == Second && name == Published(i)
  }

  /** Which answers a connection to `name` may have, given who listens there. */
  predicate Possible(s: State, name: Name, answer: Answer)
    requires name.Published? || name.Starting?
  {
    if name in s.dir && name.id in s.attempts && Accepts(s.attempts[name.id].phase)
    then answer != NoAnswer
    else answer != Answers
  }

  // ---------------------------------------------------------------- the protocol

  predicate Enabled(s: State, a: Action) {
    if a.Begin? then a.i !in s.attempts
    else if a.Crash? then true
    else a.i in s.attempts && EnabledBy(s, a, s.attempts[a.i])
  }

  predicate EnabledBy(s: State, a: Action, me: Attempt)
    requires !a.Begin? && !a.Crash?
  {
    var p := me.phase;
    match a
    case ListBegin(_) => p == Begun || p == Placed
    case ListEnd(_, snapshot) => p.Listing? && p.throughout <= snapshot <= p.sometime
    case Skip(i, name) =>
      p.Scanning? && name in p.todo && (name.Other? || Excepted(p.look, i, name) || name !in s.dir)
    case Ask(i, name, answer) =>
      && p.Scanning? && name in p.todo && !name.Other? && !Excepted(p.look, i, name)
      && Possible(s, name, answer)
    case Remove(_) => p.Removing?
    case Finish(_) => p.Scanning? && p.todo == {}
    case Bind(i) => p == Clear
    case Listen(_) => p == Bound
    case Rename(_) => p == Listening
    case Unpublish(_) => p.Unpublishing?
    case Close(_) => p.Closing? || p.Unbinding?
    case Fail(_) => Active(p) && !p.Unpublishing? && !p.Closing? && !p.Unbinding? && !p.Holding?
    case Retry(_, next) =>
      p == Ended(Withdrawn) && me.tries < WITHDRAWN_RETRIES && next !in s.attempts
    case Release(_) => p == Holding
  }

  function Apply(s: State, a: Action): State
    requires Enabled(s, a)
  {
    match a
    case Begin(i, pid) => s.(attempts := s.attempts[i := Attempt(pid, 1, Begun)])
    case Crash(pid) => CrashAll(s, pid)
    case ListBegin(i) =>
      Goto(s, i, Listing(if s.attempts[i].phase == Begun then First else Second, s.dir, s.dir))
    case ListEnd(i, snapshot) => Goto(s, i, Scanning(s.attempts[i].phase.look, snapshot))
    case Skip(i, name) => Goto(s, i, Passed(s.attempts[i].phase, name))
    case Ask(i, name, answer) => Goto(s, i, Heard(s.attempts[i].phase, name, answer))
    case Remove(i) =>
      var p := s.attempts[i].phase;
      Goto(Drop(s, p.name), i, Scanning(p.look, p.todo))
    case Finish(i) => Goto(s, i, if s.attempts[i].phase.look == First then Clear else Holding)
    case Bind(i) => Goto(Add(s, Starting(i)), i, Bound)
    case Listen(i) => Goto(s, i, Listening)
    case Rename(i) =>
      if Starting(i) in s.dir
      then Goto(Add(Drop(s, Starting(i)), Published(i)), i, Placed)
      else Goto(s, i, Closing(Withdrawn))
    case Unpublish(i) =>
      Goto(Drop(s, Published(i)), i, Closing(s.attempts[i].phase.ending))
    // Closing the server unlinks the temporary name it was bound to, when that is still there.
    case Close(i) =>
      var p := s.attempts[i].phase;
      Goto(Drop(s, Starting(i)), i, Ended(if p.Closing? then p.ending else Failed))
    case Fail(i) => Goto(s, i, AfterError(s.attempts[i].phase))
    case Retry(i, next) =>
      var me := s.attempts[i];
      var s1 := Goto(s, i, Ended(Retried));
      s1.(attempts := s1.attempts[next := Attempt(me.pid, me.tries + 1, Begun)])
    case Release(i) => Goto(s, i, Unpublishing(Released))
  }

  /** The state after an action, as long as it is enabled. */
  function Next(s: State, a: Action): State {
    if Enabled(s, a) then Apply(s, a) else s
  }

  function Passed(p: Phase, name: Name): Phase
    requires p.Scanning?
  {
    Scanning(p.look, p.todo - {name})
  }

  /** One entry of `liveHolder`'s loop, once the connection has its answer. */
  function Heard(p: Phase, name: Name, answer: Answer): Phase
    requires p.Scanning?
  {
    if answer == NoAnswer then Removing(p.look, p.todo - {name}, name)
    else if name.Published? then (if p.look == First then Ended(Refused) else Unpublishing(Withdrawn))
    else Scanning(p.look, p.todo - {name})
  }

  /** The catch clause: once the socket listens, its names are removed and it is closed. */
  function AfterError(p: Phase): Phase {
    if Accepts(p) then Unpublishing(Failed)
    else if p == Bound then Unbinding
    else Ended(Failed)
  }

  /** The kernel closes a dead process's sockets; the directory keeps their names. */
  function CrashAll(s: State, pid: Pid): State {
    s.(attempts := map i | i in s.attempts ::
      if s.attempts[i].pid == pid && Active(s.attempts[i].phase)
      then s.attempts[i].(phase := Crashed) else s.attempts[i])
  }

  /** What earlier runs may have left: any entries, and only ended processes behind them. */
  predicate Init(s: State) {
    && (forall i | i in s.attempts :: s.attempts[i].phase == Crashed)
    && (forall n | n in s.dir && !n.Other? :: n.id in s.attempts)
  }

  datatype Outcome = Stuck | At(state: State)

  /** The state after `actions`, when each is enabled in turn. */
  function Exec(s: State, actions: seq<Action>): Outcome
    decreases |actions|
  {
    if actions == [] then At(s)
    else
      match Exec(s, actions[..|actions| - 1])
      case Stuck => Stuck
      case At(mid) =>
        var a := actions[|actions| - 1];
        if Enabled(mid, a) then At(Next(mid, a)) else Stuck
  }

  // ---------------------------------------------------------------- the invariant

  /** The names of sockets an attempt has listed and not dealt with. */
  function Known(p: Phase): set<Name> {
    match p
    case Listing(_, throughout, sometime) => throughout + sometime
    case Scanning(_, todo) => todo
    case Removing(_, todo, name) => todo + {name}
    case _ => {}
  }

  /** A name stands for an attempt that exists, and a published one for an attempt past its rename. */
  predicate Genuine(s: State, n: Name) {
    n.Other? || (n.id in s.attempts && (n.Published? ==> WasPublished(s.attempts[n.id].phase)))
  }

  /** Whether attempt `j` has yet to meet the published name of `i` in its second look. */
  predicate WillMeet(p: Phase, i: Id) {
    match p
    case Placed => true
    case Listing(Second, throughout, _) => Published(i) in throughout
    case Scanning(Second, todo) => Published(i) in todo
    case Removing(Second, todo, _) => Published(i) in todo
    case _ => false
  }

  /** What the directory holds of an attempt's own names. */
  predicate Named(s: State, i: Id)
    requires i in s.attempts
  {
    NamedIn(s.dir, s.attempts[i].phase, i)
  }

  predicate NamedIn(dir: set<Name>, p: Phase, i: Id) {
    && (InPlace(p) ==> Published(i) in dir)
    && (p.Closing? || p.Ended? ==> Published(i) !in dir)
    && (p.Ended? ==> Starting(i) !in dir)
    && (Starting(i) in dir ==>
          p.Bound? || p.Listening? || p.Unpublishing? || p.Closing? || p.Unbinding? || p.Crashed?)
    && (p.Listing? ==> p.throughout <= dir)
  }

  /** What an attempt knows of other names: a name about to be removed is of no socket in place. */
  predicate Informed(s: State, i: Id)
    requires i in s.attempts
  {
    var p := s.attempts[i].phase;
    && (forall n | n in Known(p) :: Genuine(s, n))
    && (p.Removing? && p.name.Published? ==>
          p.name.id in s.attempts && !InPlace(s.attempts[p.name.id].phase))
  }

  predicate Sound(s: State, i: Id)
    requires i in s.attempts
  {
    Named(s, i) && Informed(s, i)
  }

  /** Of two starts whose sockets are both in place, one has yet to meet the other. */
  predicate OneMeets(s: State, i: Id, j: Id)
    requires i in s.attempts && j in s.attempts
  {
    i != j && InPlace(s.attempts[i].phase) && InPlace(s.attempts[j].phase) ==>
      WillMeet(s.attempts[i].phase, j) || WillMeet(s.attempts[j].phase, i)
  }

  ghost predicate Inv(s: State) {
    && (forall n | n in s.dir :: Genuine(s, n))
    && (forall i | i in s.attempts :: Sound(s, i))
    && (forall i, j | i in s.attempts && j in s.attempts :: OneMeets(s, i, j))
  }

  lemma InitInv(s: State)
    requires Init(s)
    ensures Inv(s)
  {}

  /** What an action of another attempt may change in a phase: the entries a listing has seen. */
  lemma Bystander(s: State, a: Action, k: Id)
    requires Enabled(s, a) && !a.Begin? && !a.Crash? && k in s.attempts && k != a.i
    ensures k in Next(s, a).attempts
    ensures Next(s, a).attempts[k].pid == s.attempts[k].pid
    ensures Next(s, a).attempts[k].tries == s.attempts[k].tries
    ensures var p, q := s.attempts[k].phase, Next(s, a).attempts[k].phase;
      q == p || (p.Listing? && q.Listing? && q.look == p.look)
  {}

  /** An attempt stays known, its published name stays possible, and only its rename puts it in place. */
  lemma PhaseMoves(s: State, a: Action, k: Id)
    requires Enabled(s, a) && k in s.attempts
    ensures k in Next(s, a).attempts
    ensures WasPublished(s.attempts[k].phase) ==> WasPublished(Next(s, a).attempts[k].phase)
    ensures InPlace(Next(s, a).attempts[k].phase) ==>
      InPlace(s.attempts[k].phase) || (a == Rename(k) && !WasPublished(s.attempts[k].phase))
  {
    if !a.Begin? && !a.Crash? && a.i != k { Bystander(s, a, k); }
  }

  lemma GenuineKept(s: State, a: Action, n: Name)
    requires Inv(s) && Enabled(s, a) && Genuine(s, n)
    ensures Genuine(Next(s, a), n)
  {
    if !n.Other? { PhaseMoves(s, a, n.id); }
  }

  lemma DirKept(s: State, a: Action, n: Name)
    requires Inv(s) && Enabled(s, a) && n in Next(s, a).dir
    ensures Genuine(Next(s, a), n)
  {
    if n in s.dir { GenuineKept(s, a, n); }
  }

  /** Where a name that is known comes from. */
  lemma KnownFrom(s: State, a: Action, i: Id, n: Name)
    requires Enabled(s, a) && i in Next(s, a).attempts && n in Known(Next(s, a).attempts[i].phase)
    ensures
      || (i in s.attempts && n in Known(s.attempts[i].phase)) || n in s.dir
      || (a.Bind? && n == Starting(a.i)) || (a.Rename? && n == Published(a.i))
  {}

  lemma NewName(s: State, a: Action)
    requires Enabled(s, a) && (a.Bind? || a.Rename?)
    ensures Genuine(Next(s, a), Starting(a.i)) && (a.Rename? ==> Genuine(Next(s, a), Published(a.i)))
  {}

  lemma KnownKept(s: State, a: Action, i: Id, n: Name)
    requires Inv(s) && Enabled(s, a) && i in Next(s, a).attempts
    requires n in Known(Next(s, a).attempts[i].phase)
    ensures Genuine(Next(s, a), n)
    ensures n.Published? ==> Genuine(s, n) || a == Rename(n.id)
  {
    KnownFrom(s, a, i, n);
    if i in s.attempts { assert Sound(s, i); }
    if Genuine(s, n) { GenuineKept(s, a, n); } else { NewName(s, a); }
  }

  /** A name about to be removed is never that of a socket in place. */
  lemma RemovalKept(s: State, a: Action, t: State, i: Id, k: Id)
    requires Inv(s) && Enabled(s, a) && t == Next(s, a) && i in t.attempts && k in t.attempts
    requires t.attempts[i].phase.Removing? && t.attempts[i].phase.name == Published(k)
    ensures !InPlace(t.attempts[k].phase)
  {
    KnownKept(s, a, i, Published(k));
    assert i in s.attempts && Sound(s, i);
    assert k in s.attempts && Sound(s, k) && Genuine(s, Published(k));
    PhaseMoves(s, a, k);
  }

  lemma InformedKept(s: State, a: Action, t: State, i: Id)
    requires Inv(s) && Enabled(s, a) && t == Next(s, a) && i in t.attempts
    ensures Informed(t, i)
  {
    var p := t.attempts[i].phase;
    forall n | n in Known(p) ensures Genuine(t, n) { KnownKept(s, a, i, n); }
    if p.Removing? && p.name.Published? {
      assert Genuine(t, p.name);
      RemovalKept(s, a, t, i, p.name.id);
    }
  }

  /** The directory after a step of one attempt. */
  function DirAfter(dir: set<Name>, p: Phase, a: Action): set<Name> {
    match a
    case Remove(_) => if p.Removing? then dir - {p.name} else dir
    case Bind(i) => dir + {Starting(i)}
    case Rename(i) => if Starting(i) in dir then dir - {Starting(i)} + {Published(i)} else dir
    case Unpublish(i) => dir - {Published(i)}
    case Close(i) => dir - {Starting(i)}
    case _ => dir
  }

  lemma OwnStep(s: State, a: Action)
    requires Enabled(s, a) && !a.Begin? && !a.Crash?
    ensures a.i in Next(s, a).attempts && Next(s, a).dir == DirAfter(s.dir, s.attempts[a.i].phase, a)
  {}

  /** Its phase after a step that leaves the directory as it is. */
  lemma QuietStep(s: State, a: Action)
    requires Enabled(s, a) && !a.Begin? && !a.Crash?
    requires !a.Remove? && !a.Bind? && !a.Rename? && !a.Unpublish? && !a.Close?
    requires NamedIn(s.dir, s.attempts[a.i].phase, a.i)
    requires Published(a.i) in s.dir ==> WasPublished(s.attempts[a.i].phase)
    ensures a.i in Next(s, a).attempts && NamedIn(s.dir, Next(s, a).attempts[a.i].phase, a.i)
  {}

  lemma FileStep(s: State, a: Action)
    requires Enabled(s, a) && !a.Begin? && !a.Crash?
    requires a.Remove? || a.Bind? || a.Rename? || a.Unpublish? || a.Close?
    requires NamedIn(s.dir, s.attempts[a.i].phase, a.i)
    requires a.Remove? && s.attempts[a.i].phase.name == Published(a.i) ==> !InPlace(s.attempts[a.i].phase)
    requires Published(a.i) in s.dir ==> WasPublished(s.attempts[a.i].phase)
    ensures a.i in Next(s, a).attempts && NamedIn(Next(s, a).dir, Next(s, a).attempts[a.i].phase, a.i)
  {}

  lemma NamedOwn(s: State, a: Action, i: Id)
    requires Inv(s) && Enabled(s, a) && !a.Begin? && !a.Crash? && i == a.i
    ensures i in Next(s, a).attempts && Named(Next(s, a), i)
  {
    assert Sound(s, i);
    assert Published(i) in s.dir ==> Genuine(s, Published(i));
    OwnStep(s, a);
    if a.Remove? || a.Bind? || a.Rename? || a.Unpublish? || a.Close? { FileStep(s, a); } else { QuietStep(s, a); }
  }

  lemma NamedOther(s: State, a: Action, i: Id)
    requires Inv(s) && Enabled(s, a) && !a.Begin? && !a.Crash? && i in s.attempts && i != a.i
    ensures i in Next(s, a).attempts && Named(Next(s, a), i)
  {
    assert Sound(s, i);
    Bystander(s, a, i);
    if a.Remove? { assert Sound(s, a.i); }
  }

  lemma NamedKept(s: State, a: Action, t: State, i: Id)
    requires Inv(s) && Enabled(s, a) && t == Next(s, a) && i in t.attempts
    ensures Named(t, i)
  {
    if i in s.attempts { assert Sound(s, i); }
    if !a.Begin? && !a.Crash? {
      if i == a.i { NamedOwn(s, a, i); } else if i in s.attempts { NamedOther(s, a, i); }
    }
  }

  lemma SoundKept(s: State, a: Action, i: Id)
    requires Inv(s) && Enabled(s, a) && i in Next(s, a).attempts
    ensures Sound(Next(s, a), i)
  {
    NamedKept(s, a, Next(s, a), i);
    InformedKept(s, a, Next(s, a), i);
  }

  lemma MeetingStaysOwn(s: State, a: Action, i: Id, j: Id)
    requires Inv(s) && Enabled(s, a) && !a.Begin? && !a.Crash? && a.i == i
    requires i in s.attempts && j in s.attempts && i != j
    requires InPlace(s.attempts[i].phase) && InPlace(s.attempts[j].phase)
    requires InPlace(Next(s, a).attempts[i].phase) && WillMeet(s.attempts[i].phase, j)
    ensures WillMeet(Next(s, a).attempts[i].phase, j)
  {
    assert Sound(s, i) && Sound(s, j);
  }

  lemma MeetingStaysOther(s: State, a: Action, i: Id, j: Id)
    requires Inv(s) && Enabled(s, a) && !a.Begin? && !a.Crash? && a.i != i
    requires i in s.attempts && j in s.attempts && i != j
    requires InPlace(s.attempts[i].phase) && InPlace(s.attempts[j].phase)
    requires InPlace(Next(s, a).attempts[j].phase) && WillMeet(s.attempts[i].phase, j)
    ensures i in Next(s, a).attempts && WillMeet(Next(s, a).attempts[i].phase, j)
  {
    assert Sound(s, j);
    if a.Remove? { assert Sound(s, a.i); }
  }

  /** While both sockets stay in place, a second look that had yet to meet the other still has. */
  lemma MeetingStays(s: State, a: Action, i: Id, j: Id)
    requires Inv(s) && Enabled(s, a) && i in s.attempts && j in s.attempts && i != j
    requires InPlace(s.attempts[i].phase) && InPlace(s.attempts[j].phase)
    requires InPlace(Next(s, a).attempts[i].phase) && InPlace(Next(s, a).attempts[j].phase)
    requires WillMeet(s.attempts[i].phase, j)
    ensures WillMeet(Next(s, a).attempts[i].phase, j)
  {
    if !a.Begin? && !a.Crash? {
      if a.i == i { MeetingStaysOwn(s, a, i, j); } else { MeetingStaysOther(s, a, i, j); }
    }
  }

  lemma MeetsStill(s: State, a: Action, i: Id, j: Id)
    requires Inv(s) && Enabled(s, a) && i in s.attempts && j in s.attempts && i != j
    requires i in Next(s, a).attempts && j in Next(s, a).attempts
    requires InPlace(s.attempts[i].phase) && InPlace(s.attempts[j].phase)
    requires InPlace(Next(s, a).attempts[i].phase) && InPlace(Next(s, a).attempts[j].phase)
    ensures OneMeets(Next(s, a), i, j)
  {
    assert OneMeets(s, i, j);
    if WillMeet(s.attempts[i].phase, j) { MeetingStays(s, a, i, j); } else { MeetingStays(s, a, j, i); }
  }

  /** A start that has just renamed its socket into place has yet to look. */
  lemma MeetsPlaced(s: State, a: Action, i: Id, j: Id)
    requires Enabled(s, a) && i in Next(s, a).attempts && j in Next(s, a).attempts
    requires a == Rename(i) || a == Rename(j)
    ensures OneMeets(Next(s, a), i, j)
  {}

  lemma MeetsKept(s: State, a: Action, i: Id, j: Id)
    requires Inv(s) && Enabled(s, a) && i in Next(s, a).attempts && j in Next(s, a).attempts
    ensures OneMeets(Next(s, a), i, j)
  {
    var t := Next(s, a);
    if i != j && InPlace(t.attempts[i].phase) && InPlace(t.attempts[j].phase) {
      assert i in s.attempts && j in s.attempts;
      PhaseMoves(s, a, i);
      PhaseMoves(s, a, j);
      if a == Rename(i) || a == Rename(j) { MeetsPlaced(s, a, i, j); } else { MeetsStill(s, a, i, j); }
    }
  }

  lemma StepInv(s: State, a: Action)
    requires Inv(s) && Enabled(s, a)
    ensures Inv(Next(s, a))
  {
    var t := Next(s, a);
    forall n | n in t.dir ensures Genuine(t, n) { DirKept(s, a, n); }
    forall i | i in t.attempts ensures Sound(t, i) { SoundKept(s, a, i); }
    forall i, j | i in t.attempts && j in t.attempts ensures OneMeets(t, i, j) { MeetsKept(s, a, i, j); }
  }

  lemma {:induction false} ReachableInv(s0: State, actions: seq<Action>)
    requires Init(s0) && Exec(s0, actions).At?
    ensures Inv(Exec(s0, actions).state)
    decreases |actions|
  {
    if actions == [] {
      InitInv(s0);
    } else {
      ReachableInv(s0, actions[..|actions| - 1]);
      StepInv(Exec(s0, actions[..|actions| - 1]).state, actions[|actions| - 1]);
    }
  }

  // ---------------------------------------------------------------- what the lock promises

  /** "Two starters racing can at worst both withdraw, never both hold", for any number of them. */
  lemma AtMostOneHolder(s0: State, actions: seq<Action>, i: Id, j: Id)
    requires Init(s0) && Exec(s0, actions).At?
    requires i in Exec(s0, actions).state.attempts && j in Exec(s0, actions).state.attempts
    requires Exec(s0, actions).state.attempts[i].phase == Holding
    requires Exec(s0, actions).state.attempts[j].phase == Holding
    ensures i == j
  {
    ReachableInv(s0, actions);
    assert OneMeets(Exec(s0, actions).state, i, j);
  }

  lemma PublishedStays(s: State, a: Action, j: Id)
    requires Inv(s) && Enabled(s, a) && j in s.attempts && InPlace(s.attempts[j].phase)
    ensures Published(j) in s.dir && Published(j) in Next(s, a).dir
  {
    assert Sound(s, j);
    if a.Remove? { assert Sound(s, a.i); }
  }

  /** Whatever happens next, the published name of a socket in place stays: no look for a holder
      removes it, not even one that asked its temporary name before it listened. */
  lemma LiveSocketStaysPublished(s0: State, actions: seq<Action>, a: Action, j: Id)
    requires Init(s0) && Exec(s0, actions).At? && Enabled(Exec(s0, actions).state, a)
    requires j in Exec(s0, actions).state.attempts
    requires InPlace(Exec(s0, actions).state.attempts[j].phase)
    ensures Published(j) in Exec(s0, actions).state.dir
    ensures Published(j) in Next(Exec(s0, actions).state, a).dir
  {
    ReachableInv(s0, actions);
    PublishedStays(Exec(s0, actions).state, a, j);
  }

  /** A start that was refused, withdrew, failed or released leaves neither of its names behind. */
  lemma EndedLeavesNothing(s0: State, actions: seq<Action>, i: Id)
    requires Init(s0) && Exec(s0, actions).At?
    requires i in Exec(s0, actions).state.attempts
    requires Exec(s0, actions).state.attempts[i].phase.Ended?
    ensures Published(i) !in Exec(s0, actions).state.dir
    ensures Starting(i) !in Exec(s0, actions).state.dir
  {
    ReachableInv(s0, actions);
    assert Sound(Exec(s0, actions).state, i);
  }

  /** How an attempt is ending, once it is. */
  function EndingOf(p: Phase): Option<Ending> {
    match p
    case Unpublishing(ending) => Some(ending)
    case Closing(ending) => Some(ending)
    case Unbinding => Some(Failed)
    case Ended(ending) => Some(ending)
    case _ => None
  }

  /** This look meets a published socket that answers, or does not refuse in time. */
  predicate MeetsHolder(s: State, a: Action, i: Id, look: Look)
    requires i in s.attempts
  {
    && a.Ask? && a.i == i && a.name.Published? && a.answer != NoAnswer
    && s.attempts[i].phase.Scanning? && s.attempts[i].phase.look == look
  }

  /** An attempt is refused exactly by a holder that its first look meets, and withdraws exactly for one that
      its second look meets or when its temporary name is gone; a starting socket that listens stops nobody. */
  lemma EndsExactly(s: State, a: Action, i: Id)
    requires Enabled(s, a) && i in s.attempts && EndingOf(s.attempts[i].phase).None? && Active(s.attempts[i].phase)
    ensures i in Next(s, a).attempts
    ensures var ending := EndingOf(Next(s, a).attempts[i].phase);
      && (ending == Some(Refused) <==> MeetsHolder(s, a, i, First))
      && (ending == Some(Withdrawn) <==> MeetsHolder(s, a, i, Second) || (a == Rename(i) && Starting(i) !in s.dir))
      && (ending == Some(Failed) <==> a == Fail(i))
      && (ending == Some(Released) <==> a == Release(i))
      && ending != Some(Retried)
  {
    if !a.Begin? && !a.Crash? && a.i != i { Bystander(s, a, i); }
  }

  /** And ends so, but for dying or being tried again. */
  lemma EndingStays(s: State, a: Action, i: Id)
    requires Enabled(s, a) && i in s.attempts && EndingOf(s.attempts[i].phase).Some?
    ensures i in Next(s, a).attempts
    ensures var p, q := s.attempts[i].phase, Next(s, a).attempts[i].phase;
      || EndingOf(q) == EndingOf(p) || q == Crashed
      || (a.Retry? && a.i == i && p == Ended(Withdrawn) && q == Ended(Retried))
  {
    if !a.Begin? && !a.Crash? && a.i != i { Bystander(s, a, i); }
  }

  /** A holder that releases the lock is gone from the directory three steps later. */
  lemma ReleaseFrees(s: State, i: Id)
    requires i in s.attempts && s.attempts[i].phase == Holding
    ensures var t := Next(Next(Next(s, Release(i)), Unpublish(i)), Close(i));
      && i in t.attempts && t.attempts[i].phase == Ended(Released)
      && t.dir == s.dir - {Published(i), Starting(i)}
  {
    var u := Next(s, Release(i));
    assert u.attempts[i].phase == Unpublishing(Released) && u.dir == s.dir;
    var v := Next(u, Unpublish(i));
    assert v.attempts[i].phase == Closing(Released) && v.dir == s.dir - {Published(i)};
  }

  // ---------------------------------------------------------------- a start that finds a holder

  /** Not past the first look, which has the published name of `j` still to ask, or over. */
  predicate AtFirstLook(p: Phase, j: Id) {
    match p
    case Begun => true
    case Listing(look, throughout, _) => look == First && Published(j) in throughout
    case Scanning(look, todo) => look == First && Published(j) in todo
    case Removing(look, todo, _) => look == First && Published(j) in todo
    case Ended(ending) => ending == Refused || ending == Failed
    case Crashed => true
    case _ => false
  }

  predicate LockedOut(s: State, i: Id, j: Id) {
    i in s.attempts && AtFirstLook(s.attempts[i].phase, j) && Published(i) !in s.dir
  }

  /** An attempt's own step, while the socket of `j` is in place. */
  lemma LockedOutOwn(s: State, a: Action, i: Id, j: Id)
    requires Enabled(s, a) && !a.Begin? && !a.Crash? && a.i == i && LockedOut(s, i, j)
    requires j in s.attempts && InPlace(s.attempts[j].phase) && Published(j) in s.dir
    requires s.attempts[i].phase.Removing? ==> s.attempts[i].phase.name != Published(j)
    ensures LockedOut(Next(s, a), i, j)
  {}

  lemma LockedOutOther(s: State, a: Action, i: Id, j: Id)
    requires Enabled(s, a) && (a.Begin? || a.Crash? || a.i != i) && LockedOut(s, i, j)
    requires Published(j) in s.dir && Published(j) in Next(s, a).dir
    ensures LockedOut(Next(s, a), i, j)
  {}

  lemma LockedOutStays(s: State, a: Action, i: Id, j: Id)
    requires Inv(s) && Enabled(s, a) && LockedOut(s, i, j)
    requires j in s.attempts && InPlace(s.attempts[j].phase)
    requires j in Next(s, a).attempts && InPlace(Next(s, a).attempts[j].phase)
    ensures LockedOut(Next(s, a), i, j)
  {
    PublishedStays(s, a, j);
    if a.Begin? || a.Crash? || a.i != i {
      LockedOutOther(s, a, i, j);
    } else {
      assert Sound(s, i);
      LockedOutOwn(s, a, i, j);
    }
  }

  /** The socket of `j` is in place before a run and after each of its steps. */
  predicate StaysInPlace(s: State, actions: seq<Action>, j: Id) {
    forall k | 0 <= k <= |actions| ::
      var mid := Exec(s, actions[..k]); mid.At? && j in mid.state.attempts && InPlace(mid.state.attempts[j].phase)
  }

  lemma {:induction false} LockedOutAfter(s: State, actions: seq<Action>, i: Id, j: Id)
    requires Inv(s) && StaysInPlace(s, actions, j) && LockedOut(s, i, j)
    ensures Exec(s, actions).At? && Inv(Exec(s, actions).state) && LockedOut(Exec(s, actions).state, i, j)
    decreases |actions|
  {
    assert actions[..|actions|] == actions;
    if actions != [] {
      var n := |actions| - 1;
      forall k | 0 <= k <= n ensures actions[..n][..k] == actions[..k] {}
      LockedOutAfter(s, actions[..n], i, j);
      StepInv(Exec(s, actions[..n]).state, actions[n]);
      LockedOutStays(Exec(s, actions[..n]).state, actions[n], i, j);
    }
  }

  /** A start that has yet to list the directory while another's socket is in place, and stays there, never
      gets past its first look, whatever anybody does: it binds nothing and publishes nothing. */
  lemma FirstLookRefuses(s0: State, before: seq<Action>, s: State, actions: seq<Action>, i: Id, j: Id)
    requires Init(s0) && Exec(s0, before) == At(s) && StaysInPlace(s, actions, j)
    requires i in s.attempts && s.attempts[i].phase == Begun
    ensures Exec(s, actions).At? && i in Exec(s, actions).state.attempts
    ensures Published(i) !in Exec(s, actions).state.dir
    ensures var p := Exec(s, actions).state.attempts[i].phase;
      || p == Begun || p == Crashed || p == Ended(Refused) || p == Ended(Failed)
      || ((p.Listing? || p.Scanning? || p.Removing?) && p.look == First)
  {
    ReachableInv(s0, before);
    assert Sound(s, i);
    NotYetPublished(s, i);
    LockedOutAfter(s, actions, i, j);
  }

  lemma NotYetPublished(s: State, i: Id)
    requires Inv(s) && i in s.attempts && !WasPublished(s.attempts[i].phase)
    ensures Published(i) !in s.dir
  {
    assert Published(i) in s.dir ==> Genuine(s, Published(i));
  }

  // ---------------------------------------------------------------- a start on its own

  /** The actions of attempt `i` when nothing fails and a dead socket refuses at once. */
  predicate Undisturbed(a: Action, i: Id) {
    match a
    case Ask(k, _, answer) => k == i && answer != Silent
    case ListBegin(k) => k == i
    case ListEnd(k, _) => k == i
    case Skip(k, _) => k == i
    case Remove(k) => k == i
    case Finish(k) => k == i
    case Bind(k) => k == i
    case Listen(k) => k == i
    case Rename(k) => k == i
    case _ => false
  }

  /** Attempt `i` is on its way to holding, and everyone else has ended or died. */
  ghost predicate Alone(s: State, i: Id) {
    && Inv(s) && i in s.attempts
    && (forall k | k in s.attempts && k != i :: !Active(s.attempts[k].phase))
    && OnItsWay(s, s.attempts[i].phase, i)
  }

  predicate OnItsWay(s: State, p: Phase, i: Id) {
    && Active(p) && !p.Unpublishing? && !p.Closing? && !p.Unbinding?
    && (p.Bound? || p.Listening? ==> Starting(i) in s.dir)
    && (p.Listing? ==> p.sometime == s.dir && p.throughout == s.dir)
  }

  /** A start that begins where only crashed ones were is alone. */
  lemma FreshIsAlone(s: State, i: Id, pid: Pid)
    requires Init(s) && i !in s.attempts
    ensures Alone(Next(s, Begin(i, pid)), i)
  {
    InitInv(s);
    StepInv(s, Begin(i, pid));
  }

  /** And so is one that begins where every other attempt is over. */
  lemma BeginsAlone(s: State, i: Id, pid: Pid)
    requires Inv(s) && i !in s.attempts && forall k | k in s.attempts :: !Active(s.attempts[k].phase)
    ensures Alone(Next(s, Begin(i, pid)), i) && StepsLeft(Next(s, Begin(i, pid)), i) == Left(Begun, |s.dir|)
  {
    StepInv(s, Begin(i, pid));
  }

  lemma OnItsWayStays(s: State, i: Id, a: Action)
    requires Alone(s, i) && Enabled(s, a) && Undisturbed(a, i)
    ensures i in Next(s, a).attempts && OnItsWay(Next(s, a), Next(s, a).attempts[i].phase, i)
  {
    assert Sound(s, i);
    if a.Ask? { assert Genuine(s, a.name); }
  }

  lemma AloneStays(s: State, i: Id, a: Action)
    requires Alone(s, i) && Enabled(s, a) && Undisturbed(a, i)
    ensures Alone(Next(s, a), i)
  {
    StepInv(s, a);
    OnItsWayStays(s, i, a);
    var t := Next(s, a);
    forall k | k in t.attempts && k != i ensures !Active(t.attempts[k].phase) {
      Bystander(s, a, k);
    }
  }

  /** The steps left to holding: those of each stage, and two for each entry still to look at. */
  function Left(p: Phase, entries: nat): nat {
    match p
    case Begun => 10 + 2 * entries + 2 * (entries + 1)
    case Listing(First, _, _) => 9 + 2 * entries + 2 * (entries + 1)
    case Scanning(First, todo) => 8 + 2 * |todo| + 2 * (entries + 1)
    case Removing(First, todo, _) => 9 + 2 * |todo| + 2 * (entries + 1)
    case Clear => 6 + 2 * (entries + 1)
    case Bound => 5 + 2 * entries
    case Listening => 4 + 2 * entries
    case Placed => 3 + 2 * entries
    case Listing(Second, _, _) => 2 + 2 * entries
    case Scanning(Second, todo) => 1 + 2 * |todo|
    case Removing(Second, todo, _) => 2 + 2 * |todo|
    case _ => 0
  }

  function StepsLeft(s: State, i: Id): nat
    requires i in s.attempts
  {
    Left(s.attempts[i].phase, |s.dir|)
  }

  lemma AskAdvances(s: State, i: Id, a: Action)
    requires i in s.attempts && OnItsWay(s, s.attempts[i].phase, i) && Enabled(s, a) && Undisturbed(a, i)
    requires a.Skip? || a.Ask?
    requires a.Ask? ==> a.name.id in s.attempts && (a.name.id != i ==> !Active(s.attempts[a.name.id].phase))
    ensures i in Next(s, a).attempts && StepsLeft(Next(s, a), i) < StepsLeft(s, i)
  {
    OwnStep(s, a);
  }

  lemma RemoveAdvances(s: State, i: Id, a: Action)
    requires i in s.attempts && OnItsWay(s, s.attempts[i].phase, i) && Enabled(s, a) && Undisturbed(a, i)
    requires a.Remove? || a.Finish?
    ensures i in Next(s, a).attempts && StepsLeft(Next(s, a), i) < StepsLeft(s, i)
  {
    OwnStep(s, a);
    SubsetSize(Next(s, a).dir, s.dir);
  }

  lemma ListAdvances(s: State, i: Id, a: Action)
    requires i in s.attempts && OnItsWay(s, s.attempts[i].phase, i) && Enabled(s, a) && Undisturbed(a, i)
    requires a.ListBegin? || a.ListEnd?
    ensures i in Next(s, a).attempts && StepsLeft(Next(s, a), i) < StepsLeft(s, i)
  {
    if a.ListEnd? { SubsetSize(a.snapshot, s.dir); }
  }

  lemma OneMore(dir: set<Name>, name: Name)
    ensures |dir + {name}| <= |dir| + 1
  {}

  lemma OneForAnother(dir: set<Name>, old': Name, new': Name)
    requires old' in dir
    ensures |dir - {old'} + {new'}| <= |dir|
  {}

  lemma PhaseAfter(s: State, i: Id, a: Action)
    requires i in s.attempts && OnItsWay(s, s.attempts[i].phase, i) && Enabled(s, a) && Undisturbed(a, i)
    requires a.Bind? || a.Listen? || a.Rename?
    ensures i in Next(s, a).attempts
    ensures Next(s, a).attempts[i].phase == if a.Bind? then Bound else if a.Listen? then Listening else Placed
  {}

  lemma PublishAdvances(s: State, i: Id, a: Action)
    requires i in s.attempts && OnItsWay(s, s.attempts[i].phase, i) && Enabled(s, a) && Undisturbed(a, i)
    requires a.Bind? || a.Listen? || a.Rename?
    ensures i in Next(s, a).attempts && StepsLeft(Next(s, a), i) < StepsLeft(s, i)
  {
    OwnStep(s, a);
    PhaseAfter(s, i, a);
    OneMore(s.dir, Starting(i));
    if a.Rename? { OneForAnother(s.dir, Starting(i), Published(i)); }
  }

  /** Every step of a start that is alone brings it closer. */
  lemma UndisturbedAdvances(s: State, i: Id, a: Action)
    requires Alone(s, i) && Enabled(s, a) && Undisturbed(a, i)
    ensures i in Next(s, a).attempts && StepsLeft(Next(s, a), i) < StepsLeft(s, i)
  {
    assert Sound(s, i);
    if a.Ask? { assert Genuine(s, a.name); }
    if a.Skip? || a.Ask? { AskAdvances(s, i, a); }
    else if a.Remove? || a.Finish? { RemoveAdvances(s, i, a); }
    else if a.ListBegin? || a.ListEnd? { ListAdvances(s, i, a); }
    else { PublishAdvances(s, i, a); }
  }

  /** Until it holds, a start that is alone has a next step. */
  lemma NextStep(s: State, i: Id) returns (a: Action)
    requires Alone(s, i) && s.attempts[i].phase != Holding
    ensures Enabled(s, a) && Undisturbed(a, i)
  {
    assert Sound(s, i);
    match s.attempts[i].phase {
      case Begun => a := ListBegin(i);
      case Placed => a := ListBegin(i);
      case Listing(_, throughout, _) => a := ListEnd(i, throughout);
      case Scanning(look, todo) => a := NextLook(s, i, look, todo);
      case Removing(_, _, _) => a := Remove(i);
      case Clear => a := Bind(i);
      case Bound => a := Listen(i);
      case Listening => a := Rename(i);
    }
  }

  lemma NextLook(s: State, i: Id, look: Look, todo: set<Name>) returns (a: Action)
    requires i in s.attempts && s.attempts[i].phase == Scanning(look, todo)
    ensures Enabled(s, a) && Undisturbed(a, i)
  {
    if n :| n in todo {
      if n.Other? || Excepted(look, i, n) || n !in s.dir {
        a := Skip(i, n);
      } else {
        a := Ask(i, n, if Possible(s, n, NoAnswer) then NoAnswer else Answers);
      }
    } else {
      a := Finish(i);
    }
  }

  /** However a start runs alone, it takes no more than so many steps, and until it holds the lock it can
      always take another: it takes the lock, whatever ended or killed starts left behind. */
  lemma {:induction false} LoneStartHolds(s: State, i: Id, actions: seq<Action>) returns (next: Action)
    requires Alone(s, i) && Exec(s, actions).At?
    requires forall k | 0 <= k < |actions| :: Undisturbed(actions[k], i)
    ensures Alone(Exec(s, actions).state, i)
    ensures |actions| + StepsLeft(Exec(s, actions).state, i) <= StepsLeft(s, i)
    ensures Exec(s, actions).state.attempts[i].phase != Holding ==>
      Enabled(Exec(s, actions).state, next) && Undisturbed(next, i)
    decreases |actions|
  {
    next := Begin(i, 0);
    if actions != [] {
      var n := |actions| - 1;
      var _ := LoneStartHolds(s, i, actions[..n]);
      UndisturbedAdvances(Exec(s, actions[..n]).state, i, actions[n]);
      AloneStays(Exec(s, actions[..n]).state, i, actions[n]);
    }
    if Exec(s, actions).state.attempts[i].phase != Holding { next := NextStep(Exec(s, actions).state, i); }
  }

  // ---------------------------------------------------------------- what a start on its own leaves

  /** The names still in the directory: after the first look no other start's. */
  predicate Cleared(s: State, i: Id)
    requires i in s.attempts
  {
    match s.attempts[i].phase
    case Begun => true
    case Listing(First, _, _) => true
    case Scanning(First, todo) => forall n | n in s.dir :: n.Other? || n in todo
    case Removing(First, todo, name) => forall n | n in s.dir :: n.Other? || n in todo || n == name
    case _ => forall n | n in s.dir :: n.Other? || n == Starting(i) || n == Published(i)
  }

  lemma ClearedByLook(s: State, i: Id, a: Action)
    requires i in s.attempts && Cleared(s, i) && Enabled(s, a) && Undisturbed(a, i)
    requires OnItsWay(s, s.attempts[i].phase, i)
    requires a.ListBegin? || a.ListEnd? || a.Skip? || a.Ask? || a.Finish?
    requires a.Ask? ==> a.answer == NoAnswer
    ensures i in Next(s, a).attempts && Cleared(Next(s, a), i)
  {
    OwnStep(s, a);
  }

  lemma ClearedByFile(s: State, i: Id, a: Action)
    requires i in s.attempts && Cleared(s, i) && Enabled(s, a) && Undisturbed(a, i)
    requires a.Remove? || a.Bind? || a.Listen? || a.Rename?
    ensures i in Next(s, a).attempts && Cleared(Next(s, a), i)
  {
    OwnStep(s, a);
  }

  /** Nobody answers a start that is alone. */
  lemma AsksTheDead(s: State, i: Id, a: Action)
    requires Alone(s, i) && Enabled(s, a) && Undisturbed(a, i) && a.Ask?
    ensures a.answer == NoAnswer
  {
    assert Sound(s, i);
    assert Genuine(s, a.name);
  }

  lemma ClearedStays(s: State, i: Id, a: Action)
    requires Alone(s, i) && Cleared(s, i) && Enabled(s, a) && Undisturbed(a, i)
    ensures i in Next(s, a).attempts && Cleared(Next(s, a), i)
  {
    if a.Ask? { AsksTheDead(s, i, a); }
    if a.Remove? || a.Bind? || a.Listen? || a.Rename? { ClearedByFile(s, i, a); } else { ClearedByLook(s, i, a); }
  }

  /** A start that takes the lock on its own has removed every name that ended starts left. */
  lemma {:induction false} LoneStartClears(s: State, i: Id, actions: seq<Action>)
    requires Alone(s, i) && Cleared(s, i) && Exec(s, actions).At?
    requires forall k | 0 <= k < |actions| :: Undisturbed(actions[k], i)
    ensures Alone(Exec(s, actions).state, i) && Cleared(Exec(s, actions).state, i)
    ensures var t := Exec(s, actions).state;
      t.attempts[i].phase == Holding ==> forall n | n in t.dir :: n.Other? || n == Published(i)
    decreases |actions|
  {
    if actions != [] {
      var n := |actions| - 1;
      LoneStartClears(s, i, actions[..n]);
      AloneStays(Exec(s, actions[..n]).state, i, actions[n]);
      ClearedStays(Exec(s, actions[..n]).state, i, actions[n]);
    }
    assert Sound(Exec(s, actions).state, i);
  }

  // ---------------------------------------------------------------- a start that is refused

  /** A start that the socket of `j` locks out, and that nobody else disturbs. */
  ghost predicate Heading(s: State, i: Id, j: Id) {
    && Inv(s) && LockedOut(s, i, j) && j in s.attempts && InPlace(s.attempts[j].phase)
    && var p := s.attempts[i].phase;
       && (p.Listing? ==> p.sometime == s.dir && p.throughout == s.dir)
       && (p.Ended? ==> p == Ended(Refused)) && !p.Crashed?
  }

  lemma HeadingLists(s: State, i: Id, j: Id, a: Action)
    requires Heading(s, i, j) && Enabled(s, a) && Undisturbed(a, i) && (a.ListBegin? || a.ListEnd?)
    ensures i in Next(s, a).attempts && StepsLeft(Next(s, a), i) < StepsLeft(s, i)
    ensures var p := Next(s, a).attempts[i].phase;
      p == Listing(First, Next(s, a).dir, Next(s, a).dir) || p.Scanning?
  {
    if a.ListEnd? { SubsetSize(a.snapshot, s.dir); }
  }

  lemma HeadingLooks(s: State, i: Id, j: Id, a: Action)
    requires Heading(s, i, j) && Enabled(s, a) && Undisturbed(a, i) && !a.ListBegin? && !a.ListEnd?
    ensures i in Next(s, a).attempts && StepsLeft(Next(s, a), i) < StepsLeft(s, i)
    ensures var p := Next(s, a).attempts[i].phase; p.Scanning? || p.Removing? || p == Ended(Refused)
  {
    OwnStep(s, a);
    SubsetSize(Next(s, a).dir, s.dir);
  }

  lemma HeadingAdvances(s: State, i: Id, j: Id, a: Action)
    requires Heading(s, i, j) && Enabled(s, a) && Undisturbed(a, i)
    ensures Heading(Next(s, a), i, j) && StepsLeft(Next(s, a), i) < StepsLeft(s, i)
  {
    if a.ListBegin? || a.ListEnd? { HeadingLists(s, i, j, a); } else { HeadingLooks(s, i, j, a); }
    Bystander(s, a, j);
    StepInv(s, a);
    LockedOutStays(s, a, i, j);
  }

  lemma NextRefused(s: State, i: Id, j: Id) returns (a: Action)
    requires Heading(s, i, j) && !s.attempts[i].phase.Ended?
    ensures Enabled(s, a) && Undisturbed(a, i)
  {
    match s.attempts[i].phase {
      case Begun => a := ListBegin(i);
      case Listing(_, throughout, _) => a := ListEnd(i, throughout);
      case Scanning(look, todo) => a := NextLook(s, i, look, todo);
      case Removing(_, _, _) => a := Remove(i);
    }
  }

  /** However a start that has a holder to find runs on, its steps are bounded in advance and it can always
      take another, until it is refused. */
  lemma {:induction false} HolderRefuses(s: State, i: Id, j: Id, actions: seq<Action>) returns (next: Action)
    requires Inv(s) && i in s.attempts && s.attempts[i].phase == Begun
    requires j in s.attempts && InPlace(s.attempts[j].phase) && Exec(s, actions).At?
    requires forall k | 0 <= k < |actions| :: Undisturbed(actions[k], i)
    ensures Heading(Exec(s, actions).state, i, j)
    ensures |actions| + StepsLeft(Exec(s, actions).state, i) <= StepsLeft(s, i)
    ensures var t := Exec(s, actions).state;
      t.attempts[i].phase == Ended(Refused) || (Enabled(t, next) && Undisturbed(next, i))
    decreases |actions|
  {
    next := Begin(i, 0);
    if actions == [] {
      NotYetPublished(s, i);
    } else {
      var n := |actions| - 1;
      var _ := HolderRefuses(s, i, j, actions[..n]);
      HeadingAdvances(Exec(s, actions[..n]).state, i, j, actions[n]);
    }
    if !Exec(s, actions).state.attempts[i].phase.Ended? { next := NextRefused(Exec(s, actions).state, i, j); }
  }

  // ---------------------------------------------------------------- withdrawals are retried

  /** A retried attempt has one after it that counts one more. */
  ghost predicate Followed(s: State, k: Id)
    requires k in s.attempts
  {
    s.attempts[k].phase == Ended(Retried) ==>
      exists n :: n in s.attempts && s.attempts[n].pid == s.attempts[k].pid &&
                  s.attempts[n].tries == s.attempts[k].tries + 1
  }

  ghost predicate Counted(s0: State, s: State) {
    && (forall k | k in s0.attempts :: k in s.attempts && s.attempts[k].phase == Crashed)
    && (forall k | k in s.attempts && k !in s0.attempts :: 1 <= s.attempts[k].tries <= 5)
    && (forall k | k in s.attempts :: Followed(s, k) && !EndsRetried(s.attempts[k].phase))
  }

  /** No attempt is on its way to having been retried. */
  predicate EndsRetried(p: Phase) {
    (p.Unpublishing? || p.Closing?) && p.ending == Retried
  }

  /** No step but `Retry` changes whose an attempt is or what it counts, or is a retry. */
  lemma CountsStay(s: State, a: Action, k: Id)
    requires Enabled(s, a) && k in s.attempts && !EndsRetried(s.attempts[k].phase)
    ensures k in Next(s, a).attempts && !EndsRetried(Next(s, a).attempts[k].phase)
    ensures Next(s, a).attempts[k].pid == s.attempts[k].pid && Next(s, a).attempts[k].tries == s.attempts[k].tries
    ensures s.attempts[k].phase == Crashed ==> Next(s, a).attempts[k].phase == Crashed
    ensures Next(s, a).attempts[k].phase == Ended(Retried) ==>
      s.attempts[k].phase == Ended(Retried) || (a.Retry? && a.i == k)
  {
    if !a.Begin? && !a.Crash? && a.i != k { Bystander(s, a, k); }
  }

  lemma NewCounts(s: State, a: Action, k: Id)
    requires Enabled(s, a) && k in Next(s, a).attempts && k !in s.attempts
    ensures Next(s, a).attempts[k].phase == Begun
    ensures (a.Begin? && Next(s, a).attempts[k].tries == 1) ||
      (a.Retry? && k == a.next && Next(s, a).attempts[k].tries == s.attempts[a.i].tries + 1 <= WITHDRAWN_RETRIES)
  {}

  lemma FollowedKept(s: State, a: Action, k: Id)
    requires Enabled(s, a) && k in Next(s, a).attempts && (k in s.attempts ==> Followed(s, k))
    requires forall j | j in s.attempts :: !EndsRetried(s.attempts[j].phase)
    ensures Followed(Next(s, a), k) && !EndsRetried(Next(s, a).attempts[k].phase)
  {
    var t := Next(s, a);
    if k in s.attempts { CountsStay(s, a, k); } else { NewCounts(s, a, k); }
    if t.attempts[k].phase == Ended(Retried) {
      if a.Retry? && a.i == k {
        RetryFollows(s, a);
      } else {
        var n :| n in s.attempts && s.attempts[n].pid == s.attempts[k].pid &&
                 s.attempts[n].tries == s.attempts[k].tries + 1;
        CountsStay(s, a, n);
      }
    }
  }

  lemma RetryFollows(s: State, a: Action)
    requires Enabled(s, a) && a.Retry?
    ensures a.next in Next(s, a).attempts && Next(s, a).attempts[a.next].pid == s.attempts[a.i].pid
    ensures Next(s, a).attempts[a.next].tries == s.attempts[a.i].tries + 1
  {}

  /** A withdrawn attempt is retried or given up, and none is the sixth of its start. */
  lemma {:induction false} RetriesCounted(s0: State, actions: seq<Action>)
    requires Init(s0) && Exec(s0, actions).At?
    ensures Counted(s0, Exec(s0, actions).state)
    decreases |actions|
  {
    if actions != [] {
      var n := |actions| - 1;
      RetriesCounted(s0, actions[..n]);
      var s, a := Exec(s0, actions[..n]).state, actions[n];
      var t := Next(s, a);
      forall k | k in s0.attempts ensures k in t.attempts && t.attempts[k].phase == Crashed { CountsStay(s, a, k); }
      forall k | k in t.attempts && k !in s0.attempts ensures 1 <= t.attempts[k].tries <= WITHDRAWN_RETRIES {
        if k in s.attempts { CountsStay(s, a, k); } else { CountedNew(s0, s, a, k); }
      }
      forall k | k in t.attempts ensures Followed(t, k) && !EndsRetried(t.attempts[k].phase) {
        FollowedKept(s, a, k);
      }
    }
  }

  lemma CountedNew(s0: State, s: State, a: Action, k: Id)
    requires Counted(s0, s) && Enabled(s, a) && k in Next(s, a).attempts && k !in s.attempts
    ensures 1 <= Next(s, a).attempts[k].tries <= WITHDRAWN_RETRIES
  {
    NewCounts(s, a, k);
  }

  /** An attempt that withdrew can be retried exactly while it is not the fifth. */
  lemma RetriedExactly(s: State, i: Id, next: Id)
    requires i in s.attempts && s.attempts[i].phase.Ended? && next !in s.attempts
    ensures Enabled(s, Retry(i, next)) <==> s.attempts[i].phase == Ended(Withdrawn) && s.attempts[i].tries < 5
  {}
}
