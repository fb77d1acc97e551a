/** The request spool between a check's launcher and the daemon (packages/agents/src/check-spool.ts).

The launcher leaves a request; a pass of the daemon claims it by renaming it; the daemon answers in
files of its own, and the launcher polls them.  Here every file operation of either side is one
action, so any of them may fall between two reads of the other side, and the clock is a third
party.  The daemon's half is `CheckReply`; the class's methods are proved to take exactly the
steps of the transition system.
 */
module CheckSpool {
  import opened Basics
  import opened CheckLimits

  type Pass = nat   // one call of `claimCheckRequest`

  datatype Exit = Exit(code: int)

  // ---------------------------------------------------------------- the daemon's reply

  /** The daemon's reply directory for one request; it is intact until its removal begins. */
  datatype Files = Files(present: bool, intact: bool, started: bool, out: Option<seq<byte>>, exit: Option<Exit>)

  const FRESH := Files(true, true, false, None, None)

  /** What `CheckReply` remembers between its calls. */
  datatype Handle = Handle(out: bool, failed: bool)

  datatype Reply = Reply(files: Files, handle: Handle)

  /** Whether a write would create the output file. */
  predicate OpensOutput(r: Reply) {
    !r.handle.failed && !r.handle.out && r.files.present && r.files.out.None?
  }

  /** What a write appends: `opens` says whether a new file can be made, and `wrote` how many bytes
      `writeSync` says it wrote, or that it threw. */
  function Appended(r: Reply, text: seq<byte>, opens: bool, wrote: Option<nat>): seq<byte>
    requires wrote.Some? ==> wrote.value <= |text|
  {
    if wrote.None? || r.handle.failed || !(r.handle.out || (opens && OpensOutput(r))) then [] else text[..wrote.value]
  }

  /** `CheckReply.write`: a file that cannot be made, or a write that throws, ends the relay; a short write
      does not. */
  function WriteStep(r: Reply, text: seq<byte>, opens: bool, wrote: Option<nat>): Reply
    requires wrote.Some? ==> wrote.value <= |text|
  {
    if r.handle.failed then r
    else if !r.handle.out && !(opens && OpensOutput(r)) then Reply(r.files, Handle(false, true))
    else
      var before := if r.handle.out then r.files.out else Some([]);
      var after := if before.Some? then Some(before.value + Appended(r, text, opens, wrote)) else None;
      Reply(r.files.(out := after), Handle(true, wrote.None?))
  }

  function StartStep(r: Reply, opens: bool): Reply {
    if opens && r.files.present then r.(files := r.files.(started := true)) else r
  }

  function FinishStep(r: Reply, code: int, opens: bool): Reply {
    var closed := Reply(r.files, Handle(false, r.handle.failed));
    if opens && r.files.present then closed.(files := closed.files.(exit := Some(Exit(code)))) else closed
  }

  class ReplyDirectory {
    var files: Files

    constructor ()
      ensures files == FRESH
    {
      files := FRESH;
    }
  }

  class CheckReply {
    const directory: ReplyDirectory
    var out: bool      // whether the output file is open
    var failed: bool

    constructor (directory: ReplyDirectory)
      ensures this.directory == directory && !out && !failed
    {
      this.directory := directory;
      out := false;
      failed := false;
    }

    function State(): Reply
      reads this, directory
    {
      Reply(directory.files, Handle(out, failed))
    }

    /** Creating a file that must not exist yet. */
    method CreateOut(opens: bool) returns (ok: bool)
      modifies directory
      ensures ok == (opens && old(directory.files.present) && old(directory.files.out.None?))
      ensures directory.files == if ok then old(directory.files).(out := Some([])) else old(directory.files)
    {
      ok := opens && directory.files.present && directory.files.out.None?;
      if ok { directory.files := directory.files.(out := Some([])); }
    }

    method Write(text: seq<byte>, opens: bool, wrote: Option<nat>)
      requires wrote.Some? ==> wrote.value <= |text|
      modifies this, directory
      ensures State() == WriteStep(old(State()), text, opens, wrote)
      ensures wrote.Some? && !old(failed) && old(out) && old(directory.files.out.Some?) ==>
        directory.files.out == Some(old(directory.files).out.value + text[..wrote.value]) && out && !failed
      ensures wrote.Some? && !old(failed) && !old(out) && opens && old(directory.files.present) &&
              old(directory.files.out.None?) ==>
        directory.files.out == Some(text[..wrote.value]) && out && !failed
      ensures old(failed) || wrote.None? ==> failed
    {
      if failed { return; }
      if !out {
        out := CreateOut(opens);
        if !out {
          failed := true;
          return;
        }
      }
      if wrote.None? {
        failed := true;
        assert forall b: seq<byte> :: b + [] == b;
      } else if directory.files.out.Some? {
        assert [] + text[..wrote.value] == text[..wrote.value];
        directory.files := directory.files.(out := Some(directory.files.out.value + text[..wrote.value]));
      }
    }

    method Start(opens: bool)
      modifies directory
      ensures State() == StartStep(old(State()), opens)
      ensures opens && directory.files.present ==> directory.files.started
    {
      if opens && directory.files.present && !directory.files.started {
        directory.files := directory.files.(started := true);
      }
    }

    method Finish(code: int, opens: bool)
      modifies this, directory
      ensures State() == FinishStep(old(State()), code, opens)
      ensures !out && (opens && directory.files.present ==> directory.files.exit == Some(Exit(code)))
    {
      out := false;
      if opens && directory.files.present {
        directory.files := directory.files.(exit := Some(Exit(code)));
      }
    }
  }

  // ---------------------------------------------------------------- the launcher

  const CANCEL_MS := 10_000

  datatype Config = Config(limitMs: nat, claimMs: nat, queuedMs: nat,
                           gap: nat)  // the longest one turn of the launcher's loop takes, with its sleep

  datatype Ending =
    | Reported(code: int)   // the daemon's exit code
    | NotPickedUp
    | NoLongerHeld
    | QueuedTooLong
    | Interrupted
    | PastLimit
    | Threw                 // a file vanished between two reads of it

  /** Where the loop is, one file read or clock read at a time. */
  datatype Pc =
    | OutExists(last: bool) | OutStat(last: bool) | OutRead(last: bool, size: nat)
    | ExitExists | ExitRead
    | StartedExists
    | RequestExists | ClaimTime | ClaimedExists
    | QueuedTime | CancelTime | LimitTime
    | Asleep
    | Ended(ending: Ending)

  datatype Launcher = Launcher(pc: Pc, offset: nat, relayed: seq<byte>, waiting: bool,
                               started: Option<nat>, cancelledAt: Option<nat>,
                               turn: nat,   // when this turn of the loop began
                               last: nat)   // when the last one that ran to its end did

  datatype State = State(now: nat, requested: nat,
                         spool: bool, spoolIntact: bool,  // there, and its removal not begun
                         request: bool, claimed: bool, cancel: bool,
                         reply: Reply,
                         answer: Option<int>,         // the exit code, once the daemon has finished
                         claimants: set<Pass>,
                         written: seq<byte>,          // all that was ever appended to the output file
                         daemonStarted: Option<nat>,  // when the daemon marked the check started
                         l: Launcher,
                         intactThen: bool,            // whether the replies were intact at its last step
                         lost: bool,                  // whether output went that it had not relayed
                         exitAt: Option<nat>,         // when the exit file appeared
                         claimedAt: Option<nat>,
                         signalled: Option<nat>)      // when the launcher was first interrupted

  /** A recursive removal takes one file after another, in any order, and then the directory. */
  datatype SpoolFile = RequestFile | ClaimedFile | CancelFile
  datatype ReplyFile = StartedFile | OutFile | ExitFile

  datatype Action =
    | Claim(pass: Pass)
    | Start(opens: bool)
    | Write(text: seq<byte>, opens: bool, wrote: Option<nat>)
    | Finish(code: int, opens: bool)
    | SpoolLeaves
    | UnlinkSpool(spoolFile: SpoolFile)
    | SpoolGone
    | RepliesLeave
    | UnlinkReply(replyFile: ReplyFile)
    | RepliesGone
    | Signal
    | Step
    | Tick(to: nat)

  predicate Running(s: State) { !s.l.pc.Ended? }

  /** The daemon answers a claimed request, once, and opens no output after it has finished. */
  predicate Enabled(c: Config, s: State, a: Action) {
    match a
    case Claim(_) => true
    case Start(_) => s.claimants != {} && s.answer.None?
    case Write(text, _, wrote) =>
      && s.claimants != {} && (wrote.Some? ==> wrote.value <= |text|)
      && (s.answer.Some? ==> !OpensOutput(s.reply))
    case Finish(_, _) => s.claimants != {} && s.answer.None?
    case SpoolLeaves => true
    case UnlinkSpool(_) => !s.spoolIntact
    case SpoolGone => !s.spoolIntact && !s.request && !s.claimed && !s.cancel
    case RepliesLeave => true
    case UnlinkReply(_) => !s.reply.files.intact
    case RepliesGone =>
      var f := s.reply.files;
      !f.intact && !f.started && f.out.None? && f.exit.None?
    case Signal => s.l.pc.Asleep?
    case Step => Running(s)
    case Tick(to) => s.now <= to && (Running(s) ==> to <= s.l.turn + c.gap)
  }

  /** What the launcher can see: the clock and the files. */
  datatype View = View(now: nat, requested: nat, request: bool, claimed: bool, files: Files)

  function Sees(s: State): View {
    View(s.now, s.requested, s.request, s.claimed, s.reply.files)
  }

  function Cancelled(l: Launcher, now: nat): Launcher {
    if l.cancelledAt.Some? then l else l.(cancelledAt := Some(now))
  }

  /** One read of the launcher, or one look at the clock. */
  function LauncherStep(c: Config, v: View, l: Launcher): Launcher
    requires !l.pc.Ended?
  {
    match l.pc
    case OutExists(last) => l.(pc := if v.files.out.Some? then OutStat(last) else AfterRelay(last))
    case OutStat(last) => l.(pc := Measured(v.files.out, l.offset, last))
    case OutRead(last, size) => ReadOut(v.files.out, l, last, size)
    case ExitExists => l.(pc := if v.files.exit.Some? then OutExists(true) else StartedExists)
    case ExitRead =>
      l.(pc := if v.files.exit.Some? then Ended(Reported(v.files.exit.value.code)) else Ended(Threw))
    case StartedExists =>
      l.(pc := RequestExists, started := if l.started.None? && v.files.started then Some(v.now) else l.started)
    case RequestExists => l.(pc := ClaimTime, waiting := v.request)
    case ClaimTime =>
      l.(pc := if l.waiting && v.now - v.requested > c.claimMs then Ended(NotPickedUp)
               else if l.started.None? && !l.waiting then ClaimedExists
               else QueuedTime)
    case ClaimedExists => l.(pc := if v.claimed then QueuedTime else Ended(NoLongerHeld))
    case QueuedTime =>
      if l.started.None? && v.now - v.requested > c.queuedMs
      then Cancelled(l, v.now).(pc := Ended(QueuedTooLong)) else l.(pc := CancelTime)
    case CancelTime =>
      l.(pc := if l.cancelledAt.Some? && v.now - l.cancelledAt.value > CANCEL_MS then Ended(Interrupted) else LimitTime)
    case LimitTime =>
      if l.started.Some? && v.now - l.started.value > c.limitMs
      then Cancelled(l, v.now).(pc := Ended(PastLimit)) else l.(pc := Asleep, last := l.turn)
    case Asleep => l.(pc := OutExists(false), turn := v.now)
  }

  function Measured(out: Option<seq<byte>>, offset: nat, last: bool): Pc {
    if out.None? then Ended(Threw)
    else if |out.value| <= offset then AfterRelay(last)
    else OutRead(last, |out.value|)
  }

  /** Relays the bytes from the offset to the size that was measured. */
  function ReadOut(out: Option<seq<byte>>, l: Launcher, last: bool, size: nat): Launcher {
    if out.None? || |out.value| < size || size < l.offset then l.(pc := Ended(Threw))
    else l.(pc := AfterRelay(last), offset := size, relayed := l.relayed + out.value[l.offset..size])
  }

  function AfterRelay(last: bool): Pc {
    if last then ExitRead else ExitExists
  }

  function Apply(c: Config, s: State, a: Action): State
    requires Enabled(c, s, a)
  {
    match a
    // A rename: it succeeds for the pass that finds the request, and no other finds it again.
    case Claim(pass) =>
      if s.spool && s.request
      then s.(request := false, claimed := true, claimants := s.claimants + {pass},
              claimedAt := First(s.claimedAt, s.now))
      else s
    case Start(opens) =>
      var reply := StartStep(s.reply, opens);
      s.(reply := reply,
         daemonStarted := if reply.files.started && s.daemonStarted.None? then Some(s.now) else s.daemonStarted)
    case Write(text, opens, wrote) =>
      var reply, more := WriteStep(s.reply, text, opens, wrote), Appended(s.reply, text, opens, wrote);
      s.(reply := reply, written := s.written + more, lost := s.lost || (reply.files.out.None? && more != []))
    case Finish(code, opens) =>
      var reply := FinishStep(s.reply, code, opens);
      s.(reply := reply, answer := Some(code),
         exitAt := if reply.files.exit.Some? then First(s.exitAt, s.now) else s.exitAt)
    case SpoolLeaves => s.(spoolIntact := false)
    case UnlinkSpool(file) =>
      s.(request := s.request && file != RequestFile, claimed := s.claimed && file != ClaimedFile,
         cancel := s.cancel && file != CancelFile)
    case SpoolGone => s.(spool := false)
    case RepliesLeave => s.(reply := s.reply.(files := s.reply.files.(intact := false)))
    case UnlinkReply(file) =>
      s.(reply := s.reply.(files := Unlinked(s.reply.files, file)),
         lost := s.lost || (file == OutFile && Unrelayed(s.reply.files, s.l)))
    case RepliesGone => s.(reply := s.reply.(files := s.reply.files.(present := false)))
    case Signal => Launched(s, Cancelled(s.l, s.now)).(signalled := First(s.signalled, s.now))
    case Step => Launched(s, LauncherStep(c, Sees(s), s.l)).(intactThen := s.reply.files.intact)
    case Tick(to) => s.(now := to)
  }

  function First(at: Option<nat>, now: nat): Option<nat> {
    if at.None? then Some(now) else at
  }

  /** The output file holds more than the launcher has relayed. */
  predicate Unrelayed(f: Files, l: Launcher) {
    f.out.Some? && l.offset < |f.out.value|
  }

  function Unlinked(f: Files, file: ReplyFile): Files {
    match file
    case StartedFile => f.(started := false)
    case OutFile => f.(out := None)
    case ExitFile => f.(exit := None)
  }

  /** The launcher's new state; a cancellation leaves its file where there still is a spool. */
  function Launched(s: State, l: Launcher): State {
    s.(l := l, cancel := s.cancel || (s.spool && l.cancelledAt != s.l.cancelledAt))
  }

  /** The launcher has just renamed its request into the spool. */
  predicate Init(s: State) {
    && s.now == s.requested && s.spool && s.spoolIntact && s.request && !s.claimed && !s.cancel
    && s.reply == Reply(FRESH, Handle(false, false)) && s.answer.None? && s.intactThen && !s.lost
    && s.exitAt.None? && s.claimedAt.None? && s.signalled.None?
    && s.claimants == {} && s.written == [] && s.daemonStarted.None?
    && s.l == Launcher(OutExists(false), 0, [], false, None, None, s.now, s.now)
  }

  datatype Outcome = Stuck | Reached(state: State)

  function Exec(c: Config, s: State, actions: seq<Action>): Outcome
    decreases |actions|
  {
    if actions == [] then Reached(s)
    else
      match Exec(c, s, actions[..|actions| - 1])
      case Stuck => Stuck
      case Reached(mid) =>
        var a := actions[|actions| - 1];
        if Enabled(c, mid, a) then Reached(Apply(c, mid, a)) else Stuck
  }

  // ---------------------------------------------------------------- the invariant

  /** The launcher has found the exit file and relays what is left. */
  predicate SawExit(pc: Pc) {
    pc.ExitRead? || ((pc.OutExists? || pc.OutStat? || pc.OutRead?) && pc.last)
  }

  /** The reply directory: the output file holds all that was written, and an exit file comes last. */
  predicate FilesSound(s: State) {
    FilesFor(s.reply.files, s.reply.handle, s.answer, s.written)
  }

  predicate FilesFor(f: Files, handle: Handle, answer: Option<int>, written: seq<byte>) {
    && (f.out.Some? ==> f.out.value == written)
    && (f.out.None? && f.intact ==> written == [])
    && (handle.out && f.intact ==> f.out.Some?)
    && (f.intact ==> f.present)
    && (!f.present ==> f == Files(false, false, false, None, None))
    && (f.exit.Some? ==> answer == Some(f.exit.value.code))
    && (answer.Some? ==> !handle.out)
    && (answer.None? && !handle.out && !handle.failed ==> written == [])
  }

  /** What has been relayed is what the output file began with; after an exit file, all of it, unless the
      removal of the directory came before. */
  predicate Relayed(l: Launcher, f: Files, intactThen: bool, answer: Option<int>, written: seq<byte>) {
    && l.offset <= |written| && l.relayed == written[..l.offset]
    && (SawExit(l.pc) ==> answer.Some?)
    && (l.pc.OutRead? ==> l.offset < l.pc.size <= |written|)
    && (l.pc.OutRead? && l.pc.last && f.intact ==> l.pc.size == |written|)
    && (l.pc.ExitRead? && f.intact ==> l.offset == |written|)
    && (l.pc.Ended? && l.pc.ending.Reported? ==>
          answer == Some(l.pc.ending.code) && (intactThen ==> l.offset == |written|))
  }

  predicate RelaySound(s: State) {
    Relayed(s.l, s.reply.files, s.intactThen, s.answer, s.written) && Found(s.l.pc, s.reply.files)
  }

  /** A file the launcher has seen is there, while the directory is intact. */
  predicate Found(pc: Pc, f: Files) {
    f.intact ==> (pc.OutStat? || pc.OutRead? ==> f.out.Some?) && (SawExit(pc) ==> f.exit.Some?)
  }

  lemma FoundStep(c: Config, v: View, l: Launcher)
    requires !l.pc.Ended? && Found(l.pc, v.files)
    ensures Found(LauncherStep(c, v, l).pc, v.files)
  {}

  lemma RelayKeptRead(l: Launcher, out: seq<byte>, last: bool, size: nat)
    requires l.offset < size <= |out| && l.relayed == out[..l.offset]
    ensures ReadOut(Some(out), l, last, size).relayed == out[..size]
  {
    assert out[..size] == out[..l.offset] + out[l.offset..size];
  }

  lemma RelayKeptStep(c: Config, v: View, l: Launcher, then': bool, answer: Option<int>, written: seq<byte>)
    requires !l.pc.Ended? && Relayed(l, v.files, then', answer, written)
    requires v.files.out.Some? ==> v.files.out.value == written
    requires v.files.out.None? && v.files.intact ==> written == []
    requires v.files.exit.Some? ==> answer == Some(v.files.exit.value.code)
    ensures Relayed(LauncherStep(c, v, l), v.files, v.files.intact, answer, written)
  {
    if l.pc.OutRead? {
      if v.files.out.Some? { RelayKeptRead(l, written, l.pc.last, l.pc.size); }
    } else if l.pc.OutStat? || l.pc.OutExists? || l.pc.ExitRead? {
    } else {
      OthersRelayNothing(c, v, l);
    }
  }

  /** The other steps leave what is relayed, and go nowhere near the exit code but by the exit file. */
  lemma OthersRelayNothing(c: Config, v: View, l: Launcher)
    requires !l.pc.Ended? && !l.pc.OutRead? && !l.pc.OutStat? && !l.pc.OutExists? && !l.pc.ExitRead?
    ensures var m := LauncherStep(c, v, l);
      && m.offset == l.offset && m.relayed == l.relayed && !m.pc.OutRead? && !m.pc.ExitRead?
      && (SawExit(m.pc) ==> v.files.exit.Some?) && (m.pc.Ended? ==> !m.pc.ending.Reported?)
  {}

  lemma WriteFor(r: Reply, text: seq<byte>, opens: bool, wrote: Option<nat>, answer: Option<int>, written: seq<byte>)
    requires wrote.Some? ==> wrote.value <= |text|
    requires FilesFor(r.files, r.handle, answer, written) && (answer.Some? ==> !OpensOutput(r))
    ensures var t, more := WriteStep(r, text, opens, wrote), Appended(r, text, opens, wrote);
      && FilesFor(t.files, t.handle, answer, written + more) && (answer.Some? ==> more == [])
      && t.files.intact == r.files.intact && t.files.exit == r.files.exit
      && (r.files.out.Some? ==> t.files.out.Some?)
  {}

  lemma RelayedMore(l: Launcher, f: Files, g: Files, then': bool, answer: Option<int>, written: seq<byte>,
                    more: seq<byte>)
    requires Relayed(l, f, then', answer, written) && f.intact == g.intact && (answer.Some? ==> more == [])
    ensures Relayed(l, g, then', answer, written + more)
  {
    assert (written + more)[..l.offset] == written[..l.offset];
    assert more == [] ==> written + more == written;
  }

  lemma RelayKeptWrite(c: Config, s: State, a: Action)
    requires FilesSound(s) && RelaySound(s) && Enabled(c, s, a) && a.Write?
    ensures FilesSound(Apply(c, s, a)) && RelaySound(Apply(c, s, a))
  {
    var reply, more := WriteStep(s.reply, a.text, a.opens, a.wrote), Appended(s.reply, a.text, a.opens, a.wrote);
    WriteFor(s.reply, a.text, a.opens, a.wrote, s.answer, s.written);
    RelayedMore(s.l, s.reply.files, reply.files, s.intactThen, s.answer, s.written, more);
  }

  lemma WithLauncher(s: State, l: Launcher, then': bool)
    requires FilesSound(s) && Relayed(l, s.reply.files, then', s.answer, s.written) && Found(l.pc, s.reply.files)
    ensures FilesSound(Launched(s, l).(intactThen := then')) && RelaySound(Launched(s, l).(intactThen := then'))
  {}

  lemma RelayKeptLauncher(c: Config, s: State)
    requires FilesSound(s) && RelaySound(s) && Running(s)
    ensures FilesSound(Apply(c, s, Step)) && RelaySound(Apply(c, s, Step))
  {
    RelayKeptStep(c, Sees(s), s.l, s.intactThen, s.answer, s.written);
    FoundStep(c, Sees(s), s.l);
    WithLauncher(s, LauncherStep(c, Sees(s), s.l), s.reply.files.intact);
  }

  lemma FilesLeave(f: Files, g: Files, handle: Handle, answer: Option<int>, written: seq<byte>)
    requires FilesFor(f, handle, answer, written) && !g.intact
    requires (g.out == f.out || g.out.None?) && (g.exit == f.exit || g.exit.None?)
    requires g.present == f.present || (!g.present && !g.started && g.out.None? && g.exit.None?)
    requires !f.present ==> g == f
    ensures FilesFor(g, handle, answer, written)
  {}

  lemma RelayKeptRemoval(c: Config, s: State, a: Action)
    requires FilesSound(s) && RelaySound(s) && Enabled(c, s, a)
    requires a.RepliesLeave? || a.UnlinkReply? || a.RepliesGone?
    ensures FilesSound(Apply(c, s, a)) && RelaySound(Apply(c, s, a))
  {
    FilesLeave(s.reply.files, Apply(c, s, a).reply.files, s.reply.handle, s.answer, s.written);
  }

  /** What the relay depends on. */
  predicate SameRelay(s: State, t: State) {
    && s.reply == t.reply && s.answer == t.answer && s.written == t.written && s.intactThen == t.intactThen
    && s.l.pc == t.l.pc && s.l.offset == t.l.offset && s.l.relayed == t.l.relayed && s.lost == t.lost
  }

  lemma SameRelayKeeps(s: State, t: State)
    requires FilesSound(s) && RelaySound(s) && SameRelay(s, t)
    ensures FilesSound(t) && RelaySound(t)
  {}

  predicate LeavesRelay(a: Action) {
    a.Claim? || a.SpoolLeaves? || a.UnlinkSpool? || a.SpoolGone? || a.Signal? || a.Tick?
  }

  lemma RelayLeft(c: Config, s: State, a: Action)
    requires Enabled(c, s, a) && LeavesRelay(a)
    ensures SameRelay(s, Apply(c, s, a))
  {}

  lemma RelayKeptMark(c: Config, s: State, a: Action)
    requires FilesSound(s) && RelaySound(s) && Enabled(c, s, a) && (a.Start? || a.Finish?)
    ensures FilesSound(Apply(c, s, a)) && RelaySound(Apply(c, s, a))
  {}

  lemma RelayKept(c: Config, s: State, a: Action)
    requires FilesSound(s) && RelaySound(s) && Enabled(c, s, a)
    ensures FilesSound(Apply(c, s, a)) && RelaySound(Apply(c, s, a))
  {
    if a.Step? { RelayKeptLauncher(c, s); }
    else if a.Write? { RelayKeptWrite(c, s, a); }
    else if a.RepliesLeave? || a.UnlinkReply? || a.RepliesGone? { RelayKeptRemoval(c, s, a); }
    else if a.Start? || a.Finish? { RelayKeptMark(c, s, a); }
    else {
      RelayLeft(c, s, a);
      SameRelayKeeps(s, Apply(c, s, a));
    }
  }

  /** Output is lost when it goes before it was relayed, or is written to a file that has gone; what is not
      lost is relayed by the time the exit code is read. */
  predicate LostSound(s: State) {
    LostFor(s.l, s.reply.files, s.written, s.lost)
  }

  predicate LostFor(l: Launcher, f: Files, written: seq<byte>, lost: bool) {
    && (lost ==> f.out.None? && !f.intact && l.offset < |written|)
    && (!lost && f.out.None? ==> l.offset == |written|)
    && (!lost && l.pc.OutRead? && l.pc.last ==> l.pc.size == |written|)
    && (!lost && (l.pc.ExitRead? || (l.pc.Ended? && l.pc.ending.Reported?)) ==> l.offset == |written|)
  }

  lemma LostKeptStep(c: Config, v: View, l: Launcher, then': bool, answer: Option<int>, written: seq<byte>, lost: bool)
    requires !l.pc.Ended? && Relayed(l, v.files, then', answer, written) && LostFor(l, v.files, written, lost)
    requires v.files.out.Some? ==> v.files.out.value == written
    ensures LostFor(LauncherStep(c, v, l), v.files, written, lost)
  {
    if !l.pc.OutRead? && !l.pc.OutStat? && !l.pc.OutExists? && !l.pc.ExitRead? { OthersRelayNothing(c, v, l); }
  }

  lemma LostKeptLauncher(c: Config, s: State)
    requires FilesSound(s) && RelaySound(s) && LostSound(s) && Running(s)
    ensures LostSound(Apply(c, s, Step))
  {
    LostKeptStep(c, Sees(s), s.l, s.intactThen, s.answer, s.written, s.lost);
  }

  lemma LostKeptWrite(c: Config, s: State, a: Action)
    requires FilesSound(s) && RelaySound(s) && LostSound(s) && Enabled(c, s, a) && a.Write?
    ensures LostSound(Apply(c, s, a))
  {}

  lemma LostKeptRemoval(c: Config, s: State, a: Action)
    requires FilesSound(s) && RelaySound(s) && LostSound(s) && Enabled(c, s, a)
    requires a.RepliesLeave? || a.UnlinkReply? || a.RepliesGone?
    ensures LostSound(Apply(c, s, a))
  {}

  lemma LostKeptMark(c: Config, s: State, a: Action)
    requires LostSound(s) && Enabled(c, s, a) && (a.Start? || a.Finish?)
    ensures LostSound(Apply(c, s, a))
  {}

  lemma LostKept(c: Config, s: State, a: Action)
    requires FilesSound(s) && RelaySound(s) && LostSound(s) && Enabled(c, s, a)
    ensures LostSound(Apply(c, s, a))
  {
    if a.Step? { LostKeptLauncher(c, s); }
    else if a.Write? { LostKeptWrite(c, s, a); }
    else if a.RepliesLeave? || a.UnlinkReply? || a.RepliesGone? { LostKeptRemoval(c, s, a); }
    else if a.Start? || a.Finish? { LostKeptMark(c, s, a); }
    else { RelayLeft(c, s, a); }
  }

  /** The request is claimed once, and while the spool stands one of its two names is there. */
  predicate ClaimSound(s: State) {
    && (s.request ==> s.claimants == {})
    && (forall p, q | p in s.claimants && q in s.claimants :: p == q)
    && (s.spoolIntact ==> s.spool && (s.request || s.claimed))
    && (s.claimed ==> s.claimants != {})
    && (s.request || s.claimed ==> s.spool)
    && (s.daemonStarted.Some? ==> s.claimants != {})
    && (s.reply.files.started ==> s.daemonStarted.Some?)
    && (s.daemonStarted.Some? ==> s.daemonStarted.value <= s.now)
    && ((s.l.pc.ClaimTime? || s.l.pc.ClaimedExists?) && !s.l.waiting && s.spoolIntact ==> s.claimed)
    && (s.l.pc.ClaimedExists? ==> !s.l.waiting)
    && (s.l.pc == Ended(NoLongerHeld) ==> !s.spoolIntact)
  }

  lemma ClaimKeptStep(c: Config, s: State)
    requires ClaimSound(s) && Running(s)
    ensures ClaimSound(Apply(c, s, Step))
  {}

  lemma ClaimKeptSpool(c: Config, s: State, a: Action)
    requires ClaimSound(s) && Enabled(c, s, a)
    requires a.Claim? || a.SpoolLeaves? || a.UnlinkSpool? || a.SpoolGone?
    ensures ClaimSound(Apply(c, s, a))
  {}

  predicate ConcernsReply(a: Action) {
    a.Start? || a.Write? || a.Finish? || a.RepliesLeave? || a.UnlinkReply? || a.RepliesGone?
  }

  lemma ClaimKeptReply(c: Config, s: State, a: Action)
    requires ClaimSound(s) && Enabled(c, s, a)
    requires ConcernsReply(a)
    ensures ClaimSound(Apply(c, s, a))
  {}

  lemma ClaimKept(c: Config, s: State, a: Action)
    requires ClaimSound(s) && Enabled(c, s, a)
    ensures ClaimSound(Apply(c, s, a))
  {
    match a
    case Step => ClaimKeptStep(c, s);
    case Claim(_) | SpoolLeaves | UnlinkSpool(_) | SpoolGone => ClaimKeptSpool(c, s, a);
    case Signal | Tick(_) =>
    case _ => ClaimKeptReply(c, s, a);
  }

  /** The turn of the loop has passed this point. */
  predicate Past(pc: Pc, point: Pc) {
    match point
    case StartedExists =>
      pc.RequestExists? || pc.ClaimTime? || pc.ClaimedExists? || pc.QueuedTime? || pc.CancelTime? || pc.LimitTime?
    case QueuedTime => pc.CancelTime? || pc.LimitTime?
    case CancelTime => pc.LimitTime?
    case _ => false
  }

  /** The turns of the loop follow each other within the gap. */
  predicate Turning(c: Config, l: Launcher, now: nat, requested: nat) {
    && requested <= l.last <= l.turn <= now
    && l.turn <= l.last + c.gap
    && (l.pc.Asleep? ==> l.last == l.turn)
    && (!l.pc.Ended? ==> now <= l.turn + c.gap)
  }

  /** No turn that found the check waiting ran to its end past the limit of the queue. */
  predicate QueuedWithin(c: Config, l: Launcher, requested: nat) {
    && (l.started.None? ==> l.last <= requested + c.queuedMs)
    && (l.started.None? && Past(l.pc, QueuedTime) ==> l.turn <= requested + c.queuedMs)
    && (l.started.Some? ==> l.started.value <= requested + c.queuedMs + 2 * c.gap)
  }

  predicate StartedWithin(c: Config, l: Launcher) {
    l.started.Some? ==> l.last <= l.started.value + c.limitMs
  }

  predicate CancelledWithin(l: Launcher) {
    && (l.cancelledAt.Some? ==> l.last <= l.cancelledAt.value + CANCEL_MS)
    && (l.cancelledAt.Some? && Past(l.pc, CancelTime) ==> l.turn <= l.cancelledAt.value + CANCEL_MS)
  }

  predicate WithinLimits(c: Config, l: Launcher, requested: nat) {
    QueuedWithin(c, l, requested) && StartedWithin(c, l) && CancelledWithin(l)
  }

  lemma TurningStep(c: Config, v: View, l: Launcher)
    requires !l.pc.Ended? && Turning(c, l, v.now, v.requested)
    ensures Turning(c, LauncherStep(c, v, l), v.now, v.requested)
  {}

  lemma QueuedWithinStep(c: Config, v: View, l: Launcher)
    requires !l.pc.Ended? && Turning(c, l, v.now, v.requested) && QueuedWithin(c, l, v.requested)
    ensures QueuedWithin(c, LauncherStep(c, v, l), v.requested)
  {}

  lemma StartedWithinStep(c: Config, v: View, l: Launcher)
    requires !l.pc.Ended? && Turning(c, l, v.now, v.requested) && StartedWithin(c, l)
    ensures StartedWithin(c, LauncherStep(c, v, l))
  {}

  lemma CancelledWithinStep(c: Config, v: View, l: Launcher)
    requires !l.pc.Ended? && Turning(c, l, v.now, v.requested) && CancelledWithin(l)
    ensures CancelledWithin(LauncherStep(c, v, l))
  {}

  predicate OnTime(c: Config, l: Launcher, now: nat, requested: nat) {
    Turning(c, l, now, requested) && WithinLimits(c, l, requested)
  }

  lemma OnTimeStep(c: Config, v: View, l: Launcher)
    requires !l.pc.Ended? && OnTime(c, l, v.now, v.requested)
    ensures OnTime(c, LauncherStep(c, v, l), v.now, v.requested)
  {
    TurningStep(c, v, l);
    QueuedWithinStep(c, v, l);
    StartedWithinStep(c, v, l);
    CancelledWithinStep(c, v, l);
  }

  lemma OnTimeSignal(c: Config, l: Launcher, now: nat, requested: nat)
    requires l.pc.Asleep? && OnTime(c, l, now, requested)
    ensures OnTime(c, Cancelled(l, now), now, requested)
  {}

  /** Only the launcher's own steps and its signals change it, and only the clock's the time. */
  lemma LauncherAfter(c: Config, s: State, a: Action)
    requires Enabled(c, s, a)
    ensures Apply(c, s, a).l ==
      if a.Step? then LauncherStep(c, Sees(s), s.l) else if a.Signal? then Cancelled(s.l, s.now) else s.l
  {}

  lemma ClockAfter(c: Config, s: State, a: Action)
    requires Enabled(c, s, a)
    ensures Apply(c, s, a).requested == s.requested && Apply(c, s, a).now == if a.Tick? then a.to else s.now
  {
    match a
    case Claim(_) | Start(_) | Write(_, _, _) | Finish(_, _) =>
    case SpoolLeaves | UnlinkSpool(_) | SpoolGone | RepliesLeave | UnlinkReply(_) | RepliesGone =>
    case Signal | Step | Tick(_) =>
  }

  lemma OnTimeKept(c: Config, s: State, a: Action)
    requires OnTime(c, s.l, s.now, s.requested) && Enabled(c, s, a)
    ensures OnTime(c, Apply(c, s, a).l, Apply(c, s, a).now, Apply(c, s, a).requested)
  {
    LauncherAfter(c, s, a);
    ClockAfter(c, s, a);
    if a.Step? { OnTimeStep(c, Sees(s), s.l); }
    else if a.Signal? { OnTimeSignal(c, s.l, s.now, s.requested); }
  }

  /** What the launcher knows of the start: never before it happened, and missed by one turn at most. */
  predicate Knows(l: Launcher, f: Files, daemonStarted: Option<nat>) {
    && (l.started.Some? ==> daemonStarted.Some? && daemonStarted.value <= l.started.value)
    && (daemonStarted.Some? && f.intact ==> f.started)
    && (daemonStarted.Some? && l.started.None? && Past(l.pc, StartedExists) && f.intact ==>
          daemonStarted.value >= l.turn)
    && (daemonStarted.Some? && l.pc.ClaimTime? && l.waiting ==> daemonStarted.value >= l.turn)
  }

  lemma KnowsStep(c: Config, v: View, l: Launcher, daemonStarted: Option<nat>)
    requires !l.pc.Ended? && Knows(l, v.files, daemonStarted)
    requires v.files.started ==> daemonStarted.Some?
    requires daemonStarted.Some? ==> daemonStarted.value <= v.now && !v.request
    ensures Knows(LauncherStep(c, v, l), v.files, daemonStarted)
  {}

  lemma KnowsStart(s: State, opens: bool, reply: Reply, at: Option<nat>)
    requires ClaimSound(s) && Knows(s.l, s.reply.files, s.daemonStarted) && s.l.turn <= s.now
    requires s.claimants != {} && reply == StartStep(s.reply, opens)
    requires at == if reply.files.started && s.daemonStarted.None? then Some(s.now) else s.daemonStarted
    ensures Knows(s.l, reply.files, at)
  {}

  lemma KnowsSignal(l: Launcher, now: nat, f: Files, daemonStarted: Option<nat>)
    requires Knows(l, f, daemonStarted)
    ensures Knows(Cancelled(l, now), f, daemonStarted)
  {}

  lemma KnowsFiles(l: Launcher, f: Files, g: Files, daemonStarted: Option<nat>)
    requires Knows(l, f, daemonStarted)
    requires g.intact ==> f.intact && g.started == f.started
    ensures Knows(l, g, daemonStarted)
  {}

  lemma ReplyKept(c: Config, s: State, a: Action)
    requires Enabled(c, s, a) && !ConcernsReply(a)
    ensures Apply(c, s, a).reply == s.reply
  {
    match a
    case Claim(_) | SpoolLeaves | UnlinkSpool(_) | SpoolGone =>
    case Signal | Step | Tick(_) =>
  }

  /** All but `Start` leave the mark of the start, or have begun to remove it. */
  lemma StartAfter(c: Config, s: State, a: Action)
    requires Enabled(c, s, a) && ConcernsReply(a) && !a.Start?
    ensures var f, g := s.reply.files, Apply(c, s, a).reply.files;
      g.intact ==> f.intact && g.started == f.started
  {
    match a
    case Write(_, _, _) | Finish(_, _) =>
    case RepliesLeave | UnlinkReply(_) | RepliesGone =>
  }

  lemma StartKept(c: Config, s: State, a: Action)
    requires Enabled(c, s, a) && !a.Start?
    ensures Apply(c, s, a).daemonStarted == s.daemonStarted
  {
    match a
    case Claim(_) | Write(_, _, _) | Finish(_, _) =>
    case SpoolLeaves | UnlinkSpool(_) | SpoolGone | RepliesLeave | UnlinkReply(_) | RepliesGone =>
    case Signal | Step | Tick(_) =>
  }

  lemma KnowsKept(c: Config, s: State, a: Action)
    requires ClaimSound(s) && Knows(s.l, s.reply.files, s.daemonStarted) && Enabled(c, s, a)
    requires s.l.turn <= s.now
    ensures Knows(Apply(c, s, a).l, Apply(c, s, a).reply.files, Apply(c, s, a).daemonStarted)
  {
    LauncherAfter(c, s, a);
    if a.Start? { KnowsStart(s, a.opens, Apply(c, s, a).reply, Apply(c, s, a).daemonStarted); }
    else {
      StartKept(c, s, a);
      if ConcernsReply(a) {
        StartAfter(c, s, a);
        KnowsFiles(s.l, s.reply.files, Apply(c, s, a).reply.files, s.daemonStarted);
      } else {
        ReplyKept(c, s, a);
        if a.Step? { KnowsStep(c, Sees(s), s.l, s.daemonStarted); }
        else if a.Signal? { KnowsSignal(s.l, s.now, s.reply.files, s.daemonStarted); }
      }
    }
  }

  /** While the reply directory stands, none of the launcher's reads misses its file. */
  lemma ReadsSucceed(c: Config, s: State)
    requires FilesSound(s) && RelaySound(s) && Running(s) && s.reply.files.intact
    ensures LauncherStep(c, Sees(s), s.l).pc != Ended(Threw)
  {}

  // ---- the exit file is seen

  /** This turn of the loop has looked for the exit file and not found it. */
  predicate MissedExit(pc: Pc) {
    pc.StartedExists? || pc.RequestExists? || pc.ClaimTime? || pc.ClaimedExists? || pc.QueuedTime? || pc.CancelTime? ||
    pc.LimitTime? || pc.Asleep?
  }

  /** A turn that began after the exit file appeared finds it, and ends with what it says. */
  predicate ExitSeen(c: Config, l: Launcher, intact: bool, intactThen: bool, exitAt: Option<nat>) {
    exitAt.Some? ==>
      && (intact && !l.pc.Ended? ==> l.turn <= exitAt.value + c.gap && (MissedExit(l.pc) ==> l.turn <= exitAt.value))
      && (intactThen && l.pc.Ended? && l.turn > exitAt.value ==> l.pc.ending.Reported?)
  }

  predicate ExitSound(c: Config, s: State) {
    && (s.exitAt.Some? ==> s.exitAt.value <= s.now && (s.reply.files.intact ==> s.reply.files.exit.Some?))
    && (s.reply.files.exit.Some? ==> s.exitAt.Some?)
    && ExitSeen(c, s.l, s.reply.files.intact, s.intactThen, s.exitAt)
  }

  lemma ExitSeenStep(c: Config, v: View, l: Launcher, then': bool, exitAt: Option<nat>)
    requires !l.pc.Ended? && Turning(c, l, v.now, v.requested) && ExitSeen(c, l, v.files.intact, then', exitAt)
    requires exitAt.Some? ==> exitAt.value <= v.now && (v.files.intact ==> v.files.exit.Some?)
    requires v.files.intact ==> LauncherStep(c, v, l).pc != Ended(Threw)
    ensures ExitSeen(c, LauncherStep(c, v, l), v.files.intact, v.files.intact, exitAt)
  {}

  /** A step of the launcher changes its own state alone, and the spool's cancellation. */
  lemma Stepped(c: Config, s: State)
    requires Running(s)
    ensures var t := Apply(c, s, Step);
      && t.l == LauncherStep(c, Sees(s), s.l) && t.intactThen == s.reply.files.intact
      && t.now == s.now && t.reply == s.reply && t.exitAt == s.exitAt
  {}

  lemma ExitKeptStep(c: Config, s: State)
    requires FilesSound(s) && RelaySound(s) && ExitSound(c, s) && Turning(c, s.l, s.now, s.requested) && Running(s)
    ensures ExitSound(c, Apply(c, s, Step))
  {
    if s.reply.files.intact { ReadsSucceed(c, s); }
    ExitSeenStep(c, Sees(s), s.l, s.intactThen, s.exitAt);
    Stepped(c, s);
  }

  /** The exit file appears during a turn at the latest. */
  lemma ExitKeptFinish(c: Config, s: State, a: Action)
    requires ExitSound(c, s) && Turning(c, s.l, s.now, s.requested) && Enabled(c, s, a) && a.Finish?
    ensures ExitSound(c, Apply(c, s, a))
  {}

  lemma ExitKeptWrite(c: Config, s: State, a: Action)
    requires ExitSound(c, s) && Enabled(c, s, a) && (a.Start? || a.Write?)
    ensures ExitSound(c, Apply(c, s, a))
  {}

  lemma ExitKeptRemoval(c: Config, s: State, a: Action)
    requires ExitSound(c, s) && Enabled(c, s, a) && (a.RepliesLeave? || a.UnlinkReply? || a.RepliesGone?)
    ensures ExitSound(c, Apply(c, s, a))
  {}

  lemma ExitKeptReply(c: Config, s: State, a: Action)
    requires ExitSound(c, s) && Turning(c, s.l, s.now, s.requested) && Enabled(c, s, a) && ConcernsReply(a)
    ensures ExitSound(c, Apply(c, s, a))
  {
    if a.Finish? { ExitKeptFinish(c, s, a); }
    else if a.Start? || a.Write? { ExitKeptWrite(c, s, a); }
    else { ExitKeptRemoval(c, s, a); }
  }

  lemma ExitKeptOther(c: Config, s: State, a: Action)
    requires ExitSound(c, s) && Enabled(c, s, a) && LeavesRelay(a)
    ensures ExitSound(c, Apply(c, s, a))
  {}

  lemma ExitKept(c: Config, s: State, a: Action)
    requires FilesSound(s) && RelaySound(s) && ExitSound(c, s) && Turning(c, s.l, s.now, s.requested)
    requires Enabled(c, s, a)
    ensures ExitSound(c, Apply(c, s, a))
  {
    if a.Step? { ExitKeptStep(c, s); }
    else if ConcernsReply(a) { ExitKeptReply(c, s, a); }
    else { ExitKeptOther(c, s, a); }
  }

  // ---- the claim is seen

  /** This turn of the loop has found that the claim is not late. */
  predicate InClaimTime(pc: Pc) {
    pc.QueuedTime? || pc.CancelTime? || pc.LimitTime? || pc.Asleep?
  }

  /** A turn that began after the claim finds the request gone; without a claim no turn goes on past its time. */
  predicate ClaimSeen(c: Config, l: Launcher, spoolIntact: bool, claimedAt: Option<nat>, requested: nat) {
    && (l.waiting && l.pc.ClaimTime? ==> claimedAt.None? || l.turn <= claimedAt.value)
    && (claimedAt.None? && spoolIntact && !l.pc.Ended? ==>
          && (l.pc.ClaimTime? ==> l.waiting) && !l.pc.ClaimedExists? && l.last <= requested + c.claimMs
          && (InClaimTime(l.pc) ==> l.turn <= requested + c.claimMs))
  }

  predicate ClaimTimed(c: Config, s: State) {
    && (s.claimedAt.Some? <==> s.claimants != {}) && (s.claimedAt.Some? ==> s.claimedAt.value <= s.now)
    && ClaimSeen(c, s.l, s.spoolIntact, s.claimedAt, s.requested)
  }

  lemma ClaimSeenStep(c: Config, v: View, l: Launcher, spoolIntact: bool, claimedAt: Option<nat>)
    requires !l.pc.Ended? && ClaimSeen(c, l, spoolIntact, claimedAt, v.requested) && Turning(c, l, v.now, v.requested)
    requires claimedAt.None? && spoolIntact ==> v.request
    requires v.request ==> claimedAt.None?
    ensures ClaimSeen(c, LauncherStep(c, v, l), spoolIntact, claimedAt, v.requested)
  {}

  lemma ClaimTimedStep(c: Config, s: State)
    requires ClaimSound(s) && ClaimTimed(c, s) && Turning(c, s.l, s.now, s.requested) && Running(s)
    ensures ClaimTimed(c, Apply(c, s, Step))
  {
    ClaimSeenStep(c, Sees(s), s.l, s.spoolIntact, s.claimedAt);
  }

  lemma ClaimTimedSpool(c: Config, s: State, a: Action)
    requires ClaimTimed(c, s) && s.l.turn <= s.now && Enabled(c, s, a)
    requires a.Claim? || a.SpoolLeaves? || a.UnlinkSpool? || a.SpoolGone? || a.Signal? || a.Tick?
    ensures ClaimTimed(c, Apply(c, s, a))
  {}

  lemma ClaimTimedReply(c: Config, s: State, a: Action)
    requires ClaimTimed(c, s) && Enabled(c, s, a) && ConcernsReply(a)
    ensures ClaimTimed(c, Apply(c, s, a))
  {}

  lemma ClaimTimedKept(c: Config, s: State, a: Action)
    requires ClaimSound(s) && ClaimTimed(c, s) && Turning(c, s.l, s.now, s.requested) && Enabled(c, s, a)
    ensures ClaimTimed(c, Apply(c, s, a))
  {
    if a.Step? { ClaimTimedStep(c, s); }
    else if ConcernsReply(a) { ClaimTimedReply(c, s, a); }
    else { ClaimTimedSpool(c, s, a); }
  }

  // ---- a cancellation is left for the daemon

  predicate GaveUp(pc: Pc) {
    pc.Ended? && (pc.ending.QueuedTooLong? || pc.ending.PastLimit?)
  }

  predicate CancelSound(s: State) {
    && (s.signalled.Some? ==> s.signalled.value <= s.now)
    && (Running(s) ==> s.l.cancelledAt == s.signalled)
    && (s.signalled.Some? || GaveUp(s.l.pc) ==> s.l.cancelledAt.Some?)
    && (s.l.cancelledAt.Some? && s.spoolIntact ==> s.cancel)
  }

  lemma CancelKeptLauncher(c: Config, s: State, a: Action)
    requires CancelSound(s) && Enabled(c, s, a) && (a.Step? || a.Signal?) && (s.spoolIntact ==> s.spool)
    ensures CancelSound(Apply(c, s, a))
  {}

  lemma CancelKeptOther(c: Config, s: State, a: Action)
    requires CancelSound(s) && Enabled(c, s, a) && !a.Step? && !a.Signal?
    ensures CancelSound(Apply(c, s, a))
  {
    match a
    case Claim(_) | Start(_) | Write(_, _, _) | Finish(_, _) =>
    case SpoolLeaves | UnlinkSpool(_) | SpoolGone | RepliesLeave | UnlinkReply(_) | RepliesGone =>
    case Tick(_) =>
  }

  ghost predicate Inv(c: Config, s: State) {
    && FilesSound(s) && RelaySound(s) && LostSound(s) && ClaimSound(s)
    && OnTime(c, s.l, s.now, s.requested)
    && ExitSound(c, s) && ClaimTimed(c, s) && CancelSound(s)
    && Knows(s.l, s.reply.files, s.daemonStarted)
  }

  lemma StepInv(c: Config, s: State, a: Action)
    requires Inv(c, s) && Enabled(c, s, a)
    ensures Inv(c, Apply(c, s, a))
  {
    RelayKept(c, s, a);
    LostKept(c, s, a);
    ClaimKept(c, s, a);
    OnTimeKept(c, s, a);
    KnowsKept(c, s, a);
    ExitKept(c, s, a);
    ClaimTimedKept(c, s, a);
    if a.Step? || a.Signal? { CancelKeptLauncher(c, s, a); } else { CancelKeptOther(c, s, a); }
  }

  lemma {:induction false} ReachableInv(c: Config, s0: State, actions: seq<Action>)
    requires Init(s0) && Exec(c, s0, actions).Reached?
    ensures Inv(c, Exec(c, s0, actions).state)
    decreases |actions|
  {
    if actions != [] {
      ReachableInv(c, s0, actions[..|actions| - 1]);
      StepInv(c, Exec(c, s0, actions[..|actions| - 1]).state, actions[|actions| - 1]);
    }
  }

  // ---------------------------------------------------------------- what the daemon has written

  /** The output by the daemon's calls alone: whether its file was made, whether it takes no more, whether the
      directory stands, and the texts, each as far as it was written. */
  datatype Output = Output(open: bool, over: bool, there: bool, text: seq<byte>)

  function After(o: Output, a: Action): Output {
    match a
    case Write(text, opens, wrote) =>
      if o.over then o
      else if !o.open && !(opens && o.there) then o.(over := true)
      else if wrote.None? || wrote.value > |text| then o.(open := true, over := true)
      else o.(open := true, text := o.text + text[..wrote.value])
    case Finish(_, _) => o.(over := true)
    case RepliesGone => o.(there := false)
    case _ => o
  }

  function OutputOf(actions: seq<Action>): Output {
    if actions == [] then Output(false, false, true, [])
    else After(OutputOf(actions[..|actions| - 1]), actions[|actions| - 1])
  }

  predicate Tracks(f: Files, h: Handle, answer: Option<int>, written: seq<byte>, o: Output) {
    && written == o.text && f.present == o.there
    && (!o.over ==> !h.failed && h.out == o.open && (!o.open ==> f.out.None?))
    && (o.over ==> h.failed || (answer.Some? && !h.out))
  }

  predicate TracksOutput(s: State, o: Output) {
    Tracks(s.reply.files, s.reply.handle, s.answer, s.written, o)
  }

  lemma TracksWrite(c: Config, s: State, a: Action, o: Output)
    requires Enabled(c, s, a) && a.Write? && TracksOutput(s, o)
    ensures TracksOutput(Apply(c, s, a), After(o, a))
  {
    assert s.written + [] == s.written;
  }

  lemma TracksReply(c: Config, s: State, a: Action, o: Output)
    requires Enabled(c, s, a) && ConcernsReply(a) && !a.Write? && TracksOutput(s, o)
    ensures TracksOutput(Apply(c, s, a), After(o, a))
  {}

  lemma TracksOther(c: Config, s: State, a: Action, o: Output)
    requires Enabled(c, s, a) && !ConcernsReply(a) && TracksOutput(s, o)
    ensures TracksOutput(Apply(c, s, a), After(o, a))
  {
    match a
    case Claim(_) | SpoolLeaves | UnlinkSpool(_) | SpoolGone =>
    case Signal | Step | Tick(_) =>
  }

  /** What was written is the texts of the daemon's calls, in order and each as far as it was written, from the
      one that makes the file to the one that fails or finishes. */
  lemma {:induction false} WrittenIsTheCalls(c: Config, s0: State, actions: seq<Action>)
    requires Init(s0) && Exec(c, s0, actions).Reached?
    ensures TracksOutput(Exec(c, s0, actions).state, OutputOf(actions))
    ensures Exec(c, s0, actions).state.written == OutputOf(actions).text
    decreases |actions|
  {
    if actions != [] {
      var front, a := actions[..|actions| - 1], actions[|actions| - 1];
      var s := Exec(c, s0, front).state;
      WrittenIsTheCalls(c, s0, front);
      if a.Write? { TracksWrite(c, s, a, OutputOf(front)); }
      else if ConcernsReply(a) { TracksReply(c, s, a, OutputOf(front)); }
      else { TracksOther(c, s, a, OutputOf(front)); }
    }
  }

  // ---------------------------------------------------------------- what the spool promises

  /** What the launcher has relayed is always a prefix of what the daemon wrote; a launcher that ends
      with an exit code ends with the daemon's, and has relayed all of the output, once, exactly when none
      was lost: removed before it was relayed, or written after the removal.  None is lost before the removal
      of the run's replies begins. */
  lemma RelaysTheOutput(c: Config, s0: State, actions: seq<Action>)
    requires Init(s0) && Exec(c, s0, actions).Reached?
    ensures var s := Exec(c, s0, actions).state;
      && s.l.relayed <= s.written
      && (s.l.pc.Ended? && s.l.pc.ending.Reported? ==>
            && s.answer == Some(s.l.pc.ending.code) && (s.l.relayed == s.written <==> !s.lost)
            && (s.intactThen ==> s.l.relayed == s.written))
      && (s.reply.files.intact ==> !s.lost)
  {
    ReachableInv(c, s0, actions);
    var s := Exec(c, s0, actions).state;
    assert s.written[..|s.written|] == s.written;
  }

  lemma Then(c: Config, s0: State, actions: seq<Action>, a: Action)
    requires Exec(c, s0, actions).Reached? && Enabled(c, Exec(c, s0, actions).state, a)
    ensures Exec(c, s0, actions + [a]) == Reached(Apply(c, Exec(c, s0, actions).state, a))
  {
    assert (actions + [a])[..|actions|] == actions;
  }

  /** A launcher that finds no output but an exit code ends with the code. */
  lemma EndsWithoutOutput(c: Config, s0: State, before: seq<Action>) returns (actions: seq<Action>)
    requires Exec(c, s0, before).Reached?
    requires var s := Exec(c, s0, before).state;
      s.l.pc == OutExists(false) && s.reply.files.out.None? && s.reply.files.exit.Some?
    ensures Exec(c, s0, actions).Reached?
    ensures var s, t := Exec(c, s0, before).state, Exec(c, s0, actions).state;
      && t.l.pc == Ended(Reported(s.reply.files.exit.value.code)) && t.l.relayed == s.l.relayed
      && t.answer == s.answer && t.written == s.written
  {
    actions := before;
    for k := 0 to 4
      invariant Exec(c, s0, actions).Reached?
      invariant var s, t := Exec(c, s0, before).state, Exec(c, s0, actions).state;
        && t.reply == s.reply && t.l.relayed == s.l.relayed && t.answer == s.answer && t.written == s.written
        && t.l.pc == [OutExists(false), ExitExists, OutExists(true), ExitRead,
                      Ended(Reported(s.reply.files.exit.value.code))][k]
    {
      Then(c, s0, actions, Step);
      actions := actions + [Step];
    }
  }

  /** A removal that takes the output before the exit code: the launcher ends with the code of a check whose
      output it has not relayed. */
  lemma RemovalLosesOutput(c: Config, s0: State) returns (actions: seq<Action>)
    requires Init(s0)
    ensures Exec(c, s0, actions).Reached?
    ensures var s := Exec(c, s0, actions).state;
      s.l.pc == Ended(Reported(0)) && s.answer == Some(0) && s.l.relayed == [] && s.written == [7]
  {
    var acts := [Claim(0), Write([7], true, Some(1)), Finish(0, true), RepliesLeave, UnlinkReply(OutFile)];
    actions := [];
    for k := 0 to 5
      invariant Exec(c, s0, actions).Reached?
      invariant var s := Exec(c, s0, actions).state;
        && s.l == s0.l && (k == 0 ==> s == s0) && (k >= 1 ==> s.claimants == {0})
        && (1 <= k <= 2 ==> s.answer.None?) && (k == 1 ==> s.reply == s0.reply && s.written == [])
        && (k >= 2 ==> s.written == [7] && s.reply.files.present)
        && (k >= 3 ==> s.answer == Some(0) && s.reply.files.exit == Some(Exit(0)))
        && (k >= 4 ==> !s.reply.files.intact) && (k == 5 ==> s.reply.files.out.None?)
    {
      Then(c, s0, actions, acts[k]);
      actions := actions + [acts[k]];
    }
    actions := EndsWithoutOutput(c, s0, actions);
  }

  /** At most one pass ever claims a request, however many try. */
  lemma ClaimedOnce(c: Config, s0: State, actions: seq<Action>, p: Pass, q: Pass)
    requires Init(s0) && Exec(c, s0, actions).Reached?
    requires p in Exec(c, s0, actions).state.claimants && q in Exec(c, s0, actions).state.claimants
    ensures p == q
  {
    ReachableInv(c, s0, actions);
  }

  /** The launcher reports its request as no longer held only when the spool's removal has begun. */
  lemma HeldWhileSpoolStands(c: Config, s0: State, actions: seq<Action>)
    requires Init(s0) && Exec(c, s0, actions).Reached?
    requires Exec(c, s0, actions).state.spoolIntact
    ensures Exec(c, s0, actions).state.l.pc != Ended(NoLongerHeld)
  {
    ReachableInv(c, s0, actions);
  }

  /** The launcher ends: within its limits and four turns of its loop, within ten seconds and two turns of an
      interruption, and within its time for the claim and two turns when nobody claims the request.  Until it
      has ended it can always take its next step. */
  lemma LauncherEnds(c: Config, s0: State, actions: seq<Action>)
    requires Init(s0) && Exec(c, s0, actions).Reached? && Running(Exec(c, s0, actions).state)
    ensures var s := Exec(c, s0, actions).state;
      && Enabled(c, s, Step)
      && s.now <= s.requested + c.queuedMs + c.limitMs + 4 * c.gap
      && (s.l.started.None? ==> s.now <= s.requested + c.queuedMs + 2 * c.gap)
      && (s.signalled.Some? ==> s.now <= s.signalled.value + 10_000 + 2 * c.gap)
      && (s.claimedAt.None? && s.spoolIntact ==> s.now <= s.requested + c.claimMs + 2 * c.gap)
  {
    ReachableInv(c, s0, actions);
  }

  lemma InTimeFor(c: Config, s: State)
    requires FilesSound(s) && RelaySound(s) && ExitSound(c, s) && Turning(c, s.l, s.now, s.requested)
    requires s.exitAt.Some?
    ensures s.reply.files.intact && Running(s) ==> s.now <= s.exitAt.value + 2 * c.gap
    ensures s.intactThen && s.l.pc.Ended? && s.l.turn > s.exitAt.value ==>
      s.l.pc.ending.Reported? && s.answer == Some(s.l.pc.ending.code)
  {}

  /** Once the exit file is there, and until the removal of the replies begins, a launcher still runs for two
      turns at most; and one whose turn began since ends with the daemon's code in that turn. */
  lemma ReportsInTime(c: Config, s0: State, actions: seq<Action>)
    requires Init(s0) && Exec(c, s0, actions).Reached? && Exec(c, s0, actions).state.exitAt.Some?
    ensures var s := Exec(c, s0, actions).state;
      && (s.reply.files.intact && Running(s) ==> s.now <= s.exitAt.value + 2 * c.gap)
      && (s.intactThen && s.l.pc.Ended? && s.l.turn > s.exitAt.value ==>
            s.l.pc.ending.Reported? && s.answer == Some(s.l.pc.ending.code))
  {
    ReachableInv(c, s0, actions);
    InTimeFor(c, Exec(c, s0, actions).state);
  }

  /** What the daemon does shows in the spool: a claim takes the request. */
  lemma ClaimShows(c: Config, s: State, pass: Pass)
    requires s.spool && s.request
    ensures var t := Apply(c, s, Claim(pass)); !t.request && t.claimed && pass in t.claimants && t.claimedAt.Some?
  {}

  /** A start leaves its mark. */
  lemma StartShows(c: Config, s: State)
    requires Enabled(c, s, Start(true)) && s.reply.files.present
    ensures var t := Apply(c, s, Start(true)); t.reply.files.started && t.daemonStarted.Some?
  {}

  /** And the exit code is there when the daemon has finished. */
  lemma FinishShows(c: Config, s: State, code: int)
    requires Enabled(c, s, Finish(code, true)) && s.reply.files.present
    ensures var t := Apply(c, s, Finish(code, true));
      t.reply.files.exit == Some(Exit(code)) && t.answer == Some(code) && t.exitAt.Some?
  {}

  /** An interrupted launcher, and one that gives up, leave word of it for the daemon. */
  lemma LeavesCancellation(c: Config, s0: State, actions: seq<Action>)
    requires Init(s0) && Exec(c, s0, actions).Reached?
    ensures var s := Exec(c, s0, actions).state;
      (s.signalled.Some? || GaveUp(s.l.pc)) && s.spoolIntact ==> s.cancel
    ensures Signal in actions ==> Exec(c, s0, actions).state.signalled.Some?
  {
    ReachableInv(c, s0, actions);
    if Signal in actions { SignalRecorded(c, s0, actions); }
  }

  lemma SignalStays(c: Config, s: State, a: Action)
    requires Enabled(c, s, a)
    ensures a.Signal? || s.signalled.Some? ==> Apply(c, s, a).signalled.Some?
  {
    match a
    case Claim(_) | Start(_) | Write(_, _, _) | Finish(_, _) =>
    case SpoolLeaves | UnlinkSpool(_) | SpoolGone | RepliesLeave | UnlinkReply(_) | RepliesGone =>
    case Signal | Step | Tick(_) =>
  }

  lemma {:induction false} SignalRecorded(c: Config, s0: State, actions: seq<Action>)
    requires Exec(c, s0, actions).Reached? && Signal in actions
    ensures Exec(c, s0, actions).state.signalled.Some?
    decreases |actions|
  {
    var n := |actions| - 1;
    if actions[n] != Signal { SignalRecorded(c, s0, actions[..n]); }
    SignalStays(c, Exec(c, s0, actions[..n]).state, actions[n]);
  }

  /** The launcher has relayed the first `n` bytes, or reads on to them before this turn looks for the exit. */
  predicate ReadsOn(l: Launcher, n: nat) {
    l.offset >= n || l.pc.OutExists? || l.pc.OutStat? || (l.pc.OutRead? && l.pc.size >= n) || l.pc.Ended?
  }

  lemma ReadsOnStep(c: Config, s: State, n: nat)
    requires FilesSound(s) && RelaySound(s) && Running(s) && s.reply.files.intact && n <= |s.written|
    requires ReadsOn(s.l, n)
    ensures ReadsOn(LauncherStep(c, Sees(s), s.l), n)
  {}

  lemma WrittenGrows(c: Config, s: State, a: Action)
    requires Enabled(c, s, a)
    ensures |Apply(c, s, a).written| >= |s.written|
    ensures Apply(c, s, a).reply.files.intact ==> s.reply.files.intact
  {
    match a
    case Claim(_) | Start(_) | Write(_, _, _) | Finish(_, _) =>
    case SpoolLeaves | UnlinkSpool(_) | SpoolGone | RepliesLeave | UnlinkReply(_) | RepliesGone =>
    case Signal | Step | Tick(_) =>
  }

  lemma ReadsOnKept(c: Config, s: State, a: Action, n: nat)
    requires Inv(c, s) && Enabled(c, s, a) && s.reply.files.intact && n <= |s.written| && ReadsOn(s.l, n)
    ensures ReadsOn(Apply(c, s, a).l, n)
  {
    match a
    case Claim(_) | Start(_) | Write(_, _, _) | Finish(_, _) =>
    case SpoolLeaves | UnlinkSpool(_) | SpoolGone | RepliesLeave | UnlinkReply(_) | RepliesGone =>
    case Step => ReadsOnStep(c, s, n);
    case Signal | Tick(_) =>
  }

  lemma {:induction false} ReadsOnAfter(c: Config, s: State, actions: seq<Action>)
    requires Inv(c, s) && s.l.pc.OutExists? && Exec(c, s, actions).Reached?
    ensures var t := Exec(c, s, actions).state;
      Inv(c, t) && |t.written| >= |s.written| && (t.reply.files.intact ==> ReadsOn(t.l, |s.written|))
    decreases |actions|
  {
    if actions != [] {
      var front, a := actions[..|actions| - 1], actions[|actions| - 1];
      var mid := Exec(c, s, front).state;
      ReadsOnAfter(c, s, front);
      StepInv(c, mid, a);
      WrittenGrows(c, mid, a);
      if mid.reply.files.intact { ReadsOnKept(c, mid, a, |s.written|); }
    }
  }

  /** What the daemon had written when a turn of the loop began is relayed when the turn gets to the exit file,
      and not only when the check is over. */
  lemma RelaysEachTurn(c: Config, s0: State, before: seq<Action>, s: State, actions: seq<Action>)
    requires Init(s0) && Exec(c, s0, before) == Reached(s) && s.l.pc.OutExists?
    requires Exec(c, s, actions).Reached? && Exec(c, s, actions).state.reply.files.intact
    ensures var t := Exec(c, s, actions).state;
      t.l.pc.ExitExists? || MissedExit(t.l.pc) ==> s.written <= t.written && s.written <= t.l.relayed
  {
    ReachableInv(c, s0, before);
    ReadsOnAfter(c, s, actions);
    WrittenExtends(c, s, actions);
  }

  lemma {:induction false} WrittenExtends(c: Config, s: State, actions: seq<Action>)
    requires Exec(c, s, actions).Reached?
    ensures s.written <= Exec(c, s, actions).state.written
    decreases |actions|
  {
    if actions != [] {
      WrittenExtends(c, s, actions[..|actions| - 1]);
      WrittenStep(c, Exec(c, s, actions[..|actions| - 1]).state, actions[|actions| - 1]);
    }
  }

  lemma WrittenStep(c: Config, s: State, a: Action)
    requires Enabled(c, s, a)
    ensures s.written <= Apply(c, s, a).written
  {
    match a
    case Claim(_) | Start(_) | Write(_, _, _) | Finish(_, _) =>
    case SpoolLeaves | UnlinkSpool(_) | SpoolGone | RepliesLeave | UnlinkReply(_) | RepliesGone =>
    case Signal | Step | Tick(_) =>
  }

  /** Nobody holds the request: it is in neither place, and no check has started or ended. */
  predicate Unheld(s: State) {
    && !s.request && !s.claimed && s.daemonStarted.None? && s.exitAt.None?
    && !s.reply.files.started && s.reply.files.exit.None? && s.l.started.None?
  }

  /** A turn that finds that out, or has. */
  predicate FindsOut(l: Launcher) {
    match l.pc
    case OutExists(last) => !last
    case OutStat(last) => !last
    case OutRead(last, _) => !last
    case ExitExists | StartedExists | RequestExists | ClaimedExists => true
    case ClaimTime => !l.waiting
    case Ended(ending) => ending == NoLongerHeld || ending == Threw
    case _ => false
  }

  lemma FindsOutStep(c: Config, s: State)
    requires Running(s) && Unheld(s) && FindsOut(s.l)
    ensures var l := LauncherStep(c, Sees(s), s.l); FindsOut(l) && l.started.None? && l.turn == s.l.turn
  {}

  lemma UnheldKept(c: Config, s: State, a: Action)
    requires Enabled(c, s, a) && Unheld(s) && FindsOut(s.l)
    ensures var t := Apply(c, s, a);
      t.daemonStarted.None? && t.exitAt.None? ==> Unheld(t) && FindsOut(t.l) && t.l.turn == s.l.turn
  {
    match a
    case Claim(_) | Start(_) | Write(_, _, _) | Finish(_, _) =>
    case SpoolLeaves | UnlinkSpool(_) | SpoolGone | RepliesLeave | UnlinkReply(_) | RepliesGone =>
    case Step => FindsOutStep(c, s);
    case Signal | Tick(_) =>
  }

  lemma StartStays(c: Config, s: State, a: Action)
    requires Enabled(c, s, a) && s.daemonStarted.Some?
    ensures Apply(c, s, a).daemonStarted.Some?
  {
    match a
    case Claim(_) =>
    case Start(_) =>
    case Write(_, _, _) =>
    case Finish(_, _) =>
    case SpoolLeaves | UnlinkSpool(_) | SpoolGone | RepliesLeave | UnlinkReply(_) | RepliesGone =>
    case Signal | Step | Tick(_) =>
  }

  lemma ExitStays(c: Config, s: State, a: Action)
    requires Enabled(c, s, a) && s.exitAt.Some?
    ensures Apply(c, s, a).exitAt.Some?
  {
    match a
    case Claim(_) =>
    case Start(_) =>
    case Write(_, _, _) =>
    case Finish(_, _) =>
    case SpoolLeaves | UnlinkSpool(_) | SpoolGone | RepliesLeave | UnlinkReply(_) | RepliesGone =>
    case Signal | Step | Tick(_) =>
  }

  /** A launcher that begins a turn when its request is in neither place ends in that turn, with the report that
      nothing is held, unless a check starts or ends meanwhile or its files vanish. */
  lemma {:induction false} UnheldIsReported(c: Config, s: State, actions: seq<Action>)
    requires Unheld(s) && s.l.pc == OutExists(false) && Exec(c, s, actions).Reached?
    requires Exec(c, s, actions).state.daemonStarted.None? && Exec(c, s, actions).state.exitAt.None?
    ensures var t := Exec(c, s, actions).state;
      && t.l.turn == s.l.turn && Unheld(t) && FindsOut(t.l)
      && (t.l.pc.Ended? ==> t.l.pc.ending == NoLongerHeld || t.l.pc.ending == Threw)
    decreases |actions|
  {
    if actions != [] {
      var front, a := actions[..|actions| - 1], actions[|actions| - 1];
      var mid := Exec(c, s, front).state;
      if mid.daemonStarted.Some? { StartStays(c, mid, a); }
      if mid.exitAt.Some? { ExitStays(c, mid, a); }
      UnheldIsReported(c, s, front);
      UnheldKept(c, mid, a);
    }
  }

  /** What each ending says of the launcher and of what it has just seen. */
  lemma EndsBecause(c: Config, v: View, l: Launcher)
    requires !l.pc.Ended? && LauncherStep(c, v, l).pc.Ended?
    ensures match LauncherStep(c, v, l).pc.ending
      case Reported(code) => l.pc.ExitRead? && v.files.exit == Some(Exit(code))
      case NotPickedUp => l.pc.ClaimTime? && l.waiting && v.now - v.requested > c.claimMs
      case NoLongerHeld => l.pc.ClaimedExists? && !v.claimed
      case QueuedTooLong => l.pc.QueuedTime? && l.started.None? && v.now - v.requested > c.queuedMs
      case Interrupted => l.cancelledAt.Some? && v.now - l.cancelledAt.value > CANCEL_MS
      case PastLimit => l.started.Some? && v.now - l.started.value > c.limitMs
      case Threw => l.pc.OutStat? || l.pc.OutRead? || l.pc.ExitRead?
  {}

  /** Why a launcher may end without the exit code of a check that the daemon has started: the check
      is past the limit, or started during this very turn of the loop, or the launcher was cancelled,
      or the run's files are gone. */
  lemma AbandonsOnlyThen(c: Config, s0: State, actions: seq<Action>)
    requires Init(s0) && Exec(c, s0, actions).Reached? && Running(Exec(c, s0, actions).state)
    requires Exec(c, s0, actions).state.daemonStarted.Some?
    requires var e := LauncherStep(c, Sees(Exec(c, s0, actions).state), Exec(c, s0, actions).state.l).pc;
      e.Ended? && !e.ending.Reported?
    ensures var s := Exec(c, s0, actions).state;
      || s.now > s.daemonStarted.value + c.limitMs
      || s.daemonStarted.value >= s.l.turn
      || s.l.cancelledAt.Some?
      || !s.spoolIntact || !s.reply.files.intact
  {
    ReachableInv(c, s0, actions);
    var s := Exec(c, s0, actions).state;
    EndsBecause(c, Sees(s), s.l);
    if LauncherStep(c, Sees(s), s.l).pc.ending.Threw? && s.reply.files.intact { ReadsSucceed(c, s); }
  }

  /** A launcher ends only for cause: with the daemon's code; past the time for the claim, and unclaimed when
      this turn began; once the removal of the spool began; past the day in the queue, and not started when this
      turn began; more than ten seconds after an interruption; past the check's limit from its start; or once
      the removal of the replies began. */
  lemma EndsOnlyThen(c: Config, s0: State, actions: seq<Action>)
    requires Init(s0) && Exec(c, s0, actions).Reached? && Running(Exec(c, s0, actions).state)
    requires LauncherStep(c, Sees(Exec(c, s0, actions).state), Exec(c, s0, actions).state.l).pc.Ended?
    ensures var s := Exec(c, s0, actions).state;
      match LauncherStep(c, Sees(s), s.l).pc.ending
      case Reported(code) => s.answer == Some(code)
      case NotPickedUp =>
        s.now > s.requested + c.claimMs && (s.claimedAt.None? || s.claimedAt.value >= s.l.turn)
      case NoLongerHeld => !s.spoolIntact
      case QueuedTooLong =>
        && s.now > s.requested + c.queuedMs
        && (s.daemonStarted.None? || s.daemonStarted.value >= s.l.turn || !s.reply.files.intact)
      case Interrupted => s.signalled.Some? && s.now > s.signalled.value + 10_000
      case PastLimit => s.daemonStarted.Some? && s.now > s.daemonStarted.value + c.limitMs
      case Threw => !s.reply.files.intact
  {
    ReachableInv(c, s0, actions);
    var s := Exec(c, s0, actions).state;
    EndsBecause(c, Sees(s), s.l);
    if s.reply.files.intact { ReadsSucceed(c, s); }
  }

  /** No read of the launcher fails while the run's files are there. */
  lemma NeverThrows(c: Config, s0: State, actions: seq<Action>)
    requires Init(s0) && Exec(c, s0, actions).Reached? && Running(Exec(c, s0, actions).state)
    requires Exec(c, s0, actions).state.reply.files.intact
    ensures var s := Exec(c, s0, actions).state;
      LauncherStep(c, Sees(s), s.l).pc != Ended(Threw)
  {
    ReachableInv(c, s0, actions);
    ReadsSucceed(c, Exec(c, s0, actions).state);
  }

  /** A launcher that gives up on a started check for its time does so past the check's own limit and
      five minutes, for every check its manifest may declare. */
  lemma OutlastsTheCheck(c: Config, s0: State, actions: seq<Action>, manifest: Option<int>,
                         checks: seq<Option<int>>, minutes: Option<int>, deadline: Option<int>, at: int)
    requires Init(s0) && Exec(c, s0, actions).Reached? && Running(Exec(c, s0, actions).state)
    requires LauncherStep(c, Sees(Exec(c, s0, actions).state), Exec(c, s0, actions).state.l).pc == Ended(PastLimit)
    requires manifest.Some? ==> manifest.value >= 0
    requires minutes.Some? ==> minutes in checks
    requires c.limitMs == SpoolLimitMs(manifest, checks)
    ensures var s := Exec(c, s0, actions).state;
      && s.daemonStarted.Some?
      && s.now > s.daemonStarted.value + CheckTimeLimit(manifest, minutes, deadline, at).timeoutMs + LAUNCHER_GRACE_MS
  {
    ReachableInv(c, s0, actions);
    PastLimitIsLate(c, Exec(c, s0, actions).state);
    SpoolLimitCovers(manifest, checks, minutes, deadline, at);
  }

  lemma PastLimitIsLate(c: Config, s: State)
    requires Inv(c, s) && Running(s) && LauncherStep(c, Sees(s), s.l).pc == Ended(PastLimit)
    ensures s.daemonStarted.Some? && s.now > s.daemonStarted.value + c.limitMs
  {}
}
