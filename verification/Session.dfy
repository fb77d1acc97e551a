/** What a supervised session comes to, told by its events alone (packages/agents/src/process.ts, lines
442-601).

The module says of a list of events, without the state of module Supervisor, when its session waits for
descendants, times out, is terminated and ends, and what stdout and stderr brought; and proves that the
session's state and what it sends are just that. */
module Sessions {
  import opened Basics
  import opened LineFramer
  import opened Supervisor
  import Queues = AsyncQueues

  // ---------------------------------------------------------------- told by the events

  /** The exit code that the first closing of the pipes brought. */
  function FirstClose(events: seq<Event>): Option<int> {
    if events == [] then None
    else
      var before, e := FirstClose(events[..|events| - 1]), events[|events| - 1];
      if before.Some? then before else if e.CloseEvent? then Some(e.code) else None
  }

  predicate LeaderGone(events: seq<Event>) {
    exists k | 0 <= k < |events| :: events[k].ExitEvent? || events[k].CloseEvent?
  }

  /** The drain's deadline: given, or so long after the leader was first seen gone. */
  function DeadlineOf(o: Options, events: seq<Event>): Option<int> {
    if o.deadlineAt.Some? then o.deadlineAt
    else if o.timeoutMs.None? || events == [] then None
    else
      var before, e := DeadlineOf(o, events[..|events| - 1]), events[|events| - 1];
      if before.Some? then before
      else if e.ExitEvent? || e.CloseEvent? then Some(e.now + o.timeoutMs.value)
      else None
  }

  /** The last event makes the session look whether it is over. */
  predicate Settles(o: Options, events: seq<Event>)
    decreases |events|, 1
  {
    events != [] &&
    match events[|events| - 1]
    case ExitEvent(_, _) => true
    case CloseEvent(_, _, _) => FirstClose(events[..|events| - 1]).None?
    case DrainEvent(_, _) => Armed(o, events[..|events| - 1])
    case _ => false
  }

  /** It finds descendants at work that it waits for. */
  predicate Waits(o: Options, events: seq<Event>)
    decreases |events|, 2
  {
    Settles(o, events) && events[|events| - 1].Work() &&
    (DeadlineOf(o, events).Some? || Ending(o, events[..|events| - 1]))
  }

  predicate Over(o: Options, events: seq<Event>)
    decreases |events|, 3
  {
    events != [] &&
    (Over(o, events[..|events| - 1]) ||
     (Settles(o, events) && FirstClose(events).Some? && !Waits(o, events)))
  }

  /** It waits while nobody has asked it to end, and so tells the consumer. */
  predicate Tells(o: Options, events: seq<Event>)
    decreases |events|, 3
  {
    events != [] && Waits(o, events) &&
    !Over(o, events[..|events| - 1]) && !Ending(o, events[..|events| - 1])
  }

  /** The deadline has passed by then. */
  predicate Late(o: Options, events: seq<Event>)
    decreases |events|, 4
  {
    Tells(o, events) && DeadlineOf(o, events).Some? && events[|events| - 1].At() >= DeadlineOf(o, events).value
  }

  /** The session was asked to end, or ran past its deadline. */
  predicate Ending(o: Options, events: seq<Event>)
    decreases |events|, 5
  {
    events != [] &&
    (Ending(o, events[..|events| - 1]) || Late(o, events) ||
     (events[|events| - 1].TerminateCall? && !Over(o, events[..|events| - 1])))
  }

  /** The session looks again later: when it waited the last time it looked. */
  predicate Armed(o: Options, events: seq<Event>)
    decreases |events|, 3
  {
    events != [] &&
    if Settles(o, events) && !Over(o, events[..|events| - 1]) then Waits(o, events)
    else Armed(o, events[..|events| - 1])
  }

  predicate Incomplete(o: Options, events: seq<Event>) {
    events != [] && (Incomplete(o, events[..|events| - 1]) || Tells(o, events))
  }

  predicate TimedOut(o: Options, events: seq<Event>) {
    events != [] && (TimedOut(o, events[..|events| - 1]) || Late(o, events))
  }

  // ---------------------------------------------------------------- the session's state

  predicate Matches(o: Options, events: seq<Event>, l: Life) {
    && l.closed == FirstClose(events) && l.leaderExited == LeaderGone(events) && l.deadline == DeadlineOf(o, events)
    && l.finished == Over(o, events) && l.terminating == Ending(o, events) && l.drainArmed == Armed(o, events)
    && l.incomplete == Incomplete(o, events) && l.timedOut == TimedOut(o, events)
  }

  lemma GoneMore(events: seq<Event>)
    requires events != []
    ensures LeaderGone(events) ==
      (LeaderGone(events[..|events| - 1]) || events[|events| - 1].ExitEvent? || events[|events| - 1].CloseEvent?)
  {
    var front := events[..|events| - 1];
    if LeaderGone(front) {
      var k :| 0 <= k < |front| && (front[k].ExitEvent? || front[k].CloseEvent?);
      assert events[k] == front[k];
    }
    if LeaderGone(events) {
      var k :| 0 <= k < |events| && (events[k].ExitEvent? || events[k].CloseEvent?);
      assert k < |front| ==> front[k] == events[k];
    }
  }

  lemma {:induction false} DeadlineKnown(o: Options, events: seq<Event>)
    requires LeaderGone(events) && o.timeoutMs.Some?
    ensures DeadlineOf(o, events).Some?
    decreases |events|
  {
    GoneMore(events);
    if LeaderGone(events[..|events| - 1]) { DeadlineKnown(o, events[..|events| - 1]); }
  }

  lemma {:induction false} ClosedIsGone(events: seq<Event>)
    requires FirstClose(events).Some?
    ensures LeaderGone(events)
    decreases |events|
  {
    GoneMore(events);
    if FirstClose(events[..|events| - 1]).Some? { ClosedIsGone(events[..|events| - 1]); }
  }

  lemma {:induction false} OverIsClosed(o: Options, events: seq<Event>)
    requires Over(o, events)
    ensures FirstClose(events).Some?
    decreases |events|
  {
    if Over(o, events[..|events| - 1]) { OverIsClosed(o, events[..|events| - 1]); }
  }

  lemma {:induction false} ArmedIsGone(o: Options, events: seq<Event>)
    requires Armed(o, events)
    ensures LeaderGone(events)
    decreases |events|
  {
    GoneMore(events);
    if events[|events| - 1].DrainEvent? || !Settles(o, events) || Over(o, events[..|events| - 1]) {
      ArmedIsGone(o, events[..|events| - 1]);
    }
  }

  /** Where settling leads: to waiting, or to the end once the pipes have closed. */
  predicate SettlesAs(l: Life, s: Life, deadline: Option<int>, now: int, work: bool) {
    var waits := (deadline.Some? || l.terminating) && work;
    var late := waits && !l.terminating && deadline.Some? && now >= deadline.value;
    && s.closed == l.closed && s.leaderExited == l.leaderExited && s.deadline == deadline && s.drainArmed == waits
    && s.finished == (!waits && l.closed.Some?)
    && s.terminating == (l.terminating || late) && s.timedOut == (l.timedOut || late)
    && s.incomplete == (l.incomplete || (waits && !l.terminating))
  }

  lemma ConcludedLife(o: Options, m: Machine, now: int, work: bool)
    requires !m.life.finished && !m.life.drainArmed
    ensures SettlesAs(m.life, Concluded(o, m, now, work).life, m.life.deadline, now, work)
  {}

  lemma SettledLife(o: Options, m: Machine, now: int, work: bool)
    ensures var l, s := m.life, Settle(o, m, now, work).life;
      if l.finished || !l.leaderExited then s == l
      else
        var deadline := if l.deadline.None? && o.timeoutMs.Some? then Some(now + o.timeoutMs.value) else l.deadline;
        SettlesAs(l, s, deadline, now, work)
  {
    if !m.life.finished && m.life.leaderExited {
      ConcludedLife(o, m.(life := WithDeadline(o, m.life.(drainArmed := false), now)), now, work);
    }
  }

  /** The predicates of the last event, spelled out once. */
  lemma Unfolds(o: Options, events: seq<Event>)
    requires events != []
    ensures var front, e, deadline := events[..|events| - 1], events[|events| - 1], DeadlineOf(o, events);
      && Waits(o, events) == (Settles(o, events) && e.Work() && (deadline.Some? || Ending(o, front)))
      && Tells(o, events) == (Waits(o, events) && !Over(o, front) && !Ending(o, front))
      && Late(o, events) == (Tells(o, events) && deadline.Some? && e.At() >= deadline.value)
      && Over(o, events) ==
           (Over(o, front) || (Settles(o, events) && FirstClose(events).Some? && !Waits(o, events)))
      && Ending(o, events) ==
           (Ending(o, front) || Late(o, events) || (e.TerminateCall? && !Over(o, front)))
      && Armed(o, events) == (if Settles(o, events) && !Over(o, front) then Waits(o, events) else Armed(o, front))
  {}

  lemma SettlesAsTold(o: Options, events: seq<Event>, before: Life, l: Life, s: Life)
    requires events != [] && Matches(o, events[..|events| - 1], before) && Settles(o, events) && LeaderGone(events)
    requires !Over(o, events[..|events| - 1])
    requires l == before.(leaderExited := true, closed := FirstClose(events))
    requires SettlesAs(l, s, DeadlineOf(o, events), events[|events| - 1].At(), events[|events| - 1].Work())
    ensures Matches(o, events, s)
  {
    Unfolds(o, events);
  }

  lemma SettleMatches(o: Options, events: seq<Event>, m: Machine, n: Machine)
    requires events != [] && Matches(o, events[..|events| - 1], m.life) && Settles(o, events)
    requires n == m.(life := m.life.(leaderExited := true, closed := FirstClose(events))) && LeaderGone(events)
    ensures Matches(o, events, Settle(o, n, events[|events| - 1].At(), events[|events| - 1].Work()).life)
  {
    var front, e := events[..|events| - 1], events[|events| - 1];
    SettledLife(o, n, e.At(), e.Work());
    if Over(o, front) {
      OverMatches(o, events);
    } else {
      DeadlineMatches(o, events);
      SettlesAsTold(o, events, m.life, n.life, Settle(o, n, e.At(), e.Work()).life);
    }
  }

  /** After the end nothing changes. */
  lemma OverMatches(o: Options, events: seq<Event>)
    requires events != [] && Over(o, events[..|events| - 1])
    ensures var front := events[..|events| - 1];
      && FirstClose(events) == FirstClose(front) && LeaderGone(events) && LeaderGone(front)
      && DeadlineOf(o, events) == DeadlineOf(o, front)
      && Over(o, events) && Ending(o, events) == Ending(o, front) && Armed(o, events) == Armed(o, front)
      && Incomplete(o, events) == Incomplete(o, front) && TimedOut(o, events) == TimedOut(o, front)
  {
    var front := events[..|events| - 1];
    OverIsClosed(o, front);
    ClosedIsGone(front);
    GoneMore(events);
    if o.timeoutMs.Some? { DeadlineKnown(o, front); }
    Unfolds(o, events);
  }

  lemma DeadlineMatches(o: Options, events: seq<Event>)
    requires Settles(o, events)
    ensures var before, e := DeadlineOf(o, events[..|events| - 1]), events[|events| - 1];
      DeadlineOf(o, events) ==
        if before.None? && o.timeoutMs.Some? then Some(e.At() + o.timeoutMs.value) else before
  {
    var front := events[..|events| - 1];
    if events[|events| - 1].DrainEvent? {
      ArmedIsGone(o, front);
      if o.timeoutMs.Some? { DeadlineKnown(o, front); }
    }
  }

  /** An event that does not settle, or cannot happen. */
  lemma QuietMatches(o: Options, events: seq<Event>)
    requires events != [] && !Settles(o, events)
    ensures var front := events[..|events| - 1];
      && FirstClose(events) == FirstClose(front) && LeaderGone(events) == LeaderGone(front)
      && DeadlineOf(o, events) == DeadlineOf(o, front)
      && Over(o, events) == Over(o, front) && Armed(o, events) == Armed(o, front)
      && Incomplete(o, events) == Incomplete(o, front) && TimedOut(o, events) == TimedOut(o, front)
      && Ending(o, events) ==
           (Ending(o, front) || (events[|events| - 1].TerminateCall? && !Over(o, front)))
  {
    var front := events[..|events| - 1];
    GoneMore(events);
    Unfolds(o, events);
    if events[|events| - 1].CloseEvent? {
      ClosedIsGone(front);
      if o.timeoutMs.Some? { DeadlineKnown(o, front); }
    }
  }

  /** An event that settles does so with the leader gone and the pipes as they are by then. */
  lemma SettlingEvent(o: Options, events: seq<Event>, m: Machine)
    requires Settles(o, events) && Matches(o, events[..|events| - 1], m.life) && Enabled(m, events[|events| - 1])
    ensures LeaderGone(events)
    ensures Handle(o, m, events[|events| - 1]) ==
      Settle(o, m.(life := m.life.(leaderExited := true, closed := FirstClose(events))),
             events[|events| - 1].At(), events[|events| - 1].Work())
  {
    GoneMore(events);
    if events[|events| - 1].DrainEvent? {
      ArmedIsGone(o, events[..|events| - 1]);
      assert m.life.(leaderExited := true, closed := FirstClose(events)) == m.life;
    }
  }

  lemma EventMatches(o: Options, events: seq<Event>, m: Machine)
    requires events != [] && Matches(o, events[..|events| - 1], m.life) && Enabled(m, events[|events| - 1])
    ensures Matches(o, events, Handle(o, m, events[|events| - 1]).life)
  {
    if Settles(o, events) {
      SettlingEvent(o, events, m);
      SettleMatches(o, events, m, m.(life := m.life.(leaderExited := true, closed := FirstClose(events))));
    } else {
      OtherMatches(o, events, m);
    }
  }

  lemma OtherMatches(o: Options, events: seq<Event>, m: Machine)
    requires events != [] && Matches(o, events[..|events| - 1], m.life) && Enabled(m, events[|events| - 1])
    requires !Settles(o, events)
    ensures Matches(o, events, Handle(o, m, events[|events| - 1]).life)
  {
    QuietMatches(o, events);
    if events[|events| - 1].IsOutput() { OutputLeavesLife(o, m, events[|events| - 1]); }
  }

  /** In every order of events the session's state is what they tell. */
  lemma {:induction false} SessionIsTold(o: Options, events: seq<Event>)
    ensures Matches(o, events, Run(o, events).life)
    decreases |events|
  {
    if events != [] {
      var front, e := events[..|events| - 1], events[|events| - 1];
      SessionIsTold(o, front);
      if Enabled(Run(o, front), e) { EventMatches(o, events, Run(o, front)); } else { QuietMatches(o, events); }
    }
  }

  // ---------------------------------------------------------------- what is sent

  /** All that stdout brought before the pipes closed. */
  function StdoutOf(events: seq<Event>): string {
    if events == [] then ""
    else
      var e := events[|events| - 1];
      StdoutOf(events[..|events| - 1]) +
      (if e.DataEvent? && FirstClose(events[..|events| - 1]).None? then e.chunk else "")
  }

  /** What stderr brought until the session was over, and its silences. */
  function ErrorsOf(o: Options, events: seq<Event>): seq<Output> {
    if events == [] then []
    else
      var e := events[|events| - 1];
      ErrorsOf(o, events[..|events| - 1]) +
      (if Over(o, events[..|events| - 1]) then []
       else if e.ErrorDataEvent? || e.SpawnErrorEvent? then [Stderr(e.text)]
       else if e.QuietEvent? then [StderrQuiet]
       else [])
  }

  function Errors(outputs: seq<Output>): seq<Output> {
    if outputs == [] then []
    else
      var e := outputs[|outputs| - 1];
      Errors(outputs[..|outputs| - 1]) + (if e.Stderr? || e.StderrQuiet? then [e] else [])
  }

  lemma ErrorsSnoc(outputs: seq<Output>, e: Output)
    ensures Errors(outputs + [e]) == Errors(outputs) + (if e.Stderr? || e.StderrQuiet? then [e] else [])
  {
    assert (outputs + [e])[..|outputs|] == outputs;
  }

  lemma {:induction false} NoErrors(outputs: seq<Output>, items: seq<Item>)
    ensures Errors(outputs + AsOutput(items)) == Errors(outputs)
    decreases |items|
  {
    if items == [] {
      assert outputs + AsOutput(items) == outputs;
    } else {
      var k := |items| - 1;
      assert outputs + AsOutput(items) == (outputs + AsOutput(items[..k])) + [Stdout(items[k])];
      NoErrors(outputs, items[..k]);
      ErrorsSnoc(outputs + AsOutput(items[..k]), Stdout(items[k]));
    }
  }

  /** Settling sends nothing of stderr. */
  lemma SettleSendsNoErrors(o: Options, m: Machine, now: int, work: bool)
    requires QueueSound(m)
    ensures Errors(Sent(Settle(o, m, now, work))) == Errors(Sent(m)) && Settle(o, m, now, work).seen == m.seen
  {
    if !m.life.finished && m.life.leaderExited {
      ConcludeSendsNoErrors(o, m.(life := WithDeadline(o, m.life.(drainArmed := false), now)), now, work);
    }
  }

  lemma ConcludeSendsNoErrors(o: Options, m: Machine, now: int, work: bool)
    requires QueueSound(m) && !m.life.finished
    ensures Errors(Sent(Concluded(o, m, now, work))) == Errors(Sent(m)) && Concluded(o, m, now, work).seen == m.seen
  {
    if MustWait(m.life, work) {
      PushPlainSends(m, BackgroundWorkWaiting);
      ErrorsSnoc(Sent(m), BackgroundWorkWaiting);
    } else if m.life.closed.Some? {
      var exited := Exited(m.life.closed.value, m.life.incomplete, m.life.timedOut);
      FinishedSends(o, m);
      NoErrors(Sent(m), LastLine(m.seen, o.maxLineBytes));
      ErrorsSnoc(Sent(m) + AsOutput(LastLine(m.seen, o.maxLineBytes)), exited);
    }
  }

  lemma OutputErrors(o: Options, m: Machine, e: Event)
    requires QueueSound(m) && Enabled(m, e) && e.IsOutput() && (e.DataEvent? ==> !m.life.finished)
    ensures Errors(Sent(Handle(o, m, e))) == Errors(Sent(m)) +
      (if m.life.finished then []
       else if e.ErrorDataEvent? || e.SpawnErrorEvent? then [Stderr(e.text)]
       else if e.QuietEvent? then [StderrQuiet]
       else [])
    ensures Handle(o, m, e).seen == if e.DataEvent? then m.seen + e.chunk else m.seen
  {
    match e
    case DataEvent(chunk) =>
      PushLinesSends(m.(seen := m.seen + chunk), Completed(m.seen, chunk, o.maxLineBytes));
      NoErrors(Sent(m), Completed(m.seen, chunk, o.maxLineBytes));
    case ErrorDataEvent(text) =>
      PushOutputSends(m, Stderr(text), ByteLength(text));
      ErrorsSnoc(Sent(m), Stderr(text));
    case QuietEvent =>
      PushPlainSends(m, StderrQuiet);
      ErrorsSnoc(Sent(m), StderrQuiet);
    case SpawnErrorEvent(text) =>
      PushPlainSends(m, Stderr(text));
      ErrorsSnoc(Sent(m), Stderr(text));
    case TakeCall => TakeSends(m);
  }

  lemma TakeSends(m: Machine)
    requires !m.queue.waiter
    ensures Sent(Take(m)) == Sent(m)
  {
    var q := m.queue;
    if q.buffered != [] {
      assert Queues.Items(q.buffered) == [q.buffered[0].item] + Queues.Items(q.buffered[1..]);
    }
  }

  lemma EventSends(o: Options, m: Machine, e: Event)
    requires Inv(o, m) && Enabled(m, e) && !e.IsOutput()
    ensures Errors(Sent(Handle(o, m, e))) == Errors(Sent(m)) && Handle(o, m, e).seen == m.seen
  {
    match e
    case ExitEvent(now, work) => SettleSendsNoErrors(o, m.(life := m.life.(leaderExited := true)), now, work);
    case CloseEvent(code, now, work) =>
      SettleSendsNoErrors(o, m.(life := m.life.(leaderExited := true, closed := Some(code))), now, work);
    case DrainEvent(now, work) => SettleSendsNoErrors(o, m, now, work);
    case _ =>
  }

  lemma {:induction false} StreamsAreTold(o: Options, events: seq<Event>)
    ensures Run(o, events).seen == StdoutOf(events)
    ensures Errors(Sent(Run(o, events))) == ErrorsOf(o, events)
    decreases |events|
  {
    if events != [] {
      var front, e := events[..|events| - 1], events[|events| - 1];
      var m := Run(o, front);
      StreamsAreTold(o, front);
      SessionIsTold(o, front);
      RunInv(o, front);
      if Enabled(m, e) {
        if e.IsOutput() { OutputErrors(o, m, e); } else { EventSends(o, m, e); }
      }
    }
  }

  /** In every order of events, what a session sends is told by the events: the lines of what stdout brought
      before the pipes closed; what stderr brought until the session was over; one notice if it waited for
      descendants unasked; and the outcome, once the session is over, with the code that the first closing of
      the pipes brought and whether it waited and timed out. */
  lemma SessionSends(o: Options, events: seq<Event>)
    ensures var sent := Sent(Run(o, events));
      && Lines(sent) ==
           (if Over(o, events) then FramedAtEnd(StdoutOf(events), o.maxLineBytes)
            else Framed(StdoutOf(events), o.maxLineBytes))
      && Errors(sent) == ErrorsOf(o, events)
      && Count(sent, BackgroundWorkWaiting) == (if Incomplete(o, events) then 1 else 0)
      && (if Over(o, events)
          then FirstClose(events).Some? && sent != [] && NoneExited(sent[..|sent| - 1]) &&
               sent[|sent| - 1] == Exited(FirstClose(events).value, Incomplete(o, events), TimedOut(o, events))
          else NoneExited(sent))
  {
    RunInv(o, events);
    SessionIsTold(o, events);
    StreamsAreTold(o, events);
    if Over(o, events) { OverIsClosed(o, events); }
  }

  // ---------------------------------------------------------------- signals

  /** A session that is asked to end, or runs past its deadline, sends its group TERM then, and the timer that
      follows sends KILL. */
  lemma SignalsSent(o: Options, events: seq<Event>)
    requires events != []
    ensures Ending(o, events) ==> Term in Run(o, events).life.signals
    ensures Ending(o, events) && !Over(o, events) ==>
      Run(o, events).life.killArmed || Kill in Run(o, events).life.signals
    ensures events[|events| - 1].KillEvent? && Run(o, events[..|events| - 1]).life.killArmed ==>
      Kill in Run(o, events).life.signals
  {
    RunInv(o, events);
    SessionIsTold(o, events);
  }

  // ---------------------------------------------------------------- a full queue holds the child back

  lemma PushStaysFull(m: Machine, output: Output, bytes: nat)
    requires QueueSound(m) && !m.queue.waiter && Queues.Full(m.queue)
    ensures Queues.Full(PushOutput(m, output, bytes).queue)
  {}

  lemma PushPauses(m: Machine, output: Output, bytes: nat)
    ensures PushOutput(m, output, bytes).paused == (m.paused || Queues.Full(PushOutput(m, output, bytes).queue))
  {}

  lemma {:induction false} LinesPause(m: Machine, items: seq<Item>)
    requires QueueSound(m) && !m.life.finished && items != []
    ensures var n := PushLines(m, items); n.paused == (m.paused || Queues.Full(n.queue))
    decreases |items|
  {
    var k := |items| - 1;
    var before := PushLines(m, items[..k]);
    PushLinesSends(m, items[..k]);
    PushPauses(before, Stdout(items[k]), WeightOf(items[k]));
    if k > 0 {
      LinesPause(m, items[..k]);
      if Queues.Full(before.queue) { PushStaysFull(before, Stdout(items[k]), WeightOf(items[k])); }
    }
  }

  /** Output pauses the child exactly when it leaves a thousand items in the queue, or 16 MiB: a chunk of stdout
      that completes a line, or one of stderr. */
  lemma FullPauses(o: Options, events: seq<Event>, e: Event)
    requires Enabled(Run(o, events), e)
    requires e.ErrorDataEvent? ||
      (e.DataEvent? && Framed(StdoutOf(events), o.maxLineBytes) != Framed(StdoutOf(events) + e.chunk, o.maxLineBytes))
    ensures var m, n := Run(o, events), Run(o, events + [e]);
      n.paused <==> m.paused || |n.queue.buffered| >= 1000 || Queues.Weight(n.queue.buffered) >= 16 * 1024 * 1024
  {
    var m := Run(o, events);
    RunSnoc(o, events, e);
    RunInv(o, events);
    RunInv(o, events + [e]);
    StreamsAreTold(o, events);
    if e.DataEvent? {
      var items := Completed(m.seen, e.chunk, o.maxLineBytes);
      CompletedExtends(m.seen, e.chunk, o.maxLineBytes);
      assert items != [];
      LinesPause(m.(seen := m.seen + e.chunk), items);
    }
  }

  /** Only the consumer's taking the last that is buffered resumes it. */
  lemma PausedUntilDrained(o: Options, events: seq<Event>, e: Event)
    requires Enabled(Run(o, events), e) && Run(o, events).paused && !Run(o, events + [e]).paused
    ensures e.TakeCall? && |Run(o, events).queue.buffered| == 1
  {
    RunSnoc(o, events, e);
    var m := Run(o, events);
    match e
    case DataEvent(chunk) => LinesKeepPaused(m.(seen := m.seen + chunk), Completed(m.seen, chunk, o.maxLineBytes));
    case ExitEvent(now, work) => SettleKeepsPaused(o, m.(life := m.life.(leaderExited := true)), now, work);
    case CloseEvent(code, now, work) =>
      SettleKeepsPaused(o, m.(life := m.life.(leaderExited := true, closed := Some(code))), now, work);
    case DrainEvent(now, work) => SettleKeepsPaused(o, m, now, work);
    case _ =>
  }

  lemma {:induction false} LinesKeepPaused(m: Machine, items: seq<Item>)
    requires m.paused
    ensures PushLines(m, items).paused
    decreases |items|
  {
    if items != [] { LinesKeepPaused(m, items[..|items| - 1]); }
  }

  lemma SettleKeepsPaused(o: Options, m: Machine, now: int, work: bool)
    ensures Settle(o, m, now, work).paused == m.paused
  {}

  // ---------------------------------------------------------------- what waits is weighed

  /** A line and a text of stderr weigh their bytes; the rest, and word of a failed start, nothing. */
  predicate Weighed(entry: Queues.Entry<Output>) {
    match entry.item
    case Stdout(Line(text)) => entry.weight == ByteLength(text)
    case Stderr(text) => entry.weight == ByteLength(text) || entry.weight == 0
    case _ => entry.weight == 0
  }

  predicate AllWeighed(entries: seq<Queues.Entry<Output>>) {
    forall k | 0 <= k < |entries| :: Weighed(entries[k])
  }

  lemma PushWeighed(q: Queues.Queue<Output>, output: Output, bytes: nat)
    requires AllWeighed(q.buffered) && Weighed(Queues.Entry(output, bytes))
    ensures AllWeighed(Queues.Pushed(q, output, bytes).buffered)
  {}

  lemma {:induction false} LinesWeighed(m: Machine, items: seq<Item>)
    requires AllWeighed(m.queue.buffered)
    ensures AllWeighed(PushLines(m, items).queue.buffered)
    decreases |items|
  {
    if items != [] {
      var k := |items| - 1;
      LinesWeighed(m, items[..k]);
      PushWeighed(PushLines(m, items[..k]).queue, Stdout(items[k]), WeightOf(items[k]));
    }
  }

  lemma SettleWeighed(o: Options, m: Machine, now: int, work: bool)
    requires AllWeighed(m.queue.buffered)
    ensures !Settle(o, m, now, work).life.finished ==> AllWeighed(Settle(o, m, now, work).queue.buffered)
  {
    PushWeighed(m.queue, BackgroundWorkWaiting, 0);
  }

  lemma EventWeighed(o: Options, m: Machine, e: Event)
    requires AllWeighed(m.queue.buffered)
    ensures !Handle(o, m, e).life.finished ==> AllWeighed(Handle(o, m, e).queue.buffered)
  {
    match e
    case DataEvent(chunk) => LinesWeighed(m.(seen := m.seen + chunk), Completed(m.seen, chunk, o.maxLineBytes));
    case ErrorDataEvent(text) => PushWeighed(m.queue, Stderr(text), ByteLength(text));
    case QuietEvent => PushWeighed(m.queue, StderrQuiet, 0);
    case SpawnErrorEvent(text) => PushWeighed(m.queue, Stderr(text), 0);
    case ExitEvent(now, work) => SettleWeighed(o, m.(life := m.life.(leaderExited := true)), now, work);
    case CloseEvent(code, now, work) =>
      SettleWeighed(o, m.(life := m.life.(leaderExited := true, closed := Some(code))), now, work);
    case DrainEvent(now, work) => SettleWeighed(o, m, now, work);
    case _ =>
  }

  lemma {:induction false} WeighsTheBytes(o: Options, events: seq<Event>)
    requires !Over(o, events)
    ensures AllWeighed(Run(o, events).queue.buffered)
    decreases |events|
  {
    SessionIsTold(o, events);
    if events != [] {
      var m := Run(o, events[..|events| - 1]);
      WeighsTheBytes(o, events[..|events| - 1]);
      if Enabled(m, events[|events| - 1]) { EventWeighed(o, m, events[|events| - 1]); }
    }
  }
}
