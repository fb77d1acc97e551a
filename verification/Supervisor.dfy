/** The supervised process (packages/agents/src/process.ts, lines 442-620).

A child's output goes through the line framer and the queue to one consumer; its exit, the closing
of its pipes, a timer and calls of `terminate` decide when the session ends.  The functions say what
each event does; the class does it on fields, with the queue and the framer as objects; the lemmas
are about every order of events. */
module Supervisor {
  import opened Basics
  import opened AsyncQueues
  import opened LineFramer

  datatype Output =
    | Stdout(item: Item)
    | Stderr(text: string)
    | StderrQuiet
    | BackgroundWorkWaiting
    | Exited(code: int, incomplete: bool, timedOut: bool)

  datatype Signal = Term | Kill

  /** The drain's deadline, or its allowance from the exit. */
  datatype Options = Options(maxLineBytes: nat, deadlineAt: Option<int>, timeoutMs: Option<int>)

  datatype Life = Life(closed: Option<int>, leaderExited: bool, terminating: bool, finished: bool,
                       incomplete: bool, timedOut: bool, deadline: Option<int>,
                       drainArmed: bool, killArmed: bool, signals: seq<Signal>)

  datatype Machine = Machine(queue: Queue<Output>, paused: bool, seen: string, life: Life)

  function Start(o: Options): Machine {
    Machine(Empty(), false, "", Life(None, false, false, false, false, false, o.deadlineAt, false, false, []))
  }

  // ---------------------------------------------------------------- the child's output

  function WeightOf(item: Item): nat {
    match item
    case Line(text) => ByteLength(text)
    case Overflow(_) => 0
  }

  /** Output that fills the queue pauses the child. */
  function PushOutput(m: Machine, output: Output, bytes: nat): Machine {
    var queue := Pushed(m.queue, output, bytes);
    m.(queue := queue, paused := m.paused || Full(queue))
  }

  function PushLines(m: Machine, items: seq<Item>): Machine {
    if items == [] then m
    else
      var before := PushLines(m, items[..|items| - 1]);
      PushOutput(before, Stdout(items[|items| - 1]), WeightOf(items[|items| - 1]))
  }

  /** The items a chunk completes, after all the output before it. */
  function Completed(seen: string, chunk: string, max: nat): seq<Item> {
    var was, now := Framed(seen, max), Framed(seen + chunk, max);
    if |was| <= |now| then now[|was|..] else []
  }

  function OnStdout(o: Options, m: Machine, chunk: string): Machine {
    PushLines(m.(seen := m.seen + chunk), Completed(m.seen, chunk, o.maxLineBytes))
  }

  function OnStderr(m: Machine, text: string): Machine {
    PushOutput(m, Stderr(text), ByteLength(text))
  }

  /** A plain push, which never pauses. */
  function PushPlain(m: Machine, output: Output): Machine {
    m.(queue := Pushed(m.queue, output, 0))
  }

  function OnQuiet(m: Machine): Machine {
    if m.life.finished then m else PushPlain(m, StderrQuiet)
  }

  /** The consumer takes; the last buffered item resumes the child. */
  function Take(m: Machine): Machine {
    m.(queue := Taken(m.queue), paused := m.paused && !Drains(m.queue))
  }

  // ---------------------------------------------------------------- the session's end

  function Terminate(l: Life): Life {
    if l.finished || l.terminating then l
    else l.(terminating := true, killArmed := true, signals := l.signals + [Term])
  }

  function KillTick(l: Life): Life {
    l.(killArmed := false, signals := l.signals + [Kill])
  }

  /** The deadline is known from the launch, or counts from the first settling. */
  function WithDeadline(o: Options, l: Life, now: int): Life {
    if l.deadline.None? && o.timeoutMs.Some? then l.(deadline := Some(now + o.timeoutMs.value)) else l
  }

  predicate MustWait(l: Life, work: bool) {
    (l.deadline.Some? || l.terminating) && work
  }

  /** Descendants still run: say so once, and end them when the time is over. */
  function Waited(l: Life, now: int): Life {
    var told := l.(incomplete := l.incomplete || !l.terminating);
    var late := !l.terminating && l.deadline.Some? && now >= l.deadline.value;
    (if late then Terminate(told.(timedOut := true)) else told).(drainArmed := true)
  }

  function Waiting(m: Machine, now: int): Machine {
    var told := if !m.life.incomplete && !m.life.terminating then PushPlain(m, BackgroundWorkWaiting) else m;
    told.(life := Waited(m.life, now))
  }

  /** The unterminated line, the outcome, and no more. */
  function Finished(o: Options, m: Machine): Machine
    requires m.life.closed.Some?
  {
    var l := m.life;
    var last := LastLine(m.seen, o.maxLineBytes);
    var queue := if last == [] then m.queue else Pushed(m.queue, Stdout(last[0]), 0);
    var exited := Pushed(queue, Exited(l.closed.value, l.incomplete, l.timedOut), 0);
    m.(queue := Closed(exited), life := l.(finished := true, killArmed := false))
  }

  /** The leader has exited: wait for its descendants, or for its pipes, or end. */
  function Concluded(o: Options, m: Machine, now: int, work: bool): Machine {
    if MustWait(m.life, work) then Waiting(m, now)
    else if m.life.closed.None? then m
    else Finished(o, m)
  }

  function Settle(o: Options, m: Machine, now: int, work: bool): Machine {
    if m.life.finished || !m.life.leaderExited then m
    else
      Concluded(o, m.(life := WithDeadline(o, m.life.(drainArmed := false), now)), now, work)
  }

  function OnExit(o: Options, m: Machine, now: int, work: bool): Machine {
    Settle(o, m.(life := m.life.(leaderExited := true)), now, work)
  }

  function OnClose(o: Options, m: Machine, code: int, now: int, work: bool): Machine {
    Settle(o, m.(life := m.life.(leaderExited := true, closed := Some(code))), now, work)
  }

  // ---------------------------------------------------------------- the class

  class SupervisedProcess {
    const options: Options
    const queue: AsyncQueue<Output>
    const framer: Framer
    var paused: bool
    var life: Life

    constructor (options: Options)
      ensures this.options == options && fresh(queue) && fresh(framer)
      ensures Valid() && State() == Start(options)
    {
      this.options := options;
      queue := new AsyncQueue<Output>();
      framer := new Framer(options.maxLineBytes);
      paused := false;
      life := Life(None, false, false, false, false, false, options.deadlineAt, false, false, []);
    }

    ghost predicate Valid()
      reads this, framer
    {
      (!life.finished ==> framer.Valid()) && framer.maxLineBytes == options.maxLineBytes
    }

    ghost function State(): Machine
      reads this, queue, framer
    {
      Machine(queue.State(), paused, framer.seen, life)
    }

    method Emit(output: Output, bytes: nat)
      requires Valid()
      modifies this`paused, queue
      ensures Valid() && State() == PushOutput(old(State()), output, bytes)
    {
      queue.Push(output, bytes);
      if !paused {
        paused := queue.IsFull();
      }
    }

    method EmitAll(items: seq<Item>)
      requires Valid()
      modifies this`paused, queue
      ensures Valid() && State() == PushLines(old(State()), items)
    {
      var k := 0;
      while k < |items|
        invariant k <= |items| && Valid() && State() == PushLines(old(State()), items[..k])
      {
        Emit(Stdout(items[k]), if items[k].Line? then ByteLength(items[k].text) else 0);
        assert items[..k + 1][..k] == items[..k];
        k := k + 1;
      }
      assert items[..|items|] == items;
    }

    /** No output comes once the pipes have closed. */
    method Data(chunk: string)
      requires Valid() && life.closed.None? && !life.finished
      modifies this`paused, queue, framer
      ensures Valid() && State() == OnStdout(options, old(State()), chunk)
    {
      ghost var before := framer.items;
      var items := framer.OnData(chunk);
      assert items == Framed(framer.seen, options.maxLineBytes)[|before|..];
      EmitAll(items);
    }

    method ErrorData(text: string)
      requires Valid()
      modifies this`paused, queue
      ensures Valid() && State() == OnStderr(old(State()), text)
    {
      Emit(Stderr(text), ByteLength(text));
    }

    method TakeNext()
      requires Valid()
      modifies this`paused, queue
      ensures Valid() && State() == Take(old(State()))
    {
      var drained := queue.Next();
      if drained { paused := false; }
    }

    method TerminateNow()
      requires Valid()
      modifies this`life
      ensures Valid() && State() == old(State()).(life := Terminate(old(life)))
    {
      if life.finished || life.terminating { return; }
      life := life.(terminating := true, killArmed := true, signals := life.signals + [Term]);
    }

    /** The end of the session: the unterminated line, the outcome, and no more. */
    method FinishNow()
      requires Valid() && life.closed.Some? && !life.finished
      modifies this`life, queue, framer
      ensures Valid() && State() == Finished(options, old(State()))
    {
      life := life.(finished := true, killArmed := false);
      var last := framer.Flush();
      if last != [] { queue.Push(Stdout(last[0]), 0); }
      queue.Push(Exited(life.closed.value, life.incomplete, life.timedOut), 0);
      queue.Close();
    }

    /** Descendants still run. */
    method WaitNow(now: int)
      requires Valid() && !life.finished
      modifies this`life, queue
      ensures Valid() && State() == Waiting(old(State()), now)
    {
      if !life.incomplete && !life.terminating {
        life := life.(incomplete := true);
        queue.Push(BackgroundWorkWaiting, 0);
      }
      if !life.terminating && life.deadline.Some? && now >= life.deadline.value {
        life := life.(timedOut := true);
        TerminateNow();
      }
      life := life.(drainArmed := true);
    }

    method ConcludeNow(now: int, work: bool)
      requires Valid() && !life.finished
      modifies this`life, queue, framer
      ensures Valid() && State() == Concluded(options, old(State()), now, work)
    {
      if (life.deadline.Some? || life.terminating) && work {
        WaitNow(now);
        return;
      }
      if life.closed.None? { return; }
      FinishNow();
    }

    method SettleNow(now: int, work: bool)
      requires Valid()
      modifies this`life, queue, framer
      ensures Valid() && State() == Settle(options, old(State()), now, work)
    {
      if life.finished || !life.leaderExited { return; }
      ghost var m := State();
      life := life.(drainArmed := false);
      if life.deadline.None? && options.timeoutMs.Some? {
        life := life.(deadline := Some(now + options.timeoutMs.value));
      }
      assert State() == m.(life := WithDeadline(options, m.life.(drainArmed := false), now));
      ConcludeNow(now, work);
    }

    method Exit(now: int, work: bool)
      requires Valid()
      modifies this`life, queue, framer
      ensures Valid() && State() == OnExit(options, old(State()), now, work)
    {
      life := life.(leaderExited := true);
      SettleNow(now, work);
    }

    method PipesClosed(code: int, now: int, work: bool)
      requires Valid()
      modifies this`life, queue, framer
      ensures Valid() && State() == OnClose(options, old(State()), code, now, work)
    {
      life := life.(leaderExited := true, closed := Some(code));
      SettleNow(now, work);
    }
  }

  // ---------------------------------------------------------------- every order of events

  datatype Event =
    | DataEvent(chunk: string)
    | ErrorDataEvent(text: string)
    | QuietEvent
    | SpawnErrorEvent(text: string)
    | ExitEvent(now: int, work: bool)
    | CloseEvent(code: int, now: int, work: bool)
    | DrainEvent(now: int, work: bool)
    | KillEvent
    | TerminateCall
    | TakeCall
  {
    /** The events that leave the session's own state alone. */
    predicate IsOutput() {
      DataEvent? || ErrorDataEvent? || QuietEvent? || SpawnErrorEvent? || TakeCall?
    }

    /** Whether the session's group is at work, and the time, when it settles. */
    predicate Work() {
      (ExitEvent? || CloseEvent? || DrainEvent?) && work
    }

    function At(): int {
      if ExitEvent? || CloseEvent? || DrainEvent? then now else 0
    }
  }

  /** The pipes close once, after the last of their data; timers fire when armed; and the one consumer
      asks again only when it was answered. */
  predicate Enabled(m: Machine, e: Event) {
    match e
    case DataEvent(_) => m.life.closed.None?
    case CloseEvent(_, _, _) => m.life.closed.None?
    case DrainEvent(_, _) => m.life.drainArmed
    case KillEvent => m.life.killArmed
    case TakeCall => !m.queue.waiter
    case _ => true
  }

  function Handle(o: Options, m: Machine, e: Event): Machine {
    match e
    case DataEvent(chunk) => OnStdout(o, m, chunk)
    case ErrorDataEvent(text) => OnStderr(m, text)
    case QuietEvent => OnQuiet(m)
    case SpawnErrorEvent(text) => PushPlain(m, Stderr(text))
    case ExitEvent(now, work) => OnExit(o, m, now, work)
    case CloseEvent(code, now, work) => OnClose(o, m, code, now, work)
    case DrainEvent(now, work) => Settle(o, m, now, work)
    case KillEvent => m.(life := KillTick(m.life))
    case TerminateCall => m.(life := Terminate(m.life))
    case TakeCall => Take(m)
  }

  /** The session after some events; those that cannot happen are left out. */
  function Run(o: Options, events: seq<Event>): Machine
    decreases |events|
  {
    if events == [] then Start(o)
    else
      var m := Run(o, events[..|events| - 1]);
      var e := events[|events| - 1];
      if Enabled(m, e) then Handle(o, m, e) else m
  }

  /** All that has been sent to the consumer, taken or waiting. */
  function Sent(m: Machine): seq<Output> {
    m.queue.delivered + Items(m.queue.buffered)
  }

  /** The stdout items among them. */
  function Lines(outputs: seq<Output>): seq<Item> {
    if outputs == [] then []
    else
      var o := outputs[|outputs| - 1];
      Lines(outputs[..|outputs| - 1]) + (if o.Stdout? then [o.item] else [])
  }

  function Count(outputs: seq<Output>, o: Output): nat {
    if outputs == [] then 0
    else Count(outputs[..|outputs| - 1], o) + (if outputs[|outputs| - 1] == o then 1 else 0)
  }

  predicate NoneExited(outputs: seq<Output>) {
    forall k | 0 <= k < |outputs| :: !outputs[k].Exited?
  }

  /** The queue's own bookkeeping, and what pausing rests on. */
  predicate QueueSound(m: Machine) {
    var q := m.queue;
    && q.weight == Weight(q.buffered)
    && (q.waiter ==> q.buffered == [] && !q.closed)
    && (q.closed == m.life.finished)
    && (m.paused ==> q.buffered != [])
  }

  predicate LifeSound(l: Life) {
    && (l.closed.Some? ==> l.leaderExited)
    && (l.finished ==> l.closed.Some?)
    && (l.timedOut ==> l.incomplete && l.terminating)
    && (l.terminating ==> Term in l.signals)
    && (l.terminating && !l.finished ==> l.killArmed || Kill in l.signals)
  }

  /** What has been sent, given the output seen and the state of the session. */
  predicate SentSound(o: Options, sent: seq<Output>, seen: string, l: Life) {
    && Lines(sent) == (if l.finished then FramedAtEnd(seen, o.maxLineBytes) else Framed(seen, o.maxLineBytes))
    && Count(sent, BackgroundWorkWaiting) == (if l.incomplete then 1 else 0)
    && (if l.finished && l.closed.Some?
        then sent != [] && NoneExited(sent[..|sent| - 1]) &&
             sent[|sent| - 1] == Exited(l.closed.value, l.incomplete, l.timedOut)
        else NoneExited(sent))
  }

  ghost predicate Inv(o: Options, m: Machine) {
    QueueSound(m) && LifeSound(m.life) && SentSound(o, Sent(m), m.seen, m.life)
  }

  // ---- pushing

  lemma PushedSends<T>(q: Queue<T>, item: T, weight: nat)
    requires q.weight == Weight(q.buffered) && (q.waiter ==> q.buffered == [] && !q.closed)
    ensures var r := Pushed(q, item, weight);
      && r.delivered + Items(r.buffered) == q.delivered + Items(q.buffered) + (if q.closed then [] else [item])
      && r.weight == Weight(r.buffered) && (r.waiter ==> r.buffered == [] && !r.closed) && r.closed == q.closed
      && (q.buffered != [] ==> r.buffered != [])
  {
    if !q.closed && !q.waiter {
      WeightSnoc(q.buffered, Entry(item, weight));
      assert Items(q.buffered + [Entry(item, weight)]) == Items(q.buffered) + [item];
    }
  }

  /** A full queue has something buffered, so the consumer's taking it resumes the child. */
  lemma FullIsNotEmpty<T>(q: Queue<T>)
    requires q.weight == Weight(q.buffered) && Full(q)
    ensures q.buffered != []
  {}

  lemma PushOutputSends(m: Machine, output: Output, bytes: nat)
    requires QueueSound(m)
    ensures var n := PushOutput(m, output, bytes);
      && QueueSound(n) && n.life == m.life && n.seen == m.seen
      && Sent(n) == Sent(m) + (if m.life.finished then [] else [output])
  {
    PushedSends(m.queue, output, bytes);
    if Full(Pushed(m.queue, output, bytes)) { FullIsNotEmpty(Pushed(m.queue, output, bytes)); }
  }

  lemma PushPlainSends(m: Machine, output: Output)
    requires QueueSound(m)
    ensures var n := PushPlain(m, output);
      && QueueSound(n) && n.life == m.life && n.seen == m.seen
      && Sent(n) == Sent(m) + (if m.life.finished then [] else [output])
  {
    PushedSends(m.queue, output, 0);
  }

  /** The lines of one chunk, sent in order. */
  function AsOutput(items: seq<Item>): seq<Output> {
    seq(|items|, i requires 0 <= i < |items| => Stdout(items[i]))
  }

  lemma {:induction false} PushLinesSends(m: Machine, items: seq<Item>)
    requires QueueSound(m) && !m.life.finished
    ensures var n := PushLines(m, items);
      QueueSound(n) && Sent(n) == Sent(m) + AsOutput(items) && n.life == m.life && n.seen == m.seen
  {
    if items == [] {
      assert Sent(m) + AsOutput(items) == Sent(m);
    } else {
      var k := |items| - 1;
      PushLinesSends(m, items[..k]);
      PushOutputSends(PushLines(m, items[..k]), Stdout(items[k]), WeightOf(items[k]));
      assert AsOutput(items) == AsOutput(items[..k]) + [Stdout(items[k])];
    }
  }

  lemma LinesSnoc(outputs: seq<Output>, o: Output, other: Output)
    ensures Lines(outputs + [o]) == Lines(outputs) + (if o.Stdout? then [o.item] else [])
    ensures Count(outputs + [o], other) == Count(outputs, other) + (if o == other then 1 else 0)
  {
    assert (outputs + [o])[..|outputs|] == outputs;
  }

  lemma {:induction false} LinesOfChunk(outputs: seq<Output>, items: seq<Item>)
    ensures Lines(outputs + AsOutput(items)) == Lines(outputs) + items
    ensures Count(outputs + AsOutput(items), BackgroundWorkWaiting) == Count(outputs, BackgroundWorkWaiting)
    decreases |items|
  {
    if items == [] {
      assert outputs + AsOutput(items) == outputs;
    } else {
      var k := |items| - 1;
      assert outputs + AsOutput(items) == (outputs + AsOutput(items[..k])) + [Stdout(items[k])];
      LinesOfChunk(outputs, items[..k]);
      LinesSnoc(outputs + AsOutput(items[..k]), Stdout(items[k]), BackgroundWorkWaiting);
    }
  }

  // ---- the events

  /** Output that is neither a line, nor the notice, nor the end. */
  lemma SentPlain(o: Options, sent: seq<Output>, seen: string, l: Life, output: Output)
    requires SentSound(o, sent, seen, l) && !l.finished
    requires output.Stderr? || output.StderrQuiet?
    ensures SentSound(o, sent + [output], seen, l)
  {
    LinesSnoc(sent, output, BackgroundWorkWaiting);
  }

  lemma CompletedExtends(seen: string, chunk: string, max: nat)
    ensures Framed(seen + chunk, max) == Framed(seen, max) + Completed(seen, chunk, max)
  {
    FramedExtends(seen, chunk, max);
  }

  lemma SentLines(o: Options, sent: seq<Output>, seen: string, l: Life, chunk: string)
    requires SentSound(o, sent, seen, l) && !l.finished
    ensures SentSound(o, sent + AsOutput(Completed(seen, chunk, o.maxLineBytes)), seen + chunk, l)
  {
    CompletedExtends(seen, chunk, o.maxLineBytes);
    LinesOfChunk(sent, Completed(seen, chunk, o.maxLineBytes));
  }

  lemma DataKeeps(o: Options, m: Machine, chunk: string)
    requires Inv(o, m) && m.life.closed.None?
    ensures Inv(o, OnStdout(o, m, chunk))
  {
    PushLinesSends(m.(seen := m.seen + chunk), Completed(m.seen, chunk, o.maxLineBytes));
    SentLines(o, Sent(m), m.seen, m.life, chunk);
  }

  lemma PlainKeeps(o: Options, m: Machine, output: Output, bytes: nat)
    requires Inv(o, m) && (output.Stderr? || output.StderrQuiet?)
    ensures Inv(o, PushPlain(m, output)) && Inv(o, PushOutput(m, output, bytes))
  {
    PushPlainSends(m, output);
    PushOutputSends(m, output, bytes);
    if !m.life.finished { SentPlain(o, Sent(m), m.seen, m.life, output); }
  }

  lemma TakeKeeps(o: Options, m: Machine)
    requires Inv(o, m) && !m.queue.waiter
    ensures Inv(o, Take(m)) && Sent(Take(m)) == Sent(m)
  {
    var q := m.queue;
    if q.buffered != [] {
      assert Items(q.buffered) == [q.buffered[0].item] + Items(q.buffered[1..]);
      assert Sent(Take(m)) == Sent(m);
    }
  }

  lemma WaitedSound(l: Life, now: int)
    requires LifeSound(l) && !l.finished
    ensures var w := Waited(l, now);
      LifeSound(w) && !w.finished && w.closed == l.closed && w.incomplete == (l.incomplete || !l.terminating)
  {}

  /** The notice of background work. */
  lemma SentNotice(o: Options, sent: seq<Output>, seen: string, l: Life, w: Life)
    requires SentSound(o, sent, seen, l) && !l.finished && !w.finished && w.closed == l.closed
    ensures !l.incomplete && w.incomplete ==> SentSound(o, sent + [BackgroundWorkWaiting], seen, w)
    ensures l.incomplete == w.incomplete ==> SentSound(o, sent, seen, w)
  {
    LinesSnoc(sent, BackgroundWorkWaiting, BackgroundWorkWaiting);
  }

  lemma WaitKeeps(o: Options, m: Machine, now: int)
    requires Inv(o, m) && !m.life.finished
    ensures Inv(o, Waiting(m, now))
  {
    WaitedSound(m.life, now);
    SentNotice(o, Sent(m), m.seen, m.life, Waited(m.life, now));
    PushPlainSends(m, BackgroundWorkWaiting);
  }

  lemma SentLastLine(o: Options, sent: seq<Output>, seen: string, l: Life)
    requires SentSound(o, sent, seen, l) && !l.finished
    ensures var all := sent + AsOutput(LastLine(seen, o.maxLineBytes));
      && Lines(all) == FramedAtEnd(seen, o.maxLineBytes) && NoneExited(all)
      && Count(all, BackgroundWorkWaiting) == (if l.incomplete then 1 else 0)
  {
    LinesOfChunk(sent, LastLine(seen, o.maxLineBytes));
  }

  lemma SentExited(o: Options, sent: seq<Output>, seen: string, l: Life)
    requires Lines(sent) == FramedAtEnd(seen, o.maxLineBytes) && NoneExited(sent)
    requires Count(sent, BackgroundWorkWaiting) == (if l.incomplete then 1 else 0)
    requires l.finished && l.closed.Some?
    ensures SentSound(o, sent + [Exited(l.closed.value, l.incomplete, l.timedOut)], seen, l)
  {
    var exited := Exited(l.closed.value, l.incomplete, l.timedOut);
    LinesSnoc(sent, exited, BackgroundWorkWaiting);
    assert (sent + [exited])[..|sent|] == sent;
  }

  lemma FinishedSends(o: Options, m: Machine)
    requires QueueSound(m) && !m.life.finished && m.life.closed.Some?
    ensures var f := Finished(o, m);
      && QueueSound(f) && f.seen == m.seen && f.life == m.life.(finished := true, killArmed := false)
      && Sent(f) == Sent(m) + AsOutput(LastLine(m.seen, o.maxLineBytes)) +
                    [Exited(m.life.closed.value, m.life.incomplete, m.life.timedOut)]
  {
    var last := LastLine(m.seen, o.maxLineBytes);
    var before := if last == [] then m else PushPlain(m, Stdout(last[0]));
    if last != [] { PushPlainSends(m, Stdout(last[0])); }
    assert Sent(before) == Sent(m) + AsOutput(last);
    PushPlainSends(before, Exited(m.life.closed.value, m.life.incomplete, m.life.timedOut));
  }

  /** The end of the session. */
  lemma FinishKeeps(o: Options, m: Machine)
    requires Inv(o, m) && !m.life.finished && m.life.closed.Some?
    ensures Inv(o, Finished(o, m))
  {
    FinishedSends(o, m);
    SentLastLine(o, Sent(m), m.seen, m.life);
    var sent := Sent(m) + AsOutput(LastLine(m.seen, o.maxLineBytes));
    SentExited(o, sent, m.seen, m.life.(finished := true, killArmed := false));
  }

  lemma SentSame(o: Options, sent: seq<Output>, seen: string, l: Life, w: Life)
    requires SentSound(o, sent, seen, l) && w.finished == l.finished && w.incomplete == l.incomplete
    requires w.finished ==> w.closed == l.closed && w.timedOut == l.timedOut
    ensures SentSound(o, sent, seen, w)
  {}

  /** The rest of the session's state, as long as it does not end. */
  lemma LifeKeeps(o: Options, m: Machine, l: Life)
    requires Inv(o, m) && LifeSound(l) && l.finished == m.life.finished && l.incomplete == m.life.incomplete
    requires l.finished ==> l.closed == m.life.closed && l.timedOut == m.life.timedOut
    ensures Inv(o, m.(life := l))
  {
    SentSame(o, Sent(m), m.seen, m.life, l);
  }

  lemma ConcludeKeeps(o: Options, m: Machine, now: int, work: bool)
    requires Inv(o, m) && !m.life.finished
    ensures Inv(o, Concluded(o, m, now, work))
  {
    if MustWait(m.life, work) { WaitKeeps(o, m, now); }
    else if m.life.closed.Some? { FinishKeeps(o, m); }
  }

  lemma SettleKeeps(o: Options, m: Machine, now: int, work: bool)
    requires Inv(o, m)
    ensures Inv(o, Settle(o, m, now, work))
  {
    if !m.life.finished && m.life.leaderExited {
      var n := m.(life := WithDeadline(o, m.life.(drainArmed := false), now));
      LifeKeeps(o, m, n.life);
      ConcludeKeeps(o, n, now, work);
    }
  }

  lemma OutputKeeps(o: Options, m: Machine, e: Event)
    requires Inv(o, m) && Enabled(m, e) && e.IsOutput()
    ensures Inv(o, Handle(o, m, e))
  {
    match e
    case DataEvent(chunk) => DataKeeps(o, m, chunk);
    case ErrorDataEvent(text) => PlainKeeps(o, m, Stderr(text), ByteLength(text));
    case QuietEvent => PlainKeeps(o, m, StderrQuiet, 0);
    case SpawnErrorEvent(text) => PlainKeeps(o, m, Stderr(text), 0);
    case TakeCall => TakeKeeps(o, m);
  }

  lemma ExitKeeps(o: Options, m: Machine, now: int, work: bool)
    requires Inv(o, m)
    ensures Inv(o, OnExit(o, m, now, work))
  {
    LifeKeeps(o, m, m.life.(leaderExited := true));
    SettleKeeps(o, m.(life := m.life.(leaderExited := true)), now, work);
  }

  lemma CloseKeeps(o: Options, m: Machine, code: int, now: int, work: bool)
    requires Inv(o, m) && m.life.closed.None?
    ensures Inv(o, OnClose(o, m, code, now, work))
  {
    LifeKeeps(o, m, m.life.(leaderExited := true, closed := Some(code)));
    SettleKeeps(o, m.(life := m.life.(leaderExited := true, closed := Some(code))), now, work);
  }

  lemma EventKeeps(o: Options, m: Machine, e: Event)
    requires Inv(o, m) && Enabled(m, e)
    ensures Inv(o, Handle(o, m, e))
  {
    match e
    case ExitEvent(now, work) => ExitKeeps(o, m, now, work);
    case CloseEvent(code, now, work) => CloseKeeps(o, m, code, now, work);
    case DrainEvent(now, work) => SettleKeeps(o, m, now, work);
    case KillEvent => LifeKeeps(o, m, KillTick(m.life));
    case TerminateCall => LifeKeeps(o, m, Terminate(m.life));
    case _ => OutputKeeps(o, m, e);
  }

  lemma {:induction false} RunInv(o: Options, events: seq<Event>)
    ensures Inv(o, Run(o, events))
    decreases |events|
  {
    if events != [] {
      var m := Run(o, events[..|events| - 1]);
      RunInv(o, events[..|events| - 1]);
      if Enabled(m, events[|events| - 1]) { EventKeeps(o, m, events[|events| - 1]); }
    }
  }

  // ---------------------------------------------------------------- what a session promises

  lemma ExitedIn(o: Options, m: Machine, sent: seq<Output>, k: nat)
    requires LifeSound(m.life) && SentSound(o, sent, m.seen, m.life)
    requires k < |sent| && sent[k].Exited?
    ensures k == |sent| - 1
    ensures m.life.finished && m.life.leaderExited && m.life.closed == Some(sent[k].code)
    ensures sent[k].timedOut ==> sent[k].incomplete
    ensures Count(sent, BackgroundWorkWaiting) == (if sent[k].incomplete then 1 else 0)
  {
    assert forall i | 0 <= i < |sent| - 1 :: sent[..|sent| - 1][i] == sent[i];
  }

  /** In every order of events the outcome is sent once and last, after the pipes have closed and the
      leader has exited; timed out implies incomplete, and incomplete that one notice was sent. */
  lemma ExitedOnceAndLast(o: Options, events: seq<Event>, k: nat)
    requires k < |Sent(Run(o, events))| && Sent(Run(o, events))[k].Exited?
    ensures var m := Run(o, events);
      && k == |Sent(m)| - 1
      && m.life.finished && m.life.leaderExited && m.life.closed == Some(Sent(m)[k].code)
      && (Sent(m)[k].timedOut ==> Sent(m)[k].incomplete)
      && Count(Sent(m), BackgroundWorkWaiting) == (if Sent(m)[k].incomplete then 1 else 0)
  {
    RunInv(o, events);
    ExitedIn(o, Run(o, events), Sent(Run(o, events)), k);
  }

  /** The lines sent are those of the whole stdout, however it was cut; the unterminated rest joins
      them at the end, when it fits. */
  lemma LinesAreTheOutput(o: Options, events: seq<Event>)
    ensures var m := Run(o, events);
      Lines(Sent(m)) ==
        if m.life.finished then FramedAtEnd(m.seen, o.maxLineBytes) else Framed(m.seen, o.maxLineBytes)
  {
    RunInv(o, events);
  }

  lemma {:induction false} PushLinesLife(m: Machine, items: seq<Item>)
    ensures PushLines(m, items).life == m.life
  {
    if items != [] { PushLinesLife(m, items[..|items| - 1]); }
  }

  lemma OutputLeavesLife(o: Options, m: Machine, e: Event)
    requires e.IsOutput()
    ensures Handle(o, m, e).life == m.life
  {
    if e.DataEvent? { PushLinesLife(m.(seen := m.seen + e.chunk), Completed(m.seen, e.chunk, o.maxLineBytes)); }
  }

  lemma NoWorkWhenFinishing(o: Options, m: Machine, now: int, work: bool)
    requires !m.life.finished && Settle(o, m, now, work).life.finished
    ensures m.life.deadline.Some? || o.timeoutMs.Some? || m.life.terminating ==> !work
  {}

  /** The event that ends a session with a drain limit, or one being terminated, finds no descendant
      at work. */
  lemma NoWorkAtTheEnd(o: Options, events: seq<Event>, e: Event)
    requires Enabled(Run(o, events), e) && !Run(o, events).life.finished
    requires Handle(o, Run(o, events), e).life.finished
    ensures e.ExitEvent? || e.CloseEvent? || e.DrainEvent?
    ensures o.deadlineAt.Some? || o.timeoutMs.Some? || Run(o, events).life.terminating ==> !e.work
  {
    DeadlineKnown(o, events);
    var m := Run(o, events);
    match e
    case ExitEvent(now, work) => NoWorkWhenFinishing(o, m.(life := m.life.(leaderExited := true)), now, work);
    case CloseEvent(code, now, work) =>
      NoWorkWhenFinishing(o, m.(life := m.life.(leaderExited := true, closed := Some(code))), now, work);
    case DrainEvent(now, work) => NoWorkWhenFinishing(o, m, now, work);
    case KillEvent | TerminateCall =>
    case _ => OutputLeavesLife(o, m, e);
  }

  lemma {:induction false} DeadlineKnown(o: Options, events: seq<Event>)
    ensures o.deadlineAt.Some? ==> Run(o, events).life.deadline.Some?
    decreases |events|
  {
    if events != [] {
      DeadlineKnown(o, events[..|events| - 1]);
      var m := Run(o, events[..|events| - 1]);
      if m.life.deadline.Some? { DeadlineStays(o, m, events[|events| - 1]); }
    }
  }

  lemma SettleDeadline(o: Options, m: Machine, now: int, work: bool)
    requires m.life.deadline.Some?
    ensures Settle(o, m, now, work).life.deadline == m.life.deadline
  {}

  lemma ExitDeadline(o: Options, m: Machine, now: int, work: bool)
    requires m.life.deadline.Some?
    ensures OnExit(o, m, now, work).life.deadline == m.life.deadline
  {
    SettleDeadline(o, m.(life := m.life.(leaderExited := true)), now, work);
  }

  lemma CloseDeadline(o: Options, m: Machine, code: int, now: int, work: bool)
    requires m.life.deadline.Some?
    ensures OnClose(o, m, code, now, work).life.deadline == m.life.deadline
  {
    SettleDeadline(o, m.(life := m.life.(leaderExited := true, closed := Some(code))), now, work);
  }

  lemma DeadlineStays(o: Options, m: Machine, e: Event)
    requires m.life.deadline.Some?
    ensures Handle(o, m, e).life.deadline == m.life.deadline
  {
    if e.IsOutput() { OutputLeavesLife(o, m, e); }
    else {
      match e
      case ExitEvent(now, work) => ExitDeadline(o, m, now, work);
      case CloseEvent(code, now, work) => CloseDeadline(o, m, code, now, work);
      case DrainEvent(now, work) => SettleDeadline(o, m, now, work);
      case _ =>
    }
  }

  /** The child's output is paused only while something waits for the consumer. */
  lemma PausedOnlyWhileBuffered(o: Options, events: seq<Event>)
    ensures Run(o, events).paused ==> Run(o, events).queue.buffered != []
  {
    RunInv(o, events);
  }

  function TakeAll(n: nat): seq<Event> {
    if n == 0 then [] else TakeAll(n - 1) + [TakeCall]
  }

  lemma TakeOne(m: Machine)
    requires QueueSound(m) && m.queue.buffered != []
    ensures !m.queue.waiter && |Take(m).queue.buffered| == |m.queue.buffered| - 1
    ensures |m.queue.buffered| == 1 ==> !Take(m).paused
  {}

  lemma RunSnoc(o: Options, events: seq<Event>, e: Event)
    ensures Run(o, events + [e]) ==
      if Enabled(Run(o, events), e) then Handle(o, Run(o, events), e) else Run(o, events)
  {
    assert (events + [e])[..|events|] == events;
  }

  lemma QueueStaysSound(o: Options, events: seq<Event>)
    ensures QueueSound(Run(o, events))
  {
    RunInv(o, events);
  }

  lemma RunTake(o: Options, events: seq<Event>)
    requires Run(o, events).queue.buffered != []
    ensures var m, t := Run(o, events), Run(o, events + [TakeCall]);
      && |t.queue.buffered| == |m.queue.buffered| - 1
      && (|m.queue.buffered| == 1 ==> !t.paused)
  {
    QueueStaysSound(o, events);
    TakeOne(Run(o, events));
    RunSnoc(o, events, TakeCall);
  }

  /** A consumer that takes what waits resumes the child, from every state of a session. */
  lemma {:induction false} TakingResumes(o: Options, events: seq<Event>, n: nat)
    requires n <= |Run(o, events).queue.buffered|
    ensures var m := Run(o, events + TakeAll(n));
      && |m.queue.buffered| == |Run(o, events).queue.buffered| - n
      && (n == |Run(o, events).queue.buffered| ==> !m.paused)
  {
    if n == 0 {
      assert events + TakeAll(0) == events;
      PausedOnlyWhileBuffered(o, events);
    } else {
      TakingResumes(o, events, n - 1);
      var before := events + TakeAll(n - 1);
      assert events + TakeAll(n) == before + [TakeCall];
      RunTake(o, before);
    }
  }

  /** Once termination was asked for and until the session ends, the group is killed or will be: the
      leader's exit does not call that off. */
  lemma TerminationEscalates(o: Options, events: seq<Event>)
    requires Run(o, events).life.terminating
    ensures var l := Run(o, events).life;
      Term in l.signals && (l.finished || l.killArmed || Kill in l.signals)
  {
    RunInv(o, events);
  }
}
