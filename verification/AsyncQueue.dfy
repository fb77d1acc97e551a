/** The queue between a supervised child's output and its one consumer
(packages/agents/src/process.ts, lines 55-134).

The functions say what each call does to the queue's state and to what the consumer has been
given; the class does it on fields.  `Conservation` is about every order of calls. */
module AsyncQueues {
  const HIGH_WATER_ITEMS := 1000
  const HIGH_WATER_BYTES := 16 * 1024 * 1024

  datatype Entry<T> = Entry(item: T, weight: nat)

  /** `delivered` and `ended` are what the consumer has seen: its items, and the end of the queue. */
  datatype Queue<T> = Queue(buffered: seq<Entry<T>>, waiter: bool, closed: bool, weight: int,
                            delivered: seq<T>, ended: bool)

  function Empty<T>(): Queue<T> {
    Queue([], false, false, 0, [], false)
  }

  predicate Full<T>(q: Queue<T>) {
    |q.buffered| >= HIGH_WATER_ITEMS || q.weight >= HIGH_WATER_BYTES
  }

  function Pushed<T>(q: Queue<T>, item: T, weight: nat): Queue<T> {
    if q.closed then q
    else if q.waiter then q.(waiter := false, delivered := q.delivered + [item])
    else q.(buffered := q.buffered + [Entry(item, weight)], weight := q.weight + weight)
  }

  function Closed<T>(q: Queue<T>): Queue<T> {
    q.(closed := true, waiter := false, ended := q.ended || q.waiter)
  }

  /** The consumer asks for its next item. */
  function Taken<T>(q: Queue<T>): Queue<T> {
    if q.buffered != [] then
      q.(buffered := q.buffered[1..], weight := q.weight - q.buffered[0].weight,
         delivered := q.delivered + [q.buffered[0].item])
    else if q.closed then q.(ended := true)
    else q.(waiter := true)
  }

  /** Whether that call took the last buffered item, and so runs `onDrained`. */
  predicate Drains<T>(q: Queue<T>) {
    |q.buffered| == 1
  }

  function Items<T>(entries: seq<Entry<T>>): seq<T> {
    seq(|entries|, i requires 0 <= i < |entries| => entries[i].item)
  }

  function Weight<T>(entries: seq<Entry<T>>): nat {
    if entries == [] then 0 else entries[0].weight + Weight(entries[1..])
  }

  class AsyncQueue<T> {
    var buffered: seq<Entry<T>>
    var waiter: bool
    var closed: bool
    var weight: int
    ghost var delivered: seq<T>
    ghost var ended: bool

    constructor ()
      ensures State() == Empty()
    {
      buffered, waiter, closed, weight := [], false, false, 0;
      delivered, ended := [], false;
    }

    ghost function State(): Queue<T>
      reads this
    {
      Queue(buffered, waiter, closed, weight, delivered, ended)
    }

    method IsFull() returns (full: bool)
      ensures full == Full(State())
    {
      full := |buffered| >= HIGH_WATER_ITEMS || weight >= HIGH_WATER_BYTES;
    }

    method Push(item: T, weight: nat)
      modifies this
      ensures State() == Pushed(old(State()), item, weight)
    {
      if closed { return; }
      if waiter {
        waiter := false;
        delivered := delivered + [item];
        return;
      }
      buffered := buffered + [Entry(item, weight)];
      this.weight := this.weight + weight;
    }

    method Close()
      modifies this
      ensures State() == Closed(old(State()))
    {
      closed := true;
      if waiter {
        waiter := false;
        ended := true;
      }
    }

    /** `drained` says that the producer's callback is to run. */
    method Next() returns (drained: bool)
      modifies this
      ensures State() == Taken(old(State()))
      ensures drained == Drains(old(State()))
    {
      drained := false;
      if buffered != [] {
        var entry := buffered[0];
        buffered := buffered[1..];
        weight := weight - entry.weight;
        delivered := delivered + [entry.item];
        drained := buffered == [];
        return;
      }
      if closed { ended := true; } else { waiter := true; }
    }
  }

  // ---------------------------------------------------------------- every order of calls

  datatype Call<T> = CallPush(item: T, weight: nat) | CallClose | CallNext

  /** One consumer: it asks again only once its last call was answered. */
  predicate Enabled<T>(q: Queue<T>, c: Call<T>) {
    c.CallNext? ==> !q.waiter
  }

  function Apply<T>(q: Queue<T>, c: Call<T>): Queue<T> {
    match c
    case CallPush(item, weight) => Pushed(q, item, weight)
    case CallClose => Closed(q)
    case CallNext => Taken(q)
  }

  /** The queue after some calls; calls of a consumer still waiting are left out. */
  function Run<T>(calls: seq<Call<T>>): Queue<T> {
    if calls == [] then Empty()
    else
      var q := Run(calls[..|calls| - 1]);
      if Enabled(q, calls[|calls| - 1]) then Apply(q, calls[|calls| - 1]) else q
  }

  predicate Closes<T>(calls: seq<Call<T>>) {
    exists k | 0 <= k < |calls| :: calls[k].CallClose?
  }

  /** The items pushed before the first close. */
  function PushedBeforeClose<T>(calls: seq<Call<T>>): seq<T> {
    if calls == [] then []
    else
      var before, c := calls[..|calls| - 1], calls[|calls| - 1];
      PushedBeforeClose(before) + (if c.CallPush? && !Closes(before) then [c.item] else [])
  }

  lemma ClosesSnoc<T>(calls: seq<Call<T>>)
    requires calls != []
    ensures Closes(calls) == (Closes(calls[..|calls| - 1]) || calls[|calls| - 1].CallClose?)
  {
    var before := calls[..|calls| - 1];
    if k :| 0 <= k < |before| && before[k].CallClose? { assert calls[k].CallClose?; }
    if k :| 0 <= k < |calls| && calls[k].CallClose? { assert k < |before| ==> before[k].CallClose?; }
  }

  lemma {:induction false} WeightSnoc<T>(entries: seq<Entry<T>>, e: Entry<T>)
    ensures Weight(entries + [e]) == Weight(entries) + e.weight
  {
    if entries == [] {
      assert entries + [e] == [e];
    } else {
      assert (entries + [e])[1..] == entries[1..] + [e];
      WeightSnoc(entries[1..], e);
    }
  }

  /** What a queue has been given so far, and whether it was closed. */
  ghost predicate Conserves<T>(q: Queue<T>, pushed: seq<T>, closes: bool) {
    && q.delivered + Items(q.buffered) == pushed
    && q.weight == Weight(q.buffered)
    && q.closed == closes
    && (q.waiter ==> q.buffered == [] && !q.closed)
    && (q.ended ==> q.buffered == [] && q.closed)
  }

  lemma PushConserves<T>(q: Queue<T>, pushed: seq<T>, closes: bool, item: T, weight: nat)
    requires Conserves(q, pushed, closes)
    ensures Conserves(Pushed(q, item, weight), pushed + (if closes then [] else [item]), closes)
  {
    WeightSnoc(q.buffered, Entry(item, weight));
    assert Items(q.buffered + [Entry(item, weight)]) == Items(q.buffered) + [item];
  }

  lemma NextConserves<T>(q: Queue<T>, pushed: seq<T>, closes: bool)
    requires Conserves(q, pushed, closes) && !q.waiter
    ensures Conserves(Taken(q), pushed, closes)
  {
    if q.buffered != [] {
      assert Items(q.buffered) == [q.buffered[0].item] + Items(q.buffered[1..]);
    }
  }

  /** Nothing is lost, repeated or put out of order: what the consumer was given, then what waits for
      it, is what was pushed before the first close; the weight is what waits; and the end is told
      only once nothing waits. */
  lemma {:induction false} Conservation<T>(calls: seq<Call<T>>)
    ensures Run(calls).delivered + Items(Run(calls).buffered) == PushedBeforeClose(calls)
    ensures Run(calls).weight == Weight(Run(calls).buffered)
    ensures Run(calls).closed == Closes(calls)
    ensures Run(calls).waiter ==> Run(calls).buffered == [] && !Run(calls).closed
    ensures Run(calls).ended ==> Run(calls).buffered == [] && Run(calls).closed
    decreases |calls|
  {
    if calls != [] {
      var before, c := calls[..|calls| - 1], calls[|calls| - 1];
      var q := Run(before);
      Conservation(before);
      ClosesSnoc(calls);
      match c
      case CallPush(item, weight) => PushConserves(q, PushedBeforeClose(before), Closes(before), item, weight);
      case CallNext => if !q.waiter { NextConserves(q, PushedBeforeClose(before), Closes(before)); }
      case CallClose =>
    }
  }

  /** Every call of the consumer is answered: with the next item while one waits, then with the end once the
      queue is closed, and else by the push or the close that comes next. */
  lemma NextAnswers<T>(calls: seq<Call<T>>, item: T, weight: nat)
    requires !Run(calls).waiter
    ensures var q, r := Run(calls), Taken(Run(calls));
      if q.buffered != [] then r.delivered == q.delivered + [q.buffered[0].item] && |r.buffered| == |q.buffered| - 1
      else if q.closed then r.ended && r.delivered == q.delivered
      else r.waiter && Closed(r).ended && !Closed(r).waiter &&
           Pushed(r, item, weight).delivered == q.delivered + [item] && !Pushed(r, item, weight).waiter
  {
    Conservation(calls);
  }
}
