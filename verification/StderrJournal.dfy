/** What of a run's stderr is journaled (packages/agents/src/stderr-journal.ts).

Text is taken in chunks, batched into events of at most 8 KiB, at most 1 MiB in all; a partial batch
goes out when stderr is quiet, unless it is blank.  Event texts are kept here as their UTF-8 bytes,
which decode to what is journaled. */
module StderrJournals {
  import opened Basics
  import opened Utf8

  const RUN_BUDGET_BYTES: nat := 1024 * 1024
  const EVENT_LIMIT_BYTES: nat := 8 * 1024

  datatype Event = StderrEvent(text: seq<byte>) | SuppressedNotice

  /** Bytes that left the pending buffer: a full batch, or what a flush found. */
  datatype Batch = Batch(bytes: seq<byte>, flushed: bool)

  predicate TwoByteSpace(x: byte, y: byte) {
    x == 0xC2 && y == 0xA0
  }

  predicate ThreeByteSpace(x: byte, y: byte, z: byte) {
    || (x == 0xE1 && y == 0x9A && z == 0x80)
    || (x == 0xE2 && y == 0x80 && (0x80 <= z <= 0x8A || z == 0xA8 || z == 0xA9 || z == 0xAF))
    || (x == 0xE2 && y == 0x81 && z == 0x9F)
    || (x == 0xE3 && y == 0x80 && z == 0x80)
    || (x == 0xEF && y == 0xBB && z == 0xBF)
  }

  /** The length of the white space character (as `trim` knows it) that `b` begins with, or 0. */
  function SpaceLength(b: seq<byte>): (n: nat)
    ensures n <= |b|
  {
    if |b| >= 1 && (0x09 <= b[0] <= 0x0D || b[0] == 0x20) then 1
    else if |b| >= 2 && TwoByteSpace(b[0], b[1]) then 2
    else if |b| >= 3 && ThreeByteSpace(b[0], b[1], b[2]) then 3
    else 0
  }

  predicate Blank(b: seq<byte>)
    decreases |b|
  {
    b == [] || (SpaceLength(b) > 0 && Blank(b[SpaceLength(b)..]))
  }

  /** Blank is what has no character but white space. */
  lemma {:induction false} BlankExactly(b: seq<byte>)
    requires WellFormed(b)
    ensures Blank(b) <==> forall p | p in PointsOf(b) :: White(p)
    decreases |b|
  {
    if b != [] {
      SpaceIsWhite(b);
      BlankExactly(b[CharLength(b)..]);
    }
  }

  lemma SpaceIsWhite(b: seq<byte>)
    requires CharLength(b) > 0
    ensures SpaceLength(b) == if White(PointAt(b)) then CharLength(b) else 0
  {
    match CharLength(b) {
      case 1 =>
      case 2 =>
      case 3 => ThreeByteWhite(b[0], b[1], b[2]);
      case _ =>
    }
  }

  lemma ThreeByteWhite(x: byte, y: byte, z: byte)
    requires 0xE0 <= x <= 0xEF && Tail(y) && Tail(z)
    ensures ThreeByteSpace(x, y, z) <==> ThreeBytes(x, y, z) > 0xA0 && White(ThreeBytes(x, y, z))
  {}

  /** The events of some batches: a blank one that a flush found is left out. */
  function EventsOf(batches: seq<Batch>): seq<Event> {
    if batches == [] then []
    else
      var last := batches[|batches| - 1];
      EventsOf(batches[..|batches| - 1]) +
      (if last.flushed && Blank(last.bytes) then [] else [StderrEvent(last.bytes)])
  }

  /** The bytes of some batches, in order. */
  function BytesOf(batches: seq<Batch>): seq<byte> {
    if batches == [] then [] else BytesOf(batches[..|batches| - 1]) + batches[|batches| - 1].bytes
  }

  predicate SoundBytes(b: seq<byte>) {
    |b| <= EVENT_LIMIT_BYTES && WellFormed(b)
  }

  /** A batch that was cut is full, but for a character that did not fit. */
  predicate SoundBatch(b: Batch) {
    SoundBytes(b.bytes) && (b.flushed || |b.bytes| + 3 >= EVENT_LIMIT_BYTES)
  }

  predicate Sound(batches: seq<Batch>) {
    forall k | 0 <= k < |batches| :: SoundBatch(batches[k])
  }

  /** One more batch. */
  lemma Append(batches: seq<Batch>, b: Batch)
    ensures BytesOf(batches + [b]) == BytesOf(batches) + b.bytes
    ensures EventsOf(batches + [b]) ==
      EventsOf(batches) + (if b.flushed && Blank(b.bytes) then [] else [StderrEvent(b.bytes)])
    ensures Sound(batches) && SoundBatch(b) ==> Sound(batches + [b])
  {
    assert (batches + [b])[..|batches|] == batches;
  }

  /** The prefix that fits stays the longest one when more text follows it. */
  lemma LongestExtends(b: seq<byte>, more: seq<byte>, limit: nat, e: nat)
    requires WellFormed(b) && WellFormed(more) && LongestWithin(b, limit, e)
    requires limit <= |b| || more == []
    ensures LongestWithin(b + more, limit, e)
  {
    assert b + [] == b;
    assert forall k | 0 <= k <= |b| :: (b + more)[..k] == b[..k];
  }

  /** What a chunk adds to the longest prefix of the text before it, when that all fitted. */
  lemma LongestOfChunk(input: seq<byte>, chunk: seq<byte>, limit: nat, e: nat)
    requires WellFormed(input) && WellFormed(chunk) && |input| <= limit
    requires LongestWithin(chunk, limit - |input|, e)
    ensures LongestWithin(input + chunk, limit, |input| + e)
  {
    var whole := input + chunk;
    assert chunk[..|chunk|] == chunk;
    assert whole[..|input| + e] == input + chunk[..e];
    Concatenates(input, chunk[..e]);
    Concatenates(input, chunk);
    forall k | |input| + e < k <= limit && k <= |whole| ensures !WellFormed(whole[..k]) {
      if WellFormed(whole[..k]) {
        EndsInChunk(input, chunk, whole, k);
        assert false;
      }
    }
  }

  /** A well-formed prefix that ends in the chunk holds a well-formed prefix of the chunk. */
  lemma EndsInChunk(input: seq<byte>, chunk: seq<byte>, whole: seq<byte>, k: nat)
    requires whole == input + chunk && WellFormed(whole) && WellFormed(chunk) && |input| <= k <= |whole|
    requires WellFormed(whole[..k])
    ensures WellFormed(chunk[..k - |input|])
  {
    var j := k - |input|;
    if j < |chunk| {
      CleanCut(whole, k);
      assert whole[k] == chunk[j];
      CutsCleanly(chunk, j);
    } else {
      assert chunk[..j] == chunk;
    }
  }

  lemma AllFits(b: seq<byte>, limit: nat)
    requires WellFormed(b) && |b| <= limit
    ensures LongestWithin(b, limit, |b|)
  {
    assert b[..|b|] == b;
  }

  /** A position between two characters of a well-formed text. */
  predicate Boundary(text: seq<byte>, k: nat) {
    k <= |text| && (k < |text| ==> !Tail(text[k]))
  }

  /** Some batches and a rest make up a text; no character is split, and no batch is too large. */
  predicate Splits(batches: seq<Batch>, rest: seq<byte>, text: seq<byte>) {
    Sound(batches) && text == BytesOf(batches) + rest && Boundary(rest, 0)
  }

  lemma RestIsWellFormed(batches: seq<Batch>, rest: seq<byte>, text: seq<byte>)
    requires Splits(batches, rest, text) && WellFormed(text)
    ensures WellFormed(rest)
  {
    var n := |BytesOf(batches)|;
    assert text[n..] == rest;
    CutsCleanly(text, n);
  }

  lemma Rejoins(a: seq<byte>, b: seq<byte>, k: nat)
    requires k <= |b|
    ensures (a + b[..k]) + b[k..] == a + b
  {}

  /** Moving the front of the rest into a batch. */
  lemma SplitsOff(batches: seq<Batch>, rest: seq<byte>, text: seq<byte>, end: nat, flushed: bool)
    requires Splits(batches, rest, text) && WellFormed(text)
    requires end <= |rest| && end <= EVENT_LIMIT_BYTES && Boundary(rest, end)
    requires flushed || end + 3 >= EVENT_LIMIT_BYTES
    ensures Splits(batches + [Batch(rest[..end], flushed)], rest[end..], text)
  {
    RestIsWellFormed(batches, rest, text);
    CutsCleanly(rest, end);
    Append(batches, Batch(rest[..end], flushed));
    Rejoins(BytesOf(batches), rest, end);
  }

  /** A batch cut at the event limit ends between characters, at most three bytes short. */
  lemma CutBatch(rest: seq<byte>, end: nat)
    requires WellFormed(rest) && |rest| >= EVENT_LIMIT_BYTES && end == EndWithin(rest, EVENT_LIMIT_BYTES)
    ensures end <= |rest| && end <= EVENT_LIMIT_BYTES <= end + 3 && Boundary(rest, end)
  {
    if |rest| > EVENT_LIMIT_BYTES { BackOffEnds(rest, EVENT_LIMIT_BYTES); }
  }

  /** One more full batch. */
  lemma CutOff(batches: seq<Batch>, rest: seq<byte>, text: seq<byte>, end: nat)
    requires Splits(batches, rest, text) && WellFormed(text) && |rest| >= EVENT_LIMIT_BYTES
    requires end == EndWithin(rest, EVENT_LIMIT_BYTES)
    ensures 0 < end <= |rest| && Splits(batches + [Batch(rest[..end], false)], rest[end..], text)
    ensures EventsOf(batches + [Batch(rest[..end], false)]) == EventsOf(batches) + [StderrEvent(rest[..end])]
    ensures Cut(batches, batches + [Batch(rest[..end], false)])
  {
    RestIsWellFormed(batches, rest, text);
    CutBatch(rest, end);
    SplitsOff(batches, rest, text, end, false);
    Append(batches, Batch(rest[..end], false));
  }

  /** More batches, none of them flushed. */
  ghost predicate Cut(before: seq<Batch>, after: seq<Batch>) {
    before <= after && forall k | |before| <= k < |after| :: !after[k].flushed
  }

  /** One more full batch, after those since some batches. */
  lemma CutNext(batches: seq<Batch>, left: seq<Batch>, events: seq<Event>, rest: seq<byte>, text: seq<byte>, end: nat)
    requires Splits(left, rest, text) && WellFormed(text) && |rest| >= EVENT_LIMIT_BYTES
    requires EventsOf(left) == EventsOf(batches) + events && Cut(batches, left)
    requires end == EndWithin(rest, EVENT_LIMIT_BYTES)
    ensures 0 < end <= |rest| && Splits(left + [Batch(rest[..end], false)], rest[end..], text)
    ensures EventsOf(left + [Batch(rest[..end], false)]) == EventsOf(batches) + (events + [StderrEvent(rest[..end])])
    ensures Cut(batches, left + [Batch(rest[..end], false)])
  {
    CutOff(left, rest, text, end);
    EventsJoin(EventsOf(batches), events, [StderrEvent(rest[..end])]);
  }

  lemma EventsJoin(a: seq<Event>, b: seq<Event>, c: seq<Event>)
    ensures (a + b) + c == a + (b + c)
  {}

  /** More batches, the last of them alone flushed. */
  ghost predicate CutAndFlushed(before: seq<Batch>, after: seq<Batch>) {
    after != [] && after[|after| - 1].flushed && Cut(before, after[..|after| - 1])
  }

  /** The notice comes last. */
  function WithNotice(events: seq<Event>, suppressed: bool): seq<Event> {
    if suppressed then events + [SuppressedNotice] else events
  }

  lemma BeforeNotice(events: seq<Event>, more: seq<Event>, suppressed: bool)
    requires suppressed ==> more == []
    ensures WithNotice(events, suppressed) + more == WithNotice(events + more, suppressed)
  {}

  lemma JoinsOn(a: seq<Event>, b: seq<Event>, c: seq<Event>, d: seq<Event>)
    ensures a + (b + c + d) == a + b + c + d
  {}

  /** What was kept of the text is the longest prefix that fits the budget and splits no character. */
  ghost predicate InBudget(input: seq<byte>, kept: seq<byte>, accepted: nat) {
    WellFormed(input) && LongestWithin(input, RUN_BUDGET_BYTES, accepted) && kept == input[..accepted]
  }

  lemma Admits(input: seq<byte>, text: seq<byte>, end: nat)
    requires WellFormed(input) && |input| <= RUN_BUDGET_BYTES
    requires WellFormed(text) && end == EndWithin(text, RUN_BUDGET_BYTES - |input|)
    ensures end <= |text| && WellFormed(text[..end])
    ensures InBudget(input + text, input + text[..end], |input| + end)
  {
    AcceptsLongest(input, text, end);
  }

  lemma DropsFurther(b: seq<byte>, n: nat, k: nat)
    requires n + k <= |b|
    ensures b[n..][k..] == b[n + k..]
  {}

  class StderrJournal {
    var pending: seq<byte>
    var accepted: nat
    var suppressed: bool
    ghost var input: seq<byte>       // all the text written
    ghost var kept: seq<byte>        // what of it was accepted
    ghost var batches: seq<Batch>    // all that left `pending`
    ghost var journal: seq<Event>    // all the events returned

    constructor ()
      ensures Valid() && input == [] && journal == []
    {
      pending, accepted, suppressed := [], 0, false;
      input, kept, batches, journal := [], [], [], [];
    }

    /** What has left `pending` and what is there make up what was accepted. */
    ghost predicate Batched()
      reads `pending, `accepted, `kept, `batches
    {
      |pending| < EVENT_LIMIT_BYTES && Splits(batches, pending, kept) && WellFormed(kept) && accepted == |kept|
    }

    /** The journaled batches and what is pending are, blank flushed batches included, the longest
        prefix of the text that fits the budget and splits no character; the notice is the last event,
        once, exactly when the budget was exceeded. */
    ghost predicate Valid()
      reads this
    {
      Batched() && Budgeted() && Journaled() && suppressed == (|input| > RUN_BUDGET_BYTES)
    }

    ghost predicate Journaled()
      reads `pending, `suppressed, `batches, `journal
    {
      && journal == WithNotice(EventsOf(batches), suppressed)
      && (suppressed ==> pending == [])
    }

    /** Journals full batches while there are any. */
    method Batches() returns (events: seq<Event>)
      requires Splits(batches, pending, kept) && WellFormed(kept) && accepted == |kept|
      modifies this`pending, this`batches
      ensures Batched() && EventsOf(batches) == old(EventsOf(batches)) + events && Cut(old(batches), batches)
    {
      events, batches, pending := CutBatches(batches, pending, kept);
    }

    /** The batching loop. */
    static method CutBatches(ghost batches: seq<Batch>, pending: seq<byte>, ghost kept: seq<byte>)
      returns (events: seq<Event>, ghost left: seq<Batch>, rest: seq<byte>)
      requires Splits(batches, pending, kept) && WellFormed(kept)
      ensures Splits(left, rest, kept) && |rest| < EVENT_LIMIT_BYTES
      ensures EventsOf(left) == EventsOf(batches) + events && Cut(batches, left)
    {
      events := [];
      var offset := 0;
      left := batches;
      assert pending[0..] == pending;
      while |pending| - offset >= EVENT_LIMIT_BYTES
        invariant offset <= |pending|
        invariant Splits(left, pending[offset..], kept)
        invariant EventsOf(left) == EventsOf(batches) + events && Cut(batches, left)
      {
        var tail := pending[offset..];
        var end := CharacterEnd(tail, EVENT_LIMIT_BYTES);
        CutNext(batches, left, events, tail, kept, end);
        DropsFurther(pending, offset, end);
        left := left + [Batch(tail[..end], false)];
        events := events + [StderrEvent(tail[..end])];
        offset := offset + end;
      }
      rest := pending[offset..];
    }

    /** The budget's side of the invariant. */
    ghost predicate Budgeted()
      reads `accepted, `input, `kept
    {
      InBudget(input, kept, accepted)
    }

    /** How much of a chunk the budget lets in; `over` says that it is not all. */
    static method Admit(ghost input: seq<byte>, ghost kept: seq<byte>, accepted: nat, text: seq<byte>)
      returns (end: nat, over: bool)
      requires InBudget(input, kept, accepted) && |input| <= RUN_BUDGET_BYTES && WellFormed(text)
      ensures end <= |text| && WellFormed(text[..end]) && InBudget(input + text, kept + text[..end], accepted + end)
      ensures over == (|input| + |text| > RUN_BUDGET_BYTES)
    {
      AllAccepted(input, accepted);
      var room := RUN_BUDGET_BYTES - accepted;
      end := CharacterEnd(text, room);
      Admits(input, text, end);
      over := |text| > room;
    }

    /** Keeps what of a chunk the budget lets in. */
    method Accept(text: seq<byte>) returns (over: bool)
      requires Batched() && Budgeted() && |input| <= RUN_BUDGET_BYTES && WellFormed(text)
      modifies this`input, this`kept, this`accepted, this`pending
      ensures Budgeted() && input == old(input) + text && over == (|input| > RUN_BUDGET_BYTES)
      ensures Splits(batches, pending, kept) && WellFormed(kept) && accepted == |kept|
    {
      var end;
      end, over := Admit(input, kept, accepted, text);
      SplitsMore(batches, pending, kept, text[..end]);
      input, kept, accepted := input + text, kept + text[..end], accepted + end;
      pending := pending + text[..end];
    }

    /** Nothing changes for text past the budget, or for no text. */
    ghost method Ignore(text: seq<byte>)
      requires Valid() && WellFormed(text) && (suppressed || text == [])
      modifies this`input
      ensures Valid() && input == old(input) + text
    {
      IgnoresMore(input, text, accepted);
      input := input + text;
    }

    /** Journals full batches, and past the budget the rest and the notice. */
    method Journal(over: bool) returns (events: seq<Event>)
      requires Splits(batches, pending, kept) && WellFormed(kept) && accepted == |kept|
      requires journal == EventsOf(batches) && !suppressed
      modifies this`pending, this`batches, this`journal, this`suppressed
      ensures Batched() && Journaled() && suppressed == over
      ensures journal == old(journal) + events
      ensures if over then CutAndFlushed(old(batches), batches) else Cut(old(batches), batches)
    {
      events := Batches();
      if over {
        suppressed := true;
        var last := FlushPending();
        JoinsOn(journal, events, last, [SuppressedNotice]);
        events := events + last + [SuppressedNotice];
      }
      journal := journal + events;
    }

    /** Text within the budget so far. */
    method Take(text: seq<byte>) returns (events: seq<Event>)
      requires Valid() && WellFormed(text) && !suppressed
      modifies this
      ensures Valid() && input == old(input) + text && journal == old(journal) + events
      ensures if suppressed then CutAndFlushed(old(batches), batches) else Cut(old(batches), batches)
    {
      var over := Accept(text);
      events := Journal(over);
    }

    /** Full batches go out at once; the text that exceeds the budget takes the rest with it, and a notice. */
    method Write(text: seq<byte>) returns (events: seq<Event>)
      requires Valid() && WellFormed(text)
      modifies this
      ensures Valid() && input == old(input) + text && journal == old(journal) + events
      ensures
        if suppressed && !old(suppressed) then CutAndFlushed(old(batches), batches) else Cut(old(batches), batches)
    {
      if suppressed || text == [] {
        Ignore(text);
        return [];
      }
      events := Take(text);
    }

    /** What is still pending goes out, unless it is blank. */
    method FlushPending() returns (events: seq<Event>)
      requires Batched()
      modifies this`pending, this`batches
      ensures Batched() && pending == [] && EventsOf(batches) == old(EventsOf(batches)) + events
      ensures batches == old(batches) + [Batch(old(pending), true)]
      ensures old(pending) == [] ==> events == []
    {
      FlushedOff(batches, pending, kept);
      events := if Blank(pending) then [] else [StderrEvent(pending)];
      batches := batches + [Batch(pending, true)];
      pending := [];
    }

    method FlushJournal() returns (events: seq<Event>)
      requires Batched() && Journaled()
      modifies this`pending, this`batches, this`journal
      ensures Batched() && Journaled() && pending == [] && journal == old(journal) + events
      ensures batches == old(batches) + [Batch(old(pending), true)]
    {
      ghost var before := EventsOf(batches);
      events := FlushPending();
      BeforeNotice(before, events, suppressed);
      journal := journal + events;
    }

    /** What is pending leaves as one batch, journaled unless it is blank. */
    method Flush() returns (events: seq<Event>)
      requires Valid()
      modifies this`pending, this`batches, this`journal
      ensures Valid() && pending == [] && journal == old(journal) + events
      ensures batches == old(batches) + [Batch(old(pending), true)]
    {
      assert Budgeted();
      events := FlushJournal();
      assert Budgeted() && (suppressed == (|input| > RUN_BUDGET_BYTES));
    }
  }

  /** Until the budget is exceeded everything is accepted. */
  lemma AllAccepted(input: seq<byte>, accepted: nat)
    requires WellFormed(input) && |input| <= RUN_BUDGET_BYTES && LongestWithin(input, RUN_BUDGET_BYTES, accepted)
    ensures accepted == |input| && input[..accepted] == input
  {
    AllFits(input, RUN_BUDGET_BYTES);
    LongestUnique(input, RUN_BUDGET_BYTES, accepted, |input|);
  }

  /** The kept part of a chunk is as much as the budget lets in. */
  lemma AcceptsLongest(input: seq<byte>, text: seq<byte>, end: nat)
    requires WellFormed(input) && WellFormed(text) && |input| <= RUN_BUDGET_BYTES
    requires end == EndWithin(text, RUN_BUDGET_BYTES - |input|)
    ensures end <= |text| && WellFormed(text[..end]) && WellFormed(input + text)
    ensures LongestWithin(input + text, RUN_BUDGET_BYTES, |input| + end)
    ensures (input + text)[..|input| + end] == input + text[..end]
  {
    EndIsLongest(text, RUN_BUDGET_BYTES - |input|);
    LongestOfChunk(input, text, RUN_BUDGET_BYTES, end);
    Concatenates(input, text);
  }

  lemma IgnoresMore(input: seq<byte>, text: seq<byte>, accepted: nat)
    requires WellFormed(input) && WellFormed(text) && LongestWithin(input, RUN_BUDGET_BYTES, accepted)
    requires RUN_BUDGET_BYTES < |input| || text == []
    ensures WellFormed(input + text) && LongestWithin(input + text, RUN_BUDGET_BYTES, accepted)
    ensures (input + text)[..accepted] == input[..accepted]
  {
    LongestExtends(input, text, RUN_BUDGET_BYTES, accepted);
    Concatenates(input, text);
  }

  lemma FirstOfMore(more: seq<byte>)
    requires WellFormed(more)
    ensures Boundary(more, 0)
  {
    CharBytes(more);
  }

  lemma Reassociates(a: seq<byte>, b: seq<byte>, c: seq<byte>)
    ensures (a + b) + c == a + (b + c)
  {}

  lemma SplitsMore(batches: seq<Batch>, pending: seq<byte>, kept: seq<byte>, more: seq<byte>)
    requires Splits(batches, pending, kept) && WellFormed(kept) && WellFormed(more)
    ensures Splits(batches, pending + more, kept + more) && WellFormed(kept + more)
  {
    Concatenates(kept, more);
    FirstOfMore(more);
    Reassociates(BytesOf(batches), pending, more);
  }

  lemma FlushedOff(batches: seq<Batch>, pending: seq<byte>, kept: seq<byte>)
    requires Splits(batches, pending, kept) && WellFormed(kept) && |pending| <= EVENT_LIMIT_BYTES
    ensures Splits(batches + [Batch(pending, true)], [], kept)
    ensures EventsOf(batches + [Batch(pending, true)]) ==
      EventsOf(batches) + (if Blank(pending) then [] else [StderrEvent(pending)])
  {
    assert pending[..|pending|] == pending && pending[|pending|..] == [];
    SplitsOff(batches, pending, kept, |pending|, true);
    Append(batches, Batch(pending, true));
  }

  function Notices(events: seq<Event>): nat {
    if events == [] then 0
    else Notices(events[..|events| - 1]) + (if events[|events| - 1].SuppressedNotice? then 1 else 0)
  }

  lemma NoticesSnoc(events: seq<Event>, e: Event)
    ensures Notices(events + [e]) == Notices(events) + (if e.SuppressedNotice? then 1 else 0)
  {
    assert (events + [e])[..|events|] == events;
  }

  lemma {:induction false} EventsOfSound(batches: seq<Batch>)
    requires Sound(batches)
    ensures forall e | e in EventsOf(batches) :: e.StderrEvent? && SoundBytes(e.text)
    ensures Notices(EventsOf(batches)) == 0
    decreases |batches|
  {
    if batches != [] {
      var n := |batches| - 1;
      EventsOfSound(batches[..n]);
      OneMoreEvent(EventsOf(batches[..n]), batches[n]);
      assert EventsOf(batches[..n]) + [] == EventsOf(batches[..n]);
    }
  }

  lemma OneMoreEvent(events: seq<Event>, b: Batch)
    requires Notices(events) == 0 && SoundBytes(b.bytes)
    requires forall e | e in events :: e.StderrEvent? && SoundBytes(e.text)
    ensures var more := events + [StderrEvent(b.bytes)];
      Notices(more) == 0 && forall e | e in more :: e.StderrEvent? && SoundBytes(e.text)
  {
    NoticesSnoc(events, StderrEvent(b.bytes));
  }

  /** What a caller may know of a journal at any time: the batches behind its events, and what is
      pending, are together the longest prefix of all the text written that fits the budget and splits
      no character. */
  lemma JournalOfTheText(j: StderrJournal)
    requires j.Valid()
    ensures BytesOf(j.batches) + j.pending == j.input[..j.accepted]
    ensures LongestWithin(j.input, 1_048_576, j.accepted)
    ensures |j.input| <= 1_048_576 ==> j.accepted == |j.input|
    ensures |j.input| > 1_048_576 ==> j.pending == []
    ensures |j.pending| < 8_192
    ensures forall b | b in j.batches ::
      |b.bytes| <= 8_192 && (b.flushed || 8_192 <= |b.bytes| + 3)
  {
    assert forall b | b in j.batches :: SoundBatch(b);
    if !j.suppressed { AllAccepted(j.input, j.accepted); }
  }

  /** Every event is well-formed text within its limit; and there is one notice, the last event,
      exactly when the text exceeded the budget. */
  lemma EventsOfTheJournal(j: StderrJournal)
    requires j.Valid()
    ensures forall e | e in j.journal && e.StderrEvent? :: SoundBytes(e.text)
    ensures Notices(j.journal) == (if |j.input| > RUN_BUDGET_BYTES then 1 else 0)
    ensures |j.input| > RUN_BUDGET_BYTES ==> j.journal == EventsOf(j.batches) + [SuppressedNotice]
    ensures |j.input| <= RUN_BUDGET_BYTES ==> j.journal == EventsOf(j.batches)
  {
    EventsOfSound(j.batches);
    NoticesSnoc(EventsOf(j.batches), SuppressedNotice);
    assert EventsOf(j.batches) + [] == EventsOf(j.batches);
  }

  /** A batch that a flush found is journaled when a character of it is not white space; others always are. */
  ghost predicate Journals(b: Batch) {
    b.flushed && WellFormed(b.bytes) ==> exists p | p in PointsOf(b.bytes) :: !White(p)
  }

  /** One event for each of the batches at some places, with its bytes. */
  predicate TextsAt(events: seq<Event>, places: seq<nat>, batches: seq<Batch>) {
    && |events| == |places|
    && forall k | 0 <= k < |places| :: places[k] < |batches| && events[k] == StderrEvent(batches[places[k]].bytes)
  }

  lemma TextsSnoc(events: seq<Event>, places: seq<nat>, batches: seq<Batch>, b: Batch)
    requires TextsAt(events, places, batches)
    ensures TextsAt(events, places, batches + [b])
    ensures TextsAt(events + [StderrEvent(b.bytes)], places + [|batches|], batches + [b])
  {}

  lemma JournalsOne(front: seq<Batch>, b: Batch)
    requires WellFormed(b.bytes)
    ensures EventsOf(front + [b]) == if Journals(b) then EventsOf(front) + [StderrEvent(b.bytes)] else EventsOf(front)
  {
    BlankExactly(b.bytes);
    Append(front, b);
    assert EventsOf(front) + [] == EventsOf(front);
  }

  lemma JournaledStep(front: seq<Batch>, last: Batch, places: seq<nat>) returns (more: seq<nat>)
    requires Chosen(places, front, Journals) && TextsAt(EventsOf(front), places, front) && WellFormed(last.bytes)
    ensures Chosen(more, front + [last], Journals) && TextsAt(EventsOf(front + [last]), more, front + [last])
  {
    JournalsOne(front, last);
    ChosenSnoc(places, front, last, Journals);
    TextsSnoc(EventsOf(front), places, front, last);
    more := if Journals(last) then places + [|front|] else places;
  }

  lemma SoundSnoc(batches: seq<Batch>)
    requires Sound(batches) && batches != []
    ensures var front, last := batches[..|batches| - 1], batches[|batches| - 1];
      Sound(front) && WellFormed(last.bytes) && batches == front + [last]
  {
    assert SoundBatch(batches[|batches| - 1]);
  }

  /** Nothing but blank flushed batches is left out, and the order is that of the text. */
  lemma {:induction false} JournaledExactly(batches: seq<Batch>) returns (places: seq<nat>)
    requires Sound(batches)
    ensures Chosen(places, batches, Journals) && TextsAt(EventsOf(batches), places, batches)
    decreases |batches|
  {
    if batches == [] {
      places := [];
    } else {
      SoundSnoc(batches);
      places := JournaledExactly(batches[..|batches| - 1]);
      places := JournaledStep(batches[..|batches| - 1], batches[|batches| - 1], places);
    }
  }
}
