/** What a check's watch keeps of its output (packages/agents/src/check-timeout.ts, lines 53-153).

What libtest's three patterns make of a line, without colour codes and trimmed, is a parameter; the rest is
here: the tail, the unfinished line of each stream, and the bounds.  How text is cut into lines and cleaned
is in `OutputLines`. */
module OutputWatching {
  import opened Basics
  import opened KeyOrder
  import opened OutputLines

  /** What a line says of a test. */
  datatype Line = RunStart | Result(name: Text) | Notice(name: Text, text: Text) | Plain

  datatype Stream = Out | Err

  /** A test, and its notice. */
  datatype Entry = Entry(name: Text, notice: Text)

  const RUNNING_KEPT := 64
  const TAIL_KEPT_CHARS := 65536
  const LINE_KEPT_CHARS := 8192
  const TAIL_LINES := 10
  const TAIL_CHARS := 2000
  const TAIL_LINE_CHARS := 300

  const ELLIPSIS: Unit := 0x2026

  /** `slice(-n)`. */
  function LastOf(text: Text, n: nat): (r: Text)
    ensures |r| <= n
  {
    if |text| <= n then text else text[|text| - n..]
  }

  /** What a line says, by the three patterns. */
  function Says(patterns: Text -> Line, line: Text): Line {
    patterns(TrimStart(TrimEnd(WithoutCodes(line))))
  }

  /** The patterns see a line without its codes, and without white space at either end. */
  lemma SaysExactly(patterns: Text -> Line, line: Text)
    returns (pieces: seq<Piece>, front: Text, seen: Text, back: Text)
    ensures PiecesText(pieces) == line && CutAtCodes(pieces) && UnitsOf(pieces) == front + seen + back
    ensures AllWhite(front) && AllWhite(back)
    ensures seen != [] ==> !White(seen[0]) && !White(seen[|seen| - 1])
    ensures Says(patterns, line) == patterns(seen)
  {
    pieces := WithoutCodesExactly(line);
    var clean := WithoutCodes(line);
    TrimEndExactly(clean);
    front := TrimStartExactly(TrimEnd(clean));
    seen := TrimStart(TrimEnd(clean));
    back := clean[|TrimEnd(clean)|..];
    assert clean == TrimEnd(clean) + back;
    if seen != [] { assert TrimEnd(clean)[|TrimEnd(clean)| - 1] == seen[|seen| - 1]; }
  }

  // ---------------------------------------------------------------- the tests that still run

  /** `Map.delete`. */
  function Without(entries: seq<Entry>, name: Text): seq<Entry> {
    if entries == [] then []
    else
      var front, last := Without(entries[..|entries| - 1], name), entries[|entries| - 1];
      if last.name == name then front else front + [last]
  }

  /** What one more line changes, were there no bound. */
  function Heard(entries: seq<Entry>, line: Line): seq<Entry> {
    match line
    case RunStart => []
    case Result(name) => Without(entries, name)
    case Notice(name, text) => Without(entries, name) + [Entry(name, text)]
    case Plain => entries
  }

  function Bounded(entries: seq<Entry>): seq<Entry> {
    if |entries| > RUNNING_KEPT then entries[1..] else entries
  }

  function Kept(entries: seq<Entry>, line: Line): seq<Entry> {
    if line.Notice? then Bounded(Heard(entries, line)) else Heard(entries, line)
  }

  // ---------------------------------------------------------------- whole outputs

  function Outstanding(lines: seq<Line>): seq<Entry> {
    if lines == [] then [] else Heard(Outstanding(lines[..|lines| - 1]), lines[|lines| - 1])
  }

  function Watched(lines: seq<Line>): seq<Entry> {
    if lines == [] then [] else Kept(Watched(lines[..|lines| - 1]), lines[|lines| - 1])
  }

  predicate Ends(line: Line, name: Text) {
    line.RunStart? || line == Result(name)
  }

  /** The `i`-th line is a test's last notice, and nothing has ended the test since. */
  ghost predicate LastNotice(lines: seq<Line>, i: nat, e: Entry) {
    && i < |lines| && lines[i] == Notice(e.name, e.notice)
    && forall j | i < j < |lines| :: !Ends(lines[j], e.name) && !(lines[j].Notice? && lines[j].name == e.name)
  }

  /** Each entry's notice is at its place, and the places are in order. */
  ghost predicate Places(lines: seq<Line>, entries: seq<Entry>, places: seq<nat>) {
    && |places| == |entries|
    && (forall k | 0 <= k < |entries| :: LastNotice(lines, places[k], entries[k]))
    && (forall k, l | 0 <= k < l < |places| :: places[k] < places[l])
  }

  /** A line about one test leaves the others' notices as they are. */
  lemma NoticeStays(lines: seq<Line>, line: Line, i: nat, e: Entry)
    requires LastNotice(lines, i, e) && !line.RunStart? && (line.Plain? || line.name != e.name)
    ensures LastNotice(lines + [line], i, e)
  {}

  lemma PlacesMore(lines: seq<Line>, entries: seq<Entry>, places: seq<nat>, e: Entry, i: nat)
    requires Places(lines, entries, places) && LastNotice(lines, i, e) && forall p | p in places :: p < i
    ensures Places(lines, entries + [e], places + [i])
  {
    assert forall k | 0 <= k < |places| :: places[k] in places;
  }

  lemma {:induction false} WithoutPlaces(lines: seq<Line>, line: Line, entries: seq<Entry>, places: seq<nat>,
                                         name: Text)
    returns (fewer: seq<nat>)
    requires Places(lines, entries, places) && !line.RunStart? && (line.Plain? || line.name == name)
    ensures Places(lines + [line], Without(entries, name), fewer)
    ensures forall p | p in fewer :: p in places
    decreases |entries|
  {
    fewer := [];
    if entries != [] {
      var n := |entries| - 1;
      fewer := WithoutPlaces(lines, line, entries[..n], places[..n], name);
      if entries[n].name != name {
        assert LastNotice(lines, places[n], entries[n]);
        NoticeStays(lines, line, places[n], entries[n]);
        forall p | p in fewer ensures p < places[n] {
          var k :| 0 <= k < n && places[..n][k] == p;
        }
        PlacesMore(lines + [line], Without(entries[..n], name), fewer, entries[n], places[n]);
        fewer := fewer + [places[n]];
      }
    }
  }

  lemma PlacesWithin(lines: seq<Line>, entries: seq<Entry>, places: seq<nat>)
    requires Places(lines, entries, places)
    ensures forall p | p in places :: p < |lines|
  {
    forall p | p in places ensures p < |lines| {
      var k :| 0 <= k < |places| && places[k] == p;
      assert LastNotice(lines, places[k], entries[k]);
    }
  }

  /** The tests that are watched, were there no bound, are in the order of their last notices, each of
      which nothing has ended. */
  lemma {:induction false} InOrderOfNotice(lines: seq<Line>) returns (places: seq<nat>)
    ensures Places(lines, Outstanding(lines), places)
  {
    if lines == [] {
      places := [];
    } else {
      var front, line := lines[..|lines| - 1], lines[|lines| - 1];
      var before := InOrderOfNotice(front);
      assert lines == front + [line];
      PlacesWithin(front, Outstanding(front), before);
      match line {
        case RunStart => places := [];
        case Result(name) => places := WithoutPlaces(front, line, Outstanding(front), before, name);
        case Notice(name, text) =>
          places := WithoutPlaces(front, line, Outstanding(front), before, name);
          PlacesMore(lines, Without(Outstanding(front), name), places, Entry(name, text), |front|);
          places := places + [|front|];
        case Plain =>
          places := before;
          forall k | 0 <= k < |places| ensures LastNotice(lines, places[k], Outstanding(lines)[k]) {
            assert LastNotice(front, before[k], Outstanding(front)[k]);
            NoticeStays(front, line, before[k], Outstanding(front)[k]);
          }
      }
    }
  }

  /** And every test with such a notice is one of them. */
  lemma {:induction false} EveryOutstanding(lines: seq<Line>, i: nat, e: Entry)
    requires LastNotice(lines, i, e)
    ensures e in Outstanding(lines)
    decreases |lines|
  {
    var front, line := lines[..|lines| - 1], lines[|lines| - 1];
    if i < |front| {
      assert LastNotice(front, i, e);
      EveryOutstanding(front, i, e);
      if line.Result? || line.Notice? { StaysIn(Outstanding(front), line.name, e); }
    }
  }

  lemma {:induction false} StaysIn(entries: seq<Entry>, name: Text, e: Entry)
    requires e in entries && e.name != name
    ensures e in Without(entries, name)
  {
    var n := |entries| - 1;
    if e in entries[..n] { StaysIn(entries[..n], name, e); } else { assert e == entries[n]; }
  }

  // ---------------------------------------------------------------- the bound

  ghost predicate EndOf(part: seq<Entry>, whole: seq<Entry>) {
    |part| <= |whole| && whole[|whole| - |part|..] == part
  }

  lemma {:induction false} WithoutEnd(part: seq<Entry>, whole: seq<Entry>, name: Text)
    requires EndOf(part, whole)
    ensures EndOf(Without(part, name), Without(whole, name)) && |Without(part, name)| <= |part|
    decreases |part|
  {
    if part != [] {
      var p, w := part[..|part| - 1], whole[..|whole| - 1];
      assert part[|part| - 1] == whole[|whole| - 1];
      WithoutEnd(p, w, name);
    }
  }

  lemma StepKeepsTheLatest(part: seq<Entry>, whole: seq<Entry>, line: Line)
    requires |part| <= RUNNING_KEPT && EndOf(part, whole)
    ensures |Kept(part, line)| <= RUNNING_KEPT && EndOf(Kept(part, line), Heard(whole, line))
    ensures part == whole && |Heard(whole, line)| <= RUNNING_KEPT ==> Kept(part, line) == Heard(whole, line)
  {
    if line.Result? || line.Notice? { WithoutEnd(part, whole, line.name); }
    if line.Notice? {
      EndMore(Without(part, line.name), Without(whole, line.name), Entry(line.name, line.text));
      BoundedEnd(Heard(part, line), Heard(whole, line));
    }
  }

  lemma EndMore(part: seq<Entry>, whole: seq<Entry>, e: Entry)
    requires EndOf(part, whole)
    ensures EndOf(part + [e], whole + [e])
  {}

  lemma BoundedEnd(part: seq<Entry>, whole: seq<Entry>)
    requires EndOf(part, whole) && |part| <= RUNNING_KEPT + 1
    ensures |Bounded(part)| <= RUNNING_KEPT && EndOf(Bounded(part), whole)
  {}

  /** There were never more tests than are kept. */
  predicate NeverMore(lines: seq<Line>) {
    lines == [] || (NeverMore(lines[..|lines| - 1]) && |Outstanding(lines)| <= 64)
  }

  /** At most 64 tests are kept, those with the latest notices; all of them, if there were never more. */
  lemma {:induction false} KeepsTheLatest(lines: seq<Line>)
    ensures |Watched(lines)| <= 64 && EndOf(Watched(lines), Outstanding(lines))
    ensures NeverMore(lines) ==> Watched(lines) == Outstanding(lines)
  {
    if lines != [] {
      var front := lines[..|lines| - 1];
      KeepsTheLatest(front);
      StepKeepsTheLatest(Watched(front), Outstanding(front), lines[|lines| - 1]);
    }
  }

  // ---------------------------------------------------------------- what the bound drops

  /** How many entries come after the last one of a name. */
  function Behind(entries: seq<Entry>, name: Text): nat {
    if entries == [] || entries[|entries| - 1].name == name then 0
    else 1 + Behind(entries[..|entries| - 1], name)
  }

  /** Since the last notice of a test, never more than 63 others had later ones outstanding. */
  predicate HadRoom(lines: seq<Line>, name: Text) {
    lines != [] &&
    var line := lines[|lines| - 1];
    (line.Notice? && line.name == name) ||
    (HadRoom(lines[..|lines| - 1], name) && Behind(Outstanding(lines), name) < 64)
  }

  predicate NamesOnce(entries: seq<Entry>) {
    forall i, j | 0 <= i < j < |entries| :: entries[i].name != entries[j].name
  }

  lemma {:induction false} WithoutNames(entries: seq<Entry>, name: Text)
    ensures forall x | x in Without(entries, name) :: x in entries && x.name != name
    ensures NamesOnce(entries) ==> NamesOnce(Without(entries, name))
  {
    if entries != [] {
      var front, last := entries[..|entries| - 1], entries[|entries| - 1];
      WithoutNames(front, name);
      if NamesOnce(entries) {
        forall x | x in Without(front, name) ensures x.name != last.name {
          var k :| 0 <= k < |front| && front[k] == x;
          assert entries[k] == x;
        }
      }
    }
  }

  lemma {:induction false} OutstandingOnce(lines: seq<Line>)
    ensures NamesOnce(Outstanding(lines))
  {
    if lines != [] {
      var front, line := lines[..|lines| - 1], lines[|lines| - 1];
      OutstandingOnce(front);
      if line.Result? || line.Notice? { WithoutNames(Outstanding(front), line.name); }
    }
  }

  /** The place of an entry, counted from the end. */
  lemma {:induction false} BehindIs(entries: seq<Entry>, k: nat)
    requires NamesOnce(entries) && k < |entries|
    ensures Behind(entries, entries[k].name) == |entries| - 1 - k
    decreases |entries|
  {
    var n := |entries| - 1;
    if k < n {
      assert entries[k].name != entries[n].name && entries[..n][k] == entries[k];
      BehindIs(entries[..n], k);
    }
  }

  /** Which entries an end holds. */
  lemma InEndExactly(part: seq<Entry>, whole: seq<Entry>, e: Entry)
    requires NamesOnce(whole) && EndOf(part, whole) && e in whole
    ensures e in part <==> Behind(whole, e.name) < |part|
  {
    var k :| 0 <= k < |whole| && whole[k] == e;
    BehindIs(whole, k);
    var start := |whole| - |part|;
    if k >= start { assert part[k - start] == e; }
    if e in part {
      var j :| 0 <= j < |part| && part[j] == e;
      assert whole[start + j] == e;
    }
  }

  /** One more line about something else: an entry that was kept still is, unless the bound drops it. */
  lemma KeptStepExactly(part: seq<Entry>, whole: seq<Entry>, line: Line, e: Entry)
    requires |part| <= RUNNING_KEPT && EndOf(part, whole) && e in whole
    requires NamesOnce(Heard(whole, line)) && e in Heard(whole, line) && !(line.Notice? && line.name == e.name)
    ensures e in Kept(part, line) <==> e in part && Behind(Heard(whole, line), e.name) < RUNNING_KEPT
  {
    var heard := Heard(part, line);
    HeardEnd(part, whole, line);
    StepKeepsTheLatest(part, whole, line);
    InEndExactly(heard, Heard(whole, line), e);
    InEndExactly(Kept(part, line), Heard(whole, line), e);
    HeardHolds(part, whole, line, e);
  }

  lemma HeardEnd(part: seq<Entry>, whole: seq<Entry>, line: Line)
    requires |part| <= RUNNING_KEPT && EndOf(part, whole)
    ensures EndOf(Heard(part, line), Heard(whole, line)) && |Heard(part, line)| <= RUNNING_KEPT + 1
  {
    if line.Result? || line.Notice? { WithoutEnd(part, whole, line.name); }
    if line.Notice? { EndMore(Without(part, line.name), Without(whole, line.name), Entry(line.name, line.text)); }
  }

  lemma HeardHolds(part: seq<Entry>, whole: seq<Entry>, line: Line, e: Entry)
    requires e in Heard(whole, line) && !(line.Notice? && line.name == e.name)
    ensures e in Heard(part, line) <==> e in part
  {
    if line.Result? || line.Notice? {
      WithoutNames(whole, line.name);
      WithoutNames(part, line.name);
      if e in part { StaysIn(part, line.name, e); }
    }
  }

  lemma LastIsWatched(front: seq<Line>, line: Line)
    requires line.Notice?
    ensures Entry(line.name, line.text) in Kept(Watched(front), line)
  {
    var heard := Heard(Watched(front), line);
    assert heard[|heard| - 1] == Entry(line.name, line.text);
    if |heard| > RUNNING_KEPT { assert heard[1..][|heard| - 2] == heard[|heard| - 1]; }
  }

  /** An entry is the notice just heard, or was there before. */
  lemma HeardFrom(entries: seq<Entry>, line: Line, e: Entry)
    requires e in Heard(entries, line)
    ensures if line.Notice? && line.name == e.name then e == Entry(line.name, line.text) else e in entries
  {
    if line.Result? || line.Notice? { WithoutNames(entries, line.name); }
  }

  lemma WatchedStep(front: seq<Line>, line: Line, e: Entry)
    requires e in Outstanding(front) && e in Heard(Outstanding(front), line) && !(line.Notice? && line.name == e.name)
    requires NamesOnce(Heard(Outstanding(front), line))
    ensures e in Kept(Watched(front), line) <==>
      e in Watched(front) && Behind(Heard(Outstanding(front), line), e.name) < RUNNING_KEPT
  {
    KeepsTheLatest(front);
    KeptStepExactly(Watched(front), Outstanding(front), line, e);
  }

  /** A test that is outstanding is watched exactly when the bound never dropped it since its last notice. */
  lemma {:induction false} WatchedExactly(lines: seq<Line>, e: Entry)
    requires e in Outstanding(lines)
    ensures e in Watched(lines) <==> HadRoom(lines, e.name)
  {
    var front, line := lines[..|lines| - 1], lines[|lines| - 1];
    HeardFrom(Outstanding(front), line, e);
    if line.Notice? && line.name == e.name {
      LastIsWatched(front, line);
    } else {
      OutstandingOnce(lines);
      WatchedExactly(front, e);
      WatchedStep(front, line, e);
    }
  }

  /** Every outstanding test is watched exactly when the bound never dropped one since its last notice. */
  lemma WatchesAllExactly(lines: seq<Line>)
    ensures Watched(lines) == Outstanding(lines) <==> forall e | e in Outstanding(lines) :: HadRoom(lines, e.name)
  {
    var part, whole := Watched(lines), Outstanding(lines);
    KeepsTheLatest(lines);
    OutstandingOnce(lines);
    if part == whole {
      forall e | e in whole ensures HadRoom(lines, e.name) { WatchedExactly(lines, e); }
    } else if whole != [] {
      WatchedExactly(lines, whole[0]);
      InEndExactly(part, whole, whole[0]);
      BehindIs(whole, 0);
      assert HadRoom(lines, whole[0].name) ==> |part| == |whole|;
    }
  }

  lemma {:induction false} NoRoomLater(lines: seq<Line>, more: seq<Line>, name: Text)
    requires !HadRoom(lines, name) && forall k | 0 <= k < |more| :: !(more[k].Notice? && more[k].name == name)
    ensures !HadRoom(lines + more, name)
    decreases |more|
  {
    if more == [] {
      assert lines + more == lines;
    } else {
      var n := |more| - 1;
      NoRoomLater(lines, more[..n], name);
      assert (lines + more)[..|lines + more| - 1] == lines + more[..n];
    }
  }

  /** A test that was dropped stays out, as long as it is outstanding, until its next notice: also when
      others finish. */
  lemma DroppedStaysOut(lines: seq<Line>, more: seq<Line>, e: Entry)
    requires e in Outstanding(lines) && e !in Watched(lines)
    requires forall k | 0 <= k < |more| :: !(more[k].Notice? && more[k].name == e.name)
    ensures e in Outstanding(lines + more) ==> e !in Watched(lines + more)
  {
    WatchedExactly(lines, e);
    NoRoomLater(lines, more, e.name);
    if e in Outstanding(lines + more) { WatchedExactly(lines + more, e); }
  }

  // ---------------------------------------------------------------- the last lines

  function Shortened(line: Text): Text {
    if |line| > TAIL_LINE_CHARS then line[..TAIL_LINE_CHARS] + [ELLIPSIS] else line
  }

  function ShortenedAll(lines: seq<Text>): (r: seq<Text>)
    ensures |r| == |lines|
  {
    seq(|lines|, i requires 0 <= i < |lines| => Shortened(lines[i]))
  }

  /** What a list of lines takes, three characters more for each. */
  function Cost(lines: seq<Text>): nat {
    if lines == [] then 0 else |lines[0]| + 3 + Cost(lines[1..])
  }

  lemma ShortenedEnd(lines: seq<Text>, start: nat, size: nat)
    requires start + size <= |lines|
    ensures ShortenedAll(lines[start..])[|lines| - start - size..] == ShortenedAll(lines[|lines| - size..])
  {}

  /** As many of some lines, from the last back, as fit. */
  method LastThatFit(lines: seq<Text>) returns (kept: seq<Text>)
    ensures |kept| <= |lines| && kept == lines[|lines| - |kept|..] && Cost(kept) <= TAIL_CHARS
    ensures |kept| < |lines| ==> Cost(lines[|lines| - |kept| - 1..]) > TAIL_CHARS
  {
    var total := 0;
    kept := [];
    for k := 0 to |lines|
      invariant |kept| == k && kept == lines[|lines| - k..] && total == Cost(kept) <= TAIL_CHARS
    {
      var line := lines[|lines| - 1 - k];
      total := total + |line| + 3;
      ghost var longer := lines[|lines| - k - 1..];
      assert longer == [line] + kept && longer[1..] == kept;
      if total > TAIL_CHARS { return; }
      kept := [line] + kept;
    }
  }

  function Concatenated(lines: seq<Text>): Text {
    if lines == [] then [] else lines[0] + Concatenated(lines[1..])
  }

  lemma {:induction false} CostIsLength(lines: seq<Text>)
    ensures Cost(lines) == |Concatenated(lines)| + 3 * |lines|
  {
    if lines != [] { CostIsLength(lines[1..]); }
  }

  /** A line of at most 300 units, or the first 300 and an ellipsis. */
  predicate IsCut(line: Text, cut: Text) {
    cut == if |line| <= 300 then line else line[..300] + [0x2026]
  }

  /** An end of some lines, each cut, of at most ten of them and at most 2,000 units, three more for each; one
      line more would be too much. */
  ghost predicate IsLongestEnd(lines: seq<Text>, kept: seq<Text>) {
    var size := |Concatenated(kept)| + 3 * |kept|;
    && |kept| <= 10 && |kept| <= |lines| && size <= 2000
    && (forall k | 0 <= k < |kept| :: IsCut(lines[|lines| - |kept| + k], kept[k]))
    && (|kept| < |lines| ==>
          |kept| == 10 || forall cut | IsCut(lines[|lines| - |kept| - 1], cut) :: size + |cut| + 3 > 2000)
  }

  lemma EndIsLongest(lines: seq<Text>, kept: seq<Text>)
    requires |kept| <= TAIL_LINES && Cost(kept) <= TAIL_CHARS && |kept| <= |lines|
    requires kept == ShortenedAll(lines[|lines| - |kept|..])
    requires |kept| < |lines| ==>
      |kept| == TAIL_LINES || Cost(ShortenedAll(lines[|lines| - |kept| - 1..])) > TAIL_CHARS
    ensures IsLongestEnd(lines, kept)
  {
    CostIsLength(kept);
    if |kept| < |lines| {
      var next := lines[|lines| - |kept| - 1];
      var more := ShortenedAll(lines[|lines| - |kept| - 1..]);
      assert more == [Shortened(next)] + kept && more[1..] == kept;
    }
  }

  /** `lastLines`, of the non-blank lines. */
  method LongestEnd(lines: seq<Text>) returns (kept: seq<Text>)
    ensures IsLongestEnd(lines, kept)
  {
    var start := if |lines| > TAIL_LINES then |lines| - TAIL_LINES else 0;
    kept := LastThatFit(ShortenedAll(lines[start..]));
    ShortenedEnd(lines, start, |kept|);
    if start + |kept| < |lines| { ShortenedEnd(lines, start, |kept| + 1); }
    EndIsLongest(lines, kept);
  }

  // ---------------------------------------------------------------- all that was pushed

  datatype Chunk = Chunk(text: Text, stream: Stream)

  /** All the output, in the order in which it came. */
  function AllText(chunks: seq<Chunk>): Text {
    if chunks == [] then [] else AllText(chunks[..|chunks| - 1]) + chunks[|chunks| - 1].text
  }

  /** One stream's output. */
  function TextOf(chunks: seq<Chunk>, stream: Stream): Text {
    if chunks == [] then []
    else
      var before, push := TextOf(chunks[..|chunks| - 1], stream), chunks[|chunks| - 1];
      if push.stream == stream then before + push.text else before
  }

  /** The end of a stream's unfinished line. */
  function Unfinished(chunks: seq<Chunk>, stream: Stream): Text {
    LastOf(Rest(TextOf(chunks, stream)), LINE_KEPT_CHARS)
  }

  /** The lines that one push reads: those it finishes, and what is unfinished then. */
  function Reads(before: Text, text: Text): seq<Text> {
    Finished(before + text) + [LastOf(LastPiece(before + text), LINE_KEPT_CHARS)]
  }

  /** The lines that all chunks make it read. */
  function LinesRead(chunks: seq<Chunk>): seq<Text> {
    if chunks == [] then []
    else
      var front, push := chunks[..|chunks| - 1], chunks[|chunks| - 1];
      LinesRead(front) + Reads(Unfinished(front, push.stream), push.text)
  }

  function Meanings(patterns: Text -> Line, lines: seq<Text>): (r: seq<Line>)
    ensures |r| == |lines|
  {
    seq(|lines|, i requires 0 <= i < |lines| => Says(patterns, lines[i]))
  }

  /** The tests watched after some chunks. */
  function WatchedAfter(patterns: Text -> Line, chunks: seq<Chunk>): seq<Entry> {
    Watched(Meanings(patterns, LinesRead(chunks)))
  }

  lemma TailMore(all: Text, text: Text, n: nat)
    ensures LastOf(LastOf(all, n) + text, n) == LastOf(all + text, n)
  {}

  lemma EndsAt(text: Text, i: nat)
    requires i < |text| && Ending(text[i])
    ensures var n := i + EndSize(text, i);
      text == text[..n] + text[n..] && |text[..n]| == n && Ending(text[..n][n - 1])
  {}

  lemma {:induction false} LastPieceIsRest(text: Text)
    ensures LastPiece(text) == Rest(text)
    decreases |text|
  {
    var i := FirstEnd(text);
    FirstEndOf(text);
    if i == |text| {
      NoEnding(text);
    } else {
      var n := i + EndSize(text, i);
      LastPieceIsRest(text[n..]);
      EndsAt(text, i);
      RestAfter(text[..n], text[n..]);
    }
  }

  lemma {:induction false} NoEnding(text: Text)
    requires forall k | 0 <= k < |text| :: !Ending(text[k])
    ensures Rest(text) == text
  {
    if text != [] { NoEnding(text[..|text| - 1]); }
  }

  /** What is before an end of a line does not matter for what follows the last one. */
  lemma {:induction false} RestAfter(before: Text, text: Text)
    requires before != [] && Ending(before[|before| - 1])
    ensures Rest(before + text) == Rest(text)
    decreases |text|
  {
    if text == [] {
      assert before + text == before;
    } else {
      var all, n := before + text, |text| - 1;
      assert all[..|all| - 1] == before + text[..n] && all[|all| - 1] == text[n];
      RestAfter(before, text[..n]);
    }
  }

  lemma LastOfMore(r: Text, s: Text, c: Unit, n: nat)
    requires LastOf(r, n) == LastOf(s, n)
    ensures LastOf(r + [c], n) == LastOf(s + [c], n)
  {
    TailMore(r, [c], n);
    TailMore(s, [c], n);
  }

  lemma RestKept(all: Text, n: nat)
    ensures LastOf(Rest(LastOf(Rest(all), n)), n) == LastOf(Rest(all), n)
  {
    RestIsPlain(all);
    NoEnding(LastOf(Rest(all), n));
  }

  /** One more chunk, after the end of what was unfinished. */
  lemma {:induction false} RestMore(all: Text, text: Text, n: nat)
    ensures LastOf(Rest(LastOf(Rest(all), n) + text), n) == LastOf(Rest(all + text), n)
    decreases |text|
  {
    var kept := LastOf(Rest(all), n);
    if text == [] {
      RestKept(all, n);
      assert all + text == all && kept + text == kept;
    } else {
      var front, c := text[..|text| - 1], text[|text| - 1];
      assert text == front + [c];
      RestMore(all, front, n);
      RestSnoc(kept, front, c);
      RestSnoc(all, front, c);
      LastOfMore(Rest(kept + front), Rest(all + front), c, n);
    }
  }

  lemma RestSnoc(all: Text, text: Text, c: Unit)
    ensures Rest(all + (text + [c])) == if Ending(c) then [] else Rest(all + text) + [c]
  {
    var whole := all + (text + [c]);
    assert whole[..|whole| - 1] == all + text && whole[|whole| - 1] == c;
  }

  lemma {:induction false} RestIsPlain(text: Text)
    ensures forall k | 0 <= k < |Rest(text)| :: !Ending(Rest(text)[k])
  {
    if text != [] { RestIsPlain(text[..|text| - 1]); }
  }

  lemma {:induction false} FirstEndIs(text: Text, i: nat)
    requires i <= |text| && (forall k | 0 <= k < i :: !Ending(text[k])) && (i < |text| ==> Ending(text[i]))
    ensures FirstEnd(text) == i
  {
    if i > 0 {
      assert forall k | 0 < k < |text| :: text[k] == text[1..][k - 1];
      FirstEndIs(text[1..], i - 1);
    }
  }

  lemma PlainParts(plain: Text, text: Text, i: nat)
    requires i < |text|
    ensures var all := plain + text;
      && all[..|plain| + i] == plain + text[..i] && all[|plain| + i] == text[i]
      && EndSize(all, |plain| + i) == EndSize(text, i)
      && all[|plain| + i + EndSize(text, i)..] == text[i + EndSize(text, i)..]
  {}

  lemma PlainEnd(plain: Text, text: Text)
    requires forall k | 0 <= k < |plain| :: !Ending(plain[k])
    ensures FirstEnd(plain + text) == |plain| + FirstEnd(text)
  {
    FirstEndOf(text);
    FirstEndIs(plain + text, |plain| + FirstEnd(text));
  }

  lemma FinishedAs(text: Text, i: nat, first: Text, rest: Text)
    requires i == FirstEnd(text) < |text| && first == text[..i] && rest == text[i + EndSize(text, i)..]
    ensures Finished(text) == [first] + Finished(rest)
  {}

  /** A plain text before another only lengthens its first line. */
  lemma PlainFirst(plain: Text, text: Text, i: nat)
    requires (forall k | 0 <= k < |plain| :: !Ending(plain[k])) && i == FirstEnd(text) < |text|
    ensures Finished(plain + text) == [plain + text[..i]] + Finished(text[i + EndSize(text, i)..])
  {
    PlainEnd(plain, text);
    PlainParts(plain, text, i);
    FinishedAs(plain + text, |plain| + i, plain + text[..i], text[i + EndSize(text, i)..]);
  }

  lemma PlainNone(plain: Text, text: Text)
    requires (forall k | 0 <= k < |plain| :: !Ending(plain[k])) && FirstEnd(text) == |text|
    ensures Finished(plain + text) == []
  {
    PlainEnd(plain, text);
  }

  lemma TwoParts(a: Text, b: Text, i: nat)
    requires i < |a|
    ensures (a + b)[..i] == a[..i]
    ensures EndSize(a + b, i) == EndSize(a, i) ==> (a + b)[i + EndSize(a, i)..] == a[i + EndSize(a, i)..] + b
    ensures EndSize(a + b, i) != EndSize(a, i) ==>
      i + 1 == |a| && b != [] && b[0] == LINE_FEED && (a + b)[i + 2..] == b[1..] && EndSize(a + b, i) == 2
  {}

  /** The first line of two texts, when the first text finishes it; a `\n` after its `\r` is one end. */
  lemma FirstTogether(a: Text, b: Text, i: nat)
    requires i == FirstEnd(a) < |a|
    ensures EndSize(a + b, i) == EndSize(a, i) ==>
      Finished(a + b) == [a[..i]] + Finished(a[i + EndSize(a, i)..] + b)
    ensures EndSize(a + b, i) != EndSize(a, i) ==>
      a[i + EndSize(a, i)..] == [] && b != [] && b[0] == LINE_FEED && Finished(a + b) == [a[..i]] + Finished(b[1..])
  {
    FirstEndOf(a);
    FirstEndIs(a + b, i);
    TwoParts(a, b, i);
  }

  lemma FinishedAfterFeed(b: Text)
    requires b != [] && b[0] == LINE_FEED
    ensures Finished(b) == [[]] + Finished(b[1..])
  {}

  lemma NothingFinished(a: Text)
    requires FirstEnd(a) == |a|
    ensures Rest(a) == a
  {
    FirstEndOf(a);
    NoEnding(a);
  }

  lemma InFinished(a: Text, i: nat, line: Text)
    requires i == FirstEnd(a) < |a|
    ensures line in Finished(a) <==> line == a[..i] || line in Finished(a[i + EndSize(a, i)..])
  {
    FinishedAs(a, i, a[..i], a[i + EndSize(a, i)..]);
    InCons(a[..i], Finished(a[i + EndSize(a, i)..]), line);
  }

  lemma InCons<T>(x: T, s: seq<T>, y: T)
    ensures y in [x] + s <==> y == x || y in s
  {}

  lemma InTogether(a: Text, b: Text, i: nat, line: Text)
    requires i == FirstEnd(a) < |a| && line in Finished(a + b) && line != a[..i]
    ensures var rest := a[i + EndSize(a, i)..];
      line in Finished(rest + b) || line in Finished(Rest(rest) + b)
  {
    FirstTogether(a, b, i);
    if EndSize(a + b, i) != EndSize(a, i) {
      FinishedAfterFeed(b);
      assert [] + b == b;
    }
  }

  lemma RestOf(a: Text)
    requires FirstEnd(a) < |a|
    ensures Rest(a) == Rest(a[FirstEnd(a) + EndSize(a, FirstEnd(a))..])
  {
    FirstEndOf(a);
    EndsAt(a, FirstEnd(a));
    var n := FirstEnd(a) + EndSize(a, FirstEnd(a));
    RestAfter(a[..n], a[n..]);
  }

  lemma AfterFirst(a: Text, b: Text, rest: Text, line: Text)
    requires FirstEnd(a) < |a| && rest == a[FirstEnd(a) + EndSize(a, FirstEnd(a))..] && line in Finished(a + b)
    ensures Rest(a) == Rest(rest) && (line in Finished(rest) ==> line in Finished(a))
    ensures line in Finished(a) || line in Finished(rest + b) || line in Finished(Rest(a) + b)
  {
    InFinished(a, FirstEnd(a), line);
    RestOf(a);
    if line != a[..FirstEnd(a)] { InTogether(a, b, FirstEnd(a), line); }
  }

  /** A line that two texts finish together is finished by the first, or by the second after what the first
      leaves. */
  lemma {:induction false} FinishedTogether(a: Text, b: Text, line: Text)
    requires line in Finished(a + b)
    ensures line in Finished(a) || line in Finished(Rest(a) + b)
    decreases |a|
  {
    var i := FirstEnd(a);
    if i == |a| {
      NothingFinished(a);
    } else {
      var rest := a[i + EndSize(a, i)..];
      AfterFirst(a, b, rest, line);
      if line in Finished(rest + b) { FinishedTogether(rest, b, line); }
    }
  }

  /** Cutting what is unfinished loses only a line that is too long. */
  lemma FinishedFromKept(plain: Text, text: Text, line: Text)
    requires forall k | 0 <= k < |plain| :: !Ending(plain[k])
    requires line in Finished(plain + text) && |line| <= LINE_KEPT_CHARS
    ensures line in Finished(LastOf(plain, LINE_KEPT_CHARS) + text)
  {
    var i := FirstEnd(text);
    if i == |text| {
      PlainNone(plain, text);
    } else {
      PlainFirst(plain, text, i);
      PlainFirst(LastOf(plain, LINE_KEPT_CHARS), text, i);
    }
  }

  /** Every finished line of a stream that is no longer than is kept is read, whole, however the two streams
      are cut into chunks. */
  lemma {:induction false} FinishedAreRead(chunks: seq<Chunk>, stream: Stream, line: Text)
    requires line in Finished(TextOf(chunks, stream)) && |line| <= 8192
    ensures line in LinesRead(chunks)
    decreases |chunks|
  {
    var front, push := chunks[..|chunks| - 1], chunks[|chunks| - 1];
    if push.stream == stream {
      var before := TextOf(front, stream);
      FinishedTogether(before, push.text, line);
      if line in Finished(before) {
        FinishedAreRead(front, stream, line);
      } else {
        RestIsPlain(before);
        FinishedFromKept(Rest(before), push.text, line);
      }
    } else {
      FinishedAreRead(front, stream, line);
    }
  }

  // ---------------------------------------------------------------- a line that is read again

  lemma {:induction false} WithoutIsGone(entries: seq<Entry>, name: Text)
    ensures Without(Without(entries, name), name) == Without(entries, name)
    ensures |Without(entries, name)| <= |entries|
  {
    if entries != [] {
      var front := Without(entries[..|entries| - 1], name);
      WithoutIsGone(entries[..|entries| - 1], name);
      assert (front + [entries[|entries| - 1]])[..|front|] == front;
    }
  }

  lemma WithoutLast(entries: seq<Entry>, e: Entry)
    requires Without(entries, e.name) == entries
    ensures Without(entries + [e], e.name) == entries
  {
    assert (entries + [e])[..|entries|] == entries;
  }

  lemma {:induction false} WithoutRest(entries: seq<Entry>, name: Text)
    requires Without(entries, name) == entries && entries != []
    ensures Without(entries[1..], name) == entries[1..]
  {
    forall k | 0 <= k < |entries| ensures entries[k].name != name { NoneOf(entries, name, k); }
    KeepsAll(entries[1..], name);
  }

  lemma {:induction false} NoneOf(entries: seq<Entry>, name: Text, k: nat)
    requires Without(entries, name) == entries && k < |entries|
    ensures entries[k].name != name
  {
    var n := |entries| - 1;
    WithoutIsGone(entries[..n], name);
    assert entries[..n] == Without(entries[..n], name);
    if k < n { NoneOf(entries[..n], name, k); }
  }

  lemma {:induction false} KeepsAll(entries: seq<Entry>, name: Text)
    requires forall k | 0 <= k < |entries| :: entries[k].name != name
    ensures Without(entries, name) == entries
  {
    if entries != [] { KeepsAll(entries[..|entries| - 1], name); }
  }

  predicate NoneNamed(entries: seq<Entry>, name: Text) {
    forall k | 0 <= k < |entries| :: entries[k].name != name
  }

  /** What the line says is so already. */
  predicate Reflects(entries: seq<Entry>, line: Line) {
    match line
    case RunStart => entries == []
    case Result(name) => NoneNamed(entries, name)
    case Notice(name, text) =>
      && entries != [] && entries[|entries| - 1] == Entry(name, text)
      && NoneNamed(entries[..|entries| - 1], name)
    case Plain => true
  }

  lemma UnchangedWithoutExactly(entries: seq<Entry>, name: Text)
    ensures Without(entries, name) == entries <==> NoneNamed(entries, name)
  {
    if Without(entries, name) == entries {
      forall k | 0 <= k < |entries| ensures entries[k].name != name { NoneOf(entries, name, k); }
    } else if NoneNamed(entries, name) {
      KeepsAll(entries, name);
    }
  }

  lemma NoticeInPlace(front: seq<Entry>, e: Entry)
    requires NoneNamed(front, e.name) && |front| < RUNNING_KEPT
    ensures Kept(front + [e], Notice(e.name, e.notice)) == front + [e]
  {
    KeepsAll(front, e.name);
    WithoutLast(front, e);
  }

  lemma NoticeUnchanged(entries: seq<Entry>, e: Entry)
    requires |entries| <= RUNNING_KEPT && Kept(entries, Notice(e.name, e.notice)) == entries
    ensures Reflects(entries, Notice(e.name, e.notice))
  {
    var rest := Without(entries, e.name);
    WithoutIsGone(entries, e.name);
    UnchangedWithoutExactly(rest, e.name);
    if |rest| == RUNNING_KEPT {
      assert entries == (rest + [e])[1..] == rest[1..] + [e];
    } else {
      assert entries == rest + [e];
    }
    var n := |entries| - 1;
    forall k | 0 <= k < n ensures entries[..n][k].name != e.name {
      assert entries[k] in rest;
    }
  }

  /** Reading a line changes nothing exactly when what it says is so already. */
  lemma ReadingChangesNothingExactly(entries: seq<Entry>, line: Line)
    requires |entries| <= RUNNING_KEPT
    ensures Kept(entries, line) == entries <==> Reflects(entries, line)
  {
    if line.Result? { UnchangedWithoutExactly(entries, line.name); }
    if line.Notice? {
      var e := Entry(line.name, line.text);
      if Reflects(entries, line) {
        assert entries == entries[..|entries| - 1] + [e];
        NoticeInPlace(entries[..|entries| - 1], e);
      } else if Kept(entries, line) == entries {
        NoticeUnchanged(entries, e);
      }
    }
  }

  /** What a line says is so once it was read. */
  lemma SoOnceRead(entries: seq<Entry>, line: Line)
    ensures Reflects(Kept(entries, line), line)
  {
    if line.Result? || line.Notice? {
      WithoutIsGone(entries, line.name);
      UnchangedWithoutExactly(Without(entries, line.name), line.name);
    }
  }

  /** A line that is read again, when no other was read between, changes nothing. */
  lemma ReadAgain(entries: seq<Entry>, line: Line)
    requires |entries| <= RUNNING_KEPT
    ensures Kept(Kept(entries, line), line) == Kept(entries, line)
  {
    SoOnceRead(entries, line);
    StepKeepsTheLatest(entries, entries, line);
    ReadingChangesNothingExactly(Kept(entries, line), line);
  }

  predicate NoEndingIn(text: Text) {
    forall k | 0 <= k < |text| :: !Ending(text[k])
  }

  lemma WatchedSnoc(lines: seq<Line>, line: Line)
    ensures Watched(lines + [line]) == Kept(Watched(lines), line)
  {
    assert (lines + [line])[..|lines|] == lines;
  }

  lemma ReadOneMore(patterns: Text -> Line, lines: seq<Text>, line: Text)
    ensures Watched(Meanings(patterns, lines + [line])) ==
      Kept(Watched(Meanings(patterns, lines)), Says(patterns, line))
  {
    assert Meanings(patterns, lines + [line]) == Meanings(patterns, lines) + [Says(patterns, line)];
    WatchedSnoc(Meanings(patterns, lines), Says(patterns, line));
  }

  lemma UnfinishedIsPlain(chunks: seq<Chunk>, stream: Stream)
    ensures NoEndingIn(Unfinished(chunks, stream))
  {
    RestIsPlain(TextOf(chunks, stream));
  }

  lemma ReadsOpen(before: Text, text: Text)
    requires NoEndingIn(before) && NoEndingIn(text)
    ensures Reads(before, text) == [LastOf(before + text, LINE_KEPT_CHARS)] && LastPiece(before + text) == before + text
  {
    FirstEndIs(before + text, |before + text|);
  }

  lemma LinesGrow(chunks: seq<Chunk>, text: Text, stream: Stream)
    requires NoEndingIn(text)
    ensures var all := chunks + [Chunk(text, stream)];
      && Unfinished(all, stream) == LastOf(Unfinished(chunks, stream) + text, LINE_KEPT_CHARS)
      && LinesRead(all) == LinesRead(chunks) + [Unfinished(all, stream)]
  {
    UnfinishedIsPlain(chunks, stream);
    ReadsOpen(Unfinished(chunks, stream), text);
    PushedMore(chunks, Chunk(text, stream));
  }

  /** A chunk without an end of a line: the line that it makes longer is read, as far as it goes. */
  lemma LineGrows(patterns: Text -> Line, chunks: seq<Chunk>, text: Text, stream: Stream)
    requires NoEndingIn(text)
    ensures var all := chunks + [Chunk(text, stream)];
      WatchedAfter(patterns, all) == Kept(WatchedAfter(patterns, chunks), Says(patterns, Unfinished(all, stream)))
  {
    LinesGrow(chunks, text, stream);
    ReadOneMore(patterns, LinesRead(chunks), Unfinished(chunks + [Chunk(text, stream)], stream));
  }

  lemma FinishedOne(line: Text)
    requires NoEndingIn(line)
    ensures Finished(line + [LINE_FEED]) == [line] && LastPiece(line + [LINE_FEED]) == []
  {
    var whole := line + [LINE_FEED];
    FirstEndIs(whole, |line|);
    assert whole[..|line|] == line && EndSize(whole, |line|) == 1 && whole[|line| + 1..] == [];
    FinishedAs(whole, |line|, line, []);
    assert LastPiece(whole) == LastPiece([]) == [];
  }

  lemma ReadsEnd(before: Text, text: Text)
    requires NoEndingIn(before) && NoEndingIn(text)
    ensures Reads(before, text + [LINE_FEED]) == [before + text] + [[]]
    ensures LastPiece(before + (text + [LINE_FEED])) == []
  {
    FinishedOne(before + text);
    assert before + (text + [LINE_FEED]) == (before + text) + [LINE_FEED];
  }

  lemma LinesEnd(chunks: seq<Chunk>, text: Text, stream: Stream)
    requires NoEndingIn(text)
    ensures var all := chunks + [Chunk(text + [LINE_FEED], stream)];
      && Unfinished(all, stream) == []
      && LinesRead(all) == LinesRead(chunks) + ([Unfinished(chunks, stream) + text] + [[]])
  {
    UnfinishedIsPlain(chunks, stream);
    ReadsEnd(Unfinished(chunks, stream), text);
    PushedMore(chunks, Chunk(text + [LINE_FEED], stream));
  }

  lemma ReadTwoMore(patterns: Text -> Line, lines: seq<Text>, line: Text, next: Text)
    ensures Watched(Meanings(patterns, lines + ([line] + [next]))) ==
      Kept(Kept(Watched(Meanings(patterns, lines)), Says(patterns, line)), Says(patterns, next))
  {
    assert lines + ([line] + [next]) == lines + [line] + [next];
    ReadOneMore(patterns, lines, line);
    ReadOneMore(patterns, lines + [line], next);
  }

  /** A chunk that ends the line: the whole line is read, and the empty one after it. */
  lemma LineEnds(patterns: Text -> Line, chunks: seq<Chunk>, text: Text, stream: Stream)
    requires NoEndingIn(text) && Says(patterns, []) == Plain
    ensures WatchedAfter(patterns, chunks + [Chunk(text + [LINE_FEED], stream)]) ==
      Kept(WatchedAfter(patterns, chunks), Says(patterns, Unfinished(chunks, stream) + text))
  {
    LinesEnd(chunks, text, stream);
    ReadTwoMore(patterns, LinesRead(chunks), Unfinished(chunks, stream) + text, []);
  }

  lemma WatchedFits(patterns: Text -> Line, chunks: seq<Chunk>)
    ensures |WatchedAfter(patterns, chunks)| <= RUNNING_KEPT
  {
    KeepsTheLatest(Meanings(patterns, LinesRead(chunks)));
  }

  /** After any output, reading a line again when it has grown changes nothing exactly when what it says by
      then is so already: of the tests watched when it is read, whatever either stream brought before. */
  lemma GrowingChangesNothingExactly(patterns: Text -> Line, chunks: seq<Chunk>, text: Text, stream: Stream)
    requires NoEndingIn(text)
    ensures var all, watched := chunks + [Chunk(text, stream)], WatchedAfter(patterns, chunks);
      WatchedAfter(patterns, all) == watched <==> Reflects(watched, Says(patterns, Unfinished(all, stream)))
  {
    LineGrows(patterns, chunks, text, stream);
    WatchedFits(patterns, chunks);
    var all := chunks + [Chunk(text, stream)];
    ReadingChangesNothingExactly(WatchedAfter(patterns, chunks), Says(patterns, Unfinished(all, stream)));
  }

  /** The same of a line that ends. */
  lemma EndingChangesNothingExactly(patterns: Text -> Line, chunks: seq<Chunk>, text: Text, stream: Stream)
    requires NoEndingIn(text) && Says(patterns, []) == Plain
    ensures var all, watched := chunks + [Chunk(text + [LINE_FEED], stream)], WatchedAfter(patterns, chunks);
      WatchedAfter(patterns, all) == watched <==>
        Reflects(watched, Says(patterns, Unfinished(chunks, stream) + text))
  {
    LineEnds(patterns, chunks, text, stream);
    WatchedFits(patterns, chunks);
    ReadingChangesNothingExactly(WatchedAfter(patterns, chunks), Says(patterns, Unfinished(chunks, stream) + text));
  }

  lemma TextOfSnoc(chunks: seq<Chunk>, push: Chunk, stream: Stream)
    ensures TextOf(chunks + [push], stream) ==
      if push.stream == stream then TextOf(chunks, stream) + push.text else TextOf(chunks, stream)
  {
    assert (chunks + [push])[..|chunks|] == chunks;
  }

  /** What a watch has of some chunks: the tests watched, and the unfinished lines. */
  predicate Has(patterns: Text -> Line, chunks: seq<Chunk>, watched: seq<Entry>, out: Text, err: Text) {
    WatchedAfter(patterns, chunks) == watched && Unfinished(chunks, Out) == out && Unfinished(chunks, Err) == err
  }

  lemma HasNothing(patterns: Text -> Line)
    ensures Has(patterns, [], [], [], [])
  {
    assert Meanings(patterns, LinesRead([])) == [];
  }

  lemma HasOpenLine(patterns: Text -> Line, chunks: seq<Chunk>, text: Text, watched: seq<Entry>, out: Text, err: Text)
    requires Has(patterns, chunks, watched, out, err) && NoEndingIn(text)
    ensures |out + text| <= LINE_KEPT_CHARS ==>
      Has(patterns, chunks + [Chunk(text, Out)], Kept(watched, Says(patterns, out + text)), out + text, err)
    ensures |err + text| <= LINE_KEPT_CHARS ==>
      Has(patterns, chunks + [Chunk(text, Err)], Kept(watched, Says(patterns, err + text)), out, err + text)
  {
    LinesGrow(chunks, text, Out);
    LinesGrow(chunks, text, Err);
    LineGrows(patterns, chunks, text, Out);
    LineGrows(patterns, chunks, text, Err);
    PushedMore(chunks, Chunk(text, Out));
    PushedMore(chunks, Chunk(text, Err));
  }

  lemma HasEndedLine(patterns: Text -> Line, chunks: seq<Chunk>, text: Text, watched: seq<Entry>, out: Text, err: Text)
    requires Has(patterns, chunks, watched, out, err) && NoEndingIn(text) && Says(patterns, []) == Plain
    ensures
      Has(patterns, chunks + [Chunk(text + [LINE_FEED], Out)], Kept(watched, Says(patterns, out + text)), [], err)
  {
    LinesEnd(chunks, text, Out);
    LineEnds(patterns, chunks, text, Out);
    PushedMore(chunks, Chunk(text + [LINE_FEED], Out));
  }

  /** The start of a run is unfinished, a notice comes on the other stream, and the end of the first line
      after it. */
  function NoticeBetween(run: Text, notice: Text): seq<Chunk> {
    [Chunk(run, Out)] + [Chunk(notice, Err)] + [Chunk([LINE_FEED], Out)]
  }

  function NoticeAfter(run: Text, notice: Text): seq<Chunk> {
    [Chunk(run + [LINE_FEED], Out)] + [Chunk(notice, Err)]
  }

  lemma TextOfOne(push: Chunk, stream: Stream)
    ensures TextOf([push], stream) == if push.stream == stream then push.text else []
  {
    assert [push][..0] == [] && [] + push.text == push.text;
  }

  lemma SameOnEachStream(run: Text, notice: Text, stream: Stream)
    ensures TextOf(NoticeBetween(run, notice), stream) == TextOf(NoticeAfter(run, notice), stream)
  {
    var line: Text := [LINE_FEED];
    TextOfOne(Chunk(run, Out), stream);
    TextOfOne(Chunk(run + line, Out), stream);
    TextOfSnoc([Chunk(run, Out)], Chunk(notice, Err), stream);
    TextOfSnoc([Chunk(run, Out)] + [Chunk(notice, Err)], Chunk(line, Out), stream);
    TextOfSnoc([Chunk(run + line, Out)], Chunk(notice, Err), stream);
  }

  lemma RunThenNotice(e: Entry)
    ensures Kept([], RunStart) == [] && Kept([], Notice(e.name, e.notice)) == [e]
  {
    assert [] + [e] == [e];
  }

  lemma WatchedBetween(patterns: Text -> Line, run: Text, notice: Text, e: Entry)
    requires NoEndingIn(run) && |run| <= LINE_KEPT_CHARS && NoEndingIn(notice) && |notice| <= LINE_KEPT_CHARS
    requires Says(patterns, run) == RunStart && Says(patterns, notice) == Notice(e.name, e.notice)
    requires Says(patterns, []) == Plain
    ensures WatchedAfter(patterns, NoticeBetween(run, notice)) == []
  {
    RunThenNotice(e);
    HasNothing(patterns);
    assert [] + run == run && [] + notice == notice && run + [] == run && [] + [LINE_FEED] == [LINE_FEED];
    assert [] + [Chunk(run, Out)] == [Chunk(run, Out)];
    HasOpenLine(patterns, [], run, [], [], []);
    HasOpenLine(patterns, [Chunk(run, Out)], notice, [], run, []);
    HasEndedLine(patterns, [Chunk(run, Out)] + [Chunk(notice, Err)], [], [e], run, notice);
  }

  lemma WatchedBehind(patterns: Text -> Line, run: Text, notice: Text, e: Entry)
    requires NoEndingIn(run) && NoEndingIn(notice) && |notice| <= LINE_KEPT_CHARS
    requires Says(patterns, run) == RunStart && Says(patterns, notice) == Notice(e.name, e.notice)
    requires Says(patterns, []) == Plain
    ensures WatchedAfter(patterns, NoticeAfter(run, notice)) == [e]
  {
    RunThenNotice(e);
    HasNothing(patterns);
    assert [] + run == run && [] + notice == notice;
    assert [] + [Chunk(run + [LINE_FEED], Out)] == [Chunk(run + [LINE_FEED], Out)];
    HasEndedLine(patterns, [], run, [], [], []);
    HasOpenLine(patterns, [Chunk(run + [LINE_FEED], Out)], notice, [], [], []);
  }

  /** Read again once the other stream's notice was read, the start of a run forgets that test: the same output
      on each stream, cut in another way, leaves the test watched. */
  lemma CutForgetsNotice(patterns: Text -> Line, run: Text, notice: Text, e: Entry)
    requires NoEndingIn(run) && |run| <= LINE_KEPT_CHARS && NoEndingIn(notice) && |notice| <= LINE_KEPT_CHARS
    requires Says(patterns, run) == RunStart && Says(patterns, notice) == Notice(e.name, e.notice)
    requires Says(patterns, []) == Plain
    ensures forall s :: TextOf(NoticeBetween(run, notice), s) == TextOf(NoticeAfter(run, notice), s)
    ensures WatchedAfter(patterns, NoticeBetween(run, notice)) == []
    ensures WatchedAfter(patterns, NoticeAfter(run, notice)) == [e]
  {
    forall s ensures TextOf(NoticeBetween(run, notice), s) == TextOf(NoticeAfter(run, notice), s) {
      SameOnEachStream(run, notice, s);
    }
    WatchedBetween(patterns, run, notice, e);
    WatchedBehind(patterns, run, notice, e);
  }

  /** A line that is the start of a run as far as one chunk goes, and nothing once it is whole. */
  function GrownLine(notice: Text, run: Text, more: Text): seq<Chunk> {
    [Chunk(notice + [LINE_FEED], Out)] + [Chunk(run, Out)] + [Chunk(more + [LINE_FEED], Out)]
  }

  function WholeLine(notice: Text, run: Text, more: Text): seq<Chunk> {
    [Chunk(notice + [LINE_FEED], Out)] + [Chunk(run + more + [LINE_FEED], Out)]
  }

  lemma Regroups(a: Text, b: Text, c: Text, d: Text)
    ensures (a + b) + (c + d) == a + (b + c + d)
  {}

  lemma SameStream(notice: Text, run: Text, more: Text, stream: Stream)
    ensures TextOf(GrownLine(notice, run, more), stream) == TextOf(WholeLine(notice, run, more), stream)
  {
    var first := Chunk(notice + [LINE_FEED], Out);
    TextOfOne(first, stream);
    TextOfSnoc([first], Chunk(run, Out), stream);
    TextOfSnoc([first] + [Chunk(run, Out)], Chunk(more + [LINE_FEED], Out), stream);
    TextOfSnoc([first], Chunk(run + more + [LINE_FEED], Out), stream);
    Regroups(first.text, run, more, [LINE_FEED]);
  }

  lemma HasNotice(patterns: Text -> Line, notice: Text, e: Entry)
    requires NoEndingIn(notice) && Says(patterns, notice) == Notice(e.name, e.notice) && Says(patterns, []) == Plain
    ensures Has(patterns, [Chunk(notice + [LINE_FEED], Out)], [e], [], [])
  {
    RunThenNotice(e);
    HasNothing(patterns);
    assert [] + notice == notice;
    assert [] + [Chunk(notice + [LINE_FEED], Out)] == [Chunk(notice + [LINE_FEED], Out)];
    HasEndedLine(patterns, [], notice, [], [], []);
  }

  /** Such a line, on one stream alone and with nothing read between, forgets a test that the same output, cut
      elsewhere, leaves watched. */
  lemma GrowthForgetsNotice(patterns: Text -> Line, notice: Text, run: Text, more: Text, e: Entry)
    requires NoEndingIn(run) && NoEndingIn(more) && |run| <= LINE_KEPT_CHARS && NoEndingIn(notice)
    requires Says(patterns, notice) == Notice(e.name, e.notice) && Says(patterns, run) == RunStart
    requires Says(patterns, run + more) == Plain && Says(patterns, []) == Plain
    ensures forall s :: TextOf(GrownLine(notice, run, more), s) == TextOf(WholeLine(notice, run, more), s)
    ensures WatchedAfter(patterns, GrownLine(notice, run, more)) == []
    ensures WatchedAfter(patterns, WholeLine(notice, run, more)) == [e]
  {
    forall s ensures TextOf(GrownLine(notice, run, more), s) == TextOf(WholeLine(notice, run, more), s) {
      SameStream(notice, run, more, s);
    }
    var first := [Chunk(notice + [LINE_FEED], Out)];
    HasNotice(patterns, notice, e);
    assert [] + run == run && [] + (run + more) == run + more;
    HasOpenLine(patterns, first, run, [e], [], []);
    HasEndedLine(patterns, first + [Chunk(run, Out)], more, [], run, []);
    HasEndedLine(patterns, first, run + more, [e], [], []);
  }

  class OutputWatch {
    const patterns: Text -> Line
    /** A map in its insertion order. */
    var running: seq<Entry>
    var tail: Text
    var out: Text
    var err: Text
    ghost var chunks: seq<Chunk>

    /** However the output was cut: its tail, each stream's own unfinished line, and the tests that still run
        by the lines that were read. */
    ghost predicate Valid()
      reads this
    {
      && tail == LastOf(AllText(chunks), TAIL_KEPT_CHARS)
      && out == Unfinished(chunks, Out) && err == Unfinished(chunks, Err)
      && running == WatchedAfter(patterns, chunks)
    }

    constructor (patterns: Text -> Line)
      ensures this.patterns == patterns && Valid() && chunks == []
    {
      this.patterns := patterns;
      running, tail, out, err := [], [], [], [];
      chunks := [];
      new;
      assert Meanings(patterns, LinesRead([])) == [];
    }

    method Delete(name: Text)
      modifies this`running
      ensures running == Without(old(running), name)
    {
      var rest: seq<Entry> := [];
      for k := 0 to |running|
        invariant running == old(running) && rest == Without(running[..k], name)
      {
        assert running[..k + 1][..k] == running[..k];
        if running[k].name != name { rest := rest + [running[k]]; }
      }
      assert running[..|running|] == running;
      running := rest;
    }

    method Read(line: Text)
      modifies this`running
      ensures running == Kept(old(running), Says(patterns, line))
    {
      match Says(patterns, line) {
        case RunStart => running := [];
        case Result(name) => Delete(name);
        case Notice(name, text) =>
          Delete(name);
          running := running + [Entry(name, text)];
          if |running| > RUNNING_KEPT { running := running[1..]; }
        case Plain =>
      }
    }

    method ReadAll(lines: seq<Text>, ghost before: seq<Text>)
      requires running == Watched(Meanings(patterns, before))
      modifies this`running
      ensures running == Watched(Meanings(patterns, before + lines))
    {
      assert before + lines[..0] == before;
      for k := 0 to |lines|
        invariant running == Watched(Meanings(patterns, before + lines[..k]))
      {
        Read(lines[k]);
        OneMoreLine(patterns, before, lines, k);
      }
      assert lines[..|lines|] == lines;
    }

    method Push(text: Text, stream: Stream)
      requires Valid()
      modifies this
      ensures Valid() && chunks == old(chunks) + [Chunk(text, stream)]
    {
      tail := LastOf(tail + text, TAIL_KEPT_CHARS);
      var before := if stream == Out then out else err;
      var unfinished := LastOf(LastPiece(before + text), LINE_KEPT_CHARS);
      if stream == Out { out := unfinished; } else { err := unfinished; }
      ReadAll(Finished(before + text) + [unfinished], LinesRead(chunks));
      PushedMore(chunks, Chunk(text, stream));
      chunks := chunks + [Chunk(text, stream)];
    }

    method StillRunning() returns (notice: Text, some: bool)
      ensures some == (running != []) && (some ==> notice == running[|running| - 1].notice)
    {
      some := running != [];
      notice := if some then running[|running| - 1].notice else [];
    }

    /** The longest end of the non-blank lines of the output's last 65,536 units, each cut to its bound, that
        has at most ten lines and 2,000 characters. */
    method LastLines() returns (kept: seq<Text>)
      requires Valid()
      ensures IsLongestEnd(Shown(LastOf(AllText(chunks), 65_536)), kept)
    {
      kept := LongestEnd(Shown(tail));
    }
  }

  lemma OneMoreLine(patterns: Text -> Line, before: seq<Text>, lines: seq<Text>, k: nat)
    requires k < |lines|
    ensures Watched(Meanings(patterns, before + lines[..k + 1])) ==
      Kept(Watched(Meanings(patterns, before + lines[..k])), Says(patterns, lines[k]))
  {
    assert Meanings(patterns, before + lines[..k + 1]) ==
      Meanings(patterns, before + lines[..k]) + [Says(patterns, lines[k])];
  }

  lemma PushedMore(chunks: seq<Chunk>, push: Chunk)
    ensures var all := chunks + [push];
      && LastOf(AllText(all), TAIL_KEPT_CHARS) ==
           LastOf(LastOf(AllText(chunks), TAIL_KEPT_CHARS) + push.text, TAIL_KEPT_CHARS)
      && LinesRead(all) == LinesRead(chunks) + Reads(Unfinished(chunks, push.stream), push.text)
      && Unfinished(all, push.stream) ==
           LastOf(LastPiece(Unfinished(chunks, push.stream) + push.text), LINE_KEPT_CHARS)
      && forall other | other != push.stream :: Unfinished(all, other) == Unfinished(chunks, other)
  {
    var all := chunks + [push];
    assert all[..|all| - 1] == chunks;
    TailMore(AllText(chunks), push.text, TAIL_KEPT_CHARS);
    LastPieceIsRest(Unfinished(chunks, push.stream) + push.text);
    RestMore(TextOf(chunks, push.stream), push.text, LINE_KEPT_CHARS);
  }

  /** What a caller may know of a watch at any time: the tests it names are an end of those that are
      outstanding by the lines it read, at most 64; its tail and its unfinished lines do not depend on how the
      output was cut. */
  lemma WatchOfTheOutput(w: OutputWatch, other: seq<Chunk>)
    requires w.Valid()
    ensures |w.running| <= 64
    ensures var lines := Meanings(w.patterns, LinesRead(w.chunks));
      EndOf(w.running, Outstanding(lines)) && (NeverMore(lines) ==> w.running == Outstanding(lines))
    ensures AllText(other) == AllText(w.chunks) ==> w.tail == LastOf(AllText(other), TAIL_KEPT_CHARS)
    ensures TextOf(other, Out) == TextOf(w.chunks, Out) ==> w.out == Unfinished(other, Out)
    ensures TextOf(other, Err) == TextOf(w.chunks, Err) ==> w.err == Unfinished(other, Err)
  {
    KeepsTheLatest(Meanings(w.patterns, LinesRead(w.chunks)));
  }
}
