/** The framing of a child's stdout into lines (packages/agents/src/process.ts, lines 466-520 and
576-580).

Output arrives in chunks cut anywhere.  A line longer than the limit is dropped and announced by an
overflow item with its size.  `Framed` says what the whole output frames to, without chunks, and the
class is proved to produce it whatever the chunks were. */
module LineFramer {
  import opened Utf8

  datatype Item = Line(text: string) | Overflow(bytes: nat)

  /** The bytes of a character in UTF-8 (section 3 of RFC 3629). */
  function Width(c: char): nat {
    if c < 0x80 as char then 1 else if c < 0x800 as char then 2 else if c < 0x10000 as char then 3 else 4
  }

  function ByteLength(text: string): nat {
    if text == "" then 0 else Width(text[0]) + ByteLength(text[1..])
  }

  /** What one newline-ended line becomes. */
  function ItemOf(line: string, max: nat): Item {
    if ByteLength(line) > max then Overflow(ByteLength(line)) else Line(line)
  }

  /** The position of the first newline, or the length. */
  function Newline(text: string): (i: nat)
    ensures i <= |text|
    ensures i < |text| ==> text[i] == '\n'
    ensures '\n' !in text[..i]
  {
    if text == "" || text[0] == '\n' then 0
    else
      assert text[..Newline(text[1..]) + 1] == [text[0]] + text[1..][..Newline(text[1..])];
      Newline(text[1..]) + 1
  }

  /** One item for each newline-ended line, in order. */
  function Framed(text: string, max: nat): seq<Item> {
    var i := Newline(text);
    if i == |text| then [] else [ItemOf(text[..i], max)] + Framed(text[i + 1..], max)
  }

  /** What follows the last newline. */
  function Rest(text: string): string {
    var i := Newline(text);
    if i == |text| then text else Rest(text[i + 1..])
  }

  /** The whole of an output that has ended: the unterminated rest too, when there is one and it fits. */
  function FramedAtEnd(text: string, max: nat): seq<Item> {
    Framed(text, max) + LastLine(text, max)
  }

  function LastLine(text: string, max: nat): seq<Item> {
    if Rest(text) != "" && ByteLength(Rest(text)) <= max then [Line(Rest(text))] else []
  }

  lemma {:induction false} ByteLengthConcat(a: string, b: string)
    ensures ByteLength(a + b) == ByteLength(a) + ByteLength(b)
  {
    if a == "" {
      assert a + b == b;
    } else {
      assert (a + b)[1..] == a[1..] + b;
      ByteLengthConcat(a[1..], b);
    }
  }

  lemma {:induction false} NoNewline(text: string)
    requires '\n' !in text
    ensures Newline(text) == |text|
  {}

  lemma {:induction false} NewlineIn(text: string, more: string)
    ensures Newline(text) < |text| ==> Newline(text + more) == Newline(text)
  {
    if text != "" && text[0] != '\n' {
      assert (text + more)[1..] == text[1..] + more;
      NewlineIn(text[1..], more);
    }
  }

  lemma {:induction false} FirstNewline(text: string)
    requires '\n' !in text
    ensures Newline(text + "\n") == |text|
  {
    if text != "" {
      assert (text + "\n")[1..] == text[1..] + "\n";
      FirstNewline(text[1..]);
    }
  }

  lemma Assoc<T>(a: seq<T>, b: seq<T>, c: seq<T>)
    ensures a + (b + c) == (a + b) + c
  {}

  lemma CutTogether(text: string, more: string, i: nat)
    requires i < |text|
    ensures (text + more)[..i] == text[..i] && (text + more)[i + 1..] == text[i + 1..] + more
  {}

  /** More output leaves the first line, once it is whole. */
  lemma FirstLineStays(text: string, more: string, max: nat)
    requires Newline(text) < |text|
    ensures var i := Newline(text);
      && Framed(text + more, max) == [ItemOf(text[..i], max)] + Framed(text[i + 1..] + more, max)
      && Rest(text + more) == Rest(text[i + 1..] + more)
  {
    var i := Newline(text);
    NewlineIn(text, more);
    CutTogether(text, more, i);
    FramedFirst(text + more, i, max);
  }

  lemma FramedFirst(text: string, i: nat, max: nat)
    requires Newline(text) == i < |text|
    ensures Framed(text, max) == [ItemOf(text[..i], max)] + Framed(text[i + 1..], max)
    ensures Rest(text) == Rest(text[i + 1..])
  {}

  lemma OneLine(line: string, max: nat)
    requires '\n' !in line
    ensures Framed(line + "\n", max) == [ItemOf(line, max)] && Rest(line + "\n") == ""
  {
    FirstNewline(line);
    assert (line + "\n")[..|line|] == line;
    assert (line + "\n")[|line| + 1..] == "";
  }

  lemma OnlyRest(text: string, max: nat)
    requires '\n' !in text
    ensures Framed(text, max) == [] && Rest(text) == text
  {
    NoNewline(text);
  }

  /** More output without a newline only lengthens the rest. */
  lemma {:induction false} AppendPiece(text: string, piece: string, max: nat)
    requires '\n' !in piece
    ensures Framed(text + piece, max) == Framed(text, max)
    ensures Rest(text + piece) == Rest(text) + piece
    decreases |text|
  {
    var i := Newline(text);
    if i < |text| {
      FirstLineStays(text, piece, max);
      AppendPiece(text[i + 1..], piece, max);
    } else {
      assert text[..i] == text;
      OnlyRest(text, max);
      OnlyRest(text + piece, max);
    }
  }

  /** A newline ends the rest: it becomes one item. */
  lemma {:induction false} AppendLine(text: string, piece: string, line: string, max: nat)
    requires '\n' !in piece && line == piece + "\n"
    ensures Framed(text + line, max) == Framed(text, max) + [ItemOf(Rest(text) + piece, max)]
    ensures Rest(text + line) == ""
    decreases |text|
  {
    var i := Newline(text);
    if i < |text| {
      FirstLineStays(text, line, max);
      AppendLine(text[i + 1..], piece, line, max);
      Assoc([ItemOf(text[..i], max)], Framed(text[i + 1..], max), [ItemOf(Rest(text) + piece, max)]);
    } else {
      assert text + line == text + piece + "\n";
      OneLine(text + piece, max);
    }
  }

  lemma AppendNewline(text: string, piece: string, max: nat)
    requires '\n' !in piece
    ensures Framed(text + piece + "\n", max) == Framed(text, max) + [ItemOf(Rest(text) + piece, max)]
    ensures Rest(text + piece + "\n") == ""
  {
    assert text + piece + "\n" == text + (piece + "\n");
    AppendLine(text, piece, piece + "\n", max);
  }

  /** More output never takes back an item. */
  lemma {:induction false} FramedExtends(text: string, chunk: string, max: nat)
    ensures Framed(text, max) <= Framed(text + chunk, max)
    decreases |chunk|
  {
    var i := Newline(chunk);
    if i == |chunk| {
      assert chunk[..i] == chunk;
      AppendPiece(text, chunk, max);
    } else {
      var piece, after := chunk[..i], chunk[i + 1..];
      assert text + chunk == (text + piece + "\n") + after;
      AppendNewline(text, piece, max);
      FramedExtends(text + piece + "\n", after, max);
    }
  }

  function Points(text: string): (points: seq<int>)
    ensures AllScalar(points)
  {
    seq(|text|, k requires 0 <= k < |text| => text[k] as int)
  }

  lemma {:induction false} ByteLengthIsEncoded(text: string)
    ensures ByteLength(text) == |EncodedAll(Points(text))|
  {
    if text != "" {
      ByteLengthIsEncoded(text[1..]);
      assert Points(text)[1..] == Points(text[1..]);
    }
  }

  function Unlines(lines: seq<string>): string {
    if lines == [] then "" else lines[0] + "\n" + Unlines(lines[1..])
  }

  /** What goes out for a line: itself when its bytes are within the limit, and else their number. */
  predicate Announces(item: Item, line: string, max: nat) {
    var bytes := |EncodedAll(Points(line))|;
    item == if bytes <= max then Line(line) else Overflow(bytes)
  }

  predicate OneEach(items: seq<Item>, lines: seq<string>, max: nat) {
    && |items| == |lines|
    && forall k | 0 <= k < |lines| :: '\n' !in lines[k] && Announces(items[k], lines[k], max)
  }

  lemma OneMore(item: Item, line: string, items: seq<Item>, lines: seq<string>, max: nat)
    requires '\n' !in line && Announces(item, line, max) && OneEach(items, lines, max)
    ensures OneEach([item] + items, [line] + lines, max)
  {}

  lemma UnlinesCons(line: string, lines: seq<string>)
    ensures Unlines([line] + lines) == line + "\n" + Unlines(lines)
  {
    assert ([line] + lines)[1..] == lines;
  }

  lemma AtNewline(text: string, i: nat, lines: seq<string>, rest: string)
    requires i < |text| && text[i] == '\n' && text[i + 1..] == Unlines(lines) + rest
    ensures text == Unlines([text[..i]] + lines) + rest
  {
    UnlinesCons(text[..i], lines);
    assert text == text[..i] + "\n" + text[i + 1..];
  }

  /** Any output is lines that newlines end, and a rest without one; each line is announced, in order. */
  lemma {:induction false} FramedIsTheLines(text: string, max: nat) returns (lines: seq<string>)
    ensures text == Unlines(lines) + Rest(text) && '\n' !in Rest(text)
    ensures OneEach(Framed(text, max), lines, max)
    decreases |text|
  {
    var i := Newline(text);
    if i == |text| {
      assert text[..i] == text;
      lines := [];
    } else {
      var more := FramedIsTheLines(text[i + 1..], max);
      ByteLengthIsEncoded(text[..i]);
      OneMore(ItemOf(text[..i], max), text[..i], Framed(text[i + 1..], max), more, max);
      AtNewline(text, i, more, Rest(text));
      lines := [text[..i]] + more;
    }
  }

  /** The framer's state, which is a function of the rest alone. */
  datatype State = State(lineBuffer: string, lineBytes: nat, dropping: bool, droppedBytes: nat)

  function StateFor(rest: string, max: nat): State {
    if ByteLength(rest) > max then State("", 0, true, ByteLength(rest))
    else State(rest, ByteLength(rest), false, 0)
  }

  /** The state after a piece without a newline. */
  function Held(s: State, piece: string, max: nat): State {
    var bytes := ByteLength(piece);
    if s.dropping then s.(droppedBytes := s.droppedBytes + bytes)
    else if s.lineBytes + bytes > max then State("", 0, true, s.lineBytes + bytes)
    else s.(lineBuffer := s.lineBuffer + piece, lineBytes := s.lineBytes + bytes)
  }

  lemma HeldIsFor(rest: string, piece: string, max: nat)
    ensures Held(StateFor(rest, max), piece, max) == StateFor(rest + piece, max)
  {
    ByteLengthConcat(rest, piece);
  }

  /** The item that a newline after the piece completes. */
  function Ends(s: State, piece: string, max: nat): Item {
    var bytes := ByteLength(piece);
    if s.dropping then Overflow(s.droppedBytes + bytes)
    else if s.lineBytes + bytes > max then Overflow(s.lineBytes + bytes)
    else Line(s.lineBuffer + piece)
  }

  lemma EndsIsItem(rest: string, piece: string, max: nat)
    ensures Ends(StateFor(rest, max), piece, max) == ItemOf(rest + piece, max)
  {
    ByteLengthConcat(rest, piece);
  }

  /** What the framer has made of the output so far: its items, and the rest they leave. */
  predicate Frames(seen: string, max: nat, items: seq<Item>, rest: string) {
    items == Framed(seen, max) && rest == Rest(seen)
  }

  lemma FramesPiece(seen: string, piece: string, max: nat, items: seq<Item>, rest: string)
    requires Frames(seen, max, items, rest) && '\n' !in piece
    ensures Frames(seen + piece, max, items, rest + piece)
  {
    AppendPiece(seen, piece, max);
  }

  lemma FramesNewline(seen: string, piece: string, max: nat, items: seq<Item>, rest: string, item: Item)
    requires Frames(seen, max, items, rest) && '\n' !in piece && item == Ends(StateFor(rest, max), piece, max)
    ensures Frames(seen + piece + "\n", max, items + [item], "")
  {
    AppendNewline(seen, piece, max);
    EndsIsItem(rest, piece, max);
  }

  lemma CutLine(seen: string, data: string, newline: nat)
    requires newline < |data| && data[newline] == '\n'
    ensures (seen + data[..newline] + "\n") + data[newline + 1..] == seen + data
  {
    assert data == data[..newline] + "\n" + data[newline + 1..];
  }

  class Framer {
    const maxLineBytes: nat
    var lineBuffer: string
    var lineBytes: nat
    var dropping: bool
    var droppedBytes: nat
    ghost var seen: string      // all the output so far
    ghost var items: seq<Item>  // all the items it has been framed to
    ghost var rest: string      // what follows its last newline

    constructor (maxLineBytes: nat)
      ensures this.maxLineBytes == maxLineBytes && seen == "" && items == [] && Valid()
    {
      this.maxLineBytes := maxLineBytes;
      lineBuffer, lineBytes, dropping, droppedBytes := "", 0, false, 0;
      seen, items, rest := "", [], "";
    }

    ghost predicate Valid()
      reads this
    {
      && Frames(seen, maxLineBytes, items, rest)
      && State(lineBuffer, lineBytes, dropping, droppedBytes) == StateFor(rest, maxLineBytes)
    }

    /** Data without a newline. */
    method Partial(data: string)
      requires Valid() && '\n' !in data
      modifies this
      ensures Valid() && seen == old(seen) + data && items == old(items)
    {
      FramesPiece(seen, data, maxLineBytes, items, rest);
      HeldIsFor(rest, data, maxLineBytes);
      seen, rest := seen + data, rest + data;
      var bytes := ByteLength(data);
      if dropping {
        droppedBytes := droppedBytes + bytes;
      } else {
        lineBuffer := lineBuffer + data;
        lineBytes := lineBytes + bytes;
        if lineBytes > maxLineBytes {
          dropping := true;
          droppedBytes := lineBytes;
          lineBuffer := "";
          lineBytes := 0;
        }
      }
    }

    /** A piece that a newline ends. */
    method Terminated(segment: string) returns (item: Item)
      requires Valid() && '\n' !in segment
      modifies this
      ensures Valid() && seen == old(seen) + segment + "\n" && items == old(items) + [item]
    {
      var segmentBytes := ByteLength(segment);
      if dropping {
        item := Overflow(droppedBytes + segmentBytes);
        dropping := false;
        droppedBytes := 0;
      } else {
        var line := lineBuffer + segment;
        var bytes := lineBytes + segmentBytes;
        lineBuffer := "";
        lineBytes := 0;
        item := if bytes > maxLineBytes then Overflow(bytes) else Line(line);
      }
      FramesNewline(seen, segment, maxLineBytes, items, rest, item);
      seen, items, rest := seen + segment + "\n", items + [item], "";
    }

    /** One chunk of output, and the items it completes. */
    method OnData(chunk: string) returns (completed: seq<Item>)
      requires Valid()
      modifies this
      ensures Valid() && seen == old(seen) + chunk && items == old(items) + completed
    {
      completed := [];
      var data := chunk;
      while data != ""
        invariant Valid() && seen + data == old(seen) + chunk && items == old(items) + completed
        decreases |data|
      {
        var newline := Newline(data);
        if newline == |data| {
          assert data[..newline] == data;
          Partial(data);
          return;
        }
        CutLine(seen, data, newline);
        var item := Terminated(data[..newline]);
        completed := completed + [item];
        data := data[newline + 1..];
      }
    }

    /** The end of the output: an unterminated line goes out, an overlong one does not. */
    method Flush() returns (last: seq<Item>)
      requires Valid()
      modifies this
      ensures seen == old(seen)
      ensures last == LastLine(seen, maxLineBytes) && old(items) == Framed(seen, maxLineBytes)
    {
      last := [];
      if |lineBuffer| > 0 {
        last := [Line(lineBuffer)];
        lineBuffer := "";
        lineBytes := 0;
      }
    }
  }

  /** Framing chunks one by one. */
  method FrameChunks(chunks: seq<string>, max: nat) returns (items: seq<Item>)
    ensures items == FramedAtEnd(Joined(chunks), max)
  {
    var framer := new Framer(max);
    items := [];
    for k := 0 to |chunks|
      invariant framer.Valid() && framer.maxLineBytes == max
      invariant framer.seen == Joined(chunks[..k])
      invariant items == framer.items
    {
      var more := framer.OnData(chunks[k]);
      items := items + more;
      JoinedSnoc(chunks[..k], chunks[k]);
      assert chunks[..k] + [chunks[k]] == chunks[..k + 1];
    }
    assert chunks[..|chunks|] == chunks;
    var last := framer.Flush();
    items := items + last;
  }

  function Joined(chunks: seq<string>): string {
    if chunks == [] then "" else chunks[0] + Joined(chunks[1..])
  }

  lemma {:induction false} JoinedSnoc(chunks: seq<string>, chunk: string)
    ensures Joined(chunks + [chunk]) == Joined(chunks) + chunk
  {
    if chunks == [] {
      assert chunks + [chunk] == [chunk];
    } else {
      assert (chunks + [chunk])[1..] == chunks[1..] + [chunk];
      JoinedSnoc(chunks[1..], chunk);
    }
  }
}
