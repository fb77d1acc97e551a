/** How a check's output is cut into lines and cleaned (packages/agents/src/check-timeout.ts, lines 74-75
and 111-118): line ends, colour codes, white space, and the lines that a tail shows.

Text is UTF-16 code units, as JavaScript counts them. */
module OutputLines {
  import opened Basics
  import opened KeyOrder

  const LINE_FEED: Unit := 10
  const CARRIAGE_RETURN: Unit := 13
  const ESCAPE: Unit := 27
  const BRACKET: Unit := 91

  // ---------------------------------------------------------------- lines

  predicate Ending(c: Unit) { c == LINE_FEED || c == CARRIAGE_RETURN }

  /** Where the first line ends. */
  function FirstEnd(text: Text): (i: nat)
    ensures i <= |text|
  {
    if text == [] || Ending(text[0]) then 0 else 1 + FirstEnd(text[1..])
  }

  lemma {:induction false} FirstEndOf(text: Text)
    ensures forall k | 0 <= k < FirstEnd(text) :: !Ending(text[k])
    ensures FirstEnd(text) < |text| ==> Ending(text[FirstEnd(text)])
  {
    if text != [] && !Ending(text[0]) {
      FirstEndOf(text[1..]);
      assert forall k | 0 < k < |text| :: text[k] == text[1..][k - 1];
    }
  }

  /** `\r\n` is one end. */
  function EndSize(text: Text, i: nat): (n: nat)
    requires i < |text|
    ensures 1 <= n && i + n <= |text|
  {
    if text[i] == CARRIAGE_RETURN && i + 1 < |text| && text[i + 1] == LINE_FEED then 2 else 1
  }

  /** The lines that a text finishes: `split`, but for its last piece. */
  function Finished(text: Text): seq<Text>
    decreases |text|
  {
    var i := FirstEnd(text);
    if i == |text| then [] else [text[..i]] + Finished(text[i + EndSize(text, i)..])
  }

  /** The last piece of `split`. */
  function LastPiece(text: Text): Text
    decreases |text|
  {
    var i := FirstEnd(text);
    if i == |text| then text else LastPiece(text[i + EndSize(text, i)..])
  }

  /** What follows the last `\r` or `\n`. */
  function Rest(text: Text): Text {
    if text == [] || Ending(text[|text| - 1]) then [] else Rest(text[..|text| - 1]) + [text[|text| - 1]]
  }

  /** The pieces that `split` gives. */
  function LinesOf(text: Text): (lines: seq<Text>)
    ensures lines != []
  {
    Finished(text) + [LastPiece(text)]
  }

  // ---------------------------------------------------------------- colour codes and white space

  function ParametersEnd(text: Text, k: nat): (e: nat)
    requires k <= |text|
    ensures k <= e <= |text|
    decreases |text| - k
  {
    if k < |text| && (48 <= text[k] <= 57 || text[k] == 59 || text[k] == 63) then ParametersEnd(text, k + 1) else k
  }

  function IntermediatesEnd(text: Text, k: nat): (e: nat)
    requires k <= |text|
    ensures k <= e <= |text|
    decreases |text| - k
  {
    if k < |text| && 32 <= text[k] <= 47 then IntermediatesEnd(text, k + 1) else k
  }

  /** The length of the terminal code that a text begins with, or 0. */
  function CodeLength(text: Text): (n: nat)
    ensures n <= |text|
  {
    if |text| < 2 || text[0] != ESCAPE || text[1] != BRACKET then 0
    else
      var e := IntermediatesEnd(text, ParametersEnd(text, 2));
      if e < |text| && 64 <= text[e] <= 126 then e + 1 else 0
  }

  function WithoutCodes(text: Text): Text
    decreases |text|
  {
    if text == [] then []
    else if CodeLength(text) > 0 then WithoutCodes(text[CodeLength(text)..])
    else [text[0]] + WithoutCodes(text[1..])
  }

  function TrimEnd(text: Text): Text {
    if text != [] && White(text[|text| - 1]) then TrimEnd(text[..|text| - 1]) else text
  }

  function TrimStart(text: Text): Text {
    if text != [] && White(text[0]) then TrimStart(text[1..]) else text
  }

  /** The lines with something on them, without the white space after it. */
  function NonBlank(lines: seq<Text>): seq<Text> {
    if lines == [] then []
    else
      var front, line := NonBlank(lines[..|lines| - 1]), TrimEnd(lines[|lines| - 1]);
      if TrimStart(line) == [] then front else front + [line]
  }

  /** The non-blank lines of some output, without colour codes. */
  function Shown(tail: Text): seq<Text> {
    var clean := WithoutCodes(tail);
    NonBlank(LinesOf(clean))
  }

  // ---------------------------------------------------------------- what a tail shows

  predicate Parameter(c: Unit) { 48 <= c <= 57 || c == 59 || c == 63 }

  predicate Intermediate(c: Unit) { 32 <= c <= 47 }

  /** An escape, a bracket, `m - 2` parameter units, intermediate units, and one that ends it. */
  predicate CodeOf(t: Text, m: nat) {
    && 2 <= m < |t| && t[0] == ESCAPE && t[1] == BRACKET && 64 <= t[|t| - 1] <= 126
    && (forall k | 2 <= k < m :: Parameter(t[k]))
    && (forall k | m <= k < |t| - 1 :: Intermediate(t[k]))
  }

  ghost predicate IsCode(t: Text) { exists m :: CodeOf(t, m) }

  lemma {:induction false} ParametersEndAt(text: Text, k: nat, m: nat)
    requires k <= m < |text| && (forall i | k <= i < m :: Parameter(text[i])) && !Parameter(text[m])
    ensures ParametersEnd(text, k) == m
    decreases m - k
  {
    if k < m { ParametersEndAt(text, k + 1, m); }
  }

  lemma {:induction false} IntermediatesEndAt(text: Text, k: nat, m: nat)
    requires k <= m < |text| && (forall i | k <= i < m :: Intermediate(text[i])) && !Intermediate(text[m])
    ensures IntermediatesEnd(text, k) == m
    decreases m - k
  {
    if k < m { IntermediatesEndAt(text, k + 1, m); }
  }

  lemma {:induction false} ParametersAll(text: Text, k: nat)
    requires k <= |text|
    ensures forall i | k <= i < ParametersEnd(text, k) :: Parameter(text[i])
    decreases |text| - k
  {
    if k < |text| && Parameter(text[k]) { ParametersAll(text, k + 1); }
  }

  lemma {:induction false} IntermediatesAll(text: Text, k: nat)
    requires k <= |text|
    ensures forall i | k <= i < IntermediatesEnd(text, k) :: Intermediate(text[i])
    decreases |text| - k
  {
    if k < |text| && Intermediate(text[k]) { IntermediatesAll(text, k + 1); }
  }

  lemma CodeIsFound(text: Text, n: nat, m: nat)
    requires n <= |text| && CodeOf(text[..n], m)
    ensures CodeLength(text) == n
  {
    var t := text[..n];
    assert forall k | 0 <= k < n :: t[k] == text[k];
    assert !Parameter(text[n - 1]) && !Intermediate(text[n - 1]);
    if m < n - 1 { assert Intermediate(t[m]); }
    ParametersEndAt(text, 2, m);
    IntermediatesEndAt(text, m, n - 1);
  }

  /** A text begins with one code at most, the one that `CodeLength` finds. */
  lemma CodeLengthExactly(text: Text, n: nat)
    requires n <= |text|
    ensures IsCode(text[..n]) <==> n > 0 && n == CodeLength(text)
  {
    if IsCode(text[..n]) {
      var m :| CodeOf(text[..n], m);
      CodeIsFound(text, n, m);
    } else if n > 0 && n == CodeLength(text) {
      var m := ParametersEnd(text, 2);
      ParametersAll(text, 2);
      IntermediatesAll(text, m);
      assert CodeOf(text[..n], m);
      assert false;
    }
  }

  /** A piece of a text: a unit that stays, or a code. */
  datatype Piece = Stays(unit: Unit) | Code(text: Text)

  function PiecesText(pieces: seq<Piece>): Text {
    if pieces == [] then []
    else (match pieces[0] case Stays(unit) => [unit] case Code(text) => text) + PiecesText(pieces[1..])
  }

  function UnitsOf(pieces: seq<Piece>): Text {
    if pieces == [] then []
    else (if pieces[0].Stays? then [pieces[0].unit] else []) + UnitsOf(pieces[1..])
  }

  ghost predicate BeginsWithCode(text: Text) {
    exists n :: 0 <= n <= |text| && IsCode(text[..n])
  }

  /** A code is a piece of its own, and a unit stays where no code begins. */
  ghost predicate CutRight(piece: Piece, text: Text) {
    if piece.Code? then IsCode(piece.text) else !BeginsWithCode(text)
  }

  ghost predicate CutAtCodes(pieces: seq<Piece>) {
    pieces == [] || (CutRight(pieces[0], PiecesText(pieces)) && CutAtCodes(pieces[1..]))
  }

  lemma NoCodeBegins(text: Text)
    requires CodeLength(text) == 0
    ensures !BeginsWithCode(text)
  {
    forall n: nat | n <= |text| ensures !IsCode(text[..n]) { CodeLengthExactly(text, n); }
  }

  lemma PiecesCons(piece: Piece, pieces: seq<Piece>)
    ensures PiecesText([piece] + pieces) ==
      (match piece case Stays(unit) => [unit] case Code(text) => text) + PiecesText(pieces)
    ensures UnitsOf([piece] + pieces) == (if piece.Stays? then [piece.unit] else []) + UnitsOf(pieces)
    ensures CutAtCodes([piece] + pieces) <==> (CutAtCodes(pieces) && CutRight(piece, PiecesText([piece] + pieces)))
  {
    assert ([piece] + pieces)[1..] == pieces;
  }

  /** Pieces of a text, and what is left of it without the codes. */
  ghost predicate Cleans(pieces: seq<Piece>, text: Text, clean: Text) {
    PiecesText(pieces) == text && UnitsOf(pieces) == clean && CutAtCodes(pieces)
  }

  lemma CleansCode(pieces: seq<Piece>, text: Text, n: nat, clean: Text)
    requires 0 < n == CodeLength(text) && Cleans(pieces, text[n..], clean)
    ensures Cleans([Code(text[..n])] + pieces, text, clean)
  {
    CodeLengthExactly(text, n);
    PiecesCons(Code(text[..n]), pieces);
    assert text == text[..n] + text[n..];
  }

  lemma CleansUnit(pieces: seq<Piece>, text: Text, clean: Text)
    requires text != [] && CodeLength(text) == 0 && Cleans(pieces, text[1..], clean)
    ensures Cleans([Stays(text[0])] + pieces, text, [text[0]] + clean)
  {
    NoCodeBegins(text);
    PiecesCons(Stays(text[0]), pieces);
    assert text == [text[0]] + text[1..];
  }

  /** What is left of a text are its units outside of codes, in order. */
  lemma {:induction false} WithoutCodesExactly(text: Text) returns (pieces: seq<Piece>)
    ensures Cleans(pieces, text, WithoutCodes(text))
    decreases |text|
  {
    pieces := [];
    if text != [] {
      var n := CodeLength(text);
      if n > 0 {
        pieces := WithoutCodesExactly(text[n..]);
        CleansCode(pieces, text, n, WithoutCodes(text[n..]));
        pieces := [Code(text[..n])] + pieces;
      } else {
        pieces := WithoutCodesExactly(text[1..]);
        CleansUnit(pieces, text, WithoutCodes(text[1..]));
        pieces := [Stays(text[0])] + pieces;
      }
    }
  }

  predicate LineEnd(t: Text) {
    t == [LINE_FEED] || t == [CARRIAGE_RETURN] || t == [CARRIAGE_RETURN, LINE_FEED]
  }

  /** Lines with what ends each but the last. */
  function Joined(lines: seq<Text>, ends: seq<Text>): Text
    requires |lines| == |ends| + 1
  {
    if ends == [] then lines[0] else lines[0] + ends[0] + Joined(lines[1..], ends[1..])
  }

  predicate EndFree(line: Text) { forall k | 0 <= k < |line| :: !Ending(line[k]) }

  /** No line has an end within it, and none is split: a line feed right after a carriage return is of its end. */
  predicate CutAtEnds(lines: seq<Text>, ends: seq<Text>) {
    && |lines| == |ends| + 1
    && (forall k | 0 <= k < |lines| :: EndFree(lines[k]))
    && (forall k | 0 <= k < |ends| :: LineEnd(ends[k]))
    && (forall k | 0 <= k < |ends| - 1 ::
          ends[k] == [CARRIAGE_RETURN] && lines[k + 1] == [] ==> ends[k + 1][0] != LINE_FEED)
  }

  lemma LinesCons(line: Text, end: Text, lines: seq<Text>, ends: seq<Text>)
    requires CutAtEnds(lines, ends) && EndFree(line) && LineEnd(end)
    requires end == [CARRIAGE_RETURN] ==> Joined(lines, ends) == [] || Joined(lines, ends)[0] != LINE_FEED
    ensures CutAtEnds([line] + lines, [end] + ends)
    ensures Joined([line] + lines, [end] + ends) == line + end + Joined(lines, ends)
  {
    assert ([line] + lines)[1..] == lines && ([end] + ends)[1..] == ends;
    if ends != [] && lines[0] == [] { assert Joined(lines, ends)[0] == ends[0][0]; }
  }

  lemma EndAt(text: Text, i: nat)
    requires i < |text| && Ending(text[i])
    ensures var n := i + EndSize(text, i);
      && LineEnd(text[i..n]) && text == text[..i] + text[i..n] + text[n..]
      && (text[i..n] == [CARRIAGE_RETURN] ==> text[n..] == [] || text[n..][0] != LINE_FEED)
  {
    var n := i + EndSize(text, i);
    assert text[i..n] == if n == i + 1 then [text[i]] else [text[i], text[i + 1]];
  }

  lemma Assoc<T>(a: seq<T>, b: seq<T>, c: seq<T>)
    ensures (a + b) + c == a + (b + c)
  {}

  lemma FinishedStep(text: Text, i: nat, after: Text)
    requires i == FirstEnd(text) < |text| && after == text[i + EndSize(text, i)..]
    ensures Finished(text) == [text[..i]] + Finished(after) && LastPiece(text) == LastPiece(after)
  {}

  lemma LinesStep(text: Text, i: nat, after: Text)
    requires i == FirstEnd(text) < |text| && after == text[i + EndSize(text, i)..]
    ensures LinesOf(text) == [text[..i]] + LinesOf(after)
  {
    var first, finished, last := [text[..i]], Finished(after), [LastPiece(after)];
    FinishedStep(text, i, after);
    calc {
      LinesOf(text);
      (first + finished) + last;
      { Assoc(first, finished, last); }
      first + (finished + last);
    }
  }

  lemma OneLine(text: Text)
    requires FirstEnd(text) == |text|
    ensures LinesOf(text) == [text]
  {}

  /** The lines of a text, and what ends them, make up the text. */
  lemma {:induction false} LinesExactly(text: Text) returns (ends: seq<Text>)
    ensures CutAtEnds(LinesOf(text), ends) && Joined(LinesOf(text), ends) == text
    decreases |text|
  {
    var i := FirstEnd(text);
    FirstEndOf(text);
    if i == |text| {
      ends := [];
      OneLine(text);
    } else {
      var n := i + EndSize(text, i);
      ends := LinesExactly(text[n..]);
      EndAt(text, i);
      LinesStep(text, i, text[n..]);
      LinesCons(text[..i], text[i..n], LinesOf(text[n..]), ends);
      ends := [text[i..n]] + ends;
    }
  }

  predicate AllWhite(text: Text) { forall k | 0 <= k < |text| :: White(text[k]) }

  predicate Inked(text: Text) { !AllWhite(text) }

  /** What is trimmed is the white space at the end. */
  lemma {:induction false} TrimEndExactly(text: Text)
    ensures TrimEnd(text) <= text && AllWhite(text[|TrimEnd(text)|..])
    ensures TrimEnd(text) != [] ==> !White(TrimEnd(text)[|TrimEnd(text)| - 1])
  {
    if text != [] && White(text[|text| - 1]) {
      var front := text[..|text| - 1];
      TrimEndExactly(front);
      var rest := text[|TrimEnd(front)|..];
      assert rest == front[|TrimEnd(front)|..] + [text[|text| - 1]];
    } else {
      assert text[|text|..] == [];
    }
  }

  /** And the white space at the start. */
  lemma {:induction false} TrimStartExactly(text: Text) returns (front: Text)
    ensures text == front + TrimStart(text) && AllWhite(front)
    ensures TrimStart(text) != [] ==> !White(TrimStart(text)[0])
  {
    front := [];
    if text != [] && White(text[0]) {
      front := TrimStartExactly(text[1..]);
      front := [text[0]] + front;
      assert text == [text[0]] + text[1..];
    }
  }

  lemma TrimmedNothing(text: Text)
    ensures TrimStart(TrimEnd(text)) == [] <==> !Inked(text)
  {
    var line := TrimEnd(text);
    TrimEndExactly(text);
    var front := TrimStartExactly(line);
    assert text == line + text[|line|..];
    if TrimStart(line) != [] {
      assert line[|front|] == TrimStart(line)[0];
      assert text[|front|] == line[|front|];
    }
  }

  /** The lines at some places, without the white space at their ends. */
  predicate TrimmedAt(shown: seq<Text>, places: seq<nat>, lines: seq<Text>) {
    && |shown| == |places|
    && forall k | 0 <= k < |places| :: places[k] < |lines| && shown[k] == TrimEnd(lines[places[k]])
  }

  lemma TrimmedSnoc(shown: seq<Text>, places: seq<nat>, lines: seq<Text>, line: Text)
    requires TrimmedAt(shown, places, lines)
    ensures TrimmedAt(shown, places, lines + [line])
    ensures TrimmedAt(shown + [TrimEnd(line)], places + [|lines|], lines + [line])
  {}

  /** Every line with something on it is kept, in order, and no other. */
  lemma {:induction false} NonBlankExactly(lines: seq<Text>) returns (places: seq<nat>)
    ensures Chosen(places, lines, Inked) && TrimmedAt(NonBlank(lines), places, lines)
  {
    places := [];
    if lines != [] {
      var front, last := lines[..|lines| - 1], lines[|lines| - 1];
      places := NonBlankExactly(front);
      assert lines == front + [last];
      ChosenSnoc(places, front, last, Inked);
      TrimmedNothing(last);
      TrimmedSnoc(NonBlank(front), places, front, last);
      if Inked(last) { places := places + [|front|]; }
    }
  }

  /** What a tail shows: without its codes it is lines with their ends, and those with something on them
      are shown, in order and without the white space at their ends. */
  lemma ShownExactly(tail: Text) returns (pieces: seq<Piece>, lines: seq<Text>, ends: seq<Text>, places: seq<nat>)
    ensures PiecesText(pieces) == tail && CutAtCodes(pieces)
    ensures CutAtEnds(lines, ends) && Joined(lines, ends) == UnitsOf(pieces)
    ensures Chosen(places, lines, Inked) && TrimmedAt(Shown(tail), places, lines)
  {
    var clean := WithoutCodes(tail);
    pieces := WithoutCodesExactly(tail);
    lines := LinesOf(clean);
    ends := LinesExactly(clean);
    places := NonBlankExactly(lines);
  }
}
