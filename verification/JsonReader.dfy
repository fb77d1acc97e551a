/** A reader of JSON after RFC 8259 (sections 2 to 7), and that it gives back what the canonical text
(apps/server/src/replay-check.ts, lines 50-66) was printed from, the members of objects in the order of
their keys. */
module JsonReader {
  import opened Basics
  import opened KeyOrder
  import opened CanonicalJson

  // ---------------------------------------------------------------- the reader

  /** What was read, and what follows it. */
  type Read<T> = Option<(T, Text)>

  function SkipSpace(t: Text): (r: Text)
    ensures |r| <= |t|
  {
    if t != [] && (t[0] == 9 || t[0] == 10 || t[0] == 13 || t[0] == 32) then SkipSpace(t[1..]) else t
  }

  function HexValue(c: Unit): Option<nat> {
    if 48 <= c <= 57 then Some(c - 48)
    else if 65 <= c <= 70 then Some(c - 55)
    else if 97 <= c <= 102 then Some(c - 87)
    else None
  }

  function FromHex(t: Text): (r: Read<Unit>)
    ensures r.Some? ==> |r.value.1| < |t|
  {
    if |t| < 4 then None
    else
      var a, b, c, d := HexValue(t[0]), HexValue(t[1]), HexValue(t[2]), HexValue(t[3]);
      if a.Some? && b.Some? && c.Some? && d.Some? &&
         a.value * 4096 + b.value * 256 + c.value * 16 + d.value < 0x1_0000
      then Some((a.value * 4096 + b.value * 256 + c.value * 16 + d.value, t[4..]))
      else None
  }

  /** What stands after a backslash. */
  function ReadEscape(t: Text): (r: Read<Unit>)
    ensures r.Some? ==> |r.value.1| < |t|
  {
    if t == [] then None
    else if t[0] == QUOTE || t[0] == BACKSLASH || t[0] == 47 then Some((t[0], t[1..]))
    else if t[0] == 98 then Some((8, t[1..]))
    else if t[0] == 102 then Some((12, t[1..]))
    else if t[0] == 110 then Some((10, t[1..]))
    else if t[0] == 114 then Some((13, t[1..]))
    else if t[0] == 116 then Some((9, t[1..]))
    else if t[0] == LETTER_U then FromHex(t[1..])
    else None
  }

  /** One unit of a string; a control character does not stand there as it is. */
  function ReadUnit(t: Text): (r: Read<Unit>)
    requires t != []
    ensures r.Some? ==> |r.value.1| < |t|
  {
    if t[0] == BACKSLASH then ReadEscape(t[1..])
    else if t[0] < 32 then None
    else Some((t[0], t[1..]))
  }

  /** A string, from what follows its first quotation mark. */
  function ReadUnits(t: Text): (r: Read<Text>)
    ensures r.Some? ==> |r.value.1| < |t|
    decreases |t|
  {
    if t == [] then None
    else if t[0] == QUOTE then Some(([], t[1..]))
    else
      var unit := ReadUnit(t);
      if unit.None? then None
      else
        var rest := ReadUnits(unit.value.1);
        if rest.None? then None else Some(([unit.value.0] + rest.value.0, rest.value.1))
  }

  function ReadString(t: Text): (r: Read<Text>)
    ensures r.Some? ==> |r.value.1| < |t|
  {
    if t != [] && t[0] == QUOTE then ReadUnits(t[1..]) else None
  }

  function NumberEnd(t: Text): (e: nat)
    ensures e <= |t|
  {
    if t != [] && NumberUnit(t[0]) then 1 + NumberEnd(t[1..]) else 0
  }

  function ReadNumber(t: Text): (r: Read<Json>)
    ensures r.Some? ==> |r.value.1| < |t|
  {
    var e := NumberEnd(t);
    if Numeral(t[..e]) then Some((Num(t[..e]), t[e..])) else None
  }

  const NULL: Text := [110, 117, 108, 108]
  const TRUE: Text := [116, 114, 117, 101]
  const FALSE: Text := [102, 97, 108, 115, 101]

  function ReadValue(input: Text): (r: Read<Json>)
    ensures r.Some? ==> |r.value.1| < |input|
    decreases |input|, 0
  {
    var t := SkipSpace(input);
    if t == [] then None
    else if NULL <= t then Some((Null, t[4..]))
    else if TRUE <= t then Some((Bool(true), t[4..]))
    else if FALSE <= t then Some((Bool(false), t[5..]))
    else if t[0] == QUOTE then
      var s := ReadString(t);
      if s.None? then None else Some((Str(s.value.0), s.value.1))
    else if t[0] == OPEN_ARRAY then
      var items := ReadItems(t[1..]);
      if items.None? then None else Some((Arr(items.value.0), items.value.1))
    else if t[0] == OPEN_OBJECT then
      var members := ReadMembers(t[1..]);
      if members.None? then None else Some((Obj(members.value.0), members.value.1))
    else ReadNumber(t)
  }

  /** The items of an array, from what follows its bracket. */
  function ReadItems(input: Text): (r: Read<seq<Json>>)
    ensures r.Some? ==> |r.value.1| < |input|
    decreases |input|, 2
  {
    var t := SkipSpace(input);
    if t != [] && t[0] == CLOSE_ARRAY then Some(([], t[1..]))
    else
      var first := ReadValue(t);
      if first.None? then None
      else
        var rest := MoreItems(first.value.1);
        if rest.None? then None else Some(([first.value.0] + rest.value.0, rest.value.1))
  }

  /** What follows an item: a comma and more, or the bracket. */
  function MoreItems(input: Text): (r: Read<seq<Json>>)
    ensures r.Some? ==> |r.value.1| < |input|
    decreases |input|, 1
  {
    var t := SkipSpace(input);
    if t == [] then None
    else if t[0] == CLOSE_ARRAY then Some(([], t[1..]))
    else if t[0] != COMMA then None
    else
      var next := ReadValue(t[1..]);
      if next.None? then None
      else
        var rest := MoreItems(next.value.1);
        if rest.None? then None else Some(([next.value.0] + rest.value.0, rest.value.1))
  }

  function ReadMember(input: Text): (r: Read<Pair<Json>>)
    ensures r.Some? ==> |r.value.1| < |input|
    decreases |input|, 1
  {
    var key := ReadString(SkipSpace(input));
    if key.None? then None
    else
      var t := SkipSpace(key.value.1);
      if t == [] || t[0] != COLON then None
      else
        var value := ReadValue(t[1..]);
        if value.None? then None else Some((Pair(key.value.0, value.value.0), value.value.1))
  }

  /** The members of an object, from what follows its bracket. */
  function ReadMembers(input: Text): (r: Read<seq<Pair<Json>>>)
    ensures r.Some? ==> |r.value.1| < |input|
    decreases |input|, 2
  {
    var t := SkipSpace(input);
    if t != [] && t[0] == CLOSE_OBJECT then Some(([], t[1..]))
    else
      var first := ReadMember(t);
      if first.None? then None
      else
        var rest := MoreMembers(first.value.1);
        if rest.None? then None else Some(([first.value.0] + rest.value.0, rest.value.1))
  }

  function MoreMembers(input: Text): (r: Read<seq<Pair<Json>>>)
    ensures r.Some? ==> |r.value.1| < |input|
    decreases |input|, 1
  {
    var t := SkipSpace(input);
    if t == [] then None
    else if t[0] == CLOSE_OBJECT then Some(([], t[1..]))
    else if t[0] != COMMA then None
    else
      var next := ReadMember(t[1..]);
      if next.None? then None
      else
        var rest := MoreMembers(next.value.1);
        if rest.None? then None else Some(([next.value.0] + rest.value.0, rest.value.1))
  }

  /** A whole text: one value and nothing after it. */
  function Parse(t: Text): Option<Json> {
    var value := ReadValue(t);
    if value.Some? && SkipSpace(value.value.1) == [] then Some(value.value.0) else None
  }

  // ---------------------------------------------------------------- strings

  lemma HexReads(n: nat)
    requires n < 16
    ensures HexValue(HexDigit(n)) == Some(n)
  {}

  lemma EscapeReads(c: Unit, x: Text)
    ensures ReadUnit(Escape(c) + x) == Some((c, x))
  {
    var t := Escape(c) + x;
    if |Escape(c)| == 6 {
      HexEscapeReads(c, x);
    } else if |Escape(c)| == 2 {
      assert t[1..] == [Escape(c)[1]] + x && t[1..][1..] == x;
    } else {
      assert t[1..] == x;
    }
  }

  lemma HexEscapeReads(c: Unit, x: Text)
    requires |Escape(c)| == 6
    ensures ReadUnit(Escape(c) + x) == Some((c, x))
  {
    var p, q, r, s := c / 4096, c / 256 % 16, c / 16 % 16, c % 16;
    FourDigits(c);
    HexReads(p);
    HexReads(q);
    HexReads(r);
    HexReads(s);
    var four: Text := [HexDigit(p), HexDigit(q), HexDigit(r), HexDigit(s)];
    assert (Escape(c) + x)[1..] == [LETTER_U] + (four + x);
    assert ([LETTER_U] + (four + x))[1..] == four + x;
    HexFourReads(p, q, r, s, x);
  }

  lemma HexFourReads(p: nat, q: nat, r: nat, s: nat, x: Text)
    requires p < 16 && q < 16 && r < 16 && s < 16
    ensures var n := p * 4096 + q * 256 + r * 16 + s;
      n < 0x1_0000 && FromHex([HexDigit(p), HexDigit(q), HexDigit(r), HexDigit(s)] + x) == Some((n, x))
  {
    HexReads(p);
    HexReads(q);
    HexReads(r);
    HexReads(s);
    assert ([HexDigit(p), HexDigit(q), HexDigit(r), HexDigit(s)] + x)[4..] == x;
  }

  lemma EscapeNotQuote(c: Unit)
    ensures Escape(c)[0] != QUOTE
  {}

  /** One unit of a string, then the rest of it. */
  lemma UnitsStep(t: Text, c: Unit, more: Text, s: Text, x: Text)
    requires t != [] && t[0] != QUOTE && ReadUnit(t) == Some((c, more)) && ReadUnits(more) == Some((s, x))
    ensures ReadUnits(t) == Some(([c] + s, x))
  {}

  lemma PairReads(s: Text, more: Text, x: Text)
    requires |s| >= 2 && CanonicalJson.High(s[0]) && CanonicalJson.Low(s[1]) && ReadUnits(more) == Some((s[2..], x))
    ensures ReadUnits(s[..2] + more) == Some((s, x))
  {
    var t := s[..2] + more;
    assert t[1..] == [s[1]] + more && t[1..][1..] == more;
    UnitsStep(t[1..], s[1], more, s[2..], x);
    UnitsStep(t, s[0], t[1..], [s[1]] + s[2..], x);
    assert s == [s[0]] + ([s[1]] + s[2..]);
  }

  lemma OneReads(s: Text, more: Text, x: Text)
    requires s != [] && ReadUnits(more) == Some((s[1..], x))
    ensures ReadUnits(Escape(s[0]) + more) == Some((s, x))
  {
    EscapeReads(s[0], more);
    EscapeNotQuote(s[0]);
    UnitsStep(Escape(s[0]) + more, s[0], more, s[1..], x);
    assert s == [s[0]] + s[1..];
  }

  lemma {:induction false} EscapedReads(s: Text, x: Text)
    ensures ReadUnits(Escaped(s) + ([QUOTE] + x)) == Some((s, x))
    decreases |s|
  {
    if s == [] {
      assert Escaped(s) + ([QUOTE] + x) == [QUOTE] + x && ([QUOTE] + x)[1..] == x;
    } else {
      var n := FirstSize(s);
      var more := Escaped(s[n..]) + ([QUOTE] + x);
      EscapedReads(s[n..], x);
      Assoc(FirstText(s), Escaped(s[n..]), [QUOTE] + x);
      if n == 2 { PairReads(s, more, x); } else { OneReads(s, more, x); }
    }
  }

  /** A printed string reads back. */
  lemma StringReads(s: Text, x: Text)
    ensures ReadString(Quoted(s) + x) == Some((s, x))
  {
    EscapedReads(s, x);
    assert (Quoted(s) + x)[1..] == Escaped(s) + ([QUOTE] + x);
  }

  // ---------------------------------------------------------------- values

  /** Whatever follows a text (but what continues a number), the text reads as a value. */
  ghost predicate Reads(t: Text, v: Json) {
    Starts(t) && !Spaced(t) && forall x | Stops(x) :: ReadValue(t + x) == Some((v, x))
  }

  predicate Spaced(t: Text) {
    t != [] && (t[0] == 9 || t[0] == 10 || t[0] == 13 || t[0] == 32)
  }

  lemma SkipsNothing(t: Text, x: Text)
    requires t != [] && !Spaced(t)
    ensures SkipSpace(t + x) == t + x
  {
    assert (t + x)[0] == t[0];
  }

  lemma {:induction false} NumberEnds(t: Text, x: Text)
    requires Stops(x) && forall i | 0 <= i < |t| :: NumberUnit(t[i])
    ensures NumberEnd(t + x) == |t|
  {
    if t == [] {
      assert t + x == x;
    } else {
      assert (t + x)[1..] == t[1..] + x;
      NumberEnds(t[1..], x);
    }
  }

  lemma NumberReads(digits: Text)
    requires Parsed(Num(digits))
    ensures Reads(digits, Num(digits))
  {
    forall x | Stops(x) ensures ReadValue(digits + x) == Some((Num(digits), x)) {
      NumberEnds(digits, x);
      var t := digits + x;
      assert t[..|digits|] == digits && t[|digits|..] == x && t[0] == digits[0];
      SkipsNothing(digits, x);
    }
  }

  lemma WordReads(word: Text, v: Json, x: Text)
    requires (word == NULL && v == Null) || (word == TRUE && v == Bool(true)) || (word == FALSE && v == Bool(false))
    ensures ReadValue(word + x) == Some((v, x))
  {
    SkipsNothing(word, x);
    var t := word + x;
    assert word <= t && t[|word|..] == x && t[0] == word[0];
  }

  lemma TextReads(s: Text)
    ensures Reads(Quoted(s), Str(s))
  {
    forall x | Stops(x) ensures ReadValue(Quoted(s) + x) == Some((Str(s), x)) {
      StringReads(s, x);
      SkipsNothing(Quoted(s), x);
      assert (Quoted(s) + x)[0] == QUOTE;
    }
  }

  lemma Opened(open: Unit, t: Text, tail: Text, x: Text)
    ensures [open] + (t + tail) + x == [open] + (t + (tail + x))
  {}

  lemma Rejoined<T>(s: seq<T>)
    requires s != []
    ensures [s[0]] + s[1..] == s
  {}

  ghost predicate AllRead(ts: seq<Text>, vs: seq<Json>) {
    |ts| == |vs| && forall i | 0 <= i < |ts| :: Reads(ts[i], vs[i])
  }

  lemma AllReadTail(ts: seq<Text>, vs: seq<Json>)
    requires AllRead(ts, vs) && ts != []
    ensures Reads(ts[0], vs[0]) && AllRead(ts[1..], vs[1..])
  {}

  lemma ItemsStep(t: Text, v: Json, tail: Text, vs: seq<Json>, x: Text)
    requires Reads(t, v) && Stops(tail) && MoreItems(tail) == Some((vs, x))
    ensures MoreItems([COMMA] + (t + tail)) == Some(([v] + vs, x))
  {
    var all := [COMMA] + (t + tail);
    assert SkipSpace(all) == all && all[1..] == t + tail;
  }

  lemma {:induction false} TailReads(ts: seq<Text>, vs: seq<Json>, x: Text)
    requires AllRead(ts, vs)
    ensures MoreItems(Tail(ts, CLOSE_ARRAY) + x) == Some((vs, x))
    decreases |ts|
  {
    if ts == [] {
      var t := [CLOSE_ARRAY] + x;
      assert SkipSpace(t) == t && t[1..] == x;
    } else {
      var tail := Tail(ts[1..], CLOSE_ARRAY) + x;
      AllReadTail(ts, vs);
      TailReads(ts[1..], vs[1..], x);
      TailStops(ts[1..], CLOSE_ARRAY, x);
      ItemsStep(ts[0], vs[0], tail, vs[1..], x);
      Opened(COMMA, ts[0], Tail(ts[1..], CLOSE_ARRAY), x);
      Rejoined(vs);
    }
  }

  lemma OpensArray(rest: Text, vs: seq<Json>, x: Text)
    requires ReadItems(rest) == Some((vs, x))
    ensures ReadValue([OPEN_ARRAY] + rest) == Some((Arr(vs), x))
  {
    var t := [OPEN_ARRAY] + rest;
    assert SkipSpace(t) == t && t[1..] == rest;
  }

  lemma NoItems(x: Text)
    ensures ReadItems([CLOSE_ARRAY] + x) == Some(([], x))
  {
    var t := [CLOSE_ARRAY] + x;
    assert SkipSpace(t) == t && t[1..] == x;
  }

  lemma ItemsRead(ts: seq<Text>, vs: seq<Json>, x: Text)
    requires AllRead(ts, vs)
    ensures ReadValue(Enclosed(OPEN_ARRAY, ts, CLOSE_ARRAY) + x) == Some((Arr(vs), x))
  {
    if ts == [] {
      NoItems(x);
      OpensArray([CLOSE_ARRAY] + x, [], x);
      assert [OPEN_ARRAY, CLOSE_ARRAY] + x == [OPEN_ARRAY] + ([CLOSE_ARRAY] + x);
    } else {
      var tail := Tail(ts[1..], CLOSE_ARRAY) + x;
      AllReadTail(ts, vs);
      TailReads(ts[1..], vs[1..], x);
      TailStops(ts[1..], CLOSE_ARRAY, x);
      FirstItem(ts[0], vs[0], tail, vs[1..], x);
      OpensArray(ts[0] + tail, [vs[0]] + vs[1..], x);
      Opened(OPEN_ARRAY, ts[0], Tail(ts[1..], CLOSE_ARRAY), x);
      Rejoined(vs);
    }
  }

  lemma FirstItem(t: Text, v: Json, tail: Text, vs: seq<Json>, x: Text)
    requires Reads(t, v) && Stops(tail) && MoreItems(tail) == Some((vs, x))
    ensures ReadItems(t + tail) == Some(([v] + vs, x))
  {
    SkipsNothing(t, tail);
    assert (t + tail)[0] == t[0];
  }

  // ---------------------------------------------------------------- members

  ghost predicate MembersReadAs(ps: seq<Pair<Text>>, ms: seq<Pair<Json>>) {
    |ps| == |ms| && forall i | 0 <= i < |ps| :: ps[i].key == ms[i].key && Reads(ps[i].value, ms[i].value)
  }

  lemma MemberReads(p: Pair<Text>, m: Pair<Json>, x: Text)
    requires p.key == m.key && Reads(p.value, m.value) && Stops(x)
    ensures ReadMember(MemberText(p) + x) == Some((m, x))
  {
    var after := [COLON] + (p.value + x);
    assert MemberText(p) + x == Quoted(p.key) + after;
    SkipsNothing(Quoted(p.key), after);
    StringReads(p.key, after);
    assert SkipSpace(after) == after && after[1..] == p.value + x;
  }

  lemma MembersStep(p: Pair<Text>, m: Pair<Json>, tail: Text, ms: seq<Pair<Json>>, x: Text)
    requires p.key == m.key && Reads(p.value, m.value) && Stops(tail) && MoreMembers(tail) == Some((ms, x))
    ensures MoreMembers([COMMA] + (MemberText(p) + tail)) == Some(([m] + ms, x))
  {
    var all := [COMMA] + (MemberText(p) + tail);
    MemberReads(p, m, tail);
    assert SkipSpace(all) == all && all[1..] == MemberText(p) + tail;
  }

  lemma FirstMember(p: Pair<Text>, m: Pair<Json>, tail: Text, ms: seq<Pair<Json>>, x: Text)
    requires p.key == m.key && Reads(p.value, m.value) && Stops(tail) && MoreMembers(tail) == Some((ms, x))
    ensures ReadMembers(MemberText(p) + tail) == Some(([m] + ms, x))
  {
    SkipsNothing(MemberText(p), tail);
    MemberReads(p, m, tail);
    assert (MemberText(p) + tail)[0] == QUOTE;
  }

  lemma MemberTextsTail(ps: seq<Pair<Text>>)
    requires ps != []
    ensures MemberTexts(ps)[0] == MemberText(ps[0]) && MemberTexts(ps)[1..] == MemberTexts(ps[1..])
  {}

  lemma {:induction false} MembersTailReads(ps: seq<Pair<Text>>, ms: seq<Pair<Json>>, x: Text)
    requires MembersReadAs(ps, ms)
    ensures MoreMembers(Tail(MemberTexts(ps), CLOSE_OBJECT) + x) == Some((ms, x))
    decreases |ps|
  {
    if ps == [] {
      var t := [CLOSE_OBJECT] + x;
      assert SkipSpace(t) == t && t[1..] == x;
    } else {
      var tail := Tail(MemberTexts(ps[1..]), CLOSE_OBJECT) + x;
      MembersTailReads(ps[1..], ms[1..], x);
      TailStops(MemberTexts(ps[1..]), CLOSE_OBJECT, x);
      MembersStep(ps[0], ms[0], tail, ms[1..], x);
      MemberTextsTail(ps);
      Opened(COMMA, MemberText(ps[0]), Tail(MemberTexts(ps[1..]), CLOSE_OBJECT), x);
      Rejoined(ms);
    }
  }

  lemma OpensObject(rest: Text, ms: seq<Pair<Json>>, x: Text)
    requires ReadMembers(rest) == Some((ms, x))
    ensures ReadValue([OPEN_OBJECT] + rest) == Some((Obj(ms), x))
  {
    var t := [OPEN_OBJECT] + rest;
    assert SkipSpace(t) == t && t[1..] == rest;
  }

  lemma NoMembers(x: Text)
    ensures ReadMembers([CLOSE_OBJECT] + x) == Some(([], x))
  {
    var t := [CLOSE_OBJECT] + x;
    assert SkipSpace(t) == t && t[1..] == x;
  }

  lemma MembersRead(ps: seq<Pair<Text>>, ms: seq<Pair<Json>>, x: Text)
    requires MembersReadAs(ps, ms)
    ensures ReadValue(Enclosed(OPEN_OBJECT, MemberTexts(ps), CLOSE_OBJECT) + x) == Some((Obj(ms), x))
  {
    if ps == [] {
      NoMembers(x);
      OpensObject([CLOSE_OBJECT] + x, [], x);
      assert [OPEN_OBJECT, CLOSE_OBJECT] + x == [OPEN_OBJECT] + ([CLOSE_OBJECT] + x);
    } else {
      var tail := Tail(MemberTexts(ps[1..]), CLOSE_OBJECT) + x;
      MembersTailReads(ps[1..], ms[1..], x);
      TailStops(MemberTexts(ps[1..]), CLOSE_OBJECT, x);
      FirstMember(ps[0], ms[0], tail, ms[1..], x);
      OpensObject(MemberText(ps[0]) + tail, [ms[0]] + ms[1..], x);
      MemberTextsTail(ps);
      Opened(OPEN_OBJECT, MemberText(ps[0]), Tail(MemberTexts(ps[1..]), CLOSE_OBJECT), x);
      Rejoined(ms);
    }
  }

  // ---------------------------------------------------------------- the round trip

  function SortedEach(members: seq<Pair<Json>>): (sorted: seq<Pair<Json>>)
    ensures |sorted| == |members|
  {
    seq(|members|, i requires 0 <= i < |members| => Pair(members[i].key, Ordered(members[i].value)))
  }

  /** A value with the members of its objects in the order of their keys. */
  function Ordered(v: Json): Json {
    match v
    case Arr(items) => Arr(seq(|items|, i requires 0 <= i < |items| => Ordered(items[i])))
    case Obj(members) =>
      Obj(InOrder(seq(|members|, i requires 0 <= i < |members| => Pair(members[i].key, Ordered(members[i].value)))))
    case _ => v
  }

  lemma {:induction false} InsertReads(p: Pair<Text>, m: Pair<Json>, ps: seq<Pair<Text>>, ms: seq<Pair<Json>>)
    requires p.key == m.key && Reads(p.value, m.value) && MembersReadAs(ps, ms)
    ensures MembersReadAs(Insert(p, ps), Insert(m, ms))
    decreases |ps|
  {
    if ps != [] && !UpTo(p.key, ps[0].key) {
      InsertReads(p, m, ps[1..], ms[1..]);
    }
  }

  /** Texts and values under the same keys are put in the same order. */
  lemma {:induction false} InOrderReads(ps: seq<Pair<Text>>, ms: seq<Pair<Json>>)
    requires MembersReadAs(ps, ms)
    ensures MembersReadAs(InOrder(ps), InOrder(ms))
    decreases |ps|
  {
    if ps != [] {
      InOrderReads(ps[1..], ms[1..]);
      InsertReads(ps[0], ms[0], InOrder(ps[1..]), InOrder(ms[1..]));
    }
  }

  lemma OrderedObject(members: seq<Pair<Json>>)
    ensures Ordered(Obj(members)) == Obj(InOrder(SortedEach(members)))
  {
    assert SortedEach(members) ==
      seq(|members|, i requires 0 <= i < |members| => Pair(members[i].key, Ordered(members[i].value)));
  }

  lemma ArrayReads(v: Json, vs: seq<Json>)
    requires Parsed(v) && v.Arr? && AllRead(Texts(v.items), vs)
    ensures Reads(Canon(v), Arr(vs))
  {
    CanonArray(v.items);
    CanonFirst(v);
    forall x | Stops(x) ensures ReadValue(Canon(v) + x) == Some((Arr(vs), x)) { ItemsRead(Texts(v.items), vs, x); }
  }

  lemma ObjectReads(v: Json)
    requires Parsed(v) && v.Obj? && MembersReadAs(Printed(v.members), SortedEach(v.members))
    ensures Reads(Canon(v), Ordered(v))
  {
    CanonObject(v.members);
    CanonFirst(v);
    OrderedObject(v.members);
    InOrderReads(Printed(v.members), SortedEach(v.members));
    forall x | Stops(x) ensures ReadValue(Canon(v) + x) == Some((Ordered(v), x)) {
      MembersRead(InOrder(Printed(v.members)), InOrder(SortedEach(v.members)), x);
    }
  }

  lemma WordsRead(v: Json)
    requires v.Null? || v.Bool?
    ensures Reads(Canon(v), v)
  {
    forall x | Stops(x) ensures ReadValue(Canon(v) + x) == Some((v, x)) { WordReads(Canon(v), v, x); }
  }

  lemma {:induction false} CanonReads(v: Json)
    requires Parsed(v)
    ensures Reads(Canon(v), Ordered(v))
    decreases v
  {
    match v {
      case Null => WordsRead(v);
      case Bool(_) => WordsRead(v);
      case Num(digits) => NumberReads(digits);
      case Str(text) => TextReads(text);
      case Arr(items) =>
        forall i | 0 <= i < |items| ensures Reads(Texts(items)[i], Ordered(v).items[i]) { CanonReads(items[i]); }
        ArrayReads(v, Ordered(v).items);
      case Obj(members) =>
        forall i | 0 <= i < |members| ensures Reads(Printed(members)[i].value, SortedEach(members)[i].value) {
          CanonReads(members[i].value);
        }
        ObjectReads(v);
    }
  }

  lemma OrderedFrom(members: seq<Pair<Json>>, j: nat) returns (k: nat)
    requires j < |members|
    ensures k < |members| && InOrder(SortedEach(members))[j] == Pair(members[k].key, Ordered(members[k].value))
  {
    var each := SortedEach(members);
    InOrderKeeps(each);
    InMultiset(InOrder(each), each, j);
    k :| 0 <= k < |each| && each[k] == InOrder(each)[j];
  }

  lemma OrderedKeys(members: seq<Pair<Json>>)
    ensures multiset(Keys(InOrder(SortedEach(members)))) == multiset(Keys(members))
  {
    var each := SortedEach(members);
    InOrderKeeps(each);
    KeysAlike(InOrder(each), each);
    assert Keys(each) == Keys(members);
  }

  lemma {:induction false} OrderedSame(v: Json)
    requires Parsed(v)
    ensures Same(v, Ordered(v))
    decreases v
  {
    match v {
      case Arr(items) =>
        forall i | 0 <= i < |items| ensures Same(items[i], Ordered(v).items[i]) { OrderedSame(items[i]); }
      case Obj(members) =>
        OrderedObject(members);
        OrderedKeys(members);
        var ordered := InOrder(SortedEach(members));
        forall i, j | 0 <= i < |members| && 0 <= j < |ordered| && members[i].key == ordered[j].key
          ensures Same(members[i].value, ordered[j].value)
        {
          var k := OrderedFrom(members, j);
          assert members[i].key == members[k].key;
          OrderedSame(members[i].value);
        }
      case _ =>
    }
  }

  /** A canonical text is JSON, and reads back as the value it was printed from, its objects' members in the
      order of their keys. */
  lemma ParseGivesBack(v: Json)
    requires Parsed(v)
    ensures Parse(Canon(v)) == Some(Ordered(v)) && Same(v, Ordered(v))
  {
    CanonReads(v);
    OrderedSame(v);
    assert Canon(v) + [] == Canon(v);
  }

  // ---------------------------------------------------------------- no other text would do

  predicate Surrogate(c: Unit) { CanonicalJson.High(c) || CanonicalJson.Low(c) }

  predicate LowerHex(t: Text) {
    forall k | 2 <= k < |t| :: !(65 <= t[k] <= 70)
  }

  lemma HexOne(c: Unit, n: nat)
    requires HexValue(c) == Some(n) && !(65 <= c <= 70)
    ensures n < 16 && HexDigit(n) == c
  {}

  lemma HexFour(c: Unit, a: nat, b: nat, d: nat, e: nat)
    requires a < 16 && b < 16 && d < 16 && e < 16 && c == a * 4096 + b * 256 + d * 16 + e
    ensures a == c / 4096 && b == c / 256 % 16 && d == c / 16 % 16 && e == c % 16
  {
    assert c / 16 == a * 256 + b * 16 + d && c / 256 == a * 16 + b;
  }

  lemma HexReadBack(c: Unit, t: Text)
    requires |t| == 6 && t[0] == BACKSLASH && t[1] == LETTER_U && LowerHex(t) && ReadUnit(t) == Some((c, []))
    ensures t ==
      [BACKSLASH, LETTER_U, HexDigit(c / 4096), HexDigit(c / 256 % 16), HexDigit(c / 16 % 16), HexDigit(c % 16)]
  {
    var u := t[1..][1..];
    assert u[0] == t[2] && u[1] == t[3] && u[2] == t[4] && u[3] == t[5];
    var a, b, d, e := HexValue(u[0]).value, HexValue(u[1]).value, HexValue(u[2]).value, HexValue(u[3]).value;
    HexOne(t[2], a);
    HexOne(t[3], b);
    HexOne(t[4], d);
    HexOne(t[5], e);
    HexFour(c, a, b, d, e);
  }

  /** How long a text is that reads as a unit of a string. */
  lemma UnitLengths(c: Unit, t: Text)
    requires t != [] && ReadUnit(t) == Some((c, []))
    ensures |t| == 1 || |t| == 2 || |t| == 6
    ensures |t| == 1 ==> t == [c] && c >= 32 && c != BACKSLASH
    ensures |t| == 2 ==> t[0] == BACKSLASH && t[1] != LETTER_U
    ensures |t| == 6 ==> t[0] == BACKSLASH && t[1] == LETTER_U
  {
    if t[0] == BACKSLASH && |t| > 1 && t[1] == LETTER_U {
      assert t[1..][1..][4..] == [] ==> |t| == 6;
    } else if t[0] == BACKSLASH {
      assert t[1..] != [] && t[1..][1..] == [] ==> |t| == 2;
    } else {
      assert t[1..] == [];
    }
  }

  /** Of the texts that read as a unit of a string, `Escape` gives the shortest, with small letters for its
      digits; but a surrogate by itself, which is no character, is always given by its digits. */
  lemma EscapeIsShortest(c: Unit, t: Text)
    requires t != [] && ReadUnit(t) == Some((c, [])) && t[0] != QUOTE
    ensures Surrogate(c) ==> |Escape(c)| == 6
    ensures |t| < |Escape(c)| ==> Surrogate(c)
    ensures |t| == |Escape(c)| && LowerHex(t) ==> t == Escape(c)
  {
    UnitLengths(c, t);
    if |t| == 6 && |Escape(c)| == 6 && LowerHex(t) {
      HexReadBack(c, t);
    } else if |t| == 2 && |Escape(c)| == 2 {
      assert t[1..][0] == t[1];
      assert t == [BACKSLASH, t[1]];
    }
  }

  /** A pair of surrogates is a character, and stays as it is. */
  lemma PairsStay(s: Text)
    requires |s| >= 2 && CanonicalJson.High(s[0]) && CanonicalJson.Low(s[1])
    ensures Escaped(s) == s[..2] + Escaped(s[2..])
  {}

  function Total(texts: seq<Text>): nat {
    if texts == [] then 0 else |texts[0]| + Total(texts[1..])
  }

  function Commas<T>(s: seq<T>): nat {
    if s == [] then 0 else |s| - 1
  }

  lemma {:induction false} TailLength(texts: seq<Text>, close: Unit)
    ensures |Tail(texts, close)| == |texts| + Total(texts) + 1
  {
    if texts != [] { TailLength(texts[1..], close); }
  }

  lemma EnclosedLength(open: Unit, texts: seq<Text>, close: Unit)
    ensures |Enclosed(open, texts, close)| == 2 + Total(texts) + Commas(texts)
  {
    if texts != [] { TailLength(texts[1..], close); }
  }

  lemma TotalCons(p: Pair<Text>, ps: seq<Pair<Text>>)
    ensures Total(MemberTexts([p] + ps)) == |MemberText(p)| + Total(MemberTexts(ps))
  {
    assert MemberTexts([p] + ps)[1..] == MemberTexts(ps);
  }

  lemma {:induction false} TotalInsert(p: Pair<Text>, ps: seq<Pair<Text>>)
    ensures Total(MemberTexts(Insert(p, ps))) == |MemberText(p)| + Total(MemberTexts(ps))
    decreases |ps|
  {
    TotalCons(p, ps);
    if ps != [] {
      TotalInsert(p, ps[1..]);
      TotalCons(ps[0], ps[1..]);
      TotalCons(ps[0], Insert(p, ps[1..]));
      Rejoined(ps);
    }
  }

  lemma {:induction false} TotalInOrder(ps: seq<Pair<Text>>)
    ensures Total(MemberTexts(InOrder(ps))) == Total(MemberTexts(ps)) && |InOrder(ps)| == |ps|
    decreases |ps|
  {
    if ps != [] {
      TotalInOrder(ps[1..]);
      TotalInsert(ps[0], InOrder(ps[1..]));
      TotalCons(ps[0], ps[1..]);
      Rejoined(ps);
    }
  }

  function KeyTexts(members: seq<Pair<Json>>): (texts: seq<Text>)
    ensures |texts| == |members|
  {
    seq(|members|, i requires 0 <= i < |members| => Quoted(members[i].key))
  }

  function ValueTexts(members: seq<Pair<Json>>): (texts: seq<Text>)
    ensures |texts| == |members|
  {
    seq(|members|, i requires 0 <= i < |members| => Canon(members[i].value))
  }

  lemma {:induction false} MembersLength(members: seq<Pair<Json>>)
    ensures Total(MemberTexts(Printed(members))) == Total(KeyTexts(members)) + |members| + Total(ValueTexts(members))
    decreases |members|
  {
    if members != [] {
      MembersLength(members[1..]);
      assert Printed(members) == [Printed(members)[0]] + Printed(members[1..]);
      TotalCons(Printed(members)[0], Printed(members[1..]));
      assert KeyTexts(members)[1..] == KeyTexts(members[1..]) && ValueTexts(members)[1..] == ValueTexts(members[1..]);
    }
  }

  /** There is no white space between the parts of a canonical text: it is as long as they are, with their
      brackets, commas and colons. */
  lemma NoSpaceBetween(v: Json)
    ensures v.Arr? ==> |Canon(v)| == 2 + Total(Texts(v.items)) + Commas(v.items)
    ensures v.Obj? ==>
      |Canon(v)| == 2 + Total(KeyTexts(v.members)) + |v.members| + Total(ValueTexts(v.members)) + Commas(v.members)
  {
    if v.Arr? {
      CanonArray(v.items);
      EnclosedLength(OPEN_ARRAY, Texts(v.items), CLOSE_ARRAY);
    } else if v.Obj? {
      CanonObject(v.members);
      EnclosedLength(OPEN_OBJECT, Members(v.members), CLOSE_OBJECT);
      TotalInOrder(Printed(v.members));
      MembersLength(v.members);
    }
  }
}
