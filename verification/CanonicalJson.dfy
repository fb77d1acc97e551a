/** The canonical JSON that two records are compared in (apps/server/src/replay-check.ts, lines 50-66).

The value is what `JSON.parse(JSON.stringify(..))` gives: no undefined member, no key twice in an
object.  A number is the text JavaScript prints for it: the printer of numbers is taken to give different
numbers different texts, each of them a number of section 6 of RFC 8259.  Strings are
printed as ECMAScript's QuoteJSONString does (section 7 of RFC 8259). */
module CanonicalJson {
  import opened KeyOrder

  datatype Json =
    | Null
    | Bool(b: bool)
    | Num(digits: Text)
    | Str(text: Text)
    | Arr(items: seq<Json>)
    | Obj(members: seq<Pair<Json>>)

  const QUOTE := 34
  const COMMA := 44
  const COLON := 58
  const OPEN_ARRAY := 91
  const BACKSLASH := 92
  const CLOSE_ARRAY := 93
  const LETTER_U := 117
  const OPEN_OBJECT := 123
  const CLOSE_OBJECT := 125

  /** A digit, a sign, a point or an exponent's letter. */
  predicate NumberUnit(c: Unit) {
    48 <= c <= 57 || c == 43 || c == 45 || c == 46 || c == 69 || c == 101
  }

  function DigitsEnd(t: Text, k: nat): (e: nat)
    requires k <= |t|
    ensures k <= e <= |t|
    decreases |t| - k
  {
    if k < |t| && 48 <= t[k] <= 57 then DigitsEnd(t, k + 1) else k
  }

  /** From `k`, an exponent and no more. */
  predicate Exponent(t: Text, k: nat) {
    k < |t| && (t[k] == 69 || t[k] == 101) &&
    var d := if k + 1 < |t| && (t[k + 1] == 43 || t[k + 1] == 45) then k + 2 else k + 1;
    d < |t| && DigitsEnd(t, d) == |t|
  }

  /** A number (section 6 of RFC 8259): a sign, digits without a leading zero, a fraction, an exponent. */
  predicate Numeral(t: Text) {
    var a := if t != [] && t[0] == 45 then 1 else 0;
    a < |t| && 48 <= t[a] <= 57 &&
    var b := if t[a] == 48 then a + 1 else DigitsEnd(t, a);
    var c := if b < |t| && t[b] == 46 then DigitsEnd(t, b + 1) else b;
    c != b + 1 && (c == |t| || Exponent(t, c))
  }

  /** What `JSON.parse` can give. */
  predicate Parsed(v: Json) {
    match v
    case Num(digits) => Numeral(digits) && forall i | 0 <= i < |digits| :: NumberUnit(digits[i])
    case Arr(items) => forall i | 0 <= i < |items| :: Parsed(items[i])
    case Obj(members) => Distinct(members) && forall i | 0 <= i < |members| :: Parsed(members[i].value)
    case _ => true
  }

  // ---------------------------------------------------------------- the printer

  function HexDigit(n: nat): Unit
    requires n < 16
  {
    if n < 10 then 48 + n else 87 + n
  }

  predicate High(c: Unit) { 0xD800 <= c < 0xDC00 }

  predicate Low(c: Unit) { 0xDC00 <= c < 0xE000 }

  function Escape(c: Unit): Text {
    if c == QUOTE || c == BACKSLASH then [BACKSLASH, c]
    else if c == 8 then [BACKSLASH, 98]
    else if c == 9 then [BACKSLASH, 116]
    else if c == 10 then [BACKSLASH, 110]
    else if c == 12 then [BACKSLASH, 102]
    else if c == 13 then [BACKSLASH, 114]
    else if c < 32 || High(c) || Low(c) then
      [BACKSLASH, LETTER_U, HexDigit(c / 4096), HexDigit(c / 256 % 16), HexDigit(c / 16 % 16), HexDigit(c % 16)]
    else [c]
  }

  /** How many units the first character of a string takes: a surrogate pair is one character. */
  function FirstSize(s: Text): (n: nat)
    requires s != []
    ensures 1 <= n <= |s|
  {
    if High(s[0]) && |s| > 1 && Low(s[1]) then 2 else 1
  }

  function FirstText(s: Text): Text
    requires s != []
  {
    if FirstSize(s) == 2 then s[..2] else Escape(s[0])
  }

  function Escaped(s: Text): Text
    decreases |s|
  {
    if s == [] then [] else FirstText(s) + Escaped(s[FirstSize(s)..])
  }

  /** `JSON.stringify` of a string. */
  function Quoted(s: Text): Text {
    [QUOTE] + Escaped(s) + [QUOTE]
  }

  function Tail(texts: seq<Text>, close: Unit): Text {
    if texts == [] then [close] else [COMMA] + (texts[0] + Tail(texts[1..], close))
  }

  /** Texts with commas between them, and brackets around them. */
  function Enclosed(open: Unit, texts: seq<Text>, close: Unit): Text {
    if texts == [] then [open, close] else [open] + (texts[0] + Tail(texts[1..], close))
  }

  function MemberText(p: Pair<Text>): Text {
    Quoted(p.key) + ([COLON] + p.value)
  }

  function MemberTexts(ps: seq<Pair<Text>>): (texts: seq<Text>)
    ensures |texts| == |ps|
  {
    seq(|ps|, i requires 0 <= i < |ps| => MemberText(ps[i]))
  }

  /** `canonical`: the members of an object in the order of their keys. */
  function Canon(v: Json): Text {
    match v
    case Null => [110, 117, 108, 108]
    case Bool(b) => if b then [116, 114, 117, 101] else [102, 97, 108, 115, 101]
    case Num(digits) => digits
    case Str(text) => Quoted(text)
    case Arr(items) =>
      Enclosed(OPEN_ARRAY, seq(|items|, i requires 0 <= i < |items| => Canon(items[i])), CLOSE_ARRAY)
    case Obj(members) =>
      var printed := seq(|members|, i requires 0 <= i < |members| => Pair(members[i].key, Canon(members[i].value)));
      Enclosed(OPEN_OBJECT, MemberTexts(InOrder(printed)), CLOSE_OBJECT)
  }

  function Texts(items: seq<Json>): (texts: seq<Text>)
    ensures |texts| == |items|
  {
    seq(|items|, i requires 0 <= i < |items| => Canon(items[i]))
  }

  function Printed(members: seq<Pair<Json>>): (printed: seq<Pair<Text>>)
    ensures |printed| == |members|
  {
    seq(|members|, i requires 0 <= i < |members| => Pair(members[i].key, Canon(members[i].value)))
  }

  /** Equal but for the order of the members of objects, at any depth. */
  ghost predicate Same(v: Json, w: Json) {
    match v
    case Arr(items) =>
      w.Arr? && |items| == |w.items| && forall i | 0 <= i < |items| :: Same(items[i], w.items[i])
    case Obj(members) =>
      && w.Obj? && multiset(Keys(members)) == multiset(Keys(w.members))
      && forall i, j | 0 <= i < |members| && 0 <= j < |w.members| && members[i].key == w.members[j].key ::
           Same(members[i].value, w.members[j].value)
    case _ => v == w
  }

  // ---------------------------------------------------------------- a printed string is read one way

  lemma HexUnique(m: nat, n: nat)
    requires m < 16 && n < 16 && HexDigit(m) == HexDigit(n)
    ensures m == n
  {}

  lemma FourDigits(c: Unit)
    ensures c == (c / 4096) * 4096 + (c / 256 % 16) * 256 + (c / 16 % 16) * 16 + c % 16
    ensures 0 <= c / 4096 < 16
  {
    assert c / 256 == c / 16 / 16 && c / 4096 == c / 256 / 16;
  }

  /** Which unit an escape stands for is read from its first units. */
  lemma EscapeUnique(c: Unit, d: Unit, x: Text, y: Text)
    requires Escape(c) + x == Escape(d) + y
    ensures c == d && x == y
  {
    var all := Escape(c) + x;
    assert all[0] == Escape(c)[0] == Escape(d)[0];
    if all[0] == BACKSLASH {
      assert all[1] == Escape(c)[1] == Escape(d)[1];
      if all[1] == LETTER_U {
        DigitsUnique(c, d, all, x, y);
      }
    }
    assert all[|Escape(c)|..] == x && all[|Escape(d)|..] == y;
  }

  lemma DigitsUnique(c: Unit, d: Unit, all: Text, x: Text, y: Text)
    requires all == Escape(c) + x == Escape(d) + y && |Escape(c)| == |Escape(d)| == 6
    ensures c == d
  {
    assert all[2] == Escape(c)[2] == Escape(d)[2] && all[3] == Escape(c)[3] == Escape(d)[3];
    assert all[4] == Escape(c)[4] == Escape(d)[4] && all[5] == Escape(c)[5] == Escape(d)[5];
    FourDigits(c);
    FourDigits(d);
    HexUnique(c / 4096, d / 4096);
    HexUnique(c / 256 % 16, d / 256 % 16);
    HexUnique(c / 16 % 16, d / 16 % 16);
    HexUnique(c % 16, d % 16);
  }

  lemma FirstUnique(s: Text, t: Text, x: Text, y: Text)
    requires s != [] && t != [] && FirstText(s) + x == FirstText(t) + y
    ensures FirstSize(s) == FirstSize(t) && s[..FirstSize(s)] == t[..FirstSize(t)] && x == y
  {
    var all := FirstText(s) + x;
    assert all[0] == FirstText(s)[0] == FirstText(t)[0];
    if FirstSize(s) == 2 {
      assert all[0] == s[0] && High(all[0]);
      assert all[1] == s[1] == FirstText(t)[1];
      assert all[2..] == x && all[2..] == y;
    } else {
      EscapeUnique(s[0], t[0], x, y);
    }
  }

  lemma FirstNotQuote(s: Text)
    requires s != []
    ensures FirstText(s) != [] && FirstText(s)[0] != QUOTE
  {}

  lemma EscapedFirst(s: Text, x: Text)
    ensures (Escaped(s) + ([QUOTE] + x))[0] == QUOTE <==> s == []
  {
    if s != [] {
      FirstNotQuote(s);
      assert (Escaped(s) + ([QUOTE] + x))[0] == FirstText(s)[0];
    }
  }

  lemma Assoc(a: Text, b: Text, c: Text)
    ensures (a + b) + c == a + (b + c)
  {}

  lemma EscapedStep(s: Text, t: Text, x: Text, y: Text)
    requires s != [] && t != [] && Escaped(s) + x == Escaped(t) + y
    ensures FirstSize(s) == FirstSize(t) && s[..FirstSize(s)] == t[..FirstSize(t)]
    ensures Escaped(s[FirstSize(s)..]) + x == Escaped(t[FirstSize(t)..]) + y
  {
    var a, b := Escaped(s[FirstSize(s)..]) + x, Escaped(t[FirstSize(t)..]) + y;
    Assoc(FirstText(s), Escaped(s[FirstSize(s)..]), x);
    Assoc(FirstText(t), Escaped(t[FirstSize(t)..]), y);
    FirstUnique(s, t, a, b);
  }

  lemma {:induction false} EscapedUnique(s: Text, t: Text, x: Text, y: Text)
    requires Escaped(s) + ([QUOTE] + x) == Escaped(t) + ([QUOTE] + y)
    ensures s == t && x == y
    decreases |s|
  {
    EscapedFirst(s, x);
    EscapedFirst(t, y);
    if s == [] {
      assert (Escaped(s) + ([QUOTE] + x))[1..] == x && (Escaped(t) + ([QUOTE] + y))[1..] == y;
    } else {
      EscapedStep(s, t, [QUOTE] + x, [QUOTE] + y);
      EscapedUnique(s[FirstSize(s)..], t[FirstSize(t)..], x, y);
      assert s == s[..FirstSize(s)] + s[FirstSize(s)..] && t == t[..FirstSize(t)] + t[FirstSize(t)..];
    }
  }

  lemma QuotedUnique(s: Text, t: Text, x: Text, y: Text)
    requires Quoted(s) + x == Quoted(t) + y
    ensures s == t && x == y
  {
    assert (Quoted(s) + x)[1..] == Escaped(s) + ([QUOTE] + x);
    assert (Quoted(t) + y)[1..] == Escaped(t) + ([QUOTE] + y);
    EscapedUnique(s, t, x, y);
  }

  // ---------------------------------------------------------------- a printed value is read one way

  /** What follows a value does not continue a number. */
  predicate Stops(x: Text) {
    x == [] || !NumberUnit(x[0])
  }

  /** Wherever one text ends, and the other, is known from what they begin. */
  ghost predicate Separable(t: Text, u: Text) {
    forall x, y | Stops(x) && Stops(y) && t + x == u + y :: t == u && x == y
  }

  predicate Starts(t: Text) {
    t != [] && t[0] != COMMA && t[0] != CLOSE_ARRAY && t[0] != CLOSE_OBJECT
  }

  predicate Closes(c: Unit) { c == CLOSE_ARRAY || c == CLOSE_OBJECT }

  lemma TailStops(texts: seq<Text>, close: Unit, x: Text)
    requires Closes(close)
    ensures Stops(Tail(texts, close) + x)
  {}

  ghost predicate AllSeparable(ts: seq<Text>, us: seq<Text>) {
    forall i, j {:trigger Separable(ts[i], us[j])} | 0 <= i < |ts| && 0 <= j < |us| :: Separable(ts[i], us[j])
  }

  lemma TailsSeparable(ts: seq<Text>, us: seq<Text>)
    requires AllSeparable(ts, us) && ts != [] && us != []
    ensures Separable(ts[0], us[0]) && AllSeparable(ts[1..], us[1..])
  {
    forall i, j | 0 <= i < |ts| - 1 && 0 <= j < |us| - 1 ensures Separable(ts[1..][i], us[1..][j]) {
      assert Separable(ts[i + 1], us[j + 1]);
    }
  }

  /** The first of some texts, after a comma or a bracket, and what follows it. */
  lemma HeadUnique(c: Unit, t: Text, u: Text, rt: Text, ru: Text, x: Text, y: Text)
    requires [c] + (t + rt) + x == [c] + (u + ru) + y && Separable(t, u) && Stops(rt + x) && Stops(ru + y)
    ensures t == u && rt + x == ru + y
  {
    assert ([c] + (t + rt) + x)[1..] == t + (rt + x);
    assert ([c] + (u + ru) + y)[1..] == u + (ru + y);
  }

  lemma {:induction false} TailUnique(ts: seq<Text>, us: seq<Text>, close: Unit, x: Text, y: Text)
    requires Closes(close) && Tail(ts, close) + x == Tail(us, close) + y && AllSeparable(ts, us)
    ensures ts == us && x == y
    decreases |ts|
  {
    assert (Tail(ts, close) + x)[0] == Tail(ts, close)[0] && (Tail(us, close) + y)[0] == Tail(us, close)[0];
    if ts == [] {
      assert ([close] + x)[1..] == x && ([close] + y)[1..] == y;
    } else {
      TailStops(ts[1..], close, x);
      TailStops(us[1..], close, y);
      TailsSeparable(ts, us);
      HeadUnique(COMMA, ts[0], us[0], Tail(ts[1..], close), Tail(us[1..], close), x, y);
      TailUnique(ts[1..], us[1..], close, x, y);
      assert ts == [ts[0]] + ts[1..] && us == [us[0]] + us[1..];
    }
  }

  predicate AllStart(ts: seq<Text>) {
    forall i | 0 <= i < |ts| :: Starts(ts[i])
  }

  lemma EnclosedSecond(open: Unit, ts: seq<Text>, close: Unit, x: Text)
    requires Closes(close) && AllStart(ts)
    ensures |Enclosed(open, ts, close)| > 1
    ensures Closes((Enclosed(open, ts, close) + x)[1]) <==> ts == []
  {
    if ts != [] { assert (Enclosed(open, ts, close) + x)[1] == ts[0][0]; }
  }

  lemma EnclosedUnique(open: Unit, ts: seq<Text>, us: seq<Text>, close: Unit, x: Text, y: Text)
    requires Closes(close) && Enclosed(open, ts, close) + x == Enclosed(open, us, close) + y
    requires AllSeparable(ts, us) && AllStart(ts) && AllStart(us)
    ensures ts == us && x == y
  {
    EnclosedSecond(open, ts, close, x);
    EnclosedSecond(open, us, close, y);
    if ts == [] {
      assert ([open, close] + x)[2..] == x && ([open, close] + y)[2..] == y;
    } else {
      TailStops(ts[1..], close, x);
      TailStops(us[1..], close, y);
      TailsSeparable(ts, us);
      HeadUnique(open, ts[0], us[0], Tail(ts[1..], close), Tail(us[1..], close), x, y);
      TailUnique(ts[1..], us[1..], close, x, y);
      assert ts == [ts[0]] + ts[1..] && us == [us[0]] + us[1..];
    }
  }

  lemma MemberSeparable(p: Pair<Text>, q: Pair<Text>)
    requires Separable(p.value, q.value)
    ensures Separable(MemberText(p), MemberText(q)) && Starts(MemberText(p))
  {
    forall x, y | Stops(x) && Stops(y) && MemberText(p) + x == MemberText(q) + y
      ensures MemberText(p) == MemberText(q) && x == y
    {
      MemberUnique(p, q, x, y);
    }
  }

  lemma MemberUnique(p: Pair<Text>, q: Pair<Text>, x: Text, y: Text)
    requires Separable(p.value, q.value) && Stops(x) && Stops(y) && MemberText(p) + x == MemberText(q) + y
    ensures p == q && x == y
  {
    var a, b := [COLON] + (p.value + x), [COLON] + (q.value + y);
    assert MemberText(p) + x == Quoted(p.key) + a && MemberText(q) + y == Quoted(q.key) + b;
    QuotedUnique(p.key, q.key, a, b);
    assert a[1..] == p.value + x && b[1..] == q.value + y;
  }

  lemma NumberFirst(t: Text, x: Text)
    requires Stops(x) && forall i | 0 <= i < |t| :: NumberUnit(t[i])
    ensures t == [] <==> Stops(t + x)
  {
    if t == [] { assert t + x == x; } else { assert (t + x)[0] == t[0]; }
  }

  lemma {:induction false} NumberUnique(t: Text, u: Text, x: Text, y: Text)
    requires (forall i | 0 <= i < |t| :: NumberUnit(t[i])) && (forall i | 0 <= i < |u| :: NumberUnit(u[i]))
    requires Stops(x) && Stops(y) && t + x == u + y
    ensures t == u && x == y
    decreases |t|
  {
    NumberFirst(t, x);
    NumberFirst(u, y);
    if t == [] {
      assert t + x == x && u + y == y;
    } else {
      assert (t + x)[1..] == t[1..] + x && (u + y)[1..] == u[1..] + y && (t + x)[0] == t[0] && (u + y)[0] == u[0];
      NumberUnique(t[1..], u[1..], x, y);
      assert t == [t[0]] + t[1..] && u == [u[0]] + u[1..];
    }
  }

  /** The kind of a value is known from the first unit of its text. */
  function FirstUnit(v: Json): Unit
    requires Parsed(v)
  {
    match v
    case Null => 110
    case Bool(b) => if b then 116 else 102
    case Num(digits) => digits[0]
    case Str(_) => QUOTE
    case Arr(_) => OPEN_ARRAY
    case Obj(_) => OPEN_OBJECT
  }

  lemma CanonFirst(v: Json)
    requires Parsed(v)
    ensures Starts(Canon(v)) && Canon(v)[0] == FirstUnit(v)
  {}

  lemma SameKind(v: Json, w: Json, x: Text, y: Text)
    requires Parsed(v) && Parsed(w) && Canon(v) + x == Canon(w) + y
    ensures FirstUnit(v) == FirstUnit(w)
  {
    CanonFirst(v);
    CanonFirst(w);
    assert (Canon(v) + x)[0] == Canon(v)[0] && (Canon(w) + y)[0] == Canon(w)[0];
  }

  /** The members of an object as they are printed, in order. */
  function Members(members: seq<Pair<Json>>): (texts: seq<Text>)
  {
    MemberTexts(InOrder(Printed(members)))
  }

  lemma CanonArray(items: seq<Json>)
    ensures Canon(Arr(items)) == Enclosed(OPEN_ARRAY, Texts(items), CLOSE_ARRAY)
  {
    assert Texts(items) == seq(|items|, i requires 0 <= i < |items| => Canon(Arr(items).items[i]));
  }

  lemma CanonObject(members: seq<Pair<Json>>)
    ensures Canon(Obj(members)) == Enclosed(OPEN_OBJECT, Members(members), CLOSE_OBJECT)
  {
    assert Printed(members) ==
      seq(|members|, i requires 0 <= i < |members| => Pair(members[i].key, Canon(members[i].value)));
  }

  // ---------------------------------------------------------------- main results

  /** What one object's members print, each a printed value of its own. */
  lemma PrintedFrom(members: seq<Pair<Json>>, i: nat) returns (k: nat)
    requires i < |members|
    ensures k < |members| && InOrder(Printed(members))[i] == Printed(members)[k]
  {
    var ps := Printed(members);
    InOrderKeeps(ps);
    InMultiset(InOrder(ps), ps, i);
    k :| 0 <= k < |ps| && ps[k] == InOrder(ps)[i];
  }

  lemma {:induction false} ItemsSeparable(v: Json, w: Json)
    requires Parsed(v) && Parsed(w) && v.Arr? && w.Arr?
    ensures AllSeparable(Texts(v.items), Texts(w.items))
    decreases v, 0
  {
    forall i, j | 0 <= i < |v.items| && 0 <= j < |w.items|
      ensures Separable(Texts(v.items)[i], Texts(w.items)[j])
    {
      CanonSeparable(v.items[i], w.items[j]);
    }
  }

  lemma {:induction false} ValuesSeparable(v: Json, w: Json, i: nat, j: nat)
    requires Parsed(v) && Parsed(w) && v.Obj? && w.Obj? && i < |v.members| && j < |w.members|
    ensures Separable(InOrder(Printed(v.members))[i].value, InOrder(Printed(w.members))[j].value)
    decreases v, 0
  {
    var k := PrintedFrom(v.members, i);
    var l := PrintedFrom(w.members, j);
    CanonSeparable(v.members[k].value, w.members[l].value);
  }

  lemma {:induction false} MembersSeparable(v: Json, w: Json)
    requires Parsed(v) && Parsed(w) && v.Obj? && w.Obj?
    ensures AllSeparable(Members(v.members), Members(w.members))
    decreases v, 1
  {
    var ps, qs := InOrder(Printed(v.members)), InOrder(Printed(w.members));
    forall i, j | 0 <= i < |ps| && 0 <= j < |qs| ensures Separable(MemberTexts(ps)[i], MemberTexts(qs)[j]) {
      ValuesSeparable(v, w, i, j);
      MemberSeparable(ps[i], qs[j]);
    }
  }

  /** Printed values delimit themselves. */
  lemma {:induction false} CanonSeparable(v: Json, w: Json)
    requires Parsed(v) && Parsed(w)
    ensures Separable(Canon(v), Canon(w))
    decreases v, 3
  {
    forall x, y | Stops(x) && Stops(y) && Canon(v) + x == Canon(w) + y
      ensures Canon(v) == Canon(w) && x == y
    {
      CanonUnique(v, w, x, y);
    }
  }

  lemma {:induction false} CanonUnique(v: Json, w: Json, x: Text, y: Text)
    requires Parsed(v) && Parsed(w) && Stops(x) && Stops(y) && Canon(v) + x == Canon(w) + y
    ensures Canon(v) == Canon(w) && x == y
    decreases v, 2
  {
    SameKind(v, w, x, y);
    match v {
      case Null => assert (Canon(v) + x)[4..] == x && (Canon(w) + y)[4..] == y;
      case Bool(b) =>
        var n := if b then 4 else 5;
        assert (Canon(v) + x)[n..] == x && (Canon(w) + y)[n..] == y;
      case Num(digits) => NumberUnique(digits, w.digits, x, y);
      case Str(text) => QuotedUnique(text, w.text, x, y);
      case Arr(items) =>
        ItemsSeparable(v, w);
        ItemsStart(v);
        ItemsStart(w);
        CanonArray(items);
        CanonArray(w.items);
        EnclosedUnique(OPEN_ARRAY, Texts(items), Texts(w.items), CLOSE_ARRAY, x, y);
      case Obj(members) =>
        MembersSeparable(v, w);
        MembersStart(members);
        MembersStart(w.members);
        CanonObject(members);
        CanonObject(w.members);
        EnclosedUnique(OPEN_OBJECT, Members(members), Members(w.members), CLOSE_OBJECT, x, y);
    }
  }

  lemma MembersStart(members: seq<Pair<Json>>)
    ensures AllStart(Members(members))
  {}

  lemma ItemsStart(w: Json)
    requires Parsed(w) && w.Arr?
    ensures AllStart(Texts(w.items))
  {
    forall i | 0 <= i < |w.items| ensures Starts(Texts(w.items)[i]) { CanonFirst(w.items[i]); }
  }

  lemma MembersEqual(ps: seq<Pair<Text>>, qs: seq<Pair<Text>>)
    requires MemberTexts(ps) == MemberTexts(qs)
    requires forall i {:trigger ps[i]} {:trigger qs[i]} | 0 <= i < |ps| && i < |qs| ::
      Separable(ps[i].value, qs[i].value)
    ensures ps == qs
  {
    assert |ps| == |MemberTexts(ps)| == |qs|;
    forall i | 0 <= i < |ps| ensures ps[i] == qs[i] {
      assert MemberTexts(ps)[i] == MemberTexts(qs)[i];
      assert MemberText(ps[i]) + [] == MemberText(qs[i]) + [];
      MemberUnique(ps[i], qs[i], [], []);
    }
  }

  /** Objects printed alike have members printed alike. */
  lemma ObjectsEqual(v: Json, w: Json)
    requires Parsed(v) && Parsed(w) && v.Obj? && w.Obj? && Canon(v) == Canon(w)
    ensures multiset(Printed(v.members)) == multiset(Printed(w.members))
  {
    CanonObject(v.members);
    CanonObject(w.members);
    MembersSeparable(v, w);
    MembersStart(v.members);
    MembersStart(w.members);
    var ps, qs := InOrder(Printed(v.members)), InOrder(Printed(w.members));
    EnclosedUnique(OPEN_OBJECT, Members(v.members), Members(w.members), CLOSE_OBJECT, [], []);
    forall i | 0 <= i < |ps| && i < |qs| ensures Separable(ps[i].value, qs[i].value) { ValuesSeparable(v, w, i, i); }
    MembersEqual(ps, qs);
    InOrderKeeps(Printed(v.members));
    InOrderKeeps(Printed(w.members));
  }

  lemma PrintedKeys(members: seq<Pair<Json>>)
    ensures Keys(Printed(members)) == Keys(members)
    ensures Distinct(members) <==> Distinct(Printed(members))
  {
    assert forall i | 0 <= i < |members| :: Printed(members)[i].key == members[i].key;
  }

  lemma {:induction false} AlikeToSame(v: Json, w: Json)
    requires Parsed(v) && Parsed(w) && Canon(v) == Canon(w)
    ensures Same(v, w)
    decreases v
  {
    SameKind(v, w, [], []);
    match v {
      case Null =>
      case Bool(b) =>
      case Num(digits) =>
      case Str(text) => QuotedUnique(text, w.text, [], []);
      case Arr(items) =>
        ItemsSeparable(v, w);
        ItemsStart(v);
        ItemsStart(w);
        CanonArray(items);
        CanonArray(w.items);
        EnclosedUnique(OPEN_ARRAY, Texts(items), Texts(w.items), CLOSE_ARRAY, [], []);
        forall i | 0 <= i < |items| ensures i < |w.items| && Same(items[i], w.items[i]) {
          assert |Texts(items)| == |Texts(w.items)| && Texts(items)[i] == Texts(w.items)[i];
          AlikeToSame(items[i], w.items[i]);
        }
        assert |Texts(items)| == |Texts(w.items)|;
      case Obj(members) =>
        ObjectsEqual(v, w);
        PrintedKeys(members);
        PrintedKeys(w.members);
        AlikeExactlyWhen(Printed(members), Printed(w.members));
        forall i, j | 0 <= i < |members| && 0 <= j < |w.members| && members[i].key == w.members[j].key
          ensures Same(members[i].value, w.members[j].value)
        {
          assert Printed(members)[i].value == Printed(w.members)[j].value;
          AlikeToSame(members[i].value, w.members[j].value);
        }
    }
  }

  lemma {:induction false} SameToAlike(v: Json, w: Json)
    requires Parsed(v) && Parsed(w) && Same(v, w)
    ensures Canon(v) == Canon(w)
    decreases v
  {
    match v {
      case Arr(items) =>
        CanonArray(items);
        CanonArray(w.items);
        forall i | 0 <= i < |items| ensures Texts(items)[i] == Texts(w.items)[i] { SameToAlike(items[i], w.items[i]); }
        assert Texts(items) == Texts(w.items) && w == Arr(w.items);
      case Obj(members) =>
        CanonObject(members);
        CanonObject(w.members);
        PrintedKeys(members);
        PrintedKeys(w.members);
        forall i, j | 0 <= i < |members| && 0 <= j < |w.members| && members[i].key == w.members[j].key
          ensures Printed(members)[i].value == Printed(w.members)[j].value
        {
          SameToAlike(members[i].value, w.members[j].value);
        }
        AlikeExactlyWhen(Printed(members), Printed(w.members));
        InOrderUnique(Printed(members), Printed(w.members));
      case _ =>
    }
  }

  /** Two values have the same canonical text exactly when they are equal but for the order of the
      members of objects, at any depth. */
  lemma SameTextExactlyWhenSame(v: Json, w: Json)
    requires Parsed(v) && Parsed(w)
    ensures Canon(v) == Canon(w) <==> Same(v, w)
  {
    if Canon(v) == Canon(w) { AlikeToSame(v, w); }
    if Same(v, w) { SameToAlike(v, w); }
  }
}
