/** Cutting UTF-8 text at a byte limit without splitting a character.

`characterEnd` (packages/agents/src/stderr-journal.ts, lines 69-76) and `truncateUtf8`
(packages/agents/src/bounded.ts, lines 8-23), over the grammar of section 4 of RFC 3629. */
module Utf8 {
  import opened Basics

  /** A byte that continues a character: its upper two bits are 10. */
  predicate Tail(b: byte) { 0x80 <= b <= 0xBF }

  predicate Tails(b: seq<byte>, n: nat) {
    n <= |b| && (n > 1 ==> Tail(b[1])) && (n > 2 ==> Tail(b[2])) && (n > 3 ==> Tail(b[3]))
  }

  /** The length of the well-formed character that `b` begins with, or 0. */
  function CharLength(b: seq<byte>): (n: nat)
    ensures n <= |b|
  {
    if b == [] then 0
    else if b[0] <= 0x7F then 1
    else if 0xC2 <= b[0] <= 0xDF && Tails(b, 2) then 2
    else if 0xE0 <= b[0] <= 0xEF && Tails(b, 3) &&
      (b[0] == 0xE0 ==> b[1] >= 0xA0) && (b[0] == 0xED ==> b[1] <= 0x9F) then 3
    else if 0xF0 <= b[0] <= 0xF4 && Tails(b, 4) &&
      (b[0] == 0xF0 ==> b[1] >= 0x90) && (b[0] == 0xF4 ==> b[1] <= 0x8F) then 4
    else 0
  }

  /** A character is a first byte and up to three that continue it. */
  lemma CharBytes(b: seq<byte>)
    ensures CharLength(b) <= 4 && (CharLength(b) > 0 ==> !Tail(b[0]))
    ensures forall k | 1 <= k < CharLength(b) :: Tail(b[k])
  {}

  predicate WellFormed(b: seq<byte>)
    decreases |b|
  {
    b == [] || (CharLength(b) > 0 && WellFormed(b[CharLength(b)..]))
  }

  /** Only its own bytes decide whether a character is well-formed. */
  lemma CharLengthPrefix(b: seq<byte>, k: nat)
    requires CharLength(b) <= k <= |b| && CharLength(b) > 0
    ensures CharLength(b[..k]) == CharLength(b)
  {}

  lemma CharLengthExtends(a: seq<byte>, b: seq<byte>)
    requires CharLength(a) > 0
    ensures CharLength(a + b) == CharLength(a)
  {}

  lemma CharLengthWhole(b: seq<byte>, k: nat)
    requires k <= |b| && CharLength(b[..k]) > 0
    ensures CharLength(b) == CharLength(b[..k])
  {
    assert b[..k] + b[k..] == b;
    CharLengthExtends(b[..k], b[k..]);
  }

  lemma Slices(b: seq<byte>, n: nat, k: nat)
    requires n <= k <= |b|
    ensures b[..k][n..] == b[n..][..k - n] && b[k..] == b[n..][k - n..]
  {}

  lemma {:induction false} Concatenates(a: seq<byte>, b: seq<byte>)
    requires WellFormed(a) && WellFormed(b)
    ensures WellFormed(a + b)
    decreases |a|
  {
    if a == [] {
      assert a + b == b;
    } else {
      var n := CharLength(a);
      CharLengthExtends(a, b);
      assert (a + b)[n..] == a[n..] + b;
      Concatenates(a[n..], b);
    }
  }

  /** Cut before a byte that begins a character, both parts are well-formed. */
  lemma {:induction false} CutsCleanly(b: seq<byte>, k: nat)
    requires WellFormed(b) && k <= |b| && (k < |b| ==> !Tail(b[k]))
    ensures WellFormed(b[..k]) && WellFormed(b[k..])
    decreases |b|
  {
    var n := CharLength(b);
    if k == 0 {
      assert b[..0] == [] && b[0..] == b;
    } else {
      CharBytes(b);
      CutsCleanly(b[n..], k - n);
      CharLengthPrefix(b, k);
      Slices(b, n, k);
    }
  }

  /** A cut that leaves a well-formed prefix is before a byte that begins a character. */
  lemma {:induction false} CleanCut(b: seq<byte>, k: nat)
    requires WellFormed(b) && k < |b| && WellFormed(b[..k])
    ensures !Tail(b[k])
    decreases |b|
  {
    if k > 0 {
      var n := CharLength(b[..k]);
      CharLengthWhole(b, k);
      Slices(b, n, k);
      CleanCut(b[n..], k - n);
    }
  }

  /** Backing off from a position over the bytes that continue a character. */
  function BackOff(b: seq<byte>, end: nat): (e: nat)
    requires end < |b|
    ensures e <= end
    ensures forall k | e < k <= end :: Tail(b[k])
    ensures e == 0 || !Tail(b[e])
  {
    if end > 0 && Tail(b[end]) then BackOff(b, end - 1) else end
  }

  /** The length of the longest well-formed prefix within the limit. */
  predicate LongestWithin(b: seq<byte>, limit: nat, e: nat) {
    && e <= limit && e <= |b| && WellFormed(b[..e])
    && forall k {:trigger WellFormed(b[..k])} | e < k <= limit && k <= |b| :: !WellFormed(b[..k])
  }

  lemma LongestUnique(b: seq<byte>, limit: nat, e: nat, f: nat)
    requires LongestWithin(b, limit, e) && LongestWithin(b, limit, f)
    ensures e == f
  {}

  /** Backing off finds the longest prefix that splits no character, at most three bytes short. */
  lemma BackOffIsLongest(b: seq<byte>, limit: nat)
    requires WellFormed(b) && limit < |b|
    ensures LongestWithin(b, limit, BackOff(b, limit))
    ensures WellFormed(b[BackOff(b, limit)..])
    ensures limit <= BackOff(b, limit) + 3
  {
    var e := BackOff(b, limit);
    if e == 0 { assert !Tail(b[0]) by { assert CharLength(b) > 0; } }
    CutsCleanly(b, e);
    forall k | e < k <= limit && k <= |b| ensures !WellFormed(b[..k]) {
      if WellFormed(b[..k]) { CleanCut(b, k); }
    }
    AtMostThreeTails(b, e, limit);
  }

  /** The end that `characterEnd` computes. */
  function EndWithin(b: seq<byte>, limit: nat): nat {
    if |b| <= limit then |b| else BackOff(b, limit)
  }

  /** Of well-formed text it is the end of the longest prefix within the limit that splits no character. */
  lemma EndIsLongest(b: seq<byte>, limit: nat)
    requires WellFormed(b)
    ensures LongestWithin(b, limit, EndWithin(b, limit))
  {
    if |b| <= limit { assert b[..|b|] == b; } else { BackOffIsLongest(b, limit); }
  }

  /** The loop of `characterEnd`. */
  method CharacterEnd(bytes: seq<byte>, limit: nat) returns (end: nat)
    ensures end == EndWithin(bytes, limit)
  {
    if |bytes| <= limit { return |bytes|; }
    end := limit;
    while end > 0 && Tail(bytes[end])
      invariant end <= limit && BackOff(bytes, end) == BackOff(bytes, limit)
    {
      end := end - 1;
    }
  }

  /** Backing off ends at a first byte, at most three bytes short. */
  lemma BackOffEnds(b: seq<byte>, limit: nat)
    requires WellFormed(b) && limit < |b|
    ensures !Tail(b[BackOff(b, limit)]) && limit <= BackOff(b, limit) + 3
  {
    var e := BackOff(b, limit);
    if e == 0 { assert CharLength(b) > 0; }
    AtMostThreeTails(b, e, limit);
  }

  /** Between two characters' first bytes there are at most three others. */
  lemma AtMostThreeTails(b: seq<byte>, e: nat, limit: nat)
    requires WellFormed(b) && e <= limit < |b| && (forall k | e < k <= limit :: Tail(b[k]))
    requires !Tail(b[e])
    ensures limit <= e + 3
  {
    CutsCleanly(b, e);
    var n := CharLength(b[e..]);
    if e + n < |b| {
      CutsFirst(b[e..]);
      assert b[e..][n] == b[e + n];
    }
  }

  lemma CutsFirst(b: seq<byte>)
    requires WellFormed(b) && b != [] && CharLength(b) < |b|
    ensures !Tail(b[CharLength(b)])
  {
    assert CharLength(b[CharLength(b)..]) > 0;
  }

  // ---------------------------------------------------------------- code points

  predicate Scalar(p: int) {
    0 <= p < 0xD800 || 0xE000 <= p < 0x11_0000
  }

  /** The bytes of a code point (section 3 of RFC 3629). */
  function Encoded(p: int): seq<byte>
    requires Scalar(p)
  {
    if p < 0x80 then [p]
    else if p < 0x800 then [0xC0 + p / 64, 0x80 + p % 64]
    else if p < 0x1_0000 then [0xE0 + p / 4096, 0x80 + p / 64 % 64, 0x80 + p % 64]
    else [0xF0 + p / 262144, 0x80 + p / 4096 % 64, 0x80 + p / 64 % 64, 0x80 + p % 64]
  }

  function TwoBytes(x: int, y: int): int { (x - 0xC0) * 64 + (y - 0x80) }

  function ThreeBytes(x: int, y: int, z: int): int { (x - 0xE0) * 4096 + (y - 0x80) * 64 + (z - 0x80) }

  function FourBytes(w: int, x: int, y: int, z: int): int {
    (w - 0xF0) * 262144 + (x - 0x80) * 4096 + (y - 0x80) * 64 + (z - 0x80)
  }

  /** The code point of the character that `b` begins with. */
  function PointAt(b: seq<byte>): int
    requires CharLength(b) > 0
  {
    match CharLength(b)
    case 1 => b[0]
    case 2 => TwoBytes(b[0], b[1])
    case 3 => ThreeBytes(b[0], b[1], b[2])
    case _ => FourBytes(b[0], b[1], b[2], b[3])
  }

  /** The code points of a text. */
  function PointsOf(b: seq<byte>): seq<int>
    requires WellFormed(b)
    decreases |b|
  {
    if b == [] then [] else [PointAt(b)] + PointsOf(b[CharLength(b)..])
  }

  predicate AllScalar(points: seq<int>) {
    forall k | 0 <= k < |points| :: Scalar(points[k])
  }

  function EncodedAll(points: seq<int>): seq<byte>
    requires AllScalar(points)
  {
    if points == [] then [] else Encoded(points[0]) + EncodedAll(points[1..])
  }

  lemma TwoDigits(x: int, y: int)
    requires 0 <= y < 64
    ensures (x * 64 + y) / 64 == x && (x * 64 + y) % 64 == y
  {}

  lemma ThreeDigits(x: int, y: int, z: int)
    requires 0 <= y < 64 && 0 <= z < 64
    ensures var p := x * 4096 + y * 64 + z; p / 4096 == x && p / 64 % 64 == y && p % 64 == z
  {
    TwoDigits(x * 64 + y, z);
    TwoDigits(x, y);
    assert (x * 64 + y) * 64 + z == x * 4096 + y * 64 + z;
  }

  lemma FourDigits(w: int, x: int, y: int, z: int)
    requires 0 <= x < 64 && 0 <= y < 64 && 0 <= z < 64
    ensures var p := w * 262144 + x * 4096 + y * 64 + z;
      p / 262144 == w && p / 4096 % 64 == x && p / 64 % 64 == y && p % 64 == z
  {
    ThreeDigits(w * 64 + x, y, z);
    TwoDigits(w, x);
    var p := w * 262144 + x * 4096 + y * 64 + z;
    assert (w * 64 + x) * 4096 + y * 64 + z == p;
    assert p / 262144 == p / 4096 / 64;
  }

  lemma CharOfTwo(b: seq<byte>, x: int, y: int)
    requires 2 <= x < 32 && 0 <= y < 64 && |b| >= 2 && b[0] == 0xC0 + x && b[1] == 0x80 + y
    ensures CharLength(b) == 2 && PointAt(b) == x * 64 + y
  {
    assert Tails(b, 2);
  }

  lemma CharOfThree(b: seq<byte>, x: int, y: int, z: int)
    requires 0 <= x < 16 && 0 <= y < 64 && 0 <= z < 64 && (x == 0 ==> y >= 32) && (x == 13 ==> y < 32)
    requires |b| >= 3 && b[0] == 0xE0 + x && b[1] == 0x80 + y && b[2] == 0x80 + z
    ensures CharLength(b) == 3 && PointAt(b) == x * 4096 + y * 64 + z
  {
    assert Tails(b, 3);
  }

  lemma CharOfFour(b: seq<byte>, w: int, x: int, y: int, z: int)
    requires 0 <= w < 5 && 0 <= x < 64 && 0 <= y < 64 && 0 <= z < 64 && (w == 0 ==> x >= 16) && (w == 4 ==> x < 16)
    requires |b| >= 4 && b[0] == 0xF0 + w && b[1] == 0x80 + x && b[2] == 0x80 + y && b[3] == 0x80 + z
    ensures CharLength(b) == 4 && PointAt(b) == w * 262144 + x * 4096 + y * 64 + z
  {
    assert Tails(b, 4);
  }

  /** The digits of a number to the base 64. */
  lemma Digits(p: int)
    requires p >= 0
    ensures 0 <= p % 64 < 64 && 0 <= p / 64 % 64 < 64 && 0 <= p / 4096 % 64 < 64
    ensures p == p / 64 * 64 + p % 64
    ensures p == p / 4096 * 4096 + p / 64 % 64 * 64 + p % 64
    ensures p == p / 262144 * 262144 + p / 4096 % 64 * 4096 + p / 64 % 64 * 64 + p % 64
  {
    var q, r := p / 64, p / 4096;
    assert r == q / 64 && p / 262144 == r / 64;
  }

  lemma OneIsOne(p: int, more: seq<byte>)
    requires 0 <= p < 0x80
    ensures CharLength(Encoded(p) + more) == 1 && PointAt(Encoded(p) + more) == p
  {}

  lemma TwoIsOne(p: int, more: seq<byte>)
    requires 0x80 <= p < 0x800
    ensures CharLength(Encoded(p) + more) == 2 && PointAt(Encoded(p) + more) == p
  {
    Digits(p);
    CharOfTwo(Encoded(p) + more, p / 64, p % 64);
  }

  lemma ThreeIsOne(p: int, more: seq<byte>)
    requires Scalar(p) && 0x800 <= p < 0x1_0000
    ensures CharLength(Encoded(p) + more) == 3 && PointAt(Encoded(p) + more) == p
  {
    var x, y, z := p / 4096, p / 64 % 64, p % 64;
    Digits(p);
    CharOfThree([0xE0 + x, 0x80 + y, 0x80 + z] + more, x, y, z);
  }

  lemma FourIsOne(p: int, more: seq<byte>)
    requires Scalar(p) && p >= 0x1_0000
    ensures CharLength(Encoded(p) + more) == 4 && PointAt(Encoded(p) + more) == p
  {
    var w, x, y, z := p / 262144, p / 4096 % 64, p / 64 % 64, p % 64;
    Digits(p);
    CharOfFour([0xF0 + w, 0x80 + x, 0x80 + y, 0x80 + z] + more, w, x, y, z);
  }

  /** The bytes of a code point are one character, that code point's. */
  lemma EncodedIsOne(p: int, more: seq<byte>)
    requires Scalar(p)
    ensures CharLength(Encoded(p) + more) == |Encoded(p)| && PointAt(Encoded(p) + more) == p
  {
    if p < 0x80 {
      OneIsOne(p, more);
    } else if p < 0x800 {
      TwoIsOne(p, more);
    } else if p < 0x1_0000 {
      ThreeIsOne(p, more);
    } else {
      FourIsOne(p, more);
    }
  }

  /** And each character is the bytes of its code point: the grammar allows no other. */
  lemma CharIsEncoded(b: seq<byte>)
    requires CharLength(b) > 0
    ensures Scalar(PointAt(b)) && Encoded(PointAt(b)) == b[..CharLength(b)]
  {
    match CharLength(b) {
      case 1 =>
      case 2 => TwoDigits(b[0] - 0xC0, b[1] - 0x80);
      case 3 => ThreeDigits(b[0] - 0xE0, b[1] - 0x80, b[2] - 0x80);
      case _ => FourDigits(b[0] - 0xF0, b[1] - 0x80, b[2] - 0x80, b[3] - 0x80);
    }
  }

  lemma EncodedCons(p: int, rest: seq<int>)
    requires Scalar(p) && AllScalar(rest)
    ensures AllScalar([p] + rest) && EncodedAll([p] + rest) == Encoded(p) + EncodedAll(rest)
  {
    assert ([p] + rest)[1..] == rest;
  }

  lemma Halves(b: seq<byte>, n: nat)
    requires n <= |b|
    ensures b == b[..n] + b[n..]
  {}

  /** Well-formed text is the bytes of code points, and of no others. */
  lemma {:induction false} PointsRoundTrip(b: seq<byte>)
    requires WellFormed(b)
    ensures AllScalar(PointsOf(b)) && EncodedAll(PointsOf(b)) == b
    decreases |b|
  {
    if b != [] {
      var n := CharLength(b);
      CharIsEncoded(b);
      PointsRoundTrip(b[n..]);
      EncodedCons(PointAt(b), PointsOf(b[n..]));
      Halves(b, n);
    }
  }

  lemma {:induction false} EncodedRoundTrip(points: seq<int>)
    requires AllScalar(points)
    ensures WellFormed(EncodedAll(points)) && PointsOf(EncodedAll(points)) == points
  {
    if points != [] {
      var b, n := EncodedAll(points), |Encoded(points[0])|;
      EncodedRoundTrip(points[1..]);
      EncodedIsOne(points[0], EncodedAll(points[1..]));
      assert b[n..] == EncodedAll(points[1..]);
      assert points == [points[0]] + points[1..];
    }
  }

  // ---------------------------------------------------------------- truncateUtf8

  /** What decoding a buffer and encoding it again gives, for a prefix of well-formed text: a character
      cut short becomes one replacement character. */
  function Decoded(b: seq<byte>): seq<byte>
    decreases |b|
  {
    if b == [] then []
    else if CharLength(b) > 0 then b[..CharLength(b)] + Decoded(b[CharLength(b)..])
    else [0xEF, 0xBF, 0xBD]
  }

  /** A newline, an ellipsis (three bytes) and 28 letters. */
  const ELLIPSIS: seq<byte> := [0xE2, 0x80, 0xA6]
  const LETTERS: seq<byte> := Ascii("[truncated by CraftingTable]")
  const MARKER: seq<byte> := [10] + ELLIPSIS + LETTERS

  function Ascii(text: string): (b: seq<byte>)
    ensures |b| == |text|
    ensures forall k | 0 <= k < |b| :: b[k] <= 0x7F
  {
    seq(|text|, k requires 0 <= k < |text| => if text[k] as int <= 0x7F then text[k] as int else 0x3F)
  }

  method TruncateUtf8(value: seq<byte>, limit: nat) returns (text: seq<byte>, truncated: bool)
    requires WellFormed(value)
    ensures truncated == (|value| > limit)
    ensures WellFormed(text)
    ensures !truncated ==> text == value
    ensures truncated && limit >= |MARKER| ==>
      exists end: nat :: LongestWithin(value, limit - |MARKER|, end) && text == value[..end] + MARKER
    ensures truncated && limit < |MARKER| ==> text == Decoded(Marker(limit))
    ensures |text| <= limit <==> !(truncated && (limit == 2 || limit == 3))
  {
    if |value| <= limit { return value, false; }
    var marker := Decoded(Marker(limit));
    MarkerCut(limit);
    var end: nat := if limit >= |marker| then limit - |marker| else 0;
    ghost var from: nat := end;
    while end > 0 && Tail(value[end])
      invariant end <= from < |value| && BackOff(value, end) == BackOff(value, from)
    {
      end := end - 1;
    }
    BackOffIsLongest(value, from);
    Concatenates(value[..end], marker);
    assert |value[..end] + marker| == end + |marker|;
    return value[..end] + marker, true;
  }

  lemma {:induction false} AsciiWellFormed(b: seq<byte>)
    requires forall k | 0 <= k < |b| :: b[k] <= 0x7F
    ensures WellFormed(b) && Decoded(b) == b
  {
    if b != [] {
      AsciiWellFormed(b[1..]);
      assert b == b[..1] + b[1..];
    }
  }

  /** The bytes the marker keeps within a limit. */
  function Marker(limit: nat): seq<byte> {
    if limit <= |MARKER| then MARKER[..limit] else MARKER
  }

  lemma OneCharacter(b: seq<byte>, n: nat)
    requires n > 0 && CharLength(b) == n && WellFormed(b[n..]) && Decoded(b[n..]) == b[n..]
    ensures WellFormed(b) && Decoded(b) == b
  {
    assert b == b[..n] + b[n..];
  }

  lemma EllipsisLength(b: seq<byte>)
    requires |b| >= 3 && b[0] == 0xE2 && b[1] == 0x80 && b[2] == 0xA6
    ensures CharLength(b) == 3
  {
    assert Tails(b, 3);
  }

  lemma EllipsisFirst(letters: seq<byte>)
    requires forall k | 0 <= k < |letters| :: letters[k] <= 0x7F
    ensures WellFormed(ELLIPSIS + letters) && Decoded(ELLIPSIS + letters) == ELLIPSIS + letters
  {
    var b := ELLIPSIS + letters;
    AsciiWellFormed(letters);
    assert b[3..] == letters;
    EllipsisLength(b);
    OneCharacter(b, 3);
  }

  lemma PrefixOfBoth(a: seq<byte>, b: seq<byte>, n: nat)
    requires n <= |b|
    ensures (a + b)[..|a| + n] == a + b[..n]
  {}

  lemma MarkerParts(limit: nat, n: nat)
    requires limit >= 4 && n == if limit <= |MARKER| then limit - 4 else |LETTERS|
    ensures n <= |LETTERS| && Marker(limit) == [10] + (ELLIPSIS + LETTERS[..n])
  {
    var front: seq<byte> := [10] + ELLIPSIS;
    PrefixOfBoth(front, LETTERS, n);
    assert MARKER[..|MARKER|] == MARKER;
    assert front + LETTERS[..n] == [10] + (ELLIPSIS + LETTERS[..n]);
  }

  lemma AfterNewline(b: seq<byte>)
    requires WellFormed(b) && Decoded(b) == b
    ensures WellFormed([10] + b) && Decoded([10] + b) == [10] + b
  {
    assert ([10] + b)[1..] == b;
    OneCharacter([10] + b, 1);
  }

  /** Past its ellipsis the marker is cut between letters. */
  lemma MarkerPastEllipsis(limit: nat)
    requires limit >= 4
    ensures WellFormed(Marker(limit)) && Decoded(Marker(limit)) == Marker(limit)
  {
    var n := if limit <= |MARKER| then limit - 4 else |LETTERS|;
    MarkerParts(limit, n);
    EllipsisFirst(LETTERS[..n]);
    AfterNewline(ELLIPSIS + LETTERS[..n]);
  }

  /** Within its ellipsis a cut leaves a newline and a replacement character. */
  lemma MarkerInEllipsis(limit: nat)
    requires limit == 2 || limit == 3
    ensures WellFormed(Decoded(Marker(limit))) && |Decoded(Marker(limit))| == 4
  {
    var cut := Marker(limit);
    var rest := cut[1..];
    assert CharLength(cut) == 1 && cut[0] == 10;
    assert rest != [] && rest[0] == 0xE2 && !Tails(rest, 3) && CharLength(rest) == 0;
    var replacement: seq<byte> := [0xEF, 0xBF, 0xBD];
    assert Decoded(rest) == replacement;
    assert Tails(replacement, 3) && CharLength(replacement) == 3 && replacement[3..] == [];
    assert (cut[..1] + replacement)[1..] == replacement;
  }

  /** The marker's own cut: within its ellipsis it grows by the replacement character. */
  lemma MarkerCut(limit: nat)
    ensures var m := Decoded(Marker(limit));
      && WellFormed(m)
      && |m| == (if limit == 2 || limit == 3 then 4 else if limit <= |MARKER| then limit else |MARKER|)
      && (limit >= |MARKER| ==> m == MARKER)
  {
    if limit >= 4 {
      MarkerPastEllipsis(limit);
    } else if limit >= 2 {
      MarkerInEllipsis(limit);
    } else if limit == 1 {
      assert Marker(1) == [10] && [10][1..] == [];
    }
  }
}
