/** The comparison every replay gate shares (apps/server/src/replay-check.ts, lines 39-91): a replay and
its golden, each a list of values under keys.  The hash of a changed value is a parameter. */
module ReplayCheck {
  import opened Basics
  import opened KeyOrder
  import opened CanonicalJson

  type Record = Pair<Json>

  datatype Change = Change(key: Text, was: Option<Json>, now: Json, hash: Text)

  datatype Check = Check(records: nat, changed: seq<Change>, missing: seq<Text>, duplicates: seq<Text>)

  const GOLDEN: Text := [103, 111, 108, 100, 101, 110]
  const REPLAY: Text := [114, 101, 112, 108, 97, 121]
  const SPACE: Unit := 32

  predicate Differs(check: Check) {
    check.changed != [] || check.missing != [] || check.duplicates != []
  }

  // ---------------------------------------------------------------- repeated keys

  /** The keys that come again, each once, in the order in which they do. */
  function Repeated(keys: seq<Text>): seq<Text> {
    if keys == [] then []
    else
      var front, key := keys[..|keys| - 1], keys[|keys| - 1];
      if key in front && key !in Repeated(front) then Repeated(front) + [key] else Repeated(front)
  }

  predicate NoneTwice<T(==)>(keys: seq<T>) {
    forall i, j | 0 <= i < j < |keys| :: keys[i] != keys[j]
  }

  /** `repeatedKeys`, with its two sets; the second keeps the order of insertion. */
  method RepeatedKeys(records: seq<Record>, side: Text) returns (labels: seq<Text>)
    ensures labels == Labelled(side, Repeated(Keys(records)))
  {
    var seen: set<Text> := {};
    var repeated: seq<Text> := [];
    ghost var keys := Keys(records);
    for k := 0 to |records|
      invariant seen == set i | 0 <= i < k :: keys[i]
      invariant repeated == Repeated(keys[..k])
    {
      var key := records[k].key;
      assert keys[..k + 1][..k] == keys[..k] && keys[..k + 1][k] == key;
      assert key in seen <==> key in keys[..k];
      if key !in seen {
        seen := seen + {key};
      } else if key !in repeated {
        repeated := repeated + [key];
      }
    }
    assert keys[..|records|] == keys;
    labels := Labelled(side, repeated);
  }

  function Labelled(side: Text, keys: seq<Text>): (labels: seq<Text>)
    ensures |labels| == |keys|
  {
    seq(|keys|, i requires 0 <= i < |keys| => side + ([SPACE] + keys[i]))
  }

  /** A key is reported exactly when there is more than one record under it, and once. */
  lemma {:induction false} RepeatedExactly(keys: seq<Text>)
    ensures NoneTwice(Repeated(keys))
    ensures forall key :: key in Repeated(keys) <==> multiset(keys)[key] > 1
  {
    if keys != [] {
      var front, last := keys[..|keys| - 1], keys[|keys| - 1];
      RepeatedExactly(front);
      assert keys == front + [last];
      assert last in front <==> last in multiset(front);
    }
  }

  lemma {:induction false} CountOfOnce<T>(keys: seq<T>, key: T)
    requires NoneTwice(keys)
    ensures multiset(keys)[key] == if key in keys then 1 else 0
  {
    if keys != [] {
      var front := keys[..|keys| - 1];
      assert keys == front + [keys[|keys| - 1]];
      CountOfOnce(front, key);
    }
  }

  lemma NothingIn(keys: seq<Text>)
    ensures keys == [] <==> forall key :: key !in keys
  {
    assert keys != [] ==> keys[0] in keys;
  }

  lemma DistinctExactly(ps: seq<Record>)
    ensures Repeated(Keys(ps)) == [] <==> Distinct(ps)
  {
    var keys := Keys(ps);
    RepeatedExactly(keys);
    assert Distinct(ps) <==> NoneTwice(keys) by {
      assert forall i | 0 <= i < |ps| :: keys[i] == ps[i].key;
    }
    if NoneTwice(keys) {
      forall key ensures key !in Repeated(keys) { CountOfOnce(keys, key); }
      NothingIn(Repeated(keys));
    } else {
      var i, j :| 0 <= i < j < |keys| && keys[i] == keys[j];
      Twice(keys, i, j);
      assert keys[i] in Repeated(keys);
    }
  }

  lemma Twice(keys: seq<Text>, i: nat, j: nat)
    requires i < j < |keys| && keys[i] == keys[j]
    ensures multiset(keys)[keys[i]] > 1
  {
    assert keys == keys[..i] + [keys[i]] + keys[i + 1..j] + [keys[j]] + keys[j + 1..];
  }

  // ---------------------------------------------------------------- the comparison

  /** `new Map(..)`: of records under one key, the last. */
  function Golden(expected: seq<Record>): map<Text, Text> {
    if expected == [] then map[]
    else
      var last := expected[|expected| - 1];
      Golden(expected[..|expected| - 1])[last.key := Canon(last.value)]
  }

  function GoldenValues(expected: seq<Record>): map<Text, Json> {
    if expected == [] then map[]
    else
      var last := expected[|expected| - 1];
      GoldenValues(expected[..|expected| - 1])[last.key := last.value]
  }

  predicate Matches(golden: map<Text, Text>, record: Record) {
    record.key in golden && golden[record.key] == Canon(record.value)
  }

  function ChangeOf(values: map<Text, Json>, record: Record, hash: Text -> Text): Change {
    var was := if record.key in values then Some(values[record.key]) else None;
    Change(record.key, was, record.value, hash(Canon(record.value)))
  }

  function Changed(golden: map<Text, Text>, values: map<Text, Json>, actual: seq<Record>,
                   hash: Text -> Text): seq<Change>
  {
    if actual == [] then []
    else
      var rest := Changed(golden, values, actual[1..], hash);
      if Matches(golden, actual[0]) then rest else [ChangeOf(values, actual[0], hash)] + rest
  }

  function Missing(expected: seq<Record>, replayed: set<Text>): seq<Text> {
    if expected == [] then []
    else
      var rest := Missing(expected[1..], replayed);
      if expected[0].key in replayed then rest else [expected[0].key] + rest
  }

  /** `compareRecords`. */
  function Compare(expected: seq<Record>, actual: seq<Record>, hash: Text -> Text): Check {
    Check(|actual|,
          Changed(Golden(expected), GoldenValues(expected), actual, hash),
          Missing(expected, set i | 0 <= i < |actual| :: actual[i].key),
          Labelled(GOLDEN, Repeated(Keys(expected))) + Labelled(REPLAY, Repeated(Keys(actual))))
  }

  lemma {:induction false} GoldenOf(expected: seq<Record>, key: Text)
    ensures key in Golden(expected) <==> key in Keys(expected)
    ensures Distinct(expected) ==>
      forall i | 0 <= i < |expected| && expected[i].key == key ::
        key in Golden(expected) && Golden(expected)[key] == Canon(expected[i].value)
  {
    if expected != [] {
      var front := expected[..|expected| - 1];
      GoldenOf(front, key);
      assert Keys(expected) == Keys(front) + [expected[|expected| - 1].key];
    }
  }

  lemma {:induction false} ChangedNone(golden: map<Text, Text>, values: map<Text, Json>, actual: seq<Record>,
                                       hash: Text -> Text)
    ensures Changed(golden, values, actual, hash) == [] <==> forall j | 0 <= j < |actual| :: Matches(golden, actual[j])
  {
    if actual != [] {
      ChangedNone(golden, values, actual[1..], hash);
      assert Changed(golden, values, actual, hash) == [] <==>
        Matches(golden, actual[0]) && Changed(golden, values, actual[1..], hash) == [];
      assert actual == [actual[0]] + actual[1..];
    }
  }

  lemma {:induction false} MissingNone(expected: seq<Record>, replayed: set<Text>)
    ensures Missing(expected, replayed) == [] <==> forall i | 0 <= i < |expected| :: expected[i].key in replayed
  {
    if expected != [] {
      MissingNone(expected[1..], replayed);
      assert expected == [expected[0]] + expected[1..];
    }
  }

  predicate AllParsed(records: seq<Record>) {
    forall i | 0 <= i < |records| :: Parsed(records[i].value)
  }

  lemma OnceAlike<T(!new)>(ks: seq<T>, ls: seq<T>)
    requires NoneTwice(ks) && NoneTwice(ls) && forall key :: key in ks <==> key in ls
    ensures multiset(ks) == multiset(ls)
  {
    forall key ensures multiset(ks)[key] == multiset(ls)[key] {
      CountOfOnce(ks, key);
      CountOfOnce(ls, key);
    }
  }

  /** With distinct keys, two lists have the same contents when the one holds the other, and has no key
      that the other has not. */
  lemma ContentsExactly(ps: seq<Pair<Text>>, qs: seq<Pair<Text>>)
    requires Distinct(ps) && Distinct(qs)
    ensures multiset(ps) == multiset(qs) <==>
      (forall q | q in qs :: q in ps) && (forall p | p in ps :: p.key in Keys(qs))
  {
    if multiset(ps) == multiset(qs) {
      forall q | q in qs ensures q in ps { assert q in multiset(qs); }
      forall p | p in ps ensures p.key in Keys(qs) {
        assert p in multiset(ps);
        var k :| 0 <= k < |qs| && qs[k] == p;
        assert Keys(qs)[k] == p.key;
      }
    }
    if (forall q | q in qs :: q in ps) && (forall p | p in ps :: p.key in Keys(qs)) {
      forall p | p in ps ensures p in qs {
        var k :| 0 <= k < |qs| && Keys(qs)[k] == p.key;
        assert qs[k] in qs;
        SameKeySame(ps, p, qs[k]);
      }
      OnceAlike(ps, qs);
    }
  }

  lemma MatchExactly(expected: seq<Record>, record: Record)
    requires Distinct(expected)
    ensures Matches(Golden(expected), record) <==> Pair(record.key, Canon(record.value)) in Printed(expected)
  {
    GoldenOf(expected, record.key);
    if record.key in Keys(expected) {
      var i :| 0 <= i < |expected| && Keys(expected)[i] == record.key;
      assert expected[i].key == record.key;
      assert Printed(expected)[i] == Pair(record.key, Canon(expected[i].value));
      assert Printed(expected)[i] in Printed(expected);
      PrintedKeys(expected);
    } else {
      assert forall i | 0 <= i < |expected| :: Keys(expected)[i] == expected[i].key == Printed(expected)[i].key;
    }
  }

  lemma ChangedExactly(expected: seq<Record>, actual: seq<Record>, hash: Text -> Text)
    requires Distinct(expected)
    ensures Changed(Golden(expected), GoldenValues(expected), actual, hash) == [] <==>
      forall q | q in Printed(actual) :: q in Printed(expected)
  {
    ChangedNone(Golden(expected), GoldenValues(expected), actual, hash);
    forall j | 0 <= j < |actual|
      ensures Matches(Golden(expected), actual[j]) <==> Printed(actual)[j] in Printed(expected)
    {
      MatchExactly(expected, actual[j]);
    }
  }

  lemma MissingExactly(expected: seq<Record>, actual: seq<Record>)
    ensures Missing(expected, set i | 0 <= i < |actual| :: actual[i].key) == [] <==>
      forall p | p in Printed(expected) :: p.key in Keys(Printed(actual))
  {
    var replayed := set i | 0 <= i < |actual| :: actual[i].key;
    MissingNone(expected, replayed);
    PrintedKeys(actual);
    assert forall key :: key in replayed <==> key in Keys(actual) by {
      assert forall i | 0 <= i < |actual| :: Keys(actual)[i] == actual[i].key;
    }
    assert forall i | 0 <= i < |expected| :: Printed(expected)[i].key == expected[i].key;
    assert forall i | 0 <= i < |expected| :: Printed(expected)[i] in Printed(expected);
  }

  /** No difference is found exactly when neither side has a key twice and both have the same contents,
      as canonical texts under keys. */
  lemma NoDifferenceExactly(expected: seq<Record>, actual: seq<Record>, hash: Text -> Text)
    ensures !Differs(Compare(expected, actual, hash)) <==>
      Distinct(expected) && Distinct(actual) && multiset(Printed(expected)) == multiset(Printed(actual))
  {
    DistinctExactly(expected);
    DistinctExactly(actual);
    if Distinct(expected) && Distinct(actual) {
      ChangedExactly(expected, actual, hash);
      MissingExactly(expected, actual);
      PrintedKeys(expected);
      PrintedKeys(actual);
      ContentsExactly(Printed(expected), Printed(actual));
    }
  }

  /** No difference is found exactly when neither side has a key twice and, as objects, the two are equal
      but for the order of members, at any depth. */
  lemma NoDifferenceExactlyWhenSame(expected: seq<Record>, actual: seq<Record>, hash: Text -> Text)
    requires AllParsed(expected) && AllParsed(actual)
    ensures !Differs(Compare(expected, actual, hash)) <==>
      Distinct(expected) && Distinct(actual) && Same(Obj(expected), Obj(actual))
  {
    NoDifferenceExactly(expected, actual, hash);
    if Distinct(expected) && Distinct(actual) {
      SameTextExactlyWhenSame(Obj(expected), Obj(actual));
      if Canon(Obj(expected)) == Canon(Obj(actual)) { ObjectsEqual(Obj(expected), Obj(actual)); }
      if multiset(Printed(expected)) == multiset(Printed(actual)) {
        PrintedKeys(expected);
        InOrderUnique(Printed(expected), Printed(actual));
        CanonObject(expected);
        CanonObject(actual);
      }
    }
  }

  // ---------------------------------------------------------------- what a check reports

  lemma {:induction false} ChangedIn(golden: map<Text, Text>, values: map<Text, Json>, actual: seq<Record>,
                                     hash: Text -> Text, c: Change)
    ensures var r := Pair(c.key, c.now);
      c in Changed(golden, values, actual, hash) <==>
      r in actual && !Matches(golden, r) && c == ChangeOf(values, r, hash)
  {
    if actual != [] {
      ChangedIn(golden, values, actual[1..], hash, c);
      assert actual == [actual[0]] + actual[1..];
    }
  }

  lemma {:induction false} GoldenValueOf(expected: seq<Record>, key: Text)
    ensures key in GoldenValues(expected) <==> key in Keys(expected)
    ensures key in GoldenValues(expected) ==> Pair(key, GoldenValues(expected)[key]) in expected
  {
    if expected != [] {
      var front := expected[..|expected| - 1];
      GoldenValueOf(front, key);
      assert Keys(expected) == Keys(front) + [expected[|expected| - 1].key];
      assert expected == front + [expected[|expected| - 1]];
    }
  }

  lemma KeyIn(records: seq<Record>, r: Record)
    requires r in records
    ensures r.key in Keys(records)
  {
    var k :| 0 <= k < |records| && records[k] == r;
    assert Keys(records)[k] == r.key;
  }

  lemma ParsedIn(records: seq<Record>, r: Record)
    requires AllParsed(records) && r in records
    ensures Parsed(r.value)
  {}

  lemma UnmatchedExactly(expected: seq<Record>, r: Record)
    requires AllParsed(expected) && Parsed(r.value) && Distinct(expected)
    ensures r.key !in Keys(expected) ==> !Matches(Golden(expected), r)
    ensures forall e | e in expected && e.key == r.key :: Matches(Golden(expected), r) <==> Same(e.value, r.value)
  {
    GoldenOf(expected, r.key);
    forall e | e in expected && e.key == r.key ensures Matches(Golden(expected), r) <==> Same(e.value, r.value) {
      ParsedIn(expected, e);
      KeyIn(expected, e);
      SameTextExactlyWhenSame(e.value, r.value);
    }
  }

  /** A change is reported exactly for each record of the replay that the golden has not, and then as
      new, and for each one whose golden value is not the same, and then with both values. */
  lemma ReportedExactly(expected: seq<Record>, actual: seq<Record>, hash: Text -> Text, c: Change)
    requires AllParsed(expected) && AllParsed(actual) && Distinct(expected)
    ensures c in Compare(expected, actual, hash).changed <==>
      && Pair(c.key, c.now) in actual && c.hash == hash(Canon(c.now))
      && (c.was.None? ==> c.key !in Keys(expected))
      && (c.was.Some? ==> Pair(c.key, c.was.value) in expected && !Same(c.was.value, c.now))
  {
    var golden, values := Golden(expected), GoldenValues(expected);
    ChangedIn(golden, values, actual, hash, c);
    GoldenValueOf(expected, c.key);
    var r := Pair(c.key, c.now);
    if r in actual {
      ParsedIn(actual, r);
      UnmatchedExactly(expected, r);
      if c.key in values {
        var e := Pair(c.key, values[c.key]);
        assert e in expected && e.key == r.key;
        OnlyGolden(expected, e, c);
        assert c in Compare(expected, actual, hash).changed <==>
          !Same(e.value, r.value) && c.was == Some(e.value) && c.hash == hash(Canon(c.now));
      } else if c.was.Some? && Pair(c.key, c.was.value) in expected {
        KeyIn(expected, Pair(c.key, c.was.value));
      }
    }
  }

  lemma OnlyGolden(expected: seq<Record>, e: Record, c: Change)
    requires Distinct(expected) && e in expected && e.key == c.key
    ensures c.key in Keys(expected)
    ensures c.was.Some? ==> (Pair(c.key, c.was.value) in expected <==> c.was == Some(e.value))
  {
    KeyIn(expected, e);
    if c.was.Some? && Pair(c.key, c.was.value) in expected { SameKeySame(expected, e, Pair(c.key, c.was.value)); }
  }

  lemma {:induction false} MissingIn(expected: seq<Record>, replayed: set<Text>, key: Text)
    ensures key in Missing(expected, replayed) <==> key in Keys(expected) && key !in replayed
  {
    if expected != [] {
      MissingIn(expected[1..], replayed, key);
      assert Keys(expected) == [expected[0].key] + Keys(expected[1..]);
    }
  }

  /** A key is reported missing exactly when the golden has it and the replay has not. */
  lemma MissingReportedExactly(expected: seq<Record>, actual: seq<Record>, hash: Text -> Text, key: Text)
    ensures key in Compare(expected, actual, hash).missing <==> key in Keys(expected) && key !in Keys(actual)
  {
    MissingIn(expected, set i | 0 <= i < |actual| :: actual[i].key, key);
    assert forall i | 0 <= i < |actual| :: Keys(actual)[i] == actual[i].key;
  }

  /** The golden has the record's value, but for the order of members, under its key. */
  ghost predicate HasSame(expected: seq<Record>, r: Record) {
    exists e :: e in expected && e.key == r.key && Same(e.value, r.value)
  }

  lemma MatchesSame(expected: seq<Record>, r: Record)
    requires AllParsed(expected) && Parsed(r.value) && Distinct(expected)
    ensures Matches(Golden(expected), r) <==> HasSame(expected, r)
  {
    UnmatchedExactly(expected, r);
    if r.key in Keys(expected) {
      var k :| 0 <= k < |expected| && Keys(expected)[k] == r.key;
      assert expected[k] in expected && expected[k].key == r.key;
      if e :| e in expected && e.key == r.key && Same(e.value, r.value) { SameKeySame(expected, e, expected[k]); }
    } else if e :| e in expected && e.key == r.key {
      KeyIn(expected, e);
    }
  }

  /** One change for each of the records at some places. */
  predicate ChangesAt(changes: seq<Change>, places: seq<nat>, records: seq<Record>) {
    && |changes| == |places|
    && forall k | 0 <= k < |places| ::
         places[k] < |records| && Pair(changes[k].key, changes[k].now) == records[places[k]]
  }

  lemma ChangesCons(changes: seq<Change>, places: seq<nat>, records: seq<Record>, r: Record, c: Change)
    requires ChangesAt(changes, places, records) && Pair(c.key, c.now) == r
    ensures ChangesAt(changes, [] + OneOn(places), [r] + records)
    ensures ChangesAt([c] + changes, [0] + OneOn(places), [r] + records)
  {}

  lemma {:induction false} ChangedPlaces(golden: map<Text, Text>, values: map<Text, Json>, actual: seq<Record>,
                                         hash: Text -> Text)
    returns (places: seq<nat>)
    ensures Chosen(places, actual, (r: Record) => !Matches(golden, r))
    ensures ChangesAt(Changed(golden, values, actual, hash), places, actual)
    decreases |actual|
  {
    places := [];
    if actual != [] {
      var r, rest := actual[0], actual[1..];
      var more := ChangedPlaces(golden, values, rest, hash);
      ChosenCons(more, rest, r, (r: Record) => !Matches(golden, r));
      ChangesCons(Changed(golden, values, rest, hash), more, rest, r, ChangeOf(values, r, hash));
      assert actual == [r] + rest;
      places := (if Matches(golden, r) then [] else [0]) + OneOn(more);
    }
  }

  /** The changes are in the order of the replay's records, one for each that the golden has not. */
  lemma ChangedInOrder(expected: seq<Record>, actual: seq<Record>, hash: Text -> Text) returns (places: seq<nat>)
    requires AllParsed(expected) && AllParsed(actual) && Distinct(expected)
    ensures Chosen(places, actual, (r: Record) => !HasSame(expected, r))
    ensures ChangesAt(Compare(expected, actual, hash).changed, places, actual)
  {
    places := ChangedPlaces(Golden(expected), GoldenValues(expected), actual, hash);
    forall k | 0 <= k < |actual| ensures Matches(Golden(expected), actual[k]) <==> HasSame(expected, actual[k]) {
      MatchesSame(expected, actual[k]);
    }
  }

  predicate KeysAt(keys: seq<Text>, places: seq<nat>, records: seq<Record>) {
    && |keys| == |places|
    && forall k | 0 <= k < |places| :: places[k] < |records| && keys[k] == records[places[k]].key
  }

  lemma KeysAtCons(keys: seq<Text>, places: seq<nat>, records: seq<Record>, r: Record)
    requires KeysAt(keys, places, records)
    ensures KeysAt(keys, [] + OneOn(places), [r] + records)
    ensures KeysAt([r.key] + keys, [0] + OneOn(places), [r] + records)
  {}

  lemma {:induction false} MissingPlaces(expected: seq<Record>, replayed: set<Text>) returns (places: seq<nat>)
    ensures Chosen(places, expected, (r: Record) => r.key !in replayed)
    ensures KeysAt(Missing(expected, replayed), places, expected)
    decreases |expected|
  {
    places := [];
    if expected != [] {
      var r, rest := expected[0], expected[1..];
      var more := MissingPlaces(rest, replayed);
      ChosenCons(more, rest, r, (r: Record) => r.key !in replayed);
      KeysAtCons(Missing(rest, replayed), more, rest, r);
      assert expected == [r] + rest;
      places := (if r.key in replayed then [] else [0]) + OneOn(more);
    }
  }

  /** The missing keys are in the order of the golden's records, one for each that the replay has none under. */
  lemma MissingInOrder(expected: seq<Record>, actual: seq<Record>, hash: Text -> Text) returns (places: seq<nat>)
    ensures Chosen(places, expected, (r: Record) => r.key !in Keys(actual))
    ensures KeysAt(Compare(expected, actual, hash).missing, places, expected)
  {
    var replayed := set i | 0 <= i < |actual| :: actual[i].key;
    places := MissingPlaces(expected, replayed);
    assert forall i | 0 <= i < |actual| :: Keys(actual)[i] == actual[i].key;
    assert forall r: Record :: r.key !in replayed <==> r.key !in Keys(actual);
  }

  function Chars(s: string): (t: Text)
    ensures |t| == |s|
  {
    seq(|s|, i requires 0 <= i < |s| => if s[i] as int < 0x1_0000 then s[i] as int else 0xFFFD)
  }

  /** The line is the side's name, a space, and a key that two records of that side have. */
  ghost predicate LabelsRepeated(line: Text, side: Text, records: seq<Record>) {
    exists key :: line == side + key && multiset(Keys(records))[key] > 1
  }

  lemma LabelledExactly(line: Text, side: Text, records: seq<Record>)
    ensures line in Labelled(side, Repeated(Keys(records))) <==> LabelsRepeated(line, side + [SPACE], records)
  {
    var keys := Repeated(Keys(records));
    RepeatedExactly(Keys(records));
    assert forall key :: side + ([SPACE] + key) == side + [SPACE] + key;
    if line in Labelled(side, keys) {
      var i :| 0 <= i < |keys| && Labelled(side, keys)[i] == line;
      assert keys[i] in keys;
    }
    if LabelsRepeated(line, side + [SPACE], records) {
      var key :| line == side + [SPACE] + key && multiset(Keys(records))[key] > 1;
      assert key in keys;
      var i :| 0 <= i < |keys| && keys[i] == key;
      assert Labelled(side, keys)[i] == line;
    }
  }

  lemma SideNames()
    ensures GOLDEN + [SPACE] == Chars("golden ") && REPLAY + [SPACE] == Chars("replay ")
  {}

  /** A check counts the replay's records, and labels a key that comes twice with the side it comes twice on. */
  lemma DuplicatesExactly(expected: seq<Record>, actual: seq<Record>, hash: Text -> Text, line: Text)
    ensures Compare(expected, actual, hash).records == |actual|
    ensures line in Compare(expected, actual, hash).duplicates <==>
      LabelsRepeated(line, Chars("golden "), expected) || LabelsRepeated(line, Chars("replay "), actual)
  {
    SideNames();
    LabelledExactly(line, GOLDEN, expected);
    LabelledExactly(line, REPLAY, actual);
  }
}
