/** A scheduler replay's check against a golden (apps/server/src/scheduler-replay.ts, lines 175-218).

The records of a replay are of six kinds, told apart by how their keys begin; a check passes when each
kind agrees by itself.  What a golden predates is left out of both sides. */
module SchedulerCheck {
  import opened Basics
  import opened KeyOrder
  import opened CanonicalJson
  import opened ReplayCheck
  import opened SchedulerReplay

  function Without(members: seq<Pair<Json>>, key: Text): seq<Pair<Json>> {
    if members == [] then []
    else if members[0].key == key then Without(members[1..], key)
    else [members[0]] + Without(members[1..], key)
  }

  function PlainRoadmaps(ds: seq<Decision>): seq<Decision> {
    seq(|ds|, i requires 0 <= i < |ds| => Decision(ds[i].id, Without(ds[i].members, ARGS)))
  }

  function PlainEntries(es: seq<EntryDecision>): seq<EntryDecision> {
    seq(|es|, i requires 0 <= i < |es| => EntryDecision(es[i].roadmapId, es[i].entryId, Without(es[i].members, ARGS)))
  }

  function PlainItems(items: seq<Item>): seq<Item> {
    seq(|items|, i requires 0 <= i < |items| =>
      Item(items[i].subject, items[i].code, Without(Without(items[i].rest, KIND), ACTIONS)))
  }

  /** What a golden predates is left out of both sides. */
  function Comparable(golden: Replay, side: Replay): Replay {
    var withArguments := golden.format.Some? && golden.format.value >= 2;
    var withStatus := withArguments || golden.status.Some?;
    var withAttention := withArguments || golden.attention.Some?;
    Replay(side.format,
           if withArguments then side.roadmaps else PlainRoadmaps(side.roadmaps),
           if withArguments then side.entries else PlainEntries(side.entries),
           side.cycles,
           if withStatus then side.status else None,
           if !withAttention || side.attention.None? then None
           else if withArguments then side.attention
           else Some(PlainItems(side.attention.value)))
  }

  /** `checkSchedulerReplay`. */
  function CheckReplay(golden: Replay, replay: Replay, hash: Text -> Text): Check {
    Compare(SchedulerRecords(Comparable(golden, golden)), SchedulerRecords(Comparable(golden, replay)), hash)
  }

  // ---------------------------------------------------------------- what is compared

  /** The members but those under some keys. */
  function Less(members: seq<Pair<Json>>, out: set<Text>): seq<Pair<Json>> {
    if members == [] then []
    else (if members[0].key in out then [] else [members[0]]) + Less(members[1..], out)
  }

  /** Decisions by name, each with its canonical text. */
  function Named(ds: seq<Decision>, out: set<Text>): seq<Pair<Text>> {
    seq(|ds|, i requires 0 <= i < |ds| => Pair(ds[i].id, Canon(Obj(Less(ds[i].members, out)))))
  }

  function NamedEntries(es: seq<EntryDecision>, out: set<Text>): seq<Pair<Text>> {
    seq(|es|, i requires 0 <= i < |es| =>
      Pair(es[i].roadmapId + [SLASH] + es[i].entryId, Canon(Obj(Less(es[i].members, out)))))
  }

  function Headers(lists: seq<StatusList>): seq<Pair<Text>> {
    seq(|lists|, i requires 0 <= i < |lists| => Pair(lists[i].roadmapId, Canon(lists[i].header)))
  }

  function StatusOf(list: StatusList): seq<Pair<Text>> {
    seq(|list.entries|, i requires 0 <= i < |list.entries| =>
      Pair(list.roadmapId + [SLASH] + list.entries[i].key, Canon(list.entries[i].value)))
  }

  function StatusEntries(lists: seq<StatusList>): seq<Pair<Text>> {
    if lists == [] then [] else StatusOf(lists[0]) + StatusEntries(lists[1..])
  }

  function LessItems(items: seq<Item>, out: set<Text>): seq<Item> {
    seq(|items|, i requires 0 <= i < |items| => Item(items[i].subject, items[i].code, Less(items[i].rest, out)))
  }

  /** Neither side has a name twice, and both have the same names with the same texts. */
  ghost predicate Agree(ps: seq<Pair<Text>>, qs: seq<Pair<Text>>) {
    Distinct(ps) && Distinct(qs) && multiset(ps) == multiset(qs)
  }

  /** On neither side is an item's key another item's numbered key, and both have the same items, each as
      often as the other. */
  ghost predicate AttentionAgrees(a: seq<Item>, b: seq<Item>) {
    NoneCollide(Order(a), a) && NoneCollide(Order(b), b) && multiset(ItemTexts(a)) == multiset(ItemTexts(b))
  }

  // ---------------------------------------------------------------- leaving members out

  /** An object without some keys has the other members, and only those. */
  lemma {:induction false} LessExactly(members: seq<Pair<Json>>, out: set<Text>)
    ensures forall p :: p in Less(members, out) <==> p in members && p.key !in out
    ensures Distinct(members) ==> Distinct(Less(members, out))
  {
    if members != [] {
      var rest := Less(members[1..], out);
      LessExactly(members[1..], out);
      assert members == [members[0]] + members[1..];
      forall k | 0 <= k < |rest| ensures rest[k] in members[1..] { assert rest[k] in rest; }
    }
  }

  lemma {:induction false} LessNothing(members: seq<Pair<Json>>)
    ensures Less(members, {}) == members
  {
    if members != [] { LessNothing(members[1..]); }
  }

  lemma {:induction false} WithoutOne(members: seq<Pair<Json>>, key: Text)
    ensures Without(members, key) == Less(members, {key})
  {
    if members != [] { WithoutOne(members[1..], key); }
  }

  lemma {:induction false} WithoutTwo(members: seq<Pair<Json>>, key: Text, other: Text)
    ensures Without(Without(members, key), other) == Less(members, {key, other})
  {
    if members != [] {
      WithoutTwo(members[1..], key, other);
      if members[0].key != key {
        assert ([members[0]] + Without(members[1..], key))[1..] == Without(members[1..], key);
      }
    }
  }

  // ---------------------------------------------------------------- the kinds of records

  /** The kind of a record, from how its key begins. */
  function KindOf(key: Text): int {
    if key == [] then -1
    else if key[0] == ROADMAP[0] then 0
    else if key[0] == ENTRY[0] then 1
    else if key[0] == CYCLE[0] then 2
    else if key[0] == LETTER_A then 5
    else if |key| > 6 && key[6] == STATUS_LIST[6] then 3
    else 4
  }

  function Under(prefix: Text, ps: seq<Pair<Text>>): (r: seq<Pair<Text>>)
    ensures |r| == |ps|
  {
    seq(|ps|, i requires 0 <= i < |ps| => Pair(prefix + ps[i].key, ps[i].value))
  }

  predicate Kinded(parts: seq<seq<Pair<Text>>>, first: int) {
    forall n, i | 0 <= n < |parts| && 0 <= i < |parts[n]| :: KindOf(parts[n][i].key) == first + n
  }

  lemma {:induction false} UnderCounts(prefix: Text, ps: seq<Pair<Text>>, p: Pair<Text>)
    ensures multiset(Under(prefix, ps))[Pair(prefix + p.key, p.value)] == multiset(ps)[p]
  {
    if ps != [] {
      var front, last := ps[..|ps| - 1], ps[|ps| - 1];
      UnderCounts(prefix, front, p);
      assert ps == front + [last];
      assert Under(prefix, ps) == Under(prefix, front) + [Pair(prefix + last.key, last.value)];
      SamePrefix(prefix, p.key, last.key);
    }
  }

  lemma SamePrefix(prefix: Text, a: Text, b: Text)
    ensures prefix + a == prefix + b <==> a == b
  {
    assert (prefix + a)[|prefix|..] == a && (prefix + b)[|prefix|..] == b;
  }

  lemma UnderFrom(prefix: Text, ps: seq<Pair<Text>>, qs: seq<Pair<Text>>, x: Pair<Text>)
    requires multiset(ps) == multiset(qs) && x in Under(prefix, ps)
    ensures multiset(Under(prefix, ps))[x] == multiset(Under(prefix, qs))[x]
  {
    var i :| 0 <= i < |ps| && Under(prefix, ps)[i] == x;
    UnderCounts(prefix, ps, ps[i]);
    UnderCounts(prefix, qs, ps[i]);
  }

  /** A prefix changes neither what is equal nor what is distinct. */
  lemma UnderAlike(prefix: Text, ps: seq<Pair<Text>>, qs: seq<Pair<Text>>)
    ensures multiset(Under(prefix, ps)) == multiset(Under(prefix, qs)) <==> multiset(ps) == multiset(qs)
  {
    var us, vs := Under(prefix, ps), Under(prefix, qs);
    if multiset(us) == multiset(vs) {
      forall p ensures multiset(ps)[p] == multiset(qs)[p] {
        UnderCounts(prefix, ps, p);
        UnderCounts(prefix, qs, p);
      }
    }
    if multiset(ps) == multiset(qs) {
      forall x ensures multiset(us)[x] == multiset(vs)[x] {
        if x in us { UnderFrom(prefix, ps, qs, x); } else if x in vs { UnderFrom(prefix, qs, ps, x); }
      }
    }
  }

  lemma UnderDistinct(prefix: Text, ps: seq<Pair<Text>>)
    ensures Distinct(Under(prefix, ps)) <==> Distinct(ps)
  {
    forall i, j | 0 <= i < j < |ps|
      ensures Under(prefix, ps)[i].key == Under(prefix, ps)[j].key <==> ps[i].key == ps[j].key
    {
      SamePrefix(prefix, ps[i].key, ps[j].key);
    }
  }

  // ---------------------------------------------------------------- parts

  lemma BagJoin<T>(a: seq<T>, b: seq<T>)
    ensures multiset(a + b) == multiset(a) + multiset(b)
  {}

  predicate SameBag<T(==)>(a: seq<T>, b: seq<T>) {
    multiset(a) == multiset(b)
  }

  predicate SameParts(a: seq<seq<Pair<Text>>>, b: seq<seq<Pair<Text>>>) {
    |a| == |b| && forall n | 0 <= n < |a| :: SameBag(a[n], b[n])
  }

  function CountIn(parts: seq<seq<Pair<Text>>>, n: int, x: Pair<Text>): nat {
    if 0 <= n < |parts| then multiset(parts[n])[x] else 0
  }

  /** Of a list in parts by kind, an element is in the part of its kind alone. */
  lemma {:induction false} CountInParts(parts: seq<seq<Pair<Text>>>, first: int, x: Pair<Text>)
    requires Kinded(parts, first)
    ensures multiset(Flat(parts))[x] == CountIn(parts, KindOf(x.key) - first, x)
    decreases |parts|
  {
    if parts != [] {
      CountInParts(parts[1..], first + 1, x);
      BagJoin(parts[0], Flat(parts[1..]));
      assert x in parts[0] ==> KindOf(x.key) == first;
    }
  }

  lemma PartOfFlat(a: seq<seq<Pair<Text>>>, b: seq<seq<Pair<Text>>>, n: nat)
    requires Kinded(a, 0) && Kinded(b, 0) && n < |a| == |b| && multiset(Flat(a)) == multiset(Flat(b))
    ensures SameBag(a[n], b[n])
  {
    forall x ensures multiset(a[n])[x] == multiset(b[n])[x] {
      CountInParts(a, 0, x);
      CountInParts(b, 0, x);
      if KindOf(x.key) != n { assert x !in a[n] && x !in b[n]; }
    }
  }

  lemma SameCounts(a: seq<seq<Pair<Text>>>, b: seq<seq<Pair<Text>>>, n: int, x: Pair<Text>)
    requires SameParts(a, b)
    ensures CountIn(a, n, x) == CountIn(b, n, x)
  {
    if 0 <= n < |a| { assert SameBag(a[n], b[n]); }
  }

  lemma FlatOfParts(a: seq<seq<Pair<Text>>>, b: seq<seq<Pair<Text>>>, x: Pair<Text>)
    requires Kinded(a, 0) && Kinded(b, 0) && SameParts(a, b)
    ensures multiset(Flat(a))[x] == multiset(Flat(b))[x]
  {
    CountInParts(a, 0, x);
    CountInParts(b, 0, x);
    SameCounts(a, b, KindOf(x.key), x);
  }

  lemma PartsAlike(a: seq<seq<Pair<Text>>>, b: seq<seq<Pair<Text>>>)
    requires Kinded(a, 0) && Kinded(b, 0) && |a| == |b|
    ensures multiset(Flat(a)) == multiset(Flat(b)) <==> SameParts(a, b)
  {
    if multiset(Flat(a)) == multiset(Flat(b)) {
      forall n | 0 <= n < |a| ensures SameBag(a[n], b[n]) { PartOfFlat(a, b, n); }
    } else if SameParts(a, b) {
      forall x ensures multiset(Flat(a))[x] == multiset(Flat(b))[x] { FlatOfParts(a, b, x); }
      assert false;
    }
  }

  lemma TwoInParts(parts: seq<seq<Pair<Text>>>, p: nat, q: nat)
    requires Kinded(parts, 0) && (forall n | 0 <= n < |parts| :: Distinct(parts[n])) && p < q < |Flat(parts)|
    ensures Flat(parts)[p].key != Flat(parts)[q].key
  {
    var n, i := FlatOf(parts, p);
    var m, j := FlatOf(parts, q);
    if n == m { assert Distinct(parts[n]); }
  }

  lemma PartsDistinct(parts: seq<seq<Pair<Text>>>)
    requires Kinded(parts, 0)
    ensures Distinct(Flat(parts)) <==> forall n | 0 <= n < |parts| :: Distinct(parts[n])
  {
    if forall n | 0 <= n < |parts| :: Distinct(parts[n]) {
      forall p, q | 0 <= p < q < |Flat(parts)| ensures Flat(parts)[p].key != Flat(parts)[q].key {
        TwoInParts(parts, p, q);
      }
    } else {
      var n :| 0 <= n < |parts| && !Distinct(parts[n]);
      var i, j :| 0 <= i < j < |parts[n]| && parts[n][i].key == parts[n][j].key;
      SameTwice(parts, n, i, n, j);
    }
  }

  predicate AtMostOnce(keys: seq<Text>, key: Text) {
    multiset(keys)[key] <= 1
  }

  lemma OnceByCount<T>(ps: seq<Pair<T>>)
    ensures Distinct(ps) <==> forall key :: AtMostOnce(Keys(ps), key)
  {
    var keys := Keys(ps);
    assert forall i | 0 <= i < |ps| :: keys[i] == ps[i].key;
    if Distinct(ps) {
      forall key ensures AtMostOnce(keys, key) { CountOfOnce(keys, key); }
    } else {
      var i, j :| 0 <= i < j < |ps| && ps[i].key == ps[j].key;
      Twice(keys, i, j);
      assert !AtMostOnce(keys, keys[i]);
    }
  }

  lemma DistinctAlike<T>(ps: seq<Pair<T>>, qs: seq<Pair<T>>)
    requires multiset(ps) == multiset(qs)
    ensures Distinct(ps) <==> Distinct(qs)
  {
    KeysAlike(ps, qs);
    OnceByCount(ps);
    OnceByCount(qs);
    assert forall key :: AtMostOnce(Keys(ps), key) <==> AtMostOnce(Keys(qs), key);
  }

  // ---------------------------------------------------------------- a replay's records in parts

  function Parts(replay: Replay): (parts: seq<seq<Pair<Text>>>)
    ensures |parts| == 6
  {
    var lists, items := OrEmpty(replay.status), OrEmpty(replay.attention);
    [Under(ROADMAP, Named(replay.roadmaps, {})), Under(ENTRY, NamedEntries(replay.entries, {})),
     Under(CYCLE, Named(replay.cycles, {})), Under(STATUS_LIST, Headers(lists)), Under(STATUS, StatusEntries(lists)),
     Printed(AttentionRecords(Order(items), items))]
  }

  lemma PrintedNamed(ds: seq<Decision>)
    ensures Printed(RoadmapRecords(ds)) == Under(ROADMAP, Named(ds, {}))
    ensures Printed(CycleRecords(ds)) == Under(CYCLE, Named(ds, {}))
  {
    forall i | 0 <= i < |ds| ensures Less(ds[i].members, {}) == ds[i].members { LessNothing(ds[i].members); }
  }

  lemma PrintedEntries(es: seq<EntryDecision>)
    ensures Printed(EntryRecords(es)) == Under(ENTRY, NamedEntries(es, {}))
  {
    forall i | 0 <= i < |es|
      ensures Printed(EntryRecords(es))[i] == Under(ENTRY, NamedEntries(es, {}))[i]
    {
      LessNothing(es[i].members);
      assert ENTRY + es[i].roadmapId + [SLASH] + es[i].entryId == ENTRY + (es[i].roadmapId + [SLASH] + es[i].entryId);
    }
  }

  lemma PrintedList(list: StatusList)
    ensures Printed(StatusListRecords(list)) ==
      [Pair(STATUS_LIST + list.roadmapId, Canon(list.header))] + Under(STATUS, StatusOf(list))
  {
    forall i | 0 <= i < |list.entries|
      ensures STATUS + list.roadmapId + [SLASH] + list.entries[i].key ==
        STATUS + (list.roadmapId + [SLASH] + list.entries[i].key)
    {}
  }

  lemma UnderJoin(prefix: Text, ps: seq<Pair<Text>>, qs: seq<Pair<Text>>)
    ensures Under(prefix, ps + qs) == Under(prefix, ps) + Under(prefix, qs)
  {}

  lemma HeadersCons(lists: seq<StatusList>)
    requires lists != []
    ensures Under(STATUS_LIST, Headers(lists)) ==
      [Pair(STATUS_LIST + lists[0].roadmapId, Canon(lists[0].header))] + Under(STATUS_LIST, Headers(lists[1..]))
  {}

  lemma {:induction false} StatusInParts(lists: seq<StatusList>)
    ensures multiset(Printed(StatusRecords(lists))) ==
      multiset(Under(STATUS_LIST, Headers(lists))) + multiset(Under(STATUS, StatusEntries(lists)))
  {
    if lists != [] {
      var list, rest := lists[0], lists[1..];
      StatusInParts(rest);
      PrintedJoin(StatusListRecords(list), StatusRecords(rest));
      PrintedList(list);
      HeadersCons(lists);
      UnderJoin(STATUS, StatusOf(list), StatusEntries(rest));
    }
  }

  lemma FlatSix<T>(a: seq<T>, b: seq<T>, c: seq<T>, d: seq<T>, e: seq<T>, f: seq<T>)
    ensures multiset(Flat([a, b, c, d, e, f])) ==
      multiset(a) + multiset(b) + multiset(c) + multiset(d) + multiset(e) + multiset(f)
  {
    assert [a, b, c, d, e, f][1..] == [b, c, d, e, f] && [b, c, d, e, f][1..] == [c, d, e, f];
    assert [c, d, e, f][1..] == [d, e, f] && [d, e, f][1..] == [e, f] && [e, f][1..] == [f] && [f][1..] == [];
    assert Flat([f]) == f && Flat([e, f]) == e + f && Flat([d, e, f]) == d + (e + f);
    assert Flat([c, d, e, f]) == c + (d + (e + f)) && Flat([b, c, d, e, f]) == b + (c + (d + (e + f)));
  }

  lemma PrintedFive(a: seq<Record>, b: seq<Record>, c: seq<Record>, d: seq<Record>, e: seq<Record>)
    ensures multiset(Printed(a + b + c + d + e)) == multiset(Printed(a)) + multiset(Printed(b)) +
      multiset(Printed(c)) + multiset(Printed(d)) + multiset(Printed(e))
  {
    PrintedJoin(a + b + c + d, e);
    PrintedJoin(a + b + c, d);
    PrintedJoin(a + b, c);
    PrintedJoin(a, b);
  }

  /** The records of a replay are its parts. */
  lemma RecordsInParts(replay: Replay)
    ensures multiset(Printed(SchedulerRecords(replay))) == multiset(Flat(Parts(replay)))
  {
    var lists, items := OrEmpty(replay.status), OrEmpty(replay.attention);
    var p := Parts(replay);
    PrintedFive(RoadmapRecords(replay.roadmaps), EntryRecords(replay.entries), CycleRecords(replay.cycles),
                AttentionRecords(Order(items), items), StatusRecords(lists));
    PrintedNamed(replay.roadmaps);
    PrintedEntries(replay.entries);
    PrintedNamed(replay.cycles);
    StatusInParts(lists);
    FlatSix(p[0], p[1], p[2], p[3], p[4], p[5]);
    assert p == [p[0], p[1], p[2], p[3], p[4], p[5]];
  }

  lemma PrintedAttentionKind(items: seq<Item>, i: nat)
    requires i < |Printed(AttentionRecords(Order(items), items))|
    ensures KindOf(Printed(AttentionRecords(Order(items), items))[i].key) == 5
  {
    var records := AttentionRecords(Order(items), items);
    OrderKeys(items);
    assert records[i] in records;
    AttentionKeys(Order(items), items, records[i]);
  }

  lemma PrefixKind(prefix: Text, key: Text)
    ensures prefix == ROADMAP ==> KindOf(prefix + key) == 0
    ensures prefix == ENTRY ==> KindOf(prefix + key) == 1
    ensures prefix == CYCLE ==> KindOf(prefix + key) == 2
    ensures prefix == STATUS_LIST ==> KindOf(prefix + key) == 3
    ensures prefix == STATUS ==> KindOf(prefix + key) == 4
  {}

  lemma PartKind(replay: Replay, n: nat, i: nat)
    requires n < 6 && i < |Parts(replay)[n]|
    ensures KindOf(Parts(replay)[n][i].key) == n
  {
    var lists, items := OrEmpty(replay.status), OrEmpty(replay.attention);
    match n {
      case 0 => PrefixKind(ROADMAP, Named(replay.roadmaps, {})[i].key);
      case 1 => PrefixKind(ENTRY, NamedEntries(replay.entries, {})[i].key);
      case 2 => PrefixKind(CYCLE, Named(replay.cycles, {})[i].key);
      case 3 => PrefixKind(STATUS_LIST, Headers(lists)[i].key);
      case 4 => PrefixKind(STATUS, StatusEntries(lists)[i].key);
      case _ => PrintedAttentionKind(items, i);
    }
  }

  lemma PartsKinded(replay: Replay)
    ensures Kinded(Parts(replay), 0)
  {
    var parts: seq<seq<Pair<Text>>> := Parts(replay);
    forall n, i | 0 <= n < |parts| && 0 <= i < |parts[n]| ensures KindOf(parts[n][i].key) == n {
      PartKind(replay, n, i);
    }
  }

  // ---------------------------------------------------------------- main results

  /** No name comes twice within a kind, and no numbered key of the attention is another item's key. */
  ghost predicate KeysOnce(replay: Replay) {
    var items := OrEmpty(replay.attention);
    && Distinct(Named(replay.roadmaps, {}))
    && Distinct(NamedEntries(replay.entries, {}))
    && Distinct(Named(replay.cycles, {}))
    && Distinct(Headers(OrEmpty(replay.status)))
    && Distinct(StatusEntries(OrEmpty(replay.status)))
    && NoneCollide(Order(items), items)
  }

  lemma AttentionDistinct(items: seq<Item>)
    ensures Distinct(Printed(AttentionRecords(Order(items), items))) <==> NoneCollide(Order(items), items)
  {
    KeysDistinctExactly(items);
    PrintedKeys(AttentionRecords(Order(items), items));
  }

  lemma SixDistinct(p: seq<seq<Pair<Text>>>)
    requires |p| == 6
    ensures (forall n | 0 <= n < |p| :: Distinct(p[n])) <==>
      Distinct(p[0]) && Distinct(p[1]) && Distinct(p[2]) && Distinct(p[3]) && Distinct(p[4]) && Distinct(p[5])
  {}

  lemma SixBags(p: seq<seq<Pair<Text>>>, q: seq<seq<Pair<Text>>>)
    requires |p| == |q| == 6
    ensures SameParts(p, q) <==>
      SameBag(p[0], q[0]) && SameBag(p[1], q[1]) && SameBag(p[2], q[2]) &&
      SameBag(p[3], q[3]) && SameBag(p[4], q[4]) && SameBag(p[5], q[5])
  {}

  lemma PartsOnce(replay: Replay)
    ensures (forall n | 0 <= n < |Parts(replay)| :: Distinct(Parts(replay)[n])) <==> KeysOnce(replay)
  {
    var lists := OrEmpty(replay.status);
    UnderDistinct(ROADMAP, Named(replay.roadmaps, {}));
    UnderDistinct(ENTRY, NamedEntries(replay.entries, {}));
    UnderDistinct(CYCLE, Named(replay.cycles, {}));
    UnderDistinct(STATUS_LIST, Headers(lists));
    UnderDistinct(STATUS, StatusEntries(lists));
    AttentionDistinct(OrEmpty(replay.attention));
    SixDistinct(Parts(replay));
  }

  /** A replay's keys are distinct exactly when the names of each kind are. */
  lemma RecordsDistinctExactly(replay: Replay)
    ensures Distinct(SchedulerRecords(replay)) <==> KeysOnce(replay)
  {
    PrintedKeys(SchedulerRecords(replay));
    RecordsInParts(replay);
    DistinctAlike(Printed(SchedulerRecords(replay)), Flat(Parts(replay)));
    PartsKinded(replay);
    PartsDistinct(Parts(replay));
    PartsOnce(replay);
  }

  /** Two replays with the same contents, kind by kind. */
  ghost predicate SameKinds(a: Replay, b: Replay) {
    && multiset(Named(a.roadmaps, {})) == multiset(Named(b.roadmaps, {}))
    && multiset(NamedEntries(a.entries, {})) == multiset(NamedEntries(b.entries, {}))
    && multiset(Named(a.cycles, {})) == multiset(Named(b.cycles, {}))
    && multiset(Headers(OrEmpty(a.status))) == multiset(Headers(OrEmpty(b.status)))
    && multiset(StatusEntries(OrEmpty(a.status))) == multiset(StatusEntries(OrEmpty(b.status)))
    && multiset(ItemTexts(OrEmpty(a.attention))) == multiset(ItemTexts(OrEmpty(b.attention)))
  }

  lemma PartsSame(a: Replay, b: Replay)
    requires AllItemsParsed(OrEmpty(a.attention)) && AllItemsParsed(OrEmpty(b.attention))
    ensures SameParts(Parts(a), Parts(b)) <==> SameKinds(a, b)
  {
    UnderAlike(ROADMAP, Named(a.roadmaps, {}), Named(b.roadmaps, {}));
    UnderAlike(ENTRY, NamedEntries(a.entries, {}), NamedEntries(b.entries, {}));
    UnderAlike(CYCLE, Named(a.cycles, {}), Named(b.cycles, {}));
    UnderAlike(STATUS_LIST, Headers(OrEmpty(a.status)), Headers(OrEmpty(b.status)));
    UnderAlike(STATUS, StatusEntries(OrEmpty(a.status)), StatusEntries(OrEmpty(b.status)));
    AttentionExactly(OrEmpty(a.attention), OrEmpty(b.attention));
    SixBags(Parts(a), Parts(b));
  }

  lemma RecordsExactly(a: Replay, b: Replay)
    requires AllItemsParsed(OrEmpty(a.attention)) && AllItemsParsed(OrEmpty(b.attention))
    ensures multiset(Printed(SchedulerRecords(a))) == multiset(Printed(SchedulerRecords(b))) <==> SameKinds(a, b)
  {
    RecordsInParts(a);
    RecordsInParts(b);
    PartsKinded(a);
    PartsKinded(b);
    PartsAlike(Parts(a), Parts(b));
    PartsSame(a, b);
  }

  predicate FormatTwo(replay: Replay) {
    replay.format.Some? && replay.format.value >= 2
  }

  lemma RoadmapsLess(ds: seq<Decision>)
    ensures Named(PlainRoadmaps(ds), {}) == Named(ds, {ARGS})
  {
    forall i | 0 <= i < |ds| ensures Named(PlainRoadmaps(ds), {})[i] == Named(ds, {ARGS})[i] {
      LessNothing(Without(ds[i].members, ARGS));
      WithoutOne(ds[i].members, ARGS);
    }
  }

  lemma EntriesLess(es: seq<EntryDecision>)
    ensures NamedEntries(PlainEntries(es), {}) == NamedEntries(es, {ARGS})
  {
    forall i | 0 <= i < |es| ensures NamedEntries(PlainEntries(es), {})[i] == NamedEntries(es, {ARGS})[i] {
      LessNothing(Without(es[i].members, ARGS));
      WithoutOne(es[i].members, ARGS);
    }
  }

  lemma ItemsLess(items: seq<Item>)
    ensures PlainItems(items) == LessItems(items, {KIND, ACTIONS})
    ensures LessItems(items, {}) == items
  {
    forall i | 0 <= i < |items|
      ensures PlainItems(items)[i] == LessItems(items, {KIND, ACTIONS})[i] && LessItems(items, {})[i] == items[i]
    {
      WithoutTwo(items[i].rest, KIND, ACTIONS);
      LessNothing(items[i].rest);
    }
  }

  lemma LessParsed(items: seq<Item>, out: set<Text>)
    requires AllItemsParsed(items)
    ensures AllItemsParsed(LessItems(items, out))
  {
    forall i | 0 <= i < |items| ensures Parsed(ItemJson(LessItems(items, out)[i])) {
      LessItemParsed(items[i], out);
    }
  }

  predicate HasKey<T>(ps: seq<Pair<T>>, key: Text) {
    exists k | 0 <= k < |ps| :: ps[k].key == key
  }

  lemma ParsedTail(p: Pair<Json>, ms: seq<Pair<Json>>)
    requires Parsed(Obj([p] + ms))
    ensures Parsed(p.value) && Parsed(Obj(ms)) && !HasKey(ms, p.key)
  {
    var all := [p] + ms;
    assert Parsed(all[0].value) && forall k | 0 <= k < |ms| :: all[k + 1] == ms[k];
    forall k | 0 <= k < |ms| ensures Parsed(ms[k].value) && ms[k].key != p.key {
      assert Parsed(all[k + 1].value) && all[0].key != all[k + 1].key;
    }
    forall i, j | 0 <= i < j < |ms| ensures ms[i].key != ms[j].key { assert all[i + 1].key != all[j + 1].key; }
  }

  lemma ParsedCons(p: Pair<Json>, ms: seq<Pair<Json>>)
    ensures Parsed(Obj([p] + ms)) <==> Parsed(p.value) && Parsed(Obj(ms)) && !HasKey(ms, p.key)
  {
    if Parsed(Obj([p] + ms)) { ParsedTail(p, ms); }
  }

  lemma ItemCons(item: Item)
    ensures ItemJson(item) ==
      Obj([Pair(SUBJECT_KEY, Str(item.subject))] + ([Pair(CODE, Str(item.code))] + item.rest))
  {}

  lemma HasKeyCons<T>(p: Pair<T>, ps: seq<Pair<T>>, key: Text)
    ensures HasKey([p] + ps, key) <==> p.key == key || HasKey(ps, key)
  {
    var all := [p] + ps;
    assert all[0] == p && forall k | 0 <= k < |ps| :: all[k + 1] == ps[k];
    if HasKey(ps, key) {
      var k :| 0 <= k < |ps| && ps[k].key == key;
      assert all[k + 1].key == key;
    }
  }

  lemma ItemParsedExactly(item: Item)
    ensures Parsed(ItemJson(item)) <==>
      Parsed(Obj(item.rest)) && !HasKey(item.rest, CODE) && !HasKey(item.rest, SUBJECT_KEY)
  {
    var code := Pair(CODE, Str(item.code));
    ItemCons(item);
    ParsedCons(code, item.rest);
    ParsedCons(Pair(SUBJECT_KEY, Str(item.subject)), [code] + item.rest);
    HasKeyCons(code, item.rest, SUBJECT_KEY);
    assert CODE != SUBJECT_KEY by { assert |CODE| != |SUBJECT_KEY|; }
  }

  lemma LessHas(members: seq<Pair<Json>>, out: set<Text>, key: Text)
    ensures HasKey(Less(members, out), key) ==> HasKey(members, key)
  {
    LessExactly(members, out);
    var less := Less(members, out);
    if HasKey(less, key) {
      var k :| 0 <= k < |less| && less[k].key == key;
      assert less[k] in less;
    }
  }

  lemma LessObject(members: seq<Pair<Json>>, out: set<Text>)
    requires Parsed(Obj(members))
    ensures Parsed(Obj(Less(members, out)))
  {
    LessExactly(members, out);
    var less := Less(members, out);
    forall k | 0 <= k < |less| ensures Parsed(less[k].value) { assert less[k] in less; }
  }

  lemma LessItemParsed(item: Item, out: set<Text>)
    requires Parsed(ItemJson(item))
    ensures Parsed(ItemJson(Item(item.subject, item.code, Less(item.rest, out))))
  {
    ItemParsedExactly(item);
    LessObject(item.rest, out);
    LessHas(item.rest, out, CODE);
    LessHas(item.rest, out, SUBJECT_KEY);
    ItemParsedExactly(Item(item.subject, item.code, Less(item.rest, out)));
  }

  /** What a check compares of one side. */
  lemma Compared(golden: Replay, side: Replay)
    requires AllItemsParsed(OrEmpty(side.attention))
    ensures var full, c := FormatTwo(golden), Comparable(golden, side);
      && Named(c.roadmaps, {}) == Named(side.roadmaps, if full then {} else {ARGS})
      && NamedEntries(c.entries, {}) == NamedEntries(side.entries, if full then {} else {ARGS})
      && c.cycles == side.cycles
      && OrEmpty(c.status) == (if full || golden.status.Some? then OrEmpty(side.status) else [])
      && OrEmpty(c.attention) == (if full || golden.attention.Some? then
           LessItems(OrEmpty(side.attention), if full then {} else {KIND, ACTIONS}) else [])
      && AllItemsParsed(OrEmpty(c.attention))
  {
    RoadmapsLess(side.roadmaps);
    EntriesLess(side.entries);
    ItemsLess(OrEmpty(side.attention));
    LessParsed(OrEmpty(side.attention), {KIND, ACTIONS});
  }

  lemma {:induction false} NamesAlike(ds: seq<Decision>, es: seq<EntryDecision>, out: set<Text>)
    ensures Distinct(Named(ds, out)) <==> Distinct(Named(ds, {}))
    ensures Distinct(NamedEntries(es, out)) <==> Distinct(NamedEntries(es, {}))
  {
    forall i | 0 <= i < |ds| ensures Named(ds, out)[i].key == Named(ds, {})[i].key {}
    forall i | 0 <= i < |es| ensures NamedEntries(es, out)[i].key == NamedEntries(es, {})[i].key {}
  }

  lemma LessFront(items: seq<Item>, out: set<Text>)
    requires items != []
    ensures LessItems(items, out)[..|items| - 1] == LessItems(items[..|items| - 1], out)
    ensures GroupKey(LessItems(items, out)[|items| - 1]) == GroupKey(items[|items| - 1])
  {}

  lemma {:induction false} LessOrder(items: seq<Item>, out: set<Text>)
    ensures Order(LessItems(items, out)) == Order(items)
  {
    if items != [] {
      LessFront(items, out);
      LessOrder(items[..|items| - 1], out);
    }
  }

  lemma {:induction false} LessGroup(items: seq<Item>, out: set<Text>, key: Text)
    ensures |Group(LessItems(items, out), key)| == |Group(items, key)|
  {
    if items != [] {
      LessFront(items, out);
      LessGroup(items[..|items| - 1], out, key);
    }
  }

  /** An item's key does not depend on its other members. */
  lemma LessCollides(items: seq<Item>, out: set<Text>)
    ensures var less := LessItems(items, out);
      NoneCollide(Order(less), less) <==> NoneCollide(Order(items), items)
  {
    LessOrder(items, out);
    forall key ensures |Group(LessItems(items, out), key)| == |Group(items, key)| { LessGroup(items, out, key); }
    var less := LessItems(items, out);
    forall n, i | 0 <= n < |Order(items)| && 0 <= i < |Group(items, Order(items)[n])|
      ensures Collide(Order(less), less, n, i) <==> Collide(Order(items), items, n, i)
    {}
  }

  /** A check finds no difference exactly when every kind agrees: roadmaps and entries (without their
      arguments, for a golden before format 2), cycles, status headers and status entries, and the
      attention as a multiset (without kinds and actions).  Status and attention that an older golden has
      not are not compared. */
  lemma CheckExactly(golden: Replay, replay: Replay, hash: Text -> Text)
    requires AllItemsParsed(OrEmpty(golden.attention)) && AllItemsParsed(OrEmpty(replay.attention))
    ensures
      var full := FormatTwo(golden);
      var arguments := if full then {} else {ARGS};
      var details := if full then {} else {KIND, ACTIONS};
      !Differs(CheckReplay(golden, replay, hash)) <==>
      && Agree(Named(golden.roadmaps, arguments), Named(replay.roadmaps, arguments))
      && Agree(NamedEntries(golden.entries, arguments), NamedEntries(replay.entries, arguments))
      && Agree(Named(golden.cycles, {}), Named(replay.cycles, {}))
      && (full || golden.status.Some? ==>
           && Agree(Headers(OrEmpty(golden.status)), Headers(OrEmpty(replay.status)))
           && Agree(StatusEntries(OrEmpty(golden.status)), StatusEntries(OrEmpty(replay.status))))
      && (full || golden.attention.Some? ==>
           AttentionAgrees(LessItems(OrEmpty(golden.attention), details),
                           LessItems(OrEmpty(replay.attention), details)))
  {
    var g, r := Comparable(golden, golden), Comparable(golden, replay);
    Compared(golden, golden);
    Compared(golden, replay);
    NoDifferenceExactly(SchedulerRecords(g), SchedulerRecords(r), hash);
    RecordsDistinctExactly(g);
    RecordsDistinctExactly(r);
    RecordsExactly(g, r);
  }

  /** A golden of format 2 is compared in full. */
  lemma FormatTwoExactly(golden: Replay, replay: Replay, hash: Text -> Text)
    requires FormatTwo(golden)
    requires AllItemsParsed(OrEmpty(golden.attention)) && AllItemsParsed(OrEmpty(replay.attention))
    ensures !Differs(CheckReplay(golden, replay, hash)) <==>
      && Agree(Named(golden.roadmaps, {}), Named(replay.roadmaps, {}))
      && Agree(NamedEntries(golden.entries, {}), NamedEntries(replay.entries, {}))
      && Agree(Named(golden.cycles, {}), Named(replay.cycles, {}))
      && Agree(Headers(OrEmpty(golden.status)), Headers(OrEmpty(replay.status)))
      && Agree(StatusEntries(OrEmpty(golden.status)), StatusEntries(OrEmpty(replay.status)))
      && AttentionAgrees(OrEmpty(golden.attention), OrEmpty(replay.attention))
  {
    CheckExactly(golden, replay, hash);
    ItemsLess(OrEmpty(golden.attention));
    ItemsLess(OrEmpty(replay.attention));
  }

  lemma KeysCons<T>(p: Pair<T>, ps: seq<Pair<T>>)
    ensures multiset(Keys([p] + ps)) == multiset{p.key} + multiset(Keys(ps))
  {
    assert Keys([p] + ps) == [p.key] + Keys(ps);
  }

  ghost predicate ValuesSame(ms: seq<Pair<Json>>, ns: seq<Pair<Json>>) {
    forall i, j | 0 <= i < |ms| && 0 <= j < |ns| && ms[i].key == ns[j].key :: Same(ms[i].value, ns[j].value)
  }

  lemma ValuesCons(p: Pair<Json>, q: Pair<Json>, ms: seq<Pair<Json>>, ns: seq<Pair<Json>>)
    requires p.key == q.key && !HasKey(ms, p.key) && !HasKey(ns, p.key)
    ensures ValuesSame([p] + ms, [q] + ns) <==> Same(p.value, q.value) && ValuesSame(ms, ns)
  {
    var a, b := [p] + ms, [q] + ns;
    if ValuesSame(a, b) {
      assert a[0] == p && b[0] == q;
      forall i, j | 0 <= i < |ms| && 0 <= j < |ns| && ms[i].key == ns[j].key ensures Same(ms[i].value, ns[j].value) {
        assert a[i + 1] == ms[i] && b[j + 1] == ns[j];
      }
    }
  }

  /** Objects with one member more of one key. */
  lemma SameCons(p: Pair<Json>, q: Pair<Json>, ms: seq<Pair<Json>>, ns: seq<Pair<Json>>)
    requires p.key == q.key && !HasKey(ms, p.key) && !HasKey(ns, p.key)
    ensures Same(Obj([p] + ms), Obj([q] + ns)) <==> Same(p.value, q.value) && Same(Obj(ms), Obj(ns))
  {
    KeysCons(p, ms);
    KeysCons(q, ns);
    BagCancel(multiset{p.key}, multiset(Keys(ms)), multiset(Keys(ns)));
    ValuesCons(p, q, ms, ns);
    SameObjects([p] + ms, [q] + ns);
    SameObjects(ms, ns);
  }

  lemma SameObjects(ms: seq<Pair<Json>>, ns: seq<Pair<Json>>)
    ensures Same(Obj(ms), Obj(ns)) <==> multiset(Keys(ms)) == multiset(Keys(ns)) && ValuesSame(ms, ns)
  {}

  lemma BagCancel<T>(a: multiset<T>, b: multiset<T>, c: multiset<T>)
    ensures a + b == a + c <==> b == c
  {
    if a + b == a + c {
      assert (a + b) - a == b && (a + c) - a == c;
    }
  }

  /** Two items have one text exactly when their subjects and codes are equal and their other members are
      the same. */
  lemma ItemTextExactly(x: Item, y: Item)
    requires Parsed(ItemJson(x)) && Parsed(ItemJson(y))
    ensures ItemText(x) == ItemText(y) <==> x.subject == y.subject && x.code == y.code && Same(Obj(x.rest), Obj(y.rest))
  {
    SameTextExactlyWhenSame(ItemJson(x), ItemJson(y));
    ItemSame(x, y);
  }

  lemma ItemSame(x: Item, y: Item)
    requires Parsed(ItemJson(x)) && Parsed(ItemJson(y))
    ensures Same(ItemJson(x), ItemJson(y)) <==>
      x.subject == y.subject && x.code == y.code && Same(Obj(x.rest), Obj(y.rest))
  {
    var s, t := Pair(SUBJECT_KEY, Str(x.subject)), Pair(SUBJECT_KEY, Str(y.subject));
    var c, d := Pair(CODE, Str(x.code)), Pair(CODE, Str(y.code));
    ItemParsedExactly(x);
    ItemParsedExactly(y);
    ItemCons(x);
    ItemCons(y);
    ParsedCons(s, [c] + x.rest);
    ParsedCons(t, [d] + y.rest);
    SameCons(s, t, [c] + x.rest, [d] + y.rest);
    SameCons(c, d, x.rest, y.rest);
  }

  lemma BareParsed(items: seq<Item>)
    requires forall x | x in items :: x.rest == []
    ensures AllItemsParsed(items)
  {
    forall i | 0 <= i < |items| ensures Parsed(ItemJson(items[i])) {
      assert items[i] in items;
      ItemParsedExactly(items[i]);
    }
  }

  lemma AgreesWithItself(ps: seq<Pair<Text>>)
    ensures Agree(ps, ps) <==> Distinct(ps)
  {}

  lemma AttentionWithItself(items: seq<Item>, out: set<Text>)
    ensures AttentionAgrees(LessItems(items, out), LessItems(items, out)) <==> NoneCollide(Order(items), items)
  {
    LessCollides(items, out);
  }

  lemma NothingTwice()
    ensures Distinct(Headers([])) && Distinct(StatusEntries([])) && NoneCollide(Order([]), [])
  {}

  /** A replay differs from itself exactly when it has a key twice: two decisions of one kind with one name,
      or an item whose code ends in another's number. */
  lemma DiffersFromItselfExactly(replay: Replay, hash: Text -> Text)
    requires AllItemsParsed(OrEmpty(replay.attention))
    ensures Differs(CheckReplay(replay, replay, hash)) <==> !KeysOnce(replay)
  {
    var full := FormatTwo(replay);
    var arguments, details := if full then {} else {ARGS}, if full then {} else {KIND, ACTIONS};
    CheckExactly(replay, replay, hash);
    NamesAlike(replay.roadmaps, replay.entries, arguments);
    AgreesWithItself(Named(replay.roadmaps, arguments));
    AgreesWithItself(NamedEntries(replay.entries, arguments));
    AgreesWithItself(Named(replay.cycles, {}));
    AgreesWithItself(Headers(OrEmpty(replay.status)));
    AgreesWithItself(StatusEntries(OrEmpty(replay.status)));
    AttentionWithItself(OrEmpty(replay.attention), details);
    NothingTwice();
  }

  /** Such a replay there is. */
  lemma SomeReplayDiffersFromItself(hash: Text -> Text) returns (replay: Replay)
    ensures replay.format == Some(2) && replay.roadmaps == [] && replay.entries == [] && replay.cycles == []
    ensures replay.status == None && Differs(CheckReplay(replay, replay, hash))
  {
    var items := Colliding();
    CodeWithNumberCollides();
    BareParsed(items);
    replay := Replay(Some(2), [], [], [], None, Some(items));
    DiffersFromItselfExactly(replay, hash);
  }
}
