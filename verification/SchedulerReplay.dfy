/** A scheduler replay as keyed records (apps/server/src/scheduler-replay.ts, lines 120-173).

Attention is a multiset: the items with one subject and code are put in the order of their canonical
texts, and the n-th one's key ends in `#n`. */
module SchedulerReplay {
  import opened Basics
  import opened KeyOrder
  import opened CanonicalJson
  import opened ReplayCheck

  /** An attention item: its subject, its code, and its other members. */
  datatype Item = Item(subject: Text, code: Text, rest: seq<Pair<Json>>)

  datatype Decision = Decision(id: Text, members: seq<Pair<Json>>)

  datatype EntryDecision = EntryDecision(roadmapId: Text, entryId: Text, members: seq<Pair<Json>>)

  datatype StatusList = StatusList(roadmapId: Text, header: Json, entries: seq<Pair<Json>>)

  datatype Replay = Replay(
    format: Option<nat>,
    roadmaps: seq<Decision>,
    entries: seq<EntryDecision>,
    cycles: seq<Decision>,
    status: Option<seq<StatusList>>,
    attention: Option<seq<Item>>)

  const SUBJECT_KEY: Text := [115, 117, 98, 106, 101, 99, 116, 75, 101, 121]
  const CODE: Text := [99, 111, 100, 101]
  const ARGS: Text := [97, 114, 103, 115]
  const KIND: Text := [107, 105, 110, 100]
  const ACTIONS: Text := [97, 99, 116, 105, 111, 110, 115]
  const SLASH: Unit := 47
  const NUMBER_SIGN: Unit := 35

  const ATTENTION: Text := [97, 116, 116, 101, 110, 116, 105, 111, 110, 58]
  const ROADMAP: Text := [114, 111, 97, 100, 109, 97, 112, 58]
  const ENTRY: Text := [101, 110, 116, 114, 121, 58]
  const CYCLE: Text := [99, 121, 99, 108, 101, 58]
  const STATUS_LIST: Text := [115, 116, 97, 116, 117, 115, 108, 105, 115, 116, 58]
  const STATUS: Text := [115, 116, 97, 116, 117, 115, 58]

  function ItemJson(item: Item): Json {
    Obj([Pair(SUBJECT_KEY, Str(item.subject)), Pair(CODE, Str(item.code))] + item.rest)
  }

  function ItemText(item: Item): Text {
    Canon(ItemJson(item))
  }

  function ItemTexts(items: seq<Item>): (texts: seq<Text>)
    ensures |texts| == |items|
  {
    seq(|items|, i requires 0 <= i < |items| => ItemText(items[i]))
  }

  function GroupKey(item: Item): Text {
    ATTENTION + item.subject + [SLASH] + item.code
  }

  // ---------------------------------------------------------------- groups

  /** The group keys, in the order in which they first come. */
  function Order(items: seq<Item>): seq<Text> {
    if items == [] then []
    else
      var order, key := Order(items[..|items| - 1]), GroupKey(items[|items| - 1]);
      if key in order then order else order + [key]
  }

  /** The items under one key, in their order. */
  function Group(items: seq<Item>, key: Text): seq<Item> {
    if items == [] then []
    else
      var group, item := Group(items[..|items| - 1], key), items[|items| - 1];
      if GroupKey(item) == key then group + [item] else group
  }

  /** The map from group keys to items, and its insertion order. */
  method GroupAttention(items: seq<Item>) returns (order: seq<Text>, groups: map<Text, seq<Item>>)
    ensures order == Order(items)
    ensures forall key :: key in groups <==> key in order
    ensures forall key | key in groups :: groups[key] == Group(items, key)
  {
    order, groups := [], map[];
    for k := 0 to |items|
      invariant order == Order(items[..k]) && forall key :: key in groups <==> key in order
      invariant forall key :: Group(items[..k], key) == if key in groups then groups[key] else []
    {
      var key := GroupKey(items[k]);
      assert items[..k + 1][..k] == items[..k];
      if key !in groups { order := order + [key]; }
      groups := groups[key := (if key in groups then groups[key] else []) + [items[k]]];
    }
    assert items[..|items|] == items;
  }

  // ---------------------------------------------------------------- records

  function Decimal(n: nat): Text {
    if n < 10 then [48 + n] else Decimal(n / 10) + [48 + n % 10]
  }

  /** The `i`-th key of a group, from zero. */
  function Numbered(key: Text, i: nat): Text {
    if i == 0 then key else key + [NUMBER_SIGN] + Decimal(i + 1)
  }

  function WithTexts(items: seq<Item>): (pairs: seq<Pair<Item>>)
    ensures |pairs| == |items|
  {
    seq(|items|, i requires 0 <= i < |items| => Pair(ItemText(items[i]), items[i]))
  }

  function GroupRecords(key: Text, group: seq<Item>): (records: seq<Record>)
    ensures |records| == |group|
  {
    var sorted := InOrder(WithTexts(group));
    seq(|sorted|, i requires 0 <= i < |sorted| => Pair(Numbered(key, i), ItemJson(sorted[i].value)))
  }

  function AttentionRecords(order: seq<Text>, items: seq<Item>): seq<Record> {
    if order == [] then []
    else GroupRecords(order[0], Group(items, order[0])) + AttentionRecords(order[1..], items)
  }

  function RoadmapRecords(roadmaps: seq<Decision>): seq<Record> {
    seq(|roadmaps|, i requires 0 <= i < |roadmaps| => Pair(ROADMAP + roadmaps[i].id, Obj(roadmaps[i].members)))
  }

  function EntryRecords(entries: seq<EntryDecision>): seq<Record> {
    seq(|entries|, i requires 0 <= i < |entries| =>
      Pair(ENTRY + entries[i].roadmapId + [SLASH] + entries[i].entryId, Obj(entries[i].members)))
  }

  function CycleRecords(cycles: seq<Decision>): seq<Record> {
    seq(|cycles|, i requires 0 <= i < |cycles| => Pair(CYCLE + cycles[i].id, Obj(cycles[i].members)))
  }

  function StatusListRecords(list: StatusList): seq<Record> {
    [Pair(STATUS_LIST + list.roadmapId, list.header)] +
    seq(|list.entries|, i requires 0 <= i < |list.entries| =>
      Pair(STATUS + list.roadmapId + [SLASH] + list.entries[i].key, list.entries[i].value))
  }

  function StatusRecords(lists: seq<StatusList>): seq<Record> {
    if lists == [] then [] else StatusListRecords(lists[0]) + StatusRecords(lists[1..])
  }

  function OrEmpty<T>(list: Option<seq<T>>): seq<T> {
    if list.Some? then list.value else []
  }

  /** `schedulerRecords`. */
  function SchedulerRecords(replay: Replay): seq<Record> {
    var items := OrEmpty(replay.attention);
    RoadmapRecords(replay.roadmaps) + EntryRecords(replay.entries) + CycleRecords(replay.cycles) +
    AttentionRecords(Order(items), items) + StatusRecords(OrEmpty(replay.status))
  }

  // ---------------------------------------------------------------- one group

  predicate AllItemsParsed(items: seq<Item>) {
    forall i | 0 <= i < |items| :: Parsed(ItemJson(items[i]))
  }

  /** Items printed alike have the same subject and code. */
  lemma SameGroupKey(x: Item, y: Item)
    requires Parsed(ItemJson(x)) && Parsed(ItemJson(y)) && ItemText(x) == ItemText(y)
    ensures GroupKey(x) == GroupKey(y)
  {
    AlikeToSame(ItemJson(x), ItemJson(y));
    var ms, ns := ItemJson(x).members, ItemJson(y).members;
    assert ms[0].key == ns[0].key && ms[1].key == ns[1].key;
    assert Same(ms[0].value, ns[0].value) && Same(ms[1].value, ns[1].value);
  }

  lemma BagSnoc<T>(s: seq<T>, x: T)
    ensures multiset(s + [x]) == multiset(s) + multiset{x}
  {}

  lemma TextsSnoc(items: seq<Item>, x: Item)
    ensures ItemTexts(items + [x]) == ItemTexts(items) + [ItemText(x)]
  {}

  lemma TextsOf(items: seq<Item>, x: Item)
    ensures multiset(ItemTexts(items + [x])) == multiset(ItemTexts(items)) + multiset{ItemText(x)}
  {
    TextsSnoc(items, x);
    BagSnoc(ItemTexts(items), ItemText(x));
  }

  lemma Snoc<T>(s: seq<T>)
    requires s != []
    ensures s == s[..|s| - 1] + [s[|s| - 1]] && s[|s| - 1] in s
  {}

  lemma {:induction false} CountInGroup(items: seq<Item>, key: Text, text: Text, within: bool)
    requires forall x | x in items && ItemText(x) == text :: within == (GroupKey(x) == key)
    ensures multiset(ItemTexts(Group(items, key)))[text] == if within then multiset(ItemTexts(items))[text] else 0
  {
    if items != [] {
      var front, last := items[..|items| - 1], items[|items| - 1];
      CountInGroup(front, key, text, within);
      Snoc(items);
      TextsOf(front, last);
      TextsOf(Group(front, key), last);
    }
  }

  lemma CountsAlike(a: seq<Item>, b: seq<Item>, key: Text, text: Text)
    requires AllItemsParsed(a) && AllItemsParsed(b) && multiset(ItemTexts(a)) == multiset(ItemTexts(b))
    ensures multiset(ItemTexts(Group(a, key)))[text] == multiset(ItemTexts(Group(b, key)))[text]
  {
    var within := false;
    if text in multiset(ItemTexts(a)) {
      var i :| 0 <= i < |a| && ItemTexts(a)[i] == text;
      var x := a[i];
      within := GroupKey(x) == key;
      forall y | y in a && ItemText(y) == text ensures within == (GroupKey(y) == key) { SameGroupKey(x, y); }
      forall y | y in b && ItemText(y) == text ensures within == (GroupKey(y) == key) { SameGroupKey(x, y); }
    } else {
      NotIn(a, text);
      assert text !in multiset(ItemTexts(b));
      NotIn(b, text);
    }
    CountInGroup(a, key, text, within);
    CountInGroup(b, key, text, within);
  }

  lemma NotIn(items: seq<Item>, text: Text)
    requires text !in ItemTexts(items)
    ensures forall x | x in items :: ItemText(x) != text
  {
    forall x | x in items ensures ItemText(x) != text {
      var i :| 0 <= i < |items| && items[i] == x;
      assert ItemTexts(items)[i] == ItemText(x);
    }
  }

  lemma GroupsAlike(a: seq<Item>, b: seq<Item>, key: Text)
    requires AllItemsParsed(a) && AllItemsParsed(b) && multiset(ItemTexts(a)) == multiset(ItemTexts(b))
    ensures multiset(ItemTexts(Group(a, key))) == multiset(ItemTexts(Group(b, key)))
  {
    forall text ensures multiset(ItemTexts(Group(a, key)))[text] == multiset(ItemTexts(Group(b, key)))[text] {
      CountsAlike(a, b, key, text);
    }
  }

  /** A group's records show its canonical texts, sorted, under its numbered keys. */
  lemma GroupPrinted(key: Text, group: seq<Item>)
    ensures Values(Printed(GroupRecords(key, group))) == Keys(InOrder(WithTexts(group)))
    ensures multiset(Values(Printed(GroupRecords(key, group)))) == multiset(ItemTexts(group))
  {
    var pairs := WithTexts(group);
    var sorted := InOrder(pairs);
    InOrderKeeps(pairs);
    KeysAlike(sorted, pairs);
    assert Keys(pairs) == ItemTexts(group);
    forall i | 0 <= i < |sorted| ensures Printed(GroupRecords(key, group))[i].value == sorted[i].key {
      InMultiset(sorted, pairs, i);
      var k :| 0 <= k < |pairs| && pairs[k] == sorted[i];
    }
  }

  lemma GroupRecordsAlike(key: Text, g: seq<Item>, h: seq<Item>)
    requires multiset(ItemTexts(g)) == multiset(ItemTexts(h))
    ensures Printed(GroupRecords(key, g)) == Printed(GroupRecords(key, h))
  {
    var pg, ph := InOrder(WithTexts(g)), InOrder(WithTexts(h));
    GroupPrinted(key, g);
    GroupPrinted(key, h);
    InOrderSorts(WithTexts(g));
    InOrderSorts(WithTexts(h));
    SortedUnique(Keys(pg), Keys(ph));
    SameSize(ItemTexts(g), ItemTexts(h));
    var rg, rh := Printed(GroupRecords(key, g)), Printed(GroupRecords(key, h));
    forall i | 0 <= i < |rg| ensures rg[i] == rh[i] {
      assert Values(rg)[i] == Values(rh)[i];
    }
  }

  // ---------------------------------------------------------------- all groups

  /** The items whose key is one of some. */
  function Among(items: seq<Item>, order: seq<Text>): seq<Item> {
    if items == [] then []
    else
      var among, item := Among(items[..|items| - 1], order), items[|items| - 1];
      if GroupKey(item) in order then among + [item] else among
  }

  /** One more item, when it is taken and when it is not. */
  function OneMoreText(bag: multiset<Text>, x: Item, taken: bool): multiset<Text> {
    if taken then bag + multiset{ItemText(x)} else bag
  }

  lemma AmongOneMore(items: seq<Item>, order: seq<Text>)
    requires items != []
    ensures var front, last := items[..|items| - 1], items[|items| - 1];
      multiset(ItemTexts(Among(items, order))) ==
      OneMoreText(multiset(ItemTexts(Among(front, order))), last, GroupKey(last) in order)
  {
    TextsOf(Among(items[..|items| - 1], order), items[|items| - 1]);
  }

  lemma GroupOneMore(items: seq<Item>, key: Text)
    requires items != []
    ensures var front, last := items[..|items| - 1], items[|items| - 1];
      multiset(ItemTexts(Group(items, key))) ==
      OneMoreText(multiset(ItemTexts(Group(front, key))), last, GroupKey(last) == key)
  {
    TextsOf(Group(items[..|items| - 1], key), items[|items| - 1]);
  }

  lemma {:induction false} AmongSplits(items: seq<Item>, key: Text, rest: seq<Text>)
    requires key !in rest
    ensures multiset(ItemTexts(Among(items, [key] + rest))) ==
      multiset(ItemTexts(Group(items, key))) + multiset(ItemTexts(Among(items, rest)))
  {
    if items != [] {
      AmongSplits(items[..|items| - 1], key, rest);
      AmongOneMore(items, [key] + rest);
      AmongOneMore(items, rest);
      GroupOneMore(items, key);
    }
  }

  lemma {:induction false} AmongNone(items: seq<Item>)
    ensures Among(items, []) == []
  {
    if items != [] { AmongNone(items[..|items| - 1]); }
  }

  lemma {:induction false} AmongAll(items: seq<Item>, order: seq<Text>)
    requires forall x | x in items :: GroupKey(x) in order
    ensures Among(items, order) == items
  {
    if items != [] {
      assert items[|items| - 1] in items;
      AmongAll(items[..|items| - 1], order);
    }
  }

  lemma {:induction false} OrderHolds(items: seq<Item>)
    ensures NoneTwice(Order(items))
    ensures forall x | x in items :: GroupKey(x) in Order(items)
    ensures forall key :: key in Order(items) <==> Group(items, key) != []
  {
    if items != [] {
      OrderHolds(items[..|items| - 1]);
    }
  }

  lemma ValuesJoin<T>(ps: seq<Pair<T>>, qs: seq<Pair<T>>)
    ensures Values(ps + qs) == Values(ps) + Values(qs)
  {}

  lemma PrintedJoin(ps: seq<Record>, qs: seq<Record>)
    ensures Printed(ps + qs) == Printed(ps) + Printed(qs)
  {}

  lemma {:induction false} RecordsKeep(order: seq<Text>, items: seq<Item>)
    requires NoneTwice(order)
    ensures multiset(Values(Printed(AttentionRecords(order, items)))) == multiset(ItemTexts(Among(items, order)))
  {
    if order == [] {
      AmongNone(items);
    } else {
      var key, rest := order[0], order[1..];
      var first := GroupRecords(key, Group(items, key));
      assert order == [key] + rest;
      RecordsKeep(rest, items);
      GroupPrinted(key, Group(items, key));
      AmongSplits(items, key, rest);
      PrintedJoin(first, AttentionRecords(rest, items));
      ValuesJoin(Printed(first), Printed(AttentionRecords(rest, items)));
    }
  }

  /** The attention's records are its items, each as often as it is there: none is merged, none dropped. */
  lemma AttentionKept(items: seq<Item>)
    ensures multiset(Values(Printed(AttentionRecords(Order(items), items)))) == multiset(ItemTexts(items))
  {
    OrderHolds(items);
    RecordsKeep(Order(items), items);
    AmongAll(items, Order(items));
  }

  lemma {:induction false} SameGroups(order: seq<Text>, a: seq<Item>, b: seq<Item>)
    requires AllItemsParsed(a) && AllItemsParsed(b) && multiset(ItemTexts(a)) == multiset(ItemTexts(b))
    ensures Printed(AttentionRecords(order, a)) == Printed(AttentionRecords(order, b))
  {
    if order != [] {
      var key := order[0];
      SameGroups(order[1..], a, b);
      GroupsAlike(a, b, key);
      GroupRecordsAlike(key, Group(a, key), Group(b, key));
      PrintedJoin(GroupRecords(key, Group(a, key)), AttentionRecords(order[1..], a));
      PrintedJoin(GroupRecords(key, Group(b, key)), AttentionRecords(order[1..], b));
    }
  }

  lemma FirstGroupOut(order: seq<Text>, items: seq<Item>)
    requires order != []
    ensures multiset(Printed(AttentionRecords(order, items))) ==
      multiset(Printed(GroupRecords(order[0], Group(items, order[0])))) +
      multiset(Printed(AttentionRecords(order[1..], items)))
  {
    PrintedJoin(GroupRecords(order[0], Group(items, order[0])), AttentionRecords(order[1..], items));
  }

  lemma {:induction false} OneGroupOut(order: seq<Text>, k: nat, items: seq<Item>)
    requires k < |order|
    ensures multiset(Printed(AttentionRecords(order, items))) ==
      multiset(Printed(GroupRecords(order[k], Group(items, order[k])))) +
      multiset(Printed(AttentionRecords(Except(order, k), items)))
  {
    FirstGroupOut(order, items);
    var rest := Except(order, k);
    if k == 0 {
      assert rest == order[1..];
    } else {
      OneGroupOut(order[1..], k - 1, items);
      assert rest[0] == order[0] && rest[1..] == Except(order[1..], k - 1);
      FirstGroupOut(rest, items);
    }
  }

  lemma {:induction false} GroupsInAnyOrder(o: seq<Text>, p: seq<Text>, items: seq<Item>)
    requires multiset(o) == multiset(p)
    ensures multiset(Printed(AttentionRecords(o, items))) == multiset(Printed(AttentionRecords(p, items)))
    decreases |o|
  {
    SameSize(o, p);
    if o == [] {
      assert p == [];
    } else {
      InMultiset(o, p, 0);
      var k :| 0 <= k < |p| && p[k] == o[0];
      Cancel(o, p, 0, k);
      GroupsInAnyOrder(Except(o, 0), Except(p, k), items);
      OneGroupOut(o, 0, items);
      OneGroupOut(p, k, items);
    }
  }

  lemma SameOrder(a: seq<Item>, b: seq<Item>)
    requires AllItemsParsed(a) && AllItemsParsed(b) && multiset(ItemTexts(a)) == multiset(ItemTexts(b))
    ensures multiset(Order(a)) == multiset(Order(b))
  {
    OrderHolds(a);
    OrderHolds(b);
    forall key ensures key in Order(a) <==> key in Order(b) {
      GroupsAlike(a, b, key);
      SameSize(ItemTexts(Group(a, key)), ItemTexts(Group(b, key)));
    }
    OnceAlike(Order(a), Order(b));
  }

  /** Two attentions give the same records, in some order, exactly when they are equal as multisets. */
  lemma AttentionExactly(a: seq<Item>, b: seq<Item>)
    requires AllItemsParsed(a) && AllItemsParsed(b)
    ensures multiset(Printed(AttentionRecords(Order(a), a))) == multiset(Printed(AttentionRecords(Order(b), b))) <==>
      multiset(ItemTexts(a)) == multiset(ItemTexts(b))
  {
    var ra, rb := Printed(AttentionRecords(Order(a), a)), Printed(AttentionRecords(Order(b), b));
    if multiset(ra) == multiset(rb) {
      KeysAlike(ra, rb);
      AttentionKept(a);
      AttentionKept(b);
    }
    if multiset(ItemTexts(a)) == multiset(ItemTexts(b)) {
      SameOrder(a, b);
      GroupsInAnyOrder(Order(a), Order(b), a);
      SameGroups(Order(b), a, b);
    }
  }

  // ---------------------------------------------------------------- the attention's keys

  const LETTER_A: Unit := 97

  predicate OfAttention(key: Text) {
    key != [] && key[0] == LETTER_A
  }

  lemma GroupRecordKeys(key: Text, group: seq<Item>)
    ensures forall i | 0 <= i < |group| :: GroupRecords(key, group)[i].key == Numbered(key, i)
    ensures OfAttention(key) ==> forall r | r in GroupRecords(key, group) :: OfAttention(r.key)
  {}

  lemma {:induction false} AttentionKeys(order: seq<Text>, items: seq<Item>, r: Record)
    requires forall key | key in order :: OfAttention(key)
    requires r in AttentionRecords(order, items)
    ensures OfAttention(r.key)
  {
    if order != [] {
      assert order[0] in order;
      GroupRecordKeys(order[0], Group(items, order[0]));
      if r !in GroupRecords(order[0], Group(items, order[0])) {
        AttentionKeys(order[1..], items, r);
      }
    }
  }

  lemma {:induction false} OrderKeys(items: seq<Item>)
    ensures forall key | key in Order(items) :: OfAttention(key)
  {
    if items != [] { OrderKeys(items[..|items| - 1]); }
  }

  // ---------------------------------------------------------------- when numbered keys collide

  predicate Digits(t: Text) {
    t != [] && forall i | 0 <= i < |t| :: 48 <= t[i] < 58
  }

  lemma {:induction false} DecimalDigits(n: nat)
    ensures Digits(Decimal(n))
  {
    if n >= 10 { DecimalDigits(n / 10); }
  }

  lemma {:induction false} DecimalUnique(m: nat, n: nat)
    requires Decimal(m) == Decimal(n)
    ensures m == n
    decreases m
  {
    var t, u := Decimal(m), Decimal(n);
    assert t[|t| - 1] == u[|u| - 1];
    DecimalDigits(m / 10);
    DecimalDigits(n / 10);
    if m >= 10 || n >= 10 {
      assert |t| == |u|;
      assert t[..|t| - 1] == u[..|u| - 1];
      DecimalUnique(m / 10, n / 10);
    }
  }

  lemma LastSign(k: Text, l: Text, t: Text, u: Text)
    requires Digits(t) && k + [NUMBER_SIGN] + t == l + [NUMBER_SIGN] + u
    ensures |l| <= |k|
  {
    var all := k + [NUMBER_SIGN] + t;
    assert forall i | |k| < i < |all| :: all[i] == t[i - |k| - 1];
    assert all[|l|] == NUMBER_SIGN;
  }

  /** The number is what follows the last number sign. */
  lemma NumberUniqueAt(k: Text, l: Text, t: Text, u: Text)
    requires Digits(t) && Digits(u) && k + [NUMBER_SIGN] + t == l + [NUMBER_SIGN] + u
    ensures k == l && t == u
  {
    LastSign(k, l, t, u);
    LastSign(l, k, u, t);
    var all := k + [NUMBER_SIGN] + t;
    assert all[..|k|] == k && all[..|l|] == l;
    assert all[|k| + 1..] == t && all[|l| + 1..] == u;
  }

  lemma NumberedUnique(k: Text, i: nat, l: Text, j: nat)
    requires Numbered(k, i) == Numbered(l, j) && (i == 0) == (j == 0)
    ensures k == l && i == j
  {
    if i > 0 {
      DecimalDigits(i + 1);
      DecimalDigits(j + 1);
      NumberUniqueAt(k, l, Decimal(i + 1), Decimal(j + 1));
      DecimalUnique(i + 1, j + 1);
    }
  }

  function Flat<T>(groups: seq<seq<T>>): seq<T> {
    if groups == [] then [] else groups[0] + Flat(groups[1..])
  }

  /** Where the `n`-th group starts. */
  function Start<T>(groups: seq<seq<T>>, n: nat): nat
    requires n <= |groups|
  {
    if n == 0 then 0 else |groups[0]| + Start(groups[1..], n - 1)
  }

  lemma {:induction false} FlatAt<T>(groups: seq<seq<T>>, n: nat, i: nat)
    requires n < |groups| && i < |groups[n]|
    ensures Start(groups, n) + i < |Flat(groups)| && Flat(groups)[Start(groups, n) + i] == groups[n][i]
    decreases n
  {
    if n > 0 { FlatAt(groups[1..], n - 1, i); }
  }

  lemma {:induction false} FlatOf<T>(groups: seq<seq<T>>, p: nat) returns (n: nat, i: nat)
    requires p < |Flat(groups)|
    ensures n < |groups| && i < |groups[n]| && p == Start(groups, n) + i && Flat(groups)[p] == groups[n][i]
    decreases |groups|
  {
    if p < |groups[0]| {
      n, i := 0, p;
    } else {
      n, i := FlatOf(groups[1..], p - |groups[0]|);
      n := n + 1;
    }
  }

  lemma {:induction false} StartsApart<T>(groups: seq<seq<T>>, n: nat, m: nat)
    requires n < m <= |groups|
    ensures Start(groups, n) + |groups[n]| <= Start(groups, m)
    decreases n
  {
    if n > 0 { StartsApart(groups[1..], n - 1, m - 1); }
  }

  function RecordGroups(order: seq<Text>, items: seq<Item>): (groups: seq<seq<Record>>)
    ensures |groups| == |order|
    ensures forall n | 0 <= n < |order| :: groups[n] == GroupRecords(order[n], Group(items, order[n]))
  {
    seq(|order|, n requires 0 <= n < |order| => GroupRecords(order[n], Group(items, order[n])))
  }

  lemma {:induction false} AttentionFlat(order: seq<Text>, items: seq<Item>)
    ensures AttentionRecords(order, items) == Flat(RecordGroups(order, items))
  {
    if order != [] {
      AttentionFlat(order[1..], items);
      assert RecordGroups(order, items)[1..] == RecordGroups(order[1..], items);
    }
  }

  lemma NumberedAt(order: seq<Text>, items: seq<Item>, n: nat, i: nat)
    requires n < |order| && i < |Group(items, order[n])|
    ensures |RecordGroups(order, items)[n]| == |Group(items, order[n])|
    ensures RecordGroups(order, items)[n][i].key == Numbered(order[n], i)
  {
    GroupRecordKeys(order[n], Group(items, order[n]));
  }

  /** A group's key is also the numbered key of another group's item: that group's code ends in a number
      sign and a number. */
  predicate Collide(order: seq<Text>, items: seq<Item>, n: nat, i: nat)
    requires n < |order| && i < |Group(items, order[n])|
  {
    i > 0 && Numbered(order[n], i) in order
  }

  lemma CollisionRepeats(items: seq<Item>, n: nat, i: nat)
    requires n < |Order(items)| && i < |Group(items, Order(items)[n])| && Collide(Order(items), items, n, i)
    ensures !Distinct(AttentionRecords(Order(items), items))
  {
    var order := Order(items);
    var groups := RecordGroups(order, items);
    OrderHolds(items);
    var m :| 0 <= m < |order| && order[m] == Numbered(order[n], i);
    assert order[m] in order;
    NumberedAt(order, items, n, i);
    NumberedAt(order, items, m, 0);
    AttentionFlat(order, items);
    SameTwice(groups, n, i, m, 0);
  }

  lemma SameTwice<T>(groups: seq<seq<Pair<T>>>, n: nat, i: nat, m: nat, j: nat)
    requires n < |groups| && i < |groups[n]| && m < |groups| && j < |groups[m]| && (n != m || i != j)
    requires groups[n][i].key == groups[m][j].key
    ensures !Distinct(Flat(groups))
  {
    FlatAt(groups, n, i);
    FlatAt(groups, m, j);
    if n < m { StartsApart(groups, n, m); } else if m < n { StartsApart(groups, m, n); }
  }

  lemma RepeatCollides(items: seq<Item>, n: nat, i: nat, m: nat, j: nat)
    requires n < |Order(items)| && i < |Group(items, Order(items)[n])|
    requires m < |Order(items)| && j < |Group(items, Order(items)[m])|
    requires (n != m || i != j) && Numbered(Order(items)[n], i) == Numbered(Order(items)[m], j)
    ensures Collide(Order(items), items, n, i) || Collide(Order(items), items, m, j)
  {
    var order := Order(items);
    OrderHolds(items);
    if (i == 0) == (j == 0) {
      NumberedUnique(order[n], i, order[m], j);
    } else {
      assert order[n] in order && order[m] in order;
    }
  }

  ghost predicate NoneCollide(order: seq<Text>, items: seq<Item>) {
    forall n, i | 0 <= n < |order| && 0 <= i < |Group(items, order[n])| :: !Collide(order, items, n, i)
  }

  lemma TwoRecords(items: seq<Item>, p: nat, q: nat)
    requires NoneCollide(Order(items), items) && p < q < |Flat(RecordGroups(Order(items), items))|
    ensures Flat(RecordGroups(Order(items), items))[p].key != Flat(RecordGroups(Order(items), items))[q].key
  {
    var order := Order(items);
    var n, i := FlatOf(RecordGroups(order, items), p);
    var m, j := FlatOf(RecordGroups(order, items), q);
    NumberedAt(order, items, n, i);
    NumberedAt(order, items, m, j);
    if Numbered(order[n], i) == Numbered(order[m], j) {
      RepeatCollides(items, n, i, m, j);
      assert false;
    }
  }

  /** The attention's keys are distinct exactly when no group's key is another's numbered key; otherwise a
      check reports a repeated key, even of a replay against itself. */
  lemma KeysDistinctExactly(items: seq<Item>)
    ensures Distinct(AttentionRecords(Order(items), items)) <==> NoneCollide(Order(items), items)
  {
    var order := Order(items);
    var records := Flat(RecordGroups(order, items));
    AttentionFlat(order, items);
    if NoneCollide(order, items) {
      forall p, q | 0 <= p < q < |records| ensures records[p].key != records[q].key { TwoRecords(items, p, q); }
    } else {
      var n, i :| 0 <= n < |order| && 0 <= i < |Group(items, order[n])| && Collide(order, items, n, i);
      CollisionRepeats(items, n, i);
    }
  }

  /** An item twice, and one whose code ends in the number of the second. */
  function Colliding(): (items: seq<Item>)
    ensures forall x | x in items :: x.rest == []
  {
    var s, c: Text := [115], [99];
    [Item(s, c, []), Item(s, c, []), Item(s, c + [NUMBER_SIGN] + Decimal(2), [])]
  }

  lemma CollidingGroups()
    ensures GroupKey(Colliding()[2]) == Numbered(GroupKey(Colliding()[0]), 1)
    ensures GroupKey(Colliding()[2]) in Order(Colliding()) && GroupKey(Colliding()[0]) in Order(Colliding())
    ensures |Group(Colliding(), GroupKey(Colliding()[0]))| == 2
  {
    var items := Colliding();
    OrderHolds(items);
    assert items[0] in items && items[2] in items;
    TwiceInGroup(items[0], items[2]);
    assert items == [items[0], items[0], items[2]];
  }

  /** An item whose code ends in the number of another item collides with it. */
  lemma CodeWithNumberCollides()
    ensures !NoneCollide(Order(Colliding()), Colliding())
    ensures !Distinct(AttentionRecords(Order(Colliding()), Colliding()))
  {
    var items := Colliding();
    CollidingGroups();
    var n :| 0 <= n < |Order(items)| && Order(items)[n] == GroupKey(items[0]);
    assert Collide(Order(items), items, n, 1);
    KeysDistinctExactly(items);
  }

  lemma TwiceInGroup(x: Item, y: Item)
    requires GroupKey(x) != GroupKey(y)
    ensures |Group([x, x, y], GroupKey(x))| == 2
  {
    var key := GroupKey(x);
    assert [x][..0] == [] && Group([], key) == [] && Group([x], key) == [x];
    assert [x, x][..1] == [x] && Group([x, x], key) == [x, x];
    assert [x, x, y][..2] == [x, x] && Group([x, x, y], key) == [x, x];
  }
}
