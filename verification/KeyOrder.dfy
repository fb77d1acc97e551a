/** Strings as JavaScript has them, sequences of UTF-16 code units, and lists of values under keys put
in the order of their keys (`Object.keys(..).sort()` and the comparison of strings by `<`). */
module KeyOrder {
  type Unit = x: int | 0 <= x < 0x1_0000
  type Text = seq<Unit>

  datatype Pair<+T> = Pair(key: Text, value: T)

  /** `a` is `b` or comes before it, unit by unit. */
  predicate UpTo(a: Text, b: Text) {
    a == [] || (b != [] && (a[0] < b[0] || (a[0] == b[0] && UpTo(a[1..], b[1..]))))
  }

  lemma {:induction false} UpToTotal(a: Text, b: Text)
    ensures UpTo(a, b) || UpTo(b, a)
  {
    if a != [] && b != [] { UpToTotal(a[1..], b[1..]); }
  }

  lemma {:induction false} UpToBoth(a: Text, b: Text)
    requires UpTo(a, b) && UpTo(b, a)
    ensures a == b
  {
    if a != [] {
      UpToBoth(a[1..], b[1..]);
      assert a == [a[0]] + a[1..] && b == [b[0]] + b[1..];
    }
  }

  lemma {:induction false} UpToChain(a: Text, b: Text, c: Text)
    requires UpTo(a, b) && UpTo(b, c)
    ensures UpTo(a, c)
  {
    if a != [] && a[0] == b[0] == c[0] { UpToChain(a[1..], b[1..], c[1..]); }
  }

  // ---------------------------------------------------------------- the order by code points

  predicate High(u: Unit) { 0xD800 <= u < 0xDC00 }

  predicate Low(u: Unit) { 0xDC00 <= u < 0xE000 }

  /** Well-formed UTF-16: a high surrogate always comes before a low one (section 3.9 of the Unicode Standard). */
  predicate Paired(a: Text)
    decreases |a|
  {
    a == [] ||
    (if High(a[0]) then |a| >= 2 && Low(a[1]) && Paired(a[2..]) else !Low(a[0]) && Paired(a[1..]))
  }

  /** The code point of a pair of surrogates. */
  function PointOf(high: int, low: int): nat
    requires 0xD800 <= high < 0xDC00 && 0xDC00 <= low < 0xE000
  {
    0x1_0000 + (high - 0xD800) * 0x400 + (low - 0xDC00)
  }

  /** The code points of a text. */
  function Points(a: Text): seq<nat>
    requires Paired(a)
    decreases |a|
  {
    if a == [] then []
    else if High(a[0]) then [PointOf(a[0], a[1])] + Points(a[2..])
    else [a[0]] + Points(a[1..])
  }

  predicate PointsUpTo(p: seq<nat>, q: seq<nat>) {
    p == [] || (q != [] && (p[0] < q[0] || (p[0] == q[0] && PointsUpTo(p[1..], q[1..]))))
  }

  /** Where two texts first differ, one has a surrogate and the other a unit above all surrogates. */
  predicate Crossed(a: Text, b: Text) {
    a != [] && b != [] &&
    if a[0] == b[0] then Crossed(a[1..], b[1..])
    else ((High(a[0]) || Low(a[0])) && b[0] >= 0xE000) || (a[0] >= 0xE000 && (High(b[0]) || Low(b[0])))
  }

  lemma PointsHead(a: Text)
    requires Paired(a) && a != []
    ensures var n := if High(a[0]) then 2 else 1;
      n <= |a| && Paired(a[n..]) && Points(a) != [] && Points(a)[1..] == Points(a[n..])
    ensures Points(a)[0] == if High(a[0]) then PointOf(a[0], a[1]) else a[0]
  {}

  lemma PointsDiffer(p: seq<nat>, q: seq<nat>)
    requires p != [] && q != [] && p[0] != q[0]
    ensures PointsUpTo(p, q) <==> p[0] < q[0]
  {}

  /** Two texts that begin with the same first unit of two, but not with the same second one. */
  lemma SecondDiffers(a: Text, b: Text)
    requires Paired(a) && Paired(b) && a != [] && b != [] && High(a[0]) && a[0] == b[0] && a[1] != b[1]
    ensures UpTo(a, b) <==> a[1] < b[1]
    ensures PointsUpTo(Points(a), Points(b)) <==> a[1] < b[1]
    ensures !Crossed(a, b)
  {
    PointsHead(a);
    PointsHead(b);
    PointsDiffer(Points(a), Points(b));
    assert a[1..][0] == a[1] && b[1..][0] == b[1];
  }

  /** The orders by code units and by code points agree on two texts exactly when they are not crossed. */
  lemma {:induction false} OrdersAgreeExactly(a: Text, b: Text)
    requires Paired(a) && Paired(b)
    ensures (UpTo(a, b) <==> PointsUpTo(Points(a), Points(b))) <==> !Crossed(a, b)
    decreases |a|
  {
    if a != [] && b != [] {
      PointsHead(a);
      PointsHead(b);
      if a[0] != b[0] {
        PointsDiffer(Points(a), Points(b));
      } else if !High(a[0]) {
        OrdersAgreeExactly(a[1..], b[1..]);
      } else if a[1] != b[1] {
        SecondDiffers(a, b);
      } else {
        assert a[1..][1..] == a[2..] && b[1..][1..] == b[2..];
        OrdersAgreeExactly(a[2..], b[2..]);
      }
    }
  }

  /** Two keys that the code puts in the other order: U+10000 before U+E000. */
  lemma OrdersDiffer() returns (a: Text, b: Text)
    ensures Paired(a) && Paired(b) && Points(a) == [0x1_0000] && Points(b) == [0xE000]
    ensures UpTo(a, b) && !PointsUpTo(Points(a), Points(b))
  {
    a, b := [0xD800, 0xDC00], [0xE000];
    assert a[2..] == [] && b[1..] == [];
  }

  predicate SortedByPoints(keys: seq<Text>)
    requires forall k | 0 <= k < |keys| :: Paired(keys[k])
  {
    forall i, j | 0 <= i < j < |keys| :: PointsUpTo(Points(keys[i]), Points(keys[j]))
  }

  /** Keys in the order of their code units are in the order of their code points exactly when no two are
      crossed. */
  lemma SortedByPointsExactly(keys: seq<Text>)
    requires Sorted(keys) && forall k | 0 <= k < |keys| :: Paired(keys[k])
    ensures SortedByPoints(keys) <==> forall i, j | 0 <= i < j < |keys| :: !Crossed(keys[i], keys[j])
  {
    forall i, j | 0 <= i < j < |keys|
      ensures PointsUpTo(Points(keys[i]), Points(keys[j])) <==> !Crossed(keys[i], keys[j])
    {
      OrdersAgreeExactly(keys[i], keys[j]);
    }
  }

  // ---------------------------------------------------------------- pairs in the order of their keys

  predicate Sorted(keys: seq<Text>) {
    forall i, j | 0 <= i < j < |keys| :: UpTo(keys[i], keys[j])
  }

  function Keys<T>(ps: seq<Pair<T>>): (keys: seq<Text>)
    ensures |keys| == |ps|
  {
    seq(|ps|, i requires 0 <= i < |ps| => ps[i].key)
  }

  function Values<T>(ps: seq<Pair<T>>): (values: seq<T>)
    ensures |values| == |ps|
  {
    seq(|ps|, i requires 0 <= i < |ps| => ps[i].value)
  }

  /** No key twice. */
  predicate Distinct<T>(ps: seq<Pair<T>>) {
    forall i, j | 0 <= i < j < |ps| :: ps[i].key != ps[j].key
  }

  function Insert<T>(p: Pair<T>, ps: seq<Pair<T>>): (r: seq<Pair<T>>)
    ensures |r| == |ps| + 1
  {
    if ps == [] || UpTo(p.key, ps[0].key) then [p] + ps else [ps[0]] + Insert(p, ps[1..])
  }

  /** In the order of the keys; what has the same key stays in its order. */
  function InOrder<T>(ps: seq<Pair<T>>): (r: seq<Pair<T>>)
    ensures |r| == |ps|
  {
    if ps == [] then [] else Insert(ps[0], InOrder(ps[1..]))
  }

  function Except<T>(s: seq<T>, k: nat): (r: seq<T>)
    requires k < |s|
    ensures |r| == |s| - 1
  {
    s[..k] + s[k + 1..]
  }

  lemma ExceptCounts<T>(s: seq<T>, k: nat)
    requires k < |s|
    ensures multiset(s) == multiset(Except(s, k)) + multiset{s[k]}
  {
    assert s == s[..k] + [s[k]] + s[k + 1..];
  }

  /** The same element taken away from the same contents. */
  lemma Cancel<T>(s: seq<T>, t: seq<T>, j: nat, k: nat)
    requires multiset(s) == multiset(t) && j < |s| && k < |t| && s[j] == t[k]
    ensures multiset(Except(s, j)) == multiset(Except(t, k))
  {
    ExceptCounts(s, j);
    ExceptCounts(t, k);
    assert multiset(Except(s, j)) == multiset(s) - multiset{s[j]};
    assert multiset(Except(t, k)) == multiset(t) - multiset{s[j]};
  }

  /** Back to the whole from what is left. */
  lemma Restore<T>(s: seq<T>, t: seq<T>, j: nat, k: nat)
    requires j < |s| && k < |t| && s[j] == t[k] && multiset(Except(s, j)) == multiset(Except(t, k))
    ensures multiset(s) == multiset(t)
  {
    ExceptCounts(s, j);
    ExceptCounts(t, k);
  }

  lemma SameSize<T>(s: seq<T>, t: seq<T>)
    requires multiset(s) == multiset(t)
    ensures |s| == |t|
  {
    assert |multiset(s)| == |s| && |multiset(t)| == |t|;
  }

  lemma KeysExcept<T>(ps: seq<Pair<T>>, k: nat)
    requires k < |ps|
    ensures Keys(Except(ps, k)) == Except(Keys(ps), k) && Values(Except(ps, k)) == Except(Values(ps), k)
  {}

  lemma {:induction false} InsertKeeps<T>(p: Pair<T>, ps: seq<Pair<T>>)
    ensures multiset(Insert(p, ps)) == multiset(ps) + multiset{p}
  {
    if ps != [] && !UpTo(p.key, ps[0].key) {
      InsertKeeps(p, ps[1..]);
      assert ps == [ps[0]] + ps[1..];
    }
  }

  lemma {:induction false} InOrderKeeps<T>(ps: seq<Pair<T>>)
    ensures multiset(InOrder(ps)) == multiset(ps)
  {
    if ps != [] {
      InOrderKeeps(ps[1..]);
      InsertKeeps(ps[0], InOrder(ps[1..]));
      assert ps == [ps[0]] + ps[1..];
    }
  }

  lemma InMultiset<T>(ps: seq<T>, qs: seq<T>, i: nat)
    requires multiset(ps) == multiset(qs) && i < |ps|
    ensures ps[i] in qs
  {
    assert ps[i] in multiset(ps);
  }

  lemma SortedCons<T>(p: Pair<T>, ps: seq<Pair<T>>)
    requires Sorted(Keys(ps)) && forall q | q in ps :: UpTo(p.key, q.key)
    ensures Sorted(Keys([p] + ps))
  {
    assert Keys([p] + ps) == [p.key] + Keys(ps);
    assert forall j | 0 <= j < |ps| :: ps[j] in ps;
  }

  lemma SortedTail<T>(ps: seq<Pair<T>>)
    requires Sorted(Keys(ps)) && ps != []
    ensures Sorted(Keys(ps[1..])) && forall q | q in ps :: UpTo(ps[0].key, q.key)
  {
    assert Keys(ps)[1..] == Keys(ps[1..]);
    forall q | q in ps ensures UpTo(ps[0].key, q.key) {
      var k :| 0 <= k < |ps| && ps[k] == q;
      if k == 0 { UpToTotal(q.key, q.key); } else { assert UpTo(Keys(ps)[0], Keys(ps)[k]); }
    }
  }

  lemma {:induction false} InsertSorts<T>(p: Pair<T>, ps: seq<Pair<T>>)
    requires Sorted(Keys(ps))
    ensures Sorted(Keys(Insert(p, ps)))
  {
    if ps == [] {
    } else {
      SortedTail(ps);
      if UpTo(p.key, ps[0].key) {
        forall q | q in ps ensures UpTo(p.key, q.key) { UpToChain(p.key, ps[0].key, q.key); }
        SortedCons(p, ps);
      } else {
        UpToTotal(p.key, ps[0].key);
        InsertSorts(p, ps[1..]);
        InsertKeeps(p, ps[1..]);
        forall q | q in Insert(p, ps[1..]) ensures UpTo(ps[0].key, q.key) {
          assert q in multiset(Insert(p, ps[1..]));
        }
        SortedCons(ps[0], Insert(p, ps[1..]));
      }
    }
  }

  lemma {:induction false} InOrderSorts<T>(ps: seq<Pair<T>>)
    ensures Sorted(Keys(InOrder(ps)))
  {
    if ps != [] {
      InOrderSorts(ps[1..]);
      InsertSorts(ps[0], InOrder(ps[1..]));
    }
  }

  /** A sorted list is known from what is in it. */
  lemma {:induction false} SortedUnique(ks: seq<Text>, ls: seq<Text>)
    requires Sorted(ks) && Sorted(ls) && multiset(ks) == multiset(ls)
    ensures ks == ls
  {
    SameSize(ks, ls);
    if ks != [] {
      FirstIsLeast(ks, ls);
      FirstIsLeast(ls, ks);
      UpToBoth(ks[0], ls[0]);
      Cancel(ks, ls, 0, 0);
      assert Except(ks, 0) == ks[1..] && Except(ls, 0) == ls[1..];
      SortedUnique(ks[1..], ls[1..]);
    }
  }

  lemma FirstIsLeast(ks: seq<Text>, ls: seq<Text>)
    requires Sorted(ks) && ks != [] && ls != [] && multiset(ks) == multiset(ls)
    ensures UpTo(ks[0], ls[0])
  {
    InMultiset(ls, ks, 0);
    var k :| 0 <= k < |ks| && ks[k] == ls[0];
    if k == 0 { UpToTotal(ks[0], ks[0]); }
  }

  // ---------------------------------------------------------------- lists with the same contents

  lemma {:induction false} KeysAlike<T>(ps: seq<Pair<T>>, qs: seq<Pair<T>>)
    requires multiset(ps) == multiset(qs)
    ensures multiset(Keys(ps)) == multiset(Keys(qs)) && multiset(Values(ps)) == multiset(Values(qs))
    decreases |ps|
  {
    SameSize(ps, qs);
    if ps == [] {
      assert qs == [];
    } else {
      InMultiset(ps, qs, 0);
      var k :| 0 <= k < |qs| && qs[k] == ps[0];
      Cancel(ps, qs, 0, k);
      KeysAlike(Except(ps, 0), Except(qs, k));
      KeysExcept(ps, 0);
      KeysExcept(qs, k);
      Restore(Keys(ps), Keys(qs), 0, k);
      Restore(Values(ps), Values(qs), 0, k);
    }
  }

  /** With distinct keys, two lists have the same contents exactly when they have the same keys and
      the same value under each. */
  lemma {:induction false} AlikeExactlyWhen<T>(ps: seq<Pair<T>>, qs: seq<Pair<T>>)
    requires Distinct(ps) && Distinct(qs)
    ensures multiset(ps) == multiset(qs) <==>
      multiset(Keys(ps)) == multiset(Keys(qs)) &&
      forall i, j | 0 <= i < |ps| && 0 <= j < |qs| && ps[i].key == qs[j].key :: ps[i].value == qs[j].value
  {
    if multiset(ps) == multiset(qs) {
      KeysAlike(ps, qs);
      forall i, j | 0 <= i < |ps| && 0 <= j < |qs| && ps[i].key == qs[j].key ensures ps[i].value == qs[j].value {
        InMultiset(ps, qs, i);
        var k :| 0 <= k < |qs| && qs[k] == ps[i];
        assert k == j;
      }
    }
    if multiset(Keys(ps)) == multiset(Keys(qs)) &&
       forall i, j | 0 <= i < |ps| && 0 <= j < |qs| && ps[i].key == qs[j].key :: ps[i].value == qs[j].value {
      MatchedAlike(ps, qs);
    }
  }

  lemma {:induction false} MatchedAlike<T>(ps: seq<Pair<T>>, qs: seq<Pair<T>>)
    requires multiset(Keys(ps)) == multiset(Keys(qs))
    requires forall i, j | 0 <= i < |ps| && 0 <= j < |qs| && ps[i].key == qs[j].key :: ps[i].value == qs[j].value
    ensures multiset(ps) == multiset(qs)
    decreases |ps|
  {
    SameSize(Keys(ps), Keys(qs));
    if ps == [] {
      assert qs == [];
    } else {
      InMultiset(Keys(ps), Keys(qs), 0);
      var k :| 0 <= k < |qs| && Keys(qs)[k] == Keys(ps)[0];
      assert ps[0] == qs[k];
      Cancel(Keys(ps), Keys(qs), 0, k);
      KeysExcept(ps, 0);
      KeysExcept(qs, k);
      MatchedAlike(Except(ps, 0), Except(qs, k));
      Restore(ps, qs, 0, k);
    }
  }

  lemma SameKeySame<T>(ps: seq<Pair<T>>, p: Pair<T>, q: Pair<T>)
    requires Distinct(ps) && p in ps && q in ps && p.key == q.key
    ensures p == q
  {}

  /** With distinct keys, the order depends on nothing but the contents. */
  lemma InOrderUnique<T>(ps: seq<Pair<T>>, qs: seq<Pair<T>>)
    requires Distinct(ps) && multiset(ps) == multiset(qs)
    ensures InOrder(ps) == InOrder(qs)
  {
    var op, oq := InOrder(ps), InOrder(qs);
    InOrderKeeps(ps);
    InOrderKeeps(qs);
    InOrderSorts(ps);
    InOrderSorts(qs);
    KeysAlike(op, oq);
    SortedUnique(Keys(op), Keys(oq));
    SameSize(op, oq);
    forall i | 0 <= i < |op| ensures op[i] == oq[i] {
      InMultiset(op, ps, i);
      InMultiset(oq, ps, i);
      assert Keys(op)[i] == Keys(oq)[i];
      SameKeySame(ps, op[i], oq[i]);
    }
  }
}
