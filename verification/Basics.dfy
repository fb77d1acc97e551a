/** Values that may not be there, bytes, white space, chosen elements, and the size of a subset. */
module Basics {
  datatype Option<+T> = None | Some(value: T)

  type byte = b: int | 0 <= b < 256

  /** White space as JavaScript's `trim` knows it. */
  predicate White(point: int) {
    9 <= point <= 13 || point == 32 || point == 0xA0 || point == 0x1680 || 0x2000 <= point <= 0x200A ||
    point == 0x2028 || point == 0x2029 || point == 0x202F || point == 0x205F || point == 0x3000 || point == 0xFEFF
  }

  /** The places, in order, of the elements that `p` chooses. */
  ghost predicate Chosen<T(!new)>(places: seq<nat>, xs: seq<T>, p: T -> bool) {
    && (forall i, j | 0 <= i < j < |places| :: places[i] < places[j])
    && (forall k | k in places :: k < |xs| && p(xs[k]))
    && (forall k: nat | k < |xs| && p(xs[k]) :: k in places)
  }

  lemma ChosenSnoc<T(!new)>(places: seq<nat>, xs: seq<T>, x: T, p: T -> bool)
    requires Chosen(places, xs, p)
    ensures Chosen(if p(x) then places + [|xs|] else places, xs + [x], p)
  {
    var more := if p(x) then places + [|xs|] else places;
    forall k: nat | k < |xs + [x]| && p((xs + [x])[k]) ensures k in more {
      if k < |xs| { assert k in places; } else { assert more[|places|] == k; }
    }
    forall i | 0 <= i < |places| ensures places[i] in places && places[i] < |xs| {}
  }

  function OneOn(places: seq<nat>): (r: seq<nat>)
    ensures |r| == |places|
  {
    seq(|places|, k requires 0 <= k < |places| => places[k] + 1)
  }

  lemma ConsAscends(places: seq<nat>, first: seq<nat>)
    requires (forall i, j | 0 <= i < j < |places| :: places[i] < places[j]) && (first == [] || first == [0])
    ensures var more := first + OneOn(places); forall i, j | 0 <= i < j < |more| :: more[i] < more[j]
  {}

  lemma ConsIn(places: seq<nat>, first: seq<nat>, k: nat)
    requires first == [] || first == [0]
    ensures k in first + OneOn(places) <==> (k == 0 && first == [0]) || (k > 0 && k - 1 in places)
  {
    var more := first + OneOn(places);
    if k in more {
      var i :| 0 <= i < |more| && more[i] == k;
      if i >= |first| { assert places[i - |first|] in places; }
    }
    if k > 0 && k - 1 in places {
      var i :| 0 <= i < |places| && places[i] == k - 1;
      assert more[|first| + i] == k;
    }
  }

  lemma ChosenCons<T(!new)>(places: seq<nat>, xs: seq<T>, x: T, p: T -> bool)
    requires Chosen(places, xs, p)
    ensures Chosen((if p(x) then [0] else []) + OneOn(places), [x] + xs, p)
  {
    var first: seq<nat> := if p(x) then [0] else [];
    ConsAscends(places, first);
    forall k: nat ensures k in first + OneOn(places) <==> k < |[x] + xs| && p(([x] + xs)[k]) {
      ConsIn(places, first, k);
      if 0 < k < |[x] + xs| { assert ([x] + xs)[k] == xs[k - 1]; }
    }
  }

  lemma SubsetSize<T>(a: set<T>, b: set<T>)
    requires a <= b
    ensures |a| <= |b|
  {
    assert b == a + (b - a);
  }
}
