/**
 * Generic sequence operations that the store and the views are built from:
 * JavaScript's `Array.prototype.filter`, `Array.prototype.find`, the
 * filter-by-index that removes one element, and duplicate-freedom.
 */
module Collections {

  datatype Option<T> = None | Some(value: T)

  /** `s.filter(p)`: the elements of `s` that satisfy `p`, in their original order. */
  function Filter<T>(s: seq<T>, p: T -> bool): (r: seq<T>)
    ensures |r| <= |s|
    ensures forall k :: 0 <= k < |r| ==> r[k] in s && p(r[k])
    ensures forall i :: 0 <= i < |s| && p(s[i]) ==> s[i] in r
  {
    if s == [] then []
    else if p(s[0]) then [s[0]] + Filter(s[1..], p)
    else Filter(s[1..], p)
  }

  /** Index sequences that are strictly increasing, i.e. pick positions in order. */
  ghost predicate Increasing(idx: seq<nat>) {
    forall j, k :: 0 <= j < k < |idx| ==> idx[j] < idx[k]
  }

  /** Element `k` of `r` is element `idx[k]` of `s`. */
  ghost predicate IndexedBy<T>(idx: seq<nat>, r: seq<T>, s: seq<T>) {
    |idx| == |r| && forall k :: 0 <= k < |idx| ==> idx[k] < |s| && r[k] == s[idx[k]]
  }

  /** From position `lo` on, `idx` lists exactly the positions of `s` whose element satisfies `p`. */
  ghost predicate PicksMatchesFrom<T>(idx: seq<nat>, s: seq<T>, p: T -> bool, lo: nat) {
    forall i {:trigger i in idx} :: lo <= i < |s| ==> (p(s[i]) <==> i in idx)
  }

  /**
   * `r` is obtained from `s` by keeping, in order, exactly the positions whose
   * element satisfies `p`; `idx` lists those positions.
   */
  ghost predicate SelectsBy<T>(idx: seq<nat>, r: seq<T>, s: seq<T>, p: T -> bool) {
    IndexedBy(idx, r, s) && Increasing(idx) && PicksMatchesFrom(idx, s, p, 0)
  }

  ghost predicate OrderedSelection<T>(r: seq<T>, s: seq<T>, p: T -> bool) {
    exists idx :: SelectsBy(idx, r, s, p)
  }

  /** Every position moved one to the right. */
  function Shift(idx: seq<nat>): (r: seq<nat>)
    ensures |r| == |idx|
    ensures forall k :: 0 <= k < |r| ==> r[k] == idx[k] + 1
  {
    seq(|idx|, k requires 0 <= k < |idx| => idx[k] + 1)
  }

  /** Every position moved one to the left (all positions are at least 1). */
  function Unshift(idx: seq<nat>): (r: seq<nat>)
    requires forall k :: 0 <= k < |idx| ==> idx[k] >= 1
    ensures |r| == |idx|
    ensures forall k :: 0 <= k < |r| ==> r[k] == idx[k] - 1
  {
    seq(|idx|, k requires 0 <= k < |idx| => idx[k] - 1)
  }

  lemma ShiftMembers(idx: seq<nat>, i: nat)
    ensures i in Shift(idx) <==> i >= 1 && i - 1 in idx
  {
    var sh := Shift(idx);
    if i in sh {
      var k :| 0 <= k < |sh| && sh[k] == i;
      assert idx[k] == i - 1;
    }
    if i >= 1 && i - 1 in idx {
      var k :| 0 <= k < |idx| && idx[k] == i - 1;
      assert sh[k] == i;
    }
  }

  lemma UnshiftMembers(idx: seq<nat>, i: nat)
    requires forall k :: 0 <= k < |idx| ==> idx[k] >= 1
    ensures i in Unshift(idx) <==> i + 1 in idx
  {
    var un := Unshift(idx);
    if i in un {
      var k :| 0 <= k < |un| && un[k] == i;
      assert idx[k] == i + 1;
    }
    if i + 1 in idx {
      var k :| 0 <= k < |idx| && idx[k] == i + 1;
      assert un[k] == i;
    }
  }

  lemma ShiftIncreasing(idx: seq<nat>)
    requires Increasing(idx)
    ensures Increasing(Shift(idx)) && Increasing([0] + Shift(idx))
  {
    var full := [0] + Shift(idx);
    forall j, k | 0 <= j < k < |full|
      ensures full[j] < full[k]
    {
      assert full[k] == idx[k - 1] + 1;
      if j > 0 {
        assert full[j] == idx[j - 1] + 1;
      }
    }
  }

  lemma ShiftIndexed<T>(idx: seq<nat>, r: seq<T>, s: seq<T>)
    requires s != [] && IndexedBy(idx, r, s[1..])
    ensures IndexedBy(Shift(idx), r, s)
    ensures IndexedBy([0] + Shift(idx), [s[0]] + r, s)
  {
    var sh := Shift(idx);
    assert forall k :: 0 <= k < |sh| ==> s[sh[k]] == s[1..][idx[k]];
    var full, r' := [0] + sh, [s[0]] + r;
    forall k | 0 < k < |full|
      ensures full[k] < |s| && r'[k] == s[full[k]]
    {
      assert full[k] == sh[k - 1] && r'[k] == r[k - 1];
    }
  }

  lemma ShiftPicks<T>(idx: seq<nat>, s: seq<T>, p: T -> bool)
    requires s != [] && PicksMatchesFrom(idx, s[1..], p, 0)
    ensures !p(s[0]) ==> PicksMatchesFrom(Shift(idx), s, p, 0)
    ensures p(s[0]) ==> PicksMatchesFrom([0] + Shift(idx), s, p, 0)
  {
    var sh := Shift(idx);
    forall i | 0 <= i < |s|
      ensures p(s[i]) <==> i in sh || (p(s[0]) && i == 0)
    {
      ShiftMembers(idx, i);
      if i > 0 {
        assert s[i] == s[1..][i - 1];
        assert p(s[1..][i - 1]) <==> i - 1 in idx;
      }
    }
  }

  lemma UnshiftIndexed<T>(idx: seq<nat>, r: seq<T>, s: seq<T>)
    requires s != [] && IndexedBy(idx, r, s)
    requires forall k :: 0 <= k < |idx| ==> idx[k] >= 1
    ensures IndexedBy(Unshift(idx), r, s[1..])
  {
    var un := Unshift(idx);
    assert forall k :: 0 <= k < |un| ==> s[1..][un[k]] == s[idx[k]];
  }

  lemma UnshiftPicks<T>(idx: seq<nat>, s: seq<T>, p: T -> bool)
    requires s != [] && PicksMatchesFrom(idx, s, p, 1)
    requires forall k :: 0 <= k < |idx| ==> idx[k] >= 1
    ensures PicksMatchesFrom(Unshift(idx), s[1..], p, 0)
  {
    var un := Unshift(idx);
    forall i | 0 <= i < |s[1..]|
      ensures p(s[1..][i]) <==> i in un
    {
      UnshiftMembers(idx, i);
      assert s[1..][i] == s[i + 1];
      assert p(s[i + 1]) <==> i + 1 in idx;
    }
  }

  /** An increasing selection that picks position 0 starts with it; the others come later. */
  lemma DropFirstPick<T>(idx: seq<nat>, r: seq<T>, s: seq<T>, p: T -> bool)
    requires SelectsBy(idx, r, s, p) && s != [] && p(s[0])
    ensures |idx| > 0 && idx[0] == 0 && r[0] == s[0]
    ensures forall k :: 0 <= k < |idx[1..]| ==> idx[1..][k] >= 1
    ensures IndexedBy(idx[1..], r[1..], s) && PicksMatchesFrom(idx[1..], s, p, 1)
  {
    assert 0 in idx;
    var k0 :| 0 <= k0 < |idx| && idx[k0] == 0;
    assert forall k :: 0 <= k < |idx| ==> idx[0] <= idx[k];
    var tail := idx[1..];
    assert forall k :: 0 <= k < |tail| ==> tail[k] == idx[k + 1] && idx[0] < idx[k + 1];
    forall i | 1 <= i < |s|
      ensures i in tail <==> i in idx
    {
      if i in idx {
        var k :| 0 <= k < |idx| && idx[k] == i;
        assert k > 0 && tail[k - 1] == i;
      }
    }
  }

  /** Witness: the positions that `Filter` keeps. */
  lemma {:induction false} FilterSelects<T>(s: seq<T>, p: T -> bool) returns (idx: seq<nat>)
    ensures SelectsBy(idx, Filter(s, p), s, p)
  {
    if s == [] {
      idx := [];
    } else {
      var tail := FilterSelects(s[1..], p);
      ShiftIncreasing(tail);
      ShiftIndexed(tail, Filter(s[1..], p), s);
      ShiftPicks(tail, s, p);
      idx := if p(s[0]) then [0] + Shift(tail) else Shift(tail);
    }
  }

  /** `Filter` keeps exactly the matching elements, in their original order. */
  lemma FilterIsOrderedSelection<T>(s: seq<T>, p: T -> bool)
    ensures OrderedSelection(Filter(s, p), s, p)
  {
    var idx := FilterSelects(s, p);
  }

  /** The converse: an ordered selection of the matching elements is the filter. */
  lemma {:induction false} OrderedSelectionIsFilter<T>(idx: seq<nat>, r: seq<T>, s: seq<T>, p: T -> bool)
    requires SelectsBy(idx, r, s, p)
    ensures r == Filter(s, p)
    decreases |s|
  {
    if s == [] {
    } else if p(s[0]) {
      DropFirstPick(idx, r, s, p);
      var rest := Unshift(idx[1..]);
      UnshiftIndexed(idx[1..], r[1..], s);
      UnshiftPicks(idx[1..], s, p);
      assert Increasing(rest);
      OrderedSelectionIsFilter(rest, r[1..], s[1..], p);
      assert r == [r[0]] + r[1..];
    } else {
      assert 0 !in idx;
      assert forall k :: 0 <= k < |idx| ==> idx[k] >= 1;
      var rest := Unshift(idx);
      UnshiftIndexed(idx, r, s);
      UnshiftPicks(idx, s, p);
      assert Increasing(rest);
      OrderedSelectionIsFilter(rest, r, s[1..], p);
    }
  }

  /** Filtering leaves `s` unchanged exactly when every element satisfies the predicate. */
  lemma {:induction false} FilterKeepsAll<T>(s: seq<T>, p: T -> bool)
    ensures Filter(s, p) == s <==> forall i :: 0 <= i < |s| ==> p(s[i])
  {
    if s != [] {
      FilterKeepsAll(s[1..], p);
      assert s == [s[0]] + s[1..];
      if Filter(s, p) == s {
        assert s[0] in Filter(s, p);
      }
      if !p(s[0]) {
        assert |Filter(s, p)| <= |s[1..]| < |s|;
      } else {
        assert forall i :: 1 <= i < |s| ==> s[i] == s[1..][i - 1];
      }
    }
  }

  /** Two predicates that agree on the elements of `s` filter it the same way. */
  lemma {:induction false} FilterCongruent<T>(s: seq<T>, p: T -> bool, q: T -> bool)
    requires forall x :: x in s ==> p(x) == q(x)
    ensures Filter(s, p) == Filter(s, q)
  {
    if s != [] {
      FilterCongruent(s[1..], p, q);
    }
  }

  /** Filtering distributes over concatenation. */
  lemma {:induction false} FilterAppend<T>(a: seq<T>, b: seq<T>, p: T -> bool)
    ensures Filter(a + b, p) == Filter(a, p) + Filter(b, p)
  {
    if a == [] {
      assert a + b == b;
    } else {
      assert (a + b)[1..] == a[1..] + b;
      FilterAppend(a[1..], b, p);
    }
  }

  /** `s.find(p)`: the first element that satisfies `p`, or nothing. */
  function Find<T>(s: seq<T>, p: T -> bool): (r: Option<T>)
    ensures r.None? <==> forall i :: 0 <= i < |s| ==> !p(s[i])
    ensures r.Some? ==> exists i :: 0 <= i < |s| && s[i] == r.value && p(s[i]) &&
                                   forall j :: 0 <= j < i ==> !p(s[j])
  {
    if s == [] then None
    else if p(s[0]) then Some(s[0])
    else
      var r := Find(s[1..], p);
      assert forall i :: 1 <= i < |s| ==> s[i] == s[1..][i - 1];
      r
  }

  /** `s.filter((_, idx) => idx !== i)`: drop position `i`, keep the rest in order. */
  function RemoveAt<T>(s: seq<T>, i: nat): (r: seq<T>)
    ensures i < |s| ==> |r| == |s| - 1
    ensures i >= |s| ==> r == s
    ensures forall k :: 0 <= k < i && k < |r| ==> r[k] == s[k]
    ensures forall k :: i <= k < |r| ==> r[k] == s[k + 1]
  {
    if s == [] then []
    else if i == 0 then s[1..]
    else [s[0]] + RemoveAt(s[1..], i - 1)
  }

  /** Putting the removed element back at position `i` restores the original. */
  lemma RemoveAtReinsert<T>(s: seq<T>, i: nat)
    requires i < |s|
    ensures RemoveAt(s, i)[..i] + [s[i]] + RemoveAt(s, i)[i..] == s
  {
    var r := RemoveAt(s, i);
    var t := r[..i] + [s[i]] + r[i..];
    assert |t| == |s|;
    forall k | 0 <= k < |s|
      ensures t[k] == s[k]
    {
      if k < i {
        assert t[k] == r[k];
      } else if k > i {
        assert t[k] == r[k - 1];
      }
    }
  }

  ghost predicate NoDuplicates<T>(s: seq<T>) {
    forall i, j :: 0 <= i < j < |s| ==> s[i] != s[j]
  }

  /** Appending keeps a sequence duplicate-free exactly when the new element is absent. */
  lemma NoDuplicatesAppend<T>(s: seq<T>, x: T)
    ensures NoDuplicates(s + [x]) <==> NoDuplicates(s) && x !in s
  {
    var t := s + [x];
    assert forall i :: 0 <= i < |s| ==> t[i] == s[i];
    if x in s {
      var i :| 0 <= i < |s| && s[i] == x;
      assert t[i] == t[|s|];
    }
    if NoDuplicates(s) && x !in s {
      forall i, j | 0 <= i < j < |t|
        ensures t[i] != t[j]
      {
        if j == |s| {
          assert t[i] == s[i];
        }
      }
    }
  }

  /** `s.map(f)` */
  function Map<T, K>(s: seq<T>, f: T -> K): (r: seq<K>)
    ensures |r| == |s| && forall i :: 0 <= i < |s| ==> r[i] == f(s[i])
  {
    seq(|s|, i requires 0 <= i < |s| => f(s[i]))
  }

  /** Every key of a filtered sequence is a key of the original. */
  lemma FilterKeepsKeys<T, K>(s: seq<T>, p: T -> bool, f: T -> K)
    ensures forall k :: 0 <= k < |Filter(s, p)| ==> Map(Filter(s, p), f)[k] in Map(s, f)
  {
    var r := Filter(s, p);
    forall k | 0 <= k < |r|
      ensures Map(r, f)[k] in Map(s, f)
    {
      var i :| 0 <= i < |s| && s[i] == r[k];
      assert Map(s, f)[i] == f(r[k]);
    }
  }

  /** A sequence with a head is duplicate-free exactly when its tail is and lacks the head. */
  lemma NoDuplicatesCons<T>(x: T, s: seq<T>)
    ensures NoDuplicates([x] + s) <==> NoDuplicates(s) && x !in s
  {
    var t := [x] + s;
    assert forall i :: 0 <= i < |s| ==> t[i + 1] == s[i];
    if x in s {
      var i :| 0 <= i < |s| && s[i] == x;
      assert t[0] == t[i + 1];
    }
    if NoDuplicates(t) {
      forall i, j | 0 <= i < j < |s|
        ensures s[i] != s[j]
      {
        assert t[i + 1] != t[j + 1];
      }
    }
  }

  lemma MapCons<T, K>(x: T, s: seq<T>, f: T -> K)
    ensures Map([x] + s, f) == [f(x)] + Map(s, f)
  {
  }

  /** Filtering keeps distinct keys distinct. */
  lemma {:induction false} FilterKeepsKeysDistinct<T, K>(s: seq<T>, p: T -> bool, f: T -> K)
    requires NoDuplicates(Map(s, f))
    ensures NoDuplicates(Map(Filter(s, p), f))
  {
    if s != [] {
      var t := s[1..];
      assert s == [s[0]] + t;
      MapCons(s[0], t, f);
      NoDuplicatesCons(f(s[0]), Map(t, f));
      FilterKeepsKeysDistinct(t, p, f);
      if p(s[0]) {
        var rest := Filter(t, p);
        assert Filter(s, p) == [s[0]] + rest;
        MapCons(s[0], rest, f);
        FilterKeepsKeys(t, p, f);
        NoDuplicatesCons(f(s[0]), Map(rest, f));
      }
    }
  }
}
