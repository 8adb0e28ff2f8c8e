/**
 * The few Swift `Array` operations the app relies on, as pure functions over
 * sequences: `firstIndex(of:)`, `remove(at:)` and `remove(atOffsets:)`,
 * together with the vocabulary used to state their properties.
 */
module SwiftArray {

  import opened Optional

  /** No value occurs twice in `s`. */
  predicate NoDuplicates<T(==)>(s: seq<T>)
  {
    forall i, j :: 0 <= i < j < |s| ==> s[i] != s[j]
  }

  /** `s` with every occurrence of `x` dropped, the rest in their original order. */
  function Without<T(==)>(s: seq<T>, x: T): (r: seq<T>)
    ensures x !in r
    ensures |r| <= |s|
  {
    if |s| == 0 then []
    else (if s[0] == x then [] else [s[0]]) + Without(s[1..], x)
  }

  lemma {:induction false} WithoutConcat<T>(a: seq<T>, b: seq<T>, x: T)
    ensures Without(a + b, x) == Without(a, x) + Without(b, x)
  {
    if |a| == 0 {
      assert a + b == b;
    } else {
      assert (a + b)[1..] == a[1..] + b;
      WithoutConcat(a[1..], b, x);
    }
  }

  /**
   * `firstIndex(of:)`: the position of the first occurrence of `x`, or
   * `None` when `x` does not occur at all.
   */
  function FirstIndex<T(==)>(s: seq<T>, x: T): (r: Option<nat>)
    ensures r.None? <==> x !in s
    ensures r.Some? ==> r.value < |s| && s[r.value] == x
    ensures r.Some? ==> forall k :: 0 <= k < r.value ==> s[k] != x
  {
    if |s| == 0 then None
    else if s[0] == x then Some(0)
    else match FirstIndex(s[1..], x)
      case None => None
      case Some(i) => Some(i + 1)
  }

  /** `remove(at:)`: the element at position `i` is taken out, the others close up. */
  function RemoveAt<T>(s: seq<T>, i: nat): (r: seq<T>)
    requires i < |s|
    ensures |r| == |s| - 1
    ensures forall k :: 0 <= k < i ==> r[k] == s[k]
    ensures forall k :: i <= k < |r| ==> r[k] == s[k + 1]
    ensures multiset(r) == multiset(s) - multiset{s[i]}
  {
    assert s == s[..i] + [s[i]] + s[i + 1..];
    s[..i] + s[i + 1..]
  }

  lemma WithoutDropsOne<T>(front: seq<T>, x: T, back: seq<T>)
    ensures Without(front + [x] + back, x) == Without(front + back, x)
  {
    assert Without([x], x) == [];
    WithoutConcat(front + [x], back, x);
    WithoutConcat(front, [x], x);
    WithoutConcat(front, back, x);
  }

  /** Removing an occurrence of `x` does not disturb the order of the other values. */
  lemma RemoveAtKeepsOthers<T>(s: seq<T>, i: nat, x: T)
    requires i < |s| && s[i] == x
    ensures Without(RemoveAt(s, i), x) == Without(s, x)
  {
    var front, back := s[..i], s[i + 1..];
    assert s == front + [x] + back;
    assert RemoveAt(s, i) == front + back;
    WithoutDropsOne(front, x, back);
  }

  /** The positions below `n` that are not listed in `offsets`, in increasing order. */
  function Survivors(n: nat, offsets: set<nat>): (r: seq<nat>)
    ensures forall k :: 0 <= k < |r| ==> r[k] < n && r[k] !in offsets
    ensures forall j, k :: 0 <= j < k < |r| ==> r[j] < r[k]
  {
    if n == 0 then []
    else Survivors(n - 1, offsets) + (if n - 1 in offsets then [] else [n - 1])
  }

  /** Every position below `n` that is not in `offsets` survives. */
  lemma {:induction false} SurvivorsComplete(n: nat, offsets: set<nat>, i: nat)
    requires i < n && i !in offsets
    ensures i in Survivors(n, offsets)
  {
    if i < n - 1 {
      SurvivorsComplete(n - 1, offsets, i);
    } else {
      assert Survivors(n, offsets) == Survivors(n - 1, offsets) + [i];
    }
  }

  /** The members of `offsets` below `n`. */
  function Below(offsets: set<nat>, n: nat): set<nat>
  {
    set i | i in offsets && i < n
  }

  lemma {:induction false} SurvivorsCount(n: nat, offsets: set<nat>)
    ensures |Survivors(n, offsets)| == n - |Below(offsets, n)|
  {
    if n > 0 {
      SurvivorsCount(n - 1, offsets);
      var before, now := Below(offsets, n - 1), Below(offsets, n);
      if n - 1 in offsets {
        BelowStep(offsets, n);
      } else {
        assert now == before;
      }
    }
  }

  lemma BelowStep(offsets: set<nat>, n: nat)
    requires n > 0 && n - 1 in offsets
    ensures |Below(offsets, n)| == |Below(offsets, n - 1)| + 1
  {
    var before := Below(offsets, n - 1);
    assert Below(offsets, n) == before + {n - 1};
    assert n - 1 !in before;
  }

  /**
   * `remove(atOffsets:)`: every element whose position in `s` (as it was
   * before the call) is in `offsets` is dropped; the rest keep their order.
   * The result lists exactly the elements of `s` at the surviving positions,
   * in increasing position order.
   */
  function RemoveAtOffsets<T>(s: seq<T>, offsets: set<nat>): (r: seq<T>)
    ensures var keep := Survivors(|s|, offsets);
            |r| == |keep| && forall k :: 0 <= k < |r| ==> r[k] == s[keep[k]]
  {
    if |s| == 0 then []
    else
      var last := |s| - 1;
      var prev := Survivors(last, offsets);
      var front := RemoveAtOffsets(s[..last], offsets);
      assert forall k :: 0 <= k < |prev| ==> s[..last][prev[k]] == s[prev[k]];
      front + (if last in offsets then [] else [s[last]])
  }

  /** With in-range offsets, exactly `|offsets|` elements disappear. */
  lemma RemoveAtOffsetsLength<T>(s: seq<T>, offsets: set<nat>)
    requires forall i :: i in offsets ==> i < |s|
    ensures |RemoveAtOffsets(s, offsets)| == |s| - |offsets|
  {
    SurvivorsCount(|s|, offsets);
    assert Below(offsets, |s|) == offsets;
  }

  /** With no offsets every position survives, in order. */
  lemma {:induction false} SurvivorsOfNone(n: nat)
    ensures |Survivors(n, {})| == n
    ensures forall k :: 0 <= k < n ==> Survivors(n, {})[k] == k
  {
    if n > 0 {
      SurvivorsOfNone(n - 1);
      assert Survivors(n, {}) == Survivors(n - 1, {}) + [n - 1];
    }
  }

  /** No offsets, no change. */
  lemma RemoveAtNoOffsets<T>(s: seq<T>)
    ensures RemoveAtOffsets(s, {}) == s
  {
    SurvivorsOfNone(|s|);
    var r := RemoveAtOffsets(s, {});
    assert |r| == |s|;
    assert forall k :: 0 <= k < |r| ==> r[k] == s[k];
  }

  /** Every position listed: nothing is left. */
  lemma {:induction false} RemoveAtAllOffsets<T>(s: seq<T>, offsets: set<nat>)
    requires forall i: nat :: i < |s| ==> i in offsets
    ensures RemoveAtOffsets(s, offsets) == []
  {
    if |s| > 0 {
      RemoveAtAllOffsets(s[..|s| - 1], offsets);
    }
  }

}
