/** Sorting in place and the median of rio-price: what it depends on, and who can move it. */
module Medians {
  import opened Primitives

  ghost predicate IsSorted(s: seq<nat>) { forall i, j :: 0 <= i <= j < |s| ==> s[i] <= s[j] }

  /** A value put into a sorted list, behind everything that is not larger. */
  function Insert(s: seq<nat>, x: nat): seq<nat>
  {
    if s == [] || s[0] > x then [x] + s else [s[0]] + Insert(s[1..], x)
  }

  function Sorted(s: seq<nat>): seq<nat>
  {
    if s == [] then [] else Insert(Sorted(s[..|s| - 1]), s[|s| - 1])
  }

  lemma {:induction false} InsertSorts(s: seq<nat>, x: nat)
    requires IsSorted(s)
    ensures IsSorted(Insert(s, x)) && multiset(Insert(s, x)) == multiset(s) + multiset{x} && |Insert(s, x)| == |s| + 1
    ensures forall y :: y in Insert(s, x) <==> y in s || y == x
  {
    if s != [] && s[0] <= x {
      InsertSorts(s[1..], x);
      assert s == [s[0]] + s[1..];
      var rest := Insert(s[1..], x);
      forall j | 0 <= j < |rest| ensures s[0] <= rest[j] {
        assert rest[j] in rest;
      }
    }
  }

  /** Sorted is a sorted permutation. */
  lemma {:induction false} SortedSorts(s: seq<nat>)
    ensures IsSorted(Sorted(s)) && multiset(Sorted(s)) == multiset(s) && |Sorted(s)| == |s|
  {
    if s != [] {
      var n := |s| - 1;
      SortedSorts(s[..n]);
      InsertSorts(Sorted(s[..n]), s[n]);
      assert s == s[..n] + [s[n]];
    }
  }

  lemma LastIsLargest(a: seq<nat>, x: nat)
    requires a != [] && IsSorted(a) && x in multiset(a)
    ensures x <= a[|a| - 1]
  {
    var i :| 0 <= i < |a| && a[i] == x;
  }

  /** There is only one sorted list of given elements. */
  lemma {:induction false} SortedIsUnique(a: seq<nat>, b: seq<nat>)
    requires IsSorted(a) && IsSorted(b) && multiset(a) == multiset(b)
    ensures a == b
  {
    hide IsSorted;
    SameSize(a, b);
    if a != [] {
      var n := |a| - 1;
      SameLast(a, b);
      DropLast(a);
      DropLast(b);
      var a', b' := a[..n], b[..n];
      assert a' == b' by { SortedIsUnique(a', b'); }
      OneMore(a, b);
    }
  }

  lemma OneMore(a: seq<nat>, b: seq<nat>)
    requires |a| == |b| > 0 && a[..|a| - 1] == b[..|b| - 1] && a[|a| - 1] == b[|b| - 1]
    ensures a == b
  {
    assert a == a[..|a| - 1] + [a[|a| - 1]] && b == b[..|b| - 1] + [b[|b| - 1]];
  }

  lemma SameSize(a: seq<nat>, b: seq<nat>)
    requires multiset(a) == multiset(b)
    ensures |a| == |b|
  {
    assert |multiset(a)| == |a| && |multiset(b)| == |b|;
  }

  lemma SameLast(a: seq<nat>, b: seq<nat>)
    requires IsSorted(a) && IsSorted(b) && multiset(a) == multiset(b) && |a| == |b| > 0
    ensures a[|a| - 1] == b[|b| - 1]
  {
    assert a[|a| - 1] in multiset(a) && b[|b| - 1] in multiset(b);
    LastIsLargest(a, b[|b| - 1]);
    LastIsLargest(b, a[|a| - 1]);
  }

  lemma DropLast(a: seq<nat>)
    requires a != [] && IsSorted(a)
    ensures IsSorted(a[..|a| - 1]) && multiset(a[..|a| - 1]) == multiset(a) - multiset{a[|a| - 1]}
  {
    assert a == a[..|a| - 1] + [a[|a| - 1]];
  }

  /** Insertion at a known place. */
  lemma {:induction false} InsertAt(s: seq<nat>, x: nat, j: nat)
    requires j <= |s| && (forall k :: 0 <= k < j ==> s[k] <= x) && (j < |s| ==> s[j] > x)
    ensures Insert(s, x) == s[..j] + [x] + s[j..]
    decreases j
  {
    if j > 0 {
      InsertAt(s[1..], x, j - 1);
      assert s[..j] == [s[0]] + s[1..][..j - 1] && s[1..][j - 1..] == s[j..];
    }
  }

  method SortInPlace(a: array<nat>)
    modifies a
    ensures a[..] == Sorted(old(a[..]))
  {
    ghost var was := a[..];
    var i := 0;
    while i < a.Length
      invariant 0 <= i <= a.Length
      invariant a[..i] == Sorted(was[..i]) && a[i..] == was[i..]
    {
      SortedSorts(was[..i]);
      InsertInPlace(a, i);
      assert was[..i + 1][..i] == was[..i];
      i := i + 1;
    }
    assert was[..i] == was && a[..i] == a[..];
  }

  /** Moves the element at `i` down to its place in the sorted part before it. */
  method InsertInPlace(a: array<nat>, i: nat)
    requires i < a.Length && IsSorted(a[..i])
    modifies a
    ensures a[..i + 1] == Insert(old(a[..i]), old(a[i])) && a[i + 1..] == old(a[i + 1..])
  {
    ghost var s := a[..i];
    var x := a[i];
    var j := Shift(a, i);
    InsertAt(s, x, j);
    hide *;
    a[j] := x;
    assert a[..i + 1] == s[..j] + [x] + s[j..];
  }

  /** Shifts everything larger than the element at `i` up by one, and says where the gap is. */
  method Shift(a: array<nat>, i: nat) returns (j: nat)
    requires i < a.Length && IsSorted(a[..i])
    modifies a
    ensures j <= i && a[i + 1..] == old(a[i + 1..])
    ensures a[..j] == old(a[..i])[..j] && a[j + 1..i + 1] == old(a[..i])[j..]
    ensures forall k :: 0 <= k < j ==> old(a[k]) <= old(a[i])
    ensures j < i ==> old(a[j]) > old(a[i])
  {
    var x := a[i];
    j := i;
    while j > 0 && a[j - 1] > x
      invariant 0 <= j <= i
      invariant forall k :: 0 <= k < j ==> a[k] == old(a[k])
      invariant forall k :: j < k <= i ==> a[k] == old(a[k - 1])
      invariant forall k :: i < k < a.Length ==> a[k] == old(a[k])
      invariant j < i ==> old(a[j]) > x
    {
      a[j] := a[j - 1];
      j := j - 1;
    }
    ghost var s := old(a[..i]);
    if j > 0 {
      assert s[j - 1] <= x;
      forall k | 0 <= k < j ensures old(a[k]) <= x { assert s[k] <= s[j - 1]; }
    }
    assert a[..j] == s[..j];
    assert a[j + 1..i + 1] == s[j..];
    assert a[i + 1..] == old(a[i + 1..]);
  }

  // ---------------------------------------------------------------- mean and median

  /** `None` where the sum does not fit into 128 bits. */
  function Mean(s: seq<nat>): Option<nat>
    requires s != []
  {
    if SumSeq(s) > MAX_BALANCE then None else Some(SumSeq(s) / |s|)
  }

  function MiddleOf(s: seq<nat>): Option<nat>
    requires s != []
  {
    var mid := |s| / 2;
    if |s| == 1 then Some(s[0]) else if |s| % 2 == 0 then Mean([s[mid - 1], s[mid]]) else Some(s[mid])
  }

  function MedianOf(s: seq<nat>): Option<nat>
    requires s != []
  {
    SortedSorts(s);
    MiddleOf(Sorted(s))
  }

  /** The middle of a sorted list: its middle element, or half the sum of the two in the middle, which is
      `None` where that sum does not fit into 128 bits. */
  ghost predicate IsMiddle(t: seq<nat>, r: Option<nat>)
    requires t != []
  {
    var low, high := t[(|t| - 1) / 2], t[|t| / 2];
    if |t| % 2 == 1 then r == Some(t[|t| / 2])
    else if low + high > MAX_BALANCE then r == None
    else r == Some((low + high) / 2)
  }

  /** Whichever way the elements of `s` are put in order, `r` is in the middle. */
  ghost predicate IsMedian(s: seq<nat>, r: Option<nat>)
    requires s != []
  {
    forall t: seq<nat> :: t != [] && IsSorted(t) && multiset(t) == multiset(s) ==> IsMiddle(t, r)
  }

  lemma MiddleIs(t: seq<nat>)
    requires t != []
    ensures IsMiddle(t, MiddleOf(t))
  {
    hide Mean;
    if |t| % 2 == 0 { MeanOfTwo(t[|t| / 2 - 1], t[|t| / 2]); }
  }

  /** There is one median, and the sorting of the list has it. */
  lemma MedianIs(s: seq<nat>, r: Option<nat>)
    requires s != []
    ensures IsMedian(s, r) <==> r == MedianOf(s)
  {
    SortedSorts(s);
    MiddleIs(Sorted(s));
    hide Sorted, IsSorted, MiddleOf;
    forall t: seq<nat> | t != [] && IsSorted(t) && multiset(t) == multiset(s) ensures IsMiddle(t, MedianOf(s)) {
      SortedIsUnique(t, Sorted(s));
    }
  }

  method Median(numbers: array<nat>) returns (r: Option<nat>)
    requires numbers.Length > 0
    modifies numbers
    ensures numbers[..] == Sorted(old(numbers[..])) && IsMedian(old(numbers[..]), r)
  {
    MedianIs(numbers[..], MedianOf(numbers[..]));
    hide IsMedian;
    SortInPlace(numbers);
    if numbers.Length == 1 { return Some(numbers[0]); }
    var mid := numbers.Length / 2;
    if numbers.Length % 2 == 0 {
      return Mean([numbers[mid - 1], numbers[mid]]);
    } else {
      return Some(numbers[mid]);
    }
  }

  /** The order of the reports does not matter. */
  lemma MedianIgnoresOrder(s: seq<nat>, t: seq<nat>)
    requires s != [] && multiset(s) == multiset(t)
    ensures t != [] && MedianOf(s) == MedianOf(t)
  {
    assert s[0] in multiset(t);
    SortedSorts(s);
    SortedSorts(t);
    SortedIsUnique(Sorted(s), Sorted(t));
  }

  // ---------------------------------------------------------------- robustness

  /** How many values lie between `lo` and `hi`. */
  function Within(s: seq<nat>, lo: nat, hi: nat): nat
  {
    if s == [] then 0 else (if lo <= s[0] <= hi then 1 else 0) + Within(s[1..], lo, hi)
  }

  lemma {:induction false} WithinSplit(s: seq<nat>, t: seq<nat>, lo: nat, hi: nat)
    ensures Within(s + t, lo, hi) == Within(s, lo, hi) + Within(t, lo, hi)
  {
    if s == [] {
      assert s + t == t;
    } else {
      WithinSplit(s[1..], t, lo, hi);
      assert (s + t)[1..] == s[1..] + t;
    }
  }

  lemma {:induction false} WithinInsert(s: seq<nat>, x: nat, lo: nat, hi: nat)
    ensures Within(Insert(s, x), lo, hi) == Within(s, lo, hi) + if lo <= x <= hi then 1 else 0
  {
    if s == [] || s[0] > x {
      assert ([x] + s)[1..] == s;
    } else {
      WithinInsert(s[1..], x, lo, hi);
      assert ([s[0]] + Insert(s[1..], x))[1..] == Insert(s[1..], x);
    }
  }

  lemma {:induction false} WithinSorted(s: seq<nat>, lo: nat, hi: nat)
    ensures Within(Sorted(s), lo, hi) == Within(s, lo, hi)
  {
    if s != [] {
      var n := |s| - 1;
      WithinSorted(s[..n], lo, hi);
      WithinInsert(Sorted(s[..n]), s[n], lo, hi);
      WithinSplit(s[..n], [s[n]], lo, hi);
      assert s == s[..n] + [s[n]];
    }
  }

  lemma {:induction false} WithinAtMost(s: seq<nat>, lo: nat, hi: nat)
    ensures Within(s, lo, hi) <= |s|
    ensures (forall i :: 0 <= i < |s| ==> s[i] < lo || s[i] > hi) ==> Within(s, lo, hi) == 0
  {
    if s != [] {
      WithinAtMost(s[1..], lo, hi);
    }
  }

  lemma BelowBound(s: seq<nat>, lo: nat, hi: nat, k: nat)
    requires IsSorted(s) && k < |s| && s[k] < lo
    ensures Within(s, lo, hi) <= |s| - k - 1
  {
    var front, back := s[..k + 1], s[k + 1..];
    assert s == front + back;
    WithinSplit(front, back, lo, hi);
    assert forall i :: 0 <= i < |front| ==> front[i] <= s[k];
    WithinAtMost(front, lo, hi);
    WithinAtMost(back, lo, hi);
  }

  lemma AboveBound(s: seq<nat>, lo: nat, hi: nat, k: nat)
    requires IsSorted(s) && k < |s| && s[k] > hi
    ensures Within(s, lo, hi) <= k
  {
    var front, back := s[..k], s[k..];
    assert s == front + back;
    WithinSplit(front, back, lo, hi);
    assert forall i :: 0 <= i < |back| ==> s[k] <= back[i];
    WithinAtMost(front, lo, hi);
    WithinAtMost(back, lo, hi);
  }

  /** In a sorted list where more than half lies between `lo` and `hi`, so does any element with
      at least half of the list on either side of it, itself included. */
  lemma MiddleIsWithin(s: seq<nat>, lo: nat, hi: nat, k: nat)
    requires IsSorted(s) && k < |s| && 2 * Within(s, lo, hi) > |s|
    requires 2 * (k + 1) >= |s| && 2 * (|s| - k) >= |s|
    ensures lo <= s[k] <= hi
  {
    if s[k] < lo { BelowBound(s, lo, hi, k); }
    if s[k] > hi { AboveBound(s, lo, hi, k); }
  }

  lemma MeanOfTwo(a: nat, b: nat)
    ensures Mean([a, b]) == if a + b > MAX_BALANCE then None else Some((a + b) / 2)
  {
    assert [a, b][1..] == [b] && [b][1..] == [];
    assert SumSeq([b]) == b + SumSeq([]) && SumSeq([a, b]) == a + SumSeq([b]);
  }

  lemma HalfBetween(a: nat, b: nat, lo: nat, hi: nat)
    requires lo <= a <= hi && lo <= b <= hi
    ensures lo <= (a + b) / 2 <= hi
  {
  }

  /** A strict majority of reports between `lo` and `hi` keeps the median there, for odd and
      even numbers of reports, whatever the others say. */
  lemma MajorityHoldsMedian(s: seq<nat>, lo: nat, hi: nat)
    requires s != [] && 2 * Within(s, lo, hi) > |s|
    ensures MedianOf(s).Some? ==> lo <= MedianOf(s).value <= hi
    ensures MedianOf(s).None? ==> 2 * hi > MAX_BALANCE
  {
    SortedSorts(s);
    WithinSorted(s, lo, hi);
    MiddleHolds(Sorted(s), lo, hi);
  }

  lemma MiddleHolds(t: seq<nat>, lo: nat, hi: nat)
    requires t != [] && IsSorted(t) && 2 * Within(t, lo, hi) > |t|
    ensures MiddleOf(t).Some? ==> lo <= MiddleOf(t).value <= hi
    ensures MiddleOf(t).None? ==> 2 * hi > MAX_BALANCE
  {
    var mid := |t| / 2;
    MiddleIsWithin(t, lo, hi, mid);
    if |t| % 2 == 0 {
      MiddleIsWithin(t, lo, hi, mid - 1);
      hide Within, IsSorted, Mean;
      MeanOfTwo(t[mid - 1], t[mid]);
      HalfBetween(t[mid - 1], t[mid], lo, hi);
    }
  }

  lemma {:induction false} WithinAll(s: seq<nat>, lo: nat, hi: nat)
    requires forall i :: 0 <= i < |s| ==> lo <= s[i] <= hi
    ensures Within(s, lo, hi) == |s|
  {
    if s != [] { WithinAll(s[1..], lo, hi); }
  }

  /** `n` reports, the first `w` of them at `hi` and the others just above. */
  function Spread(n: nat, w: nat, hi: nat): (s: seq<nat>)
    ensures |s| == n
  {
    seq(n, i requires 0 <= i < n => if i < w then hi else hi + 2)
  }

  /** Half of the reports are not enough, for any number of reports: with any part of them up to
      one half between `lo` and `hi`, there are reports that put the median above. */
  lemma HalfIsNotEnough(n: nat, w: nat, lo: nat, hi: nat)
    requires n > 0 && 2 * w <= n && lo <= hi && 2 * (hi + 2) <= MAX_BALANCE
    ensures var s := Spread(n, w, hi);
            |s| == n && Within(s, lo, hi) == w && MedianOf(s).Some? && MedianOf(s).value > hi
  {
    hide Sorted, MiddleOf, Within, IsSorted, Spread;
    var s := Spread(n, w, hi);
    SpreadWithin(s, n, w, lo, hi);
    SortedSorts(s);
    SortedIsUnique(Sorted(s), s);
    MiddleOfSpread(s, n, w, hi);
  }

  lemma SpreadWithin(s: seq<nat>, n: nat, w: nat, lo: nat, hi: nat)
    requires s == Spread(n, w, hi) && w <= n && lo <= hi
    ensures Within(s, lo, hi) == w && IsSorted(s)
  {
    assert s == s[..w] + s[w..];
    hide Within;
    WithinSplit(s[..w], s[w..], lo, hi);
    WithinAll(s[..w], lo, hi);
    WithinAtMost(s[w..], lo, hi);
  }

  lemma MiddleOfSpread(s: seq<nat>, n: nat, w: nat, hi: nat)
    requires s == Spread(n, w, hi) && n > 0 && 2 * w <= n && 2 * (hi + 2) <= MAX_BALANCE
    ensures MiddleOf(s).Some? && MiddleOf(s).value > hi
  {
    hide Mean;
    if n % 2 == 0 { MeanOfTwo(s[n / 2 - 1], s[n / 2]); }
  }
}
