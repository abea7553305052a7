/**
 The chronological normaliser: the records are sorted in place, stably, by
 timestamp, and at an identical timestamp every non-pressure record comes
 before every pressure record. The sort is specified by `Sort`, a stable
 insertion sort on sequences, and its properties are proved about `Sort`.
 */
module Chronology {
  import opened Records

  /** Keys never decrease from left to right. */
  ghost predicate Sorted(s: seq<Rec>)
  {
    forall i, j :: 0 <= i < j < |s| ==> Key(s[i]) <= Key(s[j])
  }

  /** The records of `s` whose key is `k`, in their order in `s`. */
  function FilterKey(s: seq<Rec>, k: int): seq<Rec>
  {
    if s == [] then []
    else FilterKey(s[..|s| - 1], k) + (if Key(s[|s| - 1]) == k then [s[|s| - 1]] else [])
  }

  /** Places `x` after every record of `s` whose key is not larger than its own. */
  function Insert(s: seq<Rec>, x: Rec): seq<Rec>
  {
    if s == [] || Key(s[|s| - 1]) <= Key(x) then s + [x]
    else Insert(s[..|s| - 1], x) + [s[|s| - 1]]
  }

  /** The stable sort of `s` by `Key`. */
  function Sort(s: seq<Rec>): seq<Rec>
  {
    if s == [] then [] else Insert(Sort(s[..|s| - 1]), s[|s| - 1])
  }

  lemma {:induction false} InsertPermutes(s: seq<Rec>, x: Rec)
    ensures multiset(Insert(s, x)) == multiset(s) + multiset{x}
  {
    if s == [] || Key(s[|s| - 1]) <= Key(x) {
    } else {
      InsertPermutes(s[..|s| - 1], x);
      assert s == s[..|s| - 1] + [s[|s| - 1]];
    }
  }

  lemma {:induction false} InsertSorted(s: seq<Rec>, x: Rec)
    requires Sorted(s)
    ensures Sorted(Insert(s, x))
  {
    if s == [] || Key(s[|s| - 1]) <= Key(x) {
    } else {
      var init, last := s[..|s| - 1], s[|s| - 1];
      InsertSorted(init, x);
      InsertPermutes(init, x);
      var a := Insert(init, x);
      forall i | 0 <= i < |a| ensures Key(a[i]) <= Key(last) {
        assert a[i] in multiset(a);
        assert a[i] in multiset(init) || a[i] == x;
      }
    }
  }

  lemma FilterKeySnoc(s: seq<Rec>, r: Rec, k: int)
    ensures FilterKey(s + [r], k) == FilterKey(s, k) + (if Key(r) == k then [r] else [])
  {
    assert (s + [r])[..|s|] == s;
  }

  lemma {:induction false} InsertStable(s: seq<Rec>, x: Rec, k: int)
    ensures FilterKey(Insert(s, x), k) == FilterKey(s, k) + (if Key(x) == k then [x] else [])
  {
    if s == [] || Key(s[|s| - 1]) <= Key(x) {
      FilterKeySnoc(s, x, k);
    } else {
      var init, last := s[..|s| - 1], s[|s| - 1];
      InsertStable(init, x, k);
      FilterKeySnoc(Insert(init, x), last, k);
      assert s == init + [last];
      FilterKeySnoc(init, last, k);
      assert Key(x) != k || Key(last) != k;
    }
  }

  /** The sorted output is a permutation of the input. */
  lemma {:induction false} SortPermutes(s: seq<Rec>)
    ensures multiset(Sort(s)) == multiset(s)
  {
    if s != [] {
      SortPermutes(s[..|s| - 1]);
      InsertPermutes(Sort(s[..|s| - 1]), s[|s| - 1]);
      assert s == s[..|s| - 1] + [s[|s| - 1]];
    }
  }

  lemma {:induction false} SortSorted(s: seq<Rec>)
    ensures Sorted(Sort(s))
  {
    if s != [] {
      SortSorted(s[..|s| - 1]);
      InsertSorted(Sort(s[..|s| - 1]), s[|s| - 1]);
    }
  }

  /**
   The output is in chronological order, and at an identical timestamp no
   pressure record comes before a non-pressure record.
   */
  lemma SortChronological(s: seq<Rec>)
    ensures forall i, j :: 0 <= i < j < |Sort(s)| ==> Sort(s)[i].time <= Sort(s)[j].time
    ensures forall i, j :: 0 <= i < j < |Sort(s)| && Sort(s)[i].time == Sort(s)[j].time && IsPressure(Sort(s)[i]) ==>
              IsPressure(Sort(s)[j])
  {
    SortSorted(s);
    forall r1: Rec, r2: Rec { KeyOrder(r1, r2); }
  }

  /**
   Stability: the records sharing one key (the same timestamp and the same
   pressure/non-pressure class) keep their relative order.
   */
  lemma {:induction false} SortStable(s: seq<Rec>, k: int)
    ensures FilterKey(Sort(s), k) == FilterKey(s, k)
  {
    if s != [] {
      SortStable(s[..|s| - 1], k);
      InsertStable(Sort(s[..|s| - 1]), s[|s| - 1], k);
    }
  }

  lemma {:induction false} FilterKeyEmpty(s: seq<Rec>, i: int)
    requires 0 <= i < |s|
    ensures FilterKey(s, Key(s[i])) != []
  {
    if i < |s| - 1 {
      FilterKeyEmpty(s[..|s| - 1], i);
    }
  }

  lemma {:induction false} FilterKeyMember(s: seq<Rec>, k: int)
    requires FilterKey(s, k) != []
    ensures exists i :: 0 <= i < |s| && Key(s[i]) == k
  {
    if Key(s[|s| - 1]) != k {
      FilterKeyMember(s[..|s| - 1], k);
      var i :| 0 <= i < |s| - 1 && Key(s[..|s| - 1][i]) == k;
      assert s[i] == s[..|s| - 1][i];
    }
  }

  /** In a sorted sequence, no record has a larger key than the last one. */
  lemma LastIsLargest(t: seq<Rec>, k: int)
    requires Sorted(t) && t != [] && FilterKey(t, k) != []
    ensures k <= Key(t[|t| - 1])
  {
    FilterKeyMember(t, k);
  }

  /** Equal filters of two sequences ending in records of one key stay equal without those records. */
  lemma DropLast(t: seq<Rec>, u: seq<Rec>, k: int)
    requires t != [] && u != [] && Key(t[|t| - 1]) == Key(u[|u| - 1])
    requires FilterKey(t, k) == FilterKey(u, k)
    ensures FilterKey(t[..|t| - 1], k) == FilterKey(u[..|u| - 1], k)
    ensures k == Key(t[|t| - 1]) ==> t[|t| - 1] == u[|u| - 1]
  {
    var x, y := t[|t| - 1], u[|u| - 1];
    var a, b := FilterKey(t[..|t| - 1], k), FilterKey(u[..|u| - 1], k);
    if k == Key(x) {
      assert FilterKey(t, k) == a + [x];
      assert FilterKey(u, k) == b + [y];
      SnocInjective(a, x, b, y);
    } else {
      assert FilterKey(t, k) == a;
      assert FilterKey(u, k) == b;
    }
  }

  lemma SnocInjective(a: seq<Rec>, x: Rec, b: seq<Rec>, y: Rec)
    requires a + [x] == b + [y]
    ensures a == b && x == y
  {
    assert |a| == |b|;
    assert a == (a + [x])[..|a|];
    assert b == (b + [y])[..|b|];
    assert x == (a + [x])[|a|];
  }

  /** Sequences that agree on every key's records are both empty or both not. */
  lemma SameFiltersEmpty(t: seq<Rec>, u: seq<Rec>)
    requires forall k :: FilterKey(t, k) == FilterKey(u, k)
    ensures t == [] <==> u == []
  {
    if t != [] { FilterKeyEmpty(t, 0); assert FilterKey(u, Key(t[0])) != []; }
    if u != [] { FilterKeyEmpty(u, 0); assert FilterKey(t, Key(u[0])) != []; }
  }

  /** Sorted sequences that agree on every key's records end with the same key. */
  lemma SameFiltersLastKey(t: seq<Rec>, u: seq<Rec>)
    requires Sorted(t) && Sorted(u) && t != [] && u != []
    requires forall k :: FilterKey(t, k) == FilterKey(u, k)
    ensures Key(t[|t| - 1]) == Key(u[|u| - 1])
  {
    var x, y := t[|t| - 1], u[|u| - 1];
    FilterKeyEmpty(u, |u| - 1);
    assert FilterKey(t, Key(y)) != [];
    LastIsLargest(t, Key(y));
    FilterKeyEmpty(t, |t| - 1);
    assert FilterKey(u, Key(x)) != [];
    LastIsLargest(u, Key(x));
  }

  /** Two sorted sequences that agree on the records of every key are equal. */
  lemma {:induction false} SortedUnique(t: seq<Rec>, u: seq<Rec>)
    requires Sorted(t) && Sorted(u)
    requires forall k :: FilterKey(t, k) == FilterKey(u, k)
    ensures t == u
    decreases |t|
  {
    SameFiltersEmpty(t, u);
    if t != [] {
      SameFiltersLastKey(t, u);
      var t', u' := t[..|t| - 1], u[..|u| - 1];
      forall k ensures FilterKey(t', k) == FilterKey(u', k) {
        DropLast(t, u, k);
      }
      DropLast(t, u, Key(t[|t| - 1]));
      assert Sorted(t') && Sorted(u');
      SortedUnique(t', u');
      assert t == t' + [t[|t| - 1]] && u == u' + [u[|u| - 1]];
    }
  }

  /**
   `Sort` is the only stable sort by key: any sorted arrangement that keeps
   the order of records within each key is `Sort(s)`.
   */
  lemma SortIsTheStableSort(s: seq<Rec>, t: seq<Rec>)
    requires Sorted(t)
    requires forall k :: FilterKey(t, k) == FilterKey(s, k)
    ensures t == Sort(s)
  {
    SortSorted(s);
    forall k ensures FilterKey(t, k) == FilterKey(Sort(s), k) {
      SortStable(s, k);
    }
    SortedUnique(t, Sort(s));
  }

  /** Sorting records that are already in order changes nothing. */
  lemma SortOfSorted(s: seq<Rec>)
    requires Sorted(s)
    ensures Sort(s) == s
  {
    SortIsTheStableSort(s, s);
  }

  /** `data.sort(key=...)`: a stable in-place insertion sort by `Key`. */
  method SortByTime(a: array<Rec>)
    modifies a
    ensures a[..] == Sort(old(a[..]))
  {
    var i := 0;
    while i < a.Length
      invariant 0 <= i <= a.Length
      invariant a[..i] == Sort(old(a[..])[..i])
      invariant a[i..] == old(a[..])[i..]
    {
      InsertLast(a, i);
      assert old(a[..])[..i + 1][..i] == old(a[..])[..i];
      i := i + 1;
    }
    assert old(a[..])[..a.Length] == old(a[..]);
  }

  /** Moves `a[i]` leftward past every larger key, so that `a[..i + 1]` becomes `Insert(a[..i], a[i])`. */
  method InsertLast(a: array<Rec>, i: nat)
    requires i < a.Length
    modifies a
    ensures a[..i + 1] == Insert(old(a[..i]), old(a[i]))
    ensures a[i + 1..] == old(a[i + 1..])
  {
    ghost var sorted := a[..i];
    var x := a[i];
    var j := i;
    while 0 < j && Key(x) < Key(a[j - 1])
      invariant 0 <= j <= i
      invariant forall k :: 0 <= k < j ==> a[k] == sorted[k]
      invariant forall k :: j < k <= i ==> a[k] == sorted[k - 1]
      invariant forall k :: i < k < a.Length ==> a[k] == old(a[k])
      invariant forall k :: j <= k < i ==> Key(x) < Key(sorted[k])
    {
      a[j] := a[j - 1];
      j := j - 1;
    }
    a[j] := x;
    InsertAt(sorted, x, j);
    assert a[..i + 1] == sorted[..j] + [x] + sorted[j..];
  }

  /**
   `Insert` puts `x` at position `j` when the key before `j` is not larger
   than `x`'s and every key from `j` on is larger.
   */
  lemma {:induction false} InsertAt(s: seq<Rec>, x: Rec, j: nat)
    requires j <= |s| && (j == 0 || Key(s[j - 1]) <= Key(x))
    requires forall k :: j <= k < |s| ==> Key(x) < Key(s[k])
    ensures Insert(s, x) == s[..j] + [x] + s[j..]
  {
    if j < |s| {
      var init := s[..|s| - 1];
      assert init[..j] == s[..j];
      InsertAt(init, x, j);
      assert s[j..] == init[j..] + [s[|s| - 1]];
    } else {
      assert s[..j] == s;
    }
  }
}
