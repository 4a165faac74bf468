/** Order-preserving filtering and the splice-based move used by block reordering. */
module Seqs {

  /** The elements of `s` satisfying `f`, in their original order (JavaScript's `Array.prototype.filter`). */
  function Filter<T>(s: seq<T>, f: T -> bool): (r: seq<T>)
    ensures |r| <= |s|
    ensures forall k :: 0 <= k < |r| ==> f(r[k])
    ensures multiset(r) <= multiset(s)
  {
    if |s| == 0 then []
    else if f(s[0]) then
      assert s == [s[0]] + s[1..];
      [s[0]] + Filter(s[1..], f)
    else
      assert s == [s[0]] + s[1..];
      Filter(s[1..], f)
  }

  /** An element is kept exactly when it is in the input and satisfies the predicate. */
  lemma {:induction false} FilterMembers<T>(s: seq<T>, f: T -> bool)
    ensures forall k :: 0 <= k < |Filter(s, f)| ==> Filter(s, f)[k] in s
    ensures forall k :: 0 <= k < |s| && f(s[k]) ==> s[k] in Filter(s, f)
  {
    if |s| > 0 {
      FilterMembers(s[1..], f);
      var r := Filter(s, f);
      forall k | 0 <= k < |r| ensures r[k] in s {
        assert r[k] in multiset(s);
      }
    }
  }

  /** Filtering distributes over concatenation: this is what "keeps the relative order" means. */
  lemma {:induction false} FilterConcat<T>(a: seq<T>, b: seq<T>, f: T -> bool)
    ensures Filter(a + b, f) == Filter(a, f) + Filter(b, f)
  {
    if |a| == 0 {
      assert a + b == b;
    } else {
      assert (a + b)[1..] == a[1..] + b;
      FilterConcat(a[1..], b, f);
    }
  }

  /** The kept and the dropped elements together are exactly the input, counting duplicates. */
  lemma {:induction false} FilterSplit<T>(s: seq<T>, f: T -> bool, g: T -> bool)
    requires forall k :: 0 <= k < |s| ==> g(s[k]) == !f(s[k])
    ensures multiset(Filter(s, f)) + multiset(Filter(s, g)) == multiset(s)
  {
    if |s| > 0 {
      FilterSplit(s[1..], f, g);
      assert s == [s[0]] + s[1..];
    }
  }

  /** A filter whose predicate holds everywhere keeps everything. */
  lemma {:induction false} FilterAll<T>(s: seq<T>, f: T -> bool)
    requires forall k :: 0 <= k < |s| ==> f(s[k])
    ensures Filter(s, f) == s
  {
    if |s| > 0 {
      FilterAll(s[1..], f);
      assert s == [s[0]] + s[1..];
    }
  }

  /** A filter whose predicate fails everywhere keeps nothing. */
  lemma {:induction false} FilterNone<T>(s: seq<T>, f: T -> bool)
    requires forall k :: 0 <= k < |s| ==> !f(s[k])
    ensures Filter(s, f) == []
  {
    if |s| > 0 {
      FilterNone(s[1..], f);
    }
  }

  /** Filtering around one element: the runs before and after are filtered on their own. */
  lemma FilterAround<T>(a: seq<T>, x: T, b: seq<T>, f: T -> bool)
    ensures Filter(a + [x] + b, f) == Filter(a, f) + (if f(x) then [x] else []) + Filter(b, f)
  {
    FilterConcat(a, [x], f);
    FilterConcat(a + [x], b, f);
    assert Filter([x], f) == (if f(x) then [x] else []);
  }

  /** Occurrences add up over a concatenation. */
  lemma CountAppend<T>(a: seq<T>, b: seq<T>, x: T)
    ensures multiset(a + b)[x] == multiset(a)[x] + multiset(b)[x]
  {
    assert multiset(a + b) == multiset(a) + multiset(b);
  }

  /** Strictly increasing: no repeats, in ascending order. */
  predicate Increasing(s: seq<nat>) {
    forall a, b :: 0 <= a < b < |s| ==> s[a] < s[b]
  }

  /** A strictly increasing list holds each number at most once. */
  lemma {:induction false} IncreasingCount(s: seq<nat>, x: nat)
    requires Increasing(s)
    ensures multiset(s)[x] == if x in s then 1 else 0
  {
    if |s| > 0 {
      var rest := s[1..];
      assert forall j :: 0 <= j < |rest| ==> rest[j] == s[j + 1];
      IncreasingCount(rest, x);
      assert s == [s[0]] + rest;
      CountAppend([s[0]], rest, x);
      if x == s[0] {
        assert x !in rest;
      }
    }
  }

  /** `idx` lists strictly increasing positions of `s` whose elements, read in order, are `r`. */
  predicate PicksOut<T(==)>(r: seq<T>, s: seq<T>, idx: seq<nat>) {
    && |idx| == |r|
    && Increasing(idx)
    && (forall k :: 0 <= k < |r| ==> idx[k] < |s| && r[k] == s[idx[k]])
  }

  /** `idx` with every position moved one place on. */
  function Shift(idx: seq<nat>): (r: seq<nat>)
    ensures |r| == |idx|
    ensures forall k :: 0 <= k < |idx| ==> r[k] == idx[k] + 1
  {
    seq(|idx|, k requires 0 <= k < |idx| => idx[k] + 1)
  }

  /**
   * The positions `Filter` keeps: the filtered list is `s` read at these
   * increasing positions, and every position whose element passes is among
   * them. This is the index-level meaning of "keeps the original order".
   */
  function Kept<T(==)>(s: seq<T>, f: T -> bool): (idx: seq<nat>)
    ensures PicksOut(Filter(s, f), s, idx)
    ensures forall i :: 0 <= i < |s| && f(s[i]) ==> i in idx
    decreases |s|
  {
    if |s| == 0 then []
    else
      var rest := Kept(s[1..], f);
      ShiftPicks(Filter(s[1..], f), s, rest);
      ShiftCovers(s, f, rest);
      if f(s[0]) then
        ConsPicks(Filter(s[1..], f), s, Shift(rest));
        [0] + Shift(rest)
      else Shift(rest)
  }

  /** Positions picked from the tail are positions one further on in the whole list. */
  lemma ShiftPicks<T>(r: seq<T>, s: seq<T>, idx: seq<nat>)
    requires |s| > 0 && PicksOut(r, s[1..], idx)
    ensures PicksOut(r, s, Shift(idx))
    ensures forall k :: 0 <= k < |idx| ==> Shift(idx)[k] > 0
  {
    var sh := Shift(idx);
    forall k | 0 <= k < |r| ensures sh[k] < |s| && r[k] == s[sh[k]] {
      assert s[1..][idx[k]] == s[idx[k] + 1];
    }
  }

  /** Every passing position of the tail, moved one place on, is a shifted position. */
  lemma ShiftCovers<T>(s: seq<T>, f: T -> bool, idx: seq<nat>)
    requires |s| > 0
    requires forall i :: 0 <= i < |s[1..]| && f(s[1..][i]) ==> i in idx
    ensures forall i :: 1 <= i < |s| && f(s[i]) ==> i in Shift(idx)
  {
    var sh := Shift(idx);
    forall i | 1 <= i < |s| && f(s[i]) ensures i in sh {
      assert s[1..][i - 1] == s[i];
      var k :| 0 <= k < |idx| && idx[k] == i - 1;
      assert sh[k] == i;
    }
  }

  /** A passing head joins the filtered tail at position 0. */
  lemma ConsPicks<T>(r: seq<T>, s: seq<T>, idx: seq<nat>)
    requires |s| > 0 && PicksOut(r, s, idx)
    requires forall k :: 0 <= k < |idx| ==> idx[k] > 0
    ensures PicksOut([s[0]] + r, s, [0] + idx)
  {
    var r2, idx2 := [s[0]] + r, [0] + idx;
    forall k | 0 < k < |r2| ensures idx2[k] < |s| && r2[k] == s[idx2[k]] {
      assert idx2[k] == idx[k - 1] && r2[k] == r[k - 1];
    }
  }

  lemma AppendEmpty<T>(s: seq<T>)
    ensures s + [] == s
  {
  }

  lemma AppendAssoc<T>(a: seq<T>, b: seq<T>, c: seq<T>)
    ensures a + b + c == a + (b + c)
  {
  }

  /** Filtering a list extended by one element extends the filtered list by it, when it passes. */
  lemma FilterSnoc<T>(a: seq<T>, x: T, f: T -> bool)
    ensures Filter(a + [x], f) == Filter(a, f) + (if f(x) then [x] else [])
  {
    FilterConcat(a, [x], f);
    assert Filter([x], f) == (if f(x) then [x] else []);
  }

  /**
   * When nothing after `x` passes, filtering with `x` in the middle is
   * filtering with `x` moved to the end.
   */
  lemma FilterToEnd<T>(a: seq<T>, x: T, b: seq<T>, f: T -> bool)
    requires f(x) ==> forall k :: 0 <= k < |b| ==> !f(b[k])
    ensures Filter(a + [x] + b, f) == Filter(a + b, f) + (if f(x) then [x] else [])
  {
    FilterAround(a, x, b, f);
    FilterConcat(a, b, f);
    var fa := Filter(a, f);
    AppendEmpty(fa);
    if f(x) {
      FilterNone(b, f);
      AppendEmpty(fa + [x]);
    } else {
      AppendEmpty(Filter(a + b, f));
    }
  }

  /** Filtering out one rejected element between two kept runs leaves the two runs. */
  lemma {:induction false} FilterDropOne<T>(a: seq<T>, x: T, b: seq<T>, f: T -> bool)
    requires forall k :: 0 <= k < |a| ==> f(a[k])
    requires forall k :: 0 <= k < |b| ==> f(b[k])
    requires !f(x)
    ensures Filter(a + [x] + b, f) == a + b
  {
    var ax := a + [x];
    FilterConcat(ax, b, f);
    FilterConcat(a, [x], f);
    assert Filter([x], f) == [];
    FilterAll(a, f);
    FilterAll(b, f);
    var fa := Filter(a, f);
    assert fa == a;
    assert Filter(ax, f) == fa + [];
    assert fa + [] == fa;
    assert Filter(ax + b, f) == a + b;
  }

  /** `s` without its element at index `i` (JavaScript's `splice(i, 1)`). */
  function RemoveAt<T>(s: seq<T>, i: nat): (r: seq<T>)
    requires i < |s|
    ensures |r| == |s| - 1
    ensures forall k :: 0 <= k < i ==> r[k] == s[k]
    ensures forall k :: i <= k < |r| ==> r[k] == s[k + 1]
  {
    s[..i] + s[i + 1..]
  }

  /** `s` with `x` inserted before index `i` (JavaScript's `splice(i, 0, x)`). */
  function InsertAt<T>(s: seq<T>, i: nat, x: T): (r: seq<T>)
    requires i <= |s|
    ensures |r| == |s| + 1
    ensures r[i] == x
    ensures forall k :: 0 <= k < i ==> r[k] == s[k]
    ensures forall k :: i < k < |r| ==> r[k] == s[k - 1]
  {
    s[..i] + [x] + s[i..]
  }

  /** Removing what was just inserted gives the sequence back. */
  lemma RemoveInserted<T>(s: seq<T>, i: nat, x: T)
    requires i <= |s|
    ensures RemoveAt(InsertAt(s, i, x), i) == s
  {
    var t := InsertAt(s, i, x);
    assert RemoveAt(t, i) == s[..i] + s[i..];
    assert s[..i] + s[i..] == s;
  }

  /**
   * The element at `from` taken out and put back in at `to`, the two-splice
   * move of a drag-and-drop reorder.
   */
  function Move<T>(s: seq<T>, from: nat, to: nat): (r: seq<T>)
    requires from < |s| && to < |s|
    ensures |r| == |s|
    ensures r[to] == s[from]
    ensures RemoveAt(r, to) == RemoveAt(s, from)
    ensures multiset(r) == multiset(s)
    ensures from == to ==> r == s
  {
    MoveFacts(s, from, to);
    InsertAt(RemoveAt(s, from), to, s[from])
  }

  lemma MoveFacts<T>(s: seq<T>, from: nat, to: nat)
    requires from < |s| && to < |s|
    ensures RemoveAt(InsertAt(RemoveAt(s, from), to, s[from]), to) == RemoveAt(s, from)
    ensures multiset(InsertAt(RemoveAt(s, from), to, s[from])) == multiset(s)
    ensures from == to ==> InsertAt(RemoveAt(s, from), to, s[from]) == s
  {
    var rest := RemoveAt(s, from);
    var r := InsertAt(rest, to, s[from]);
    RemoveInserted(rest, to, s[from]);
    assert s == s[..from] + [s[from]] + s[from + 1..];
    assert r == rest[..to] + [s[from]] + rest[to..];
    assert rest == rest[..to] + rest[to..];
    assert rest == s[..from] + s[from + 1..];
    calc {
      multiset(r);
      multiset(rest[..to]) + multiset([s[from]]) + multiset(rest[to..]);
      multiset(rest) + multiset([s[from]]);
      multiset(s[..from]) + multiset(s[from + 1..]) + multiset([s[from]]);
      multiset(s);
    }
  }

  /** Putting an element back where it was taken out gives the sequence back. */
  lemma InsertRemoved<T>(s: seq<T>, i: nat)
    requires i < |s|
    ensures InsertAt(RemoveAt(s, i), i, s[i]) == s
  {
    var rest := RemoveAt(s, i);
    assert rest[..i] == s[..i];
    assert rest[i..] == s[i + 1..];
    assert s[..i] + [s[i]] + s[i + 1..] == s;
  }

  /** Moving the element back from `to` to `from` undoes a move. */
  lemma MoveBack<T>(s: seq<T>, from: nat, to: nat)
    requires from < |s| && to < |s|
    ensures Move(Move(s, from, to), to, from) == s
  {
    var r := Move(s, from, to);
    assert Move(r, to, from) == InsertAt(RemoveAt(s, from), from, s[from]);
    InsertRemoved(s, from);
  }
}
