/** Sequence helpers shared by the table-update and token-list models. */
module Seqs {

  /** The elements of `s` that satisfy `keep`, in their original order. */
  function Filter<T>(s: seq<T>, keep: T -> bool): (r: seq<T>)
    ensures |r| <= |s|
    ensures forall k :: 0 <= k < |r| ==> keep(r[k])
  {
    if |s| == 0 then []
    else (if keep(s[0]) then [s[0]] else []) + Filter(s[1..], keep)
  }

  function Map<T, U>(s: seq<T>, f: T -> U): (r: seq<U>)
    ensures |r| == |s|
    ensures forall k :: 0 <= k < |s| ==> r[k] == f(s[k])
  {
    seq(|s|, k requires 0 <= k < |s| => f(s[k]))
  }

  lemma {:induction false} FilterAppend<T>(s: seq<T>, t: seq<T>, keep: T -> bool)
    ensures Filter(s + t, keep) == Filter(s, keep) + Filter(t, keep)
    decreases |s|
  {
    if |s| > 0 {
      assert (s + t)[1..] == s[1..] + t;
      FilterAppend(s[1..], t, keep);
    } else {
      assert s + t == t;
    }
  }

  lemma {:induction false} FilterNone<T>(s: seq<T>, keep: T -> bool)
    requires forall k :: 0 <= k < |s| ==> !keep(s[k])
    ensures Filter(s, keep) == []
    decreases |s|
  {
    if |s| > 0 {
      FilterNone(s[1..], keep);
    }
  }

  lemma {:induction false} FilterAll<T>(s: seq<T>, keep: T -> bool)
    requires forall k :: 0 <= k < |s| ==> keep(s[k])
    ensures Filter(s, keep) == s
    decreases |s|
  {
    if |s| > 0 {
      FilterAll(s[1..], keep);
    }
  }

  /** Filtering a concatenation whose middle part is all kept and whose outer parts are all dropped. */
  lemma FilterMiddle<T>(a: seq<T>, b: seq<T>, c: seq<T>, keep: T -> bool)
    requires forall k :: 0 <= k < |a| ==> !keep(a[k])
    requires forall k :: 0 <= k < |b| ==> keep(b[k])
    requires forall k :: 0 <= k < |c| ==> !keep(c[k])
    ensures Filter(a + b + c, keep) == b
  {
    FilterAppend(a + b, c, keep);
    FilterAppend(a, b, keep);
    FilterNone(a, keep);
    FilterAll(b, keep);
    FilterNone(c, keep);
  }

  /** `s` without its element at `i` (Swift's `remove(at:)`). */
  function RemoveAt<T>(s: seq<T>, i: nat): (r: seq<T>)
    requires i < |s|
    ensures |r| == |s| - 1
    ensures forall k :: 0 <= k < i ==> r[k] == s[k]
    ensures forall k :: i <= k < |r| ==> r[k] == s[k + 1]
    ensures multiset(r) + multiset{s[i]} == multiset(s)
  {
    assert s == s[..i] + [s[i]] + s[i + 1..];
    s[..i] + s[i + 1..]
  }

  /** `s` with `x` placed at index `i` (Swift's `insert(_:at:)`). */
  function InsertAt<T>(s: seq<T>, i: nat, x: T): (r: seq<T>)
    requires i <= |s|
    ensures |r| == |s| + 1
    ensures r[i] == x
    ensures forall k :: 0 <= k < i ==> r[k] == s[k]
    ensures forall k :: i < k < |r| ==> r[k] == s[k - 1]
    ensures multiset(r) == multiset(s) + multiset{x}
  {
    assert s == s[..i] + s[i..];
    s[..i] + [x] + s[i..]
  }

  /**
   * `s` with its element at `from` taken out and put back at `to`
   * (Swift's `remove(at:)` followed by `insert(_:at:)`): the moved element
   * lands at `to` and the others keep their relative order.
   */
  function MoveItem<T>(s: seq<T>, from: nat, to: nat): (r: seq<T>)
    requires from < |s| && to < |s|
    ensures |r| == |s|
    ensures r[to] == s[from]
    ensures RemoveAt(r, to) == RemoveAt(s, from)
    ensures multiset(r) == multiset(s)
  {
    var r := InsertAt(RemoveAt(s, from), to, s[from]);
    assert RemoveAt(r, to) == RemoveAt(s, from);
    r
  }

  /** Moving an element back to where it came from restores the sequence. */
  lemma MoveItemBack<T>(s: seq<T>, from: nat, to: nat)
    requires from < |s| && to < |s|
    ensures MoveItem(MoveItem(s, from, to), to, from) == s
  {
    var m := MoveItem(s, from, to);
    var back := MoveItem(m, to, from);
    assert RemoveAt(back, from) == RemoveAt(s, from);
    assert back[from] == s[from];
    forall k | 0 <= k < |s|
      ensures back[k] == s[k]
    {
      if k < from {
        assert back[k] == RemoveAt(back, from)[k];
      } else if k > from {
        assert back[k] == RemoveAt(back, from)[k - 1];
      }
    }
  }

  /** Moving commutes with mapping every element. */
  lemma MapRemoveAt<T, U>(s: seq<T>, i: nat, f: T -> U)
    requires i < |s|
    ensures Map(RemoveAt(s, i), f) == RemoveAt(Map(s, f), i)
  {
  }

  lemma MapMoveItem<T, U>(s: seq<T>, from: nat, to: nat, f: T -> U)
    requires from < |s| && to < |s|
    ensures Map(MoveItem(s, from, to), f) == MoveItem(Map(s, f), from, to)
  {
    var l, r := Map(MoveItem(s, from, to), f), MoveItem(Map(s, f), from, to);
    MapRemoveAt(MoveItem(s, from, to), to, f);
    MapRemoveAt(s, from, f);
    assert RemoveAt(l, to) == RemoveAt(r, to);
    forall k | 0 <= k < |l|
      ensures l[k] == r[k]
    {
      if k < to {
        assert l[k] == RemoveAt(l, to)[k];
        assert r[k] == RemoveAt(r, to)[k];
      } else if k > to {
        assert l[k] == RemoveAt(l, to)[k - 1];
        assert r[k] == RemoveAt(r, to)[k - 1];
      }
    }
  }

  /**
   * Every element whose key is `updated`'s becomes `updated`; every other
   * element stays where and what it was.
   */
  function ReplaceKeyed<T, K(==)>(s: seq<T>, key: T -> K, updated: T): (r: seq<T>)
    ensures |r| == |s|
    ensures forall k :: 0 <= k < |s| && key(s[k]) == key(updated) ==> r[k] == updated
    ensures forall k :: 0 <= k < |s| && key(s[k]) != key(updated) ==> r[k] == s[k]
  {
    Map(s, (x: T) => if key(x) == key(updated) then updated else x)
  }

  /** Replacing by key never changes the keys. */
  lemma ReplaceKeyedKeepsKeys<T, K>(s: seq<T>, key: T -> K, updated: T)
    ensures Map(ReplaceKeyed(s, key, updated), key) == Map(s, key)
  {
  }

  /** Replacing a second time with the same element changes nothing more. */
  lemma ReplaceKeyedIdempotent<T, K>(s: seq<T>, key: T -> K, updated: T)
    ensures ReplaceKeyed(ReplaceKeyed(s, key, updated), key, updated) == ReplaceKeyed(s, key, updated)
  {
    var once := ReplaceKeyed(s, key, updated);
    var twice := ReplaceKeyed(once, key, updated);
    forall k | 0 <= k < |s|
      ensures twice[k] == once[k]
    {
      if key(s[k]) == key(updated) {
        assert once[k] == updated;
      } else {
        assert once[k] == s[k];
      }
    }
  }

  /** `x` can be obtained from `y` by deleting elements. */
  ghost predicate Subsequence<T>(x: seq<T>, y: seq<T>)
    decreases |y|
  {
    if |x| == 0 then true
    else if |y| == 0 then false
    else if x[0] == y[0] then Subsequence(x[1..], y[1..])
    else Subsequence(x, y[1..])
  }

  lemma {:induction false} SubsequenceOfSelf<T>(s: seq<T>)
    ensures Subsequence(s, s)
    decreases |s|
  {
    if |s| > 0 {
      SubsequenceOfSelf(s[1..]);
    }
  }

  lemma {:induction false} SubsequenceTail<T>(x: seq<T>, y: seq<T>)
    requires |x| > 0 && Subsequence(x, y)
    ensures Subsequence(x[1..], y)
    decreases |x| + |y|
  {
    if x[0] != y[0] {
      SubsequenceTail(x, y[1..]);
    }
    SubsequenceDropFront(x[1..], y);
  }

  /** A subsequence of the tail is a subsequence of the whole. */
  lemma {:induction false} SubsequenceDropFront<T>(x: seq<T>, y: seq<T>)
    requires |y| > 0 && Subsequence(x, y[1..])
    ensures Subsequence(x, y)
    decreases |x| + |y|
  {
    if |x| > 0 && x[0] == y[0] {
      SubsequenceTail(x, y[1..]);
    }
  }

  lemma {:induction false} SubsequenceTransitive<T>(x: seq<T>, y: seq<T>, z: seq<T>)
    requires Subsequence(x, y) && Subsequence(y, z)
    ensures Subsequence(x, z)
    decreases |z|
  {
    if |x| > 0 {
      if y[0] == z[0] {
        if x[0] == y[0] {
          SubsequenceTransitive(x[1..], y[1..], z[1..]);
        } else {
          SubsequenceTransitive(x, y[1..], z[1..]);
        }
      } else {
        SubsequenceTransitive(x, y, z[1..]);
        SubsequenceDropFront(x, z);
      }
    }
  }

  /** Removing one element leaves a subsequence. */
  lemma {:induction false} RemoveAtIsSubsequence<T>(s: seq<T>, i: nat)
    requires i < |s|
    ensures Subsequence(RemoveAt(s, i), s)
    decreases |s|
  {
    var r := RemoveAt(s, i);
    if i == 0 {
      assert r == s[1..];
      SubsequenceOfSelf(s[1..]);
      SubsequenceDropFront(r, s);
    } else {
      assert r[0] == s[0];
      assert r[1..] == RemoveAt(s[1..], i - 1);
      RemoveAtIsSubsequence(s[1..], i - 1);
    }
  }

  /** Filtering keeps every kept value as often as it occurs, and no other value. */
  lemma {:induction false} FilterCounts<T>(s: seq<T>, keep: T -> bool)
    ensures forall x :: multiset(Filter(s, keep))[x] == if keep(x) then multiset(s)[x] else 0
    decreases |s|
  {
    if |s| > 0 {
      FilterCounts(s[1..], keep);
      assert s == [s[0]] + s[1..];
    }
  }

  /** Filtering keeps the relative order of what it keeps. */
  lemma {:induction false} FilterIsSubsequence<T>(s: seq<T>, keep: T -> bool)
    ensures Subsequence(Filter(s, keep), s)
    decreases |s|
  {
    if |s| > 0 {
      FilterIsSubsequence(s[1..], keep);
      var f := Filter(s, keep);
      if keep(s[0]) {
        assert f == [s[0]] + Filter(s[1..], keep);
        assert f[0] == s[0] && f[1..] == Filter(s[1..], keep);
      } else {
        assert f == Filter(s[1..], keep);
        SubsequenceDropFront(f, s);
      }
    }
  }
}
