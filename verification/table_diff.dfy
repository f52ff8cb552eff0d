/**
 * The row diff of Authenticator/Source/TableDiff.swift.
 *
 * `Diff(a, b, same)` builds an edit script turning the rows `a` into the rows
 * `b`, working from the END of both sequences so that the indices of earlier
 * rows stay valid while the script is applied. Two rows are "the same row"
 * when the caller's comparator says so; a matching pair becomes an `Update`.
 *
 * The script is read from its first element: the first change concerns the
 * last row of `a` or of `b`, the second change the last row of what remains,
 * and so on. `EditScript` states which scripts are valid in that reading, and
 * the lemmas show that `Diff` returns a valid script that no valid script
 * beats in length.
 */
module TableDiff {

  datatype Change =
    | Insert(index: nat)
    | Update(index: nat)
    | Delete(index: nat)
    | Move(fromIndex: nat, toIndex: nat)

  // ---------------------------------------------------------------------
  // Counting and projecting a script
  // ---------------------------------------------------------------------

  function Inserts(s: seq<Change>): nat {
    if |s| == 0 then 0 else (if s[0].Insert? then 1 else 0) + Inserts(s[1..])
  }

  function Updates(s: seq<Change>): nat {
    if |s| == 0 then 0 else (if s[0].Update? then 1 else 0) + Updates(s[1..])
  }

  function Deletes(s: seq<Change>): nat {
    if |s| == 0 then 0 else (if s[0].Delete? then 1 else 0) + Deletes(s[1..])
  }

  /** The indices into the target rows (those of `Insert`s and `Update`s), in script order. */
  function TargetIndices(s: seq<Change>): seq<nat> {
    if |s| == 0 then []
    else match s[0]
      case Insert(i) => [i] + TargetIndices(s[1..])
      case Update(i) => [i] + TargetIndices(s[1..])
      case _ => TargetIndices(s[1..])
  }

  /** The indices into the source rows that are deleted, in script order. */
  function DeleteIndices(s: seq<Change>): seq<nat> {
    if |s| == 0 then []
    else match s[0]
      case Delete(i) => [i] + DeleteIndices(s[1..])
      case _ => DeleteIndices(s[1..])
  }

  /** `[n - 1, n - 2, ..., 0]`: every index of an `n`-row table, last first. */
  function Countdown(n: nat): seq<nat> {
    if n == 0 then [] else [n - 1] + Countdown(n - 1)
  }

  predicate StrictlyDecreasing(s: seq<nat>) {
    forall i, j :: 0 <= i < j < |s| ==> s[i] > s[j]
  }

  predicate NoMoves(s: seq<Change>) {
    forall i :: 0 <= i < |s| ==> !s[i].Move?
  }

  // ---------------------------------------------------------------------
  // The diff
  // ---------------------------------------------------------------------

  /** The facts `Diff` promises about a script for `na` source and `nb` target rows. */
  predicate Accounts(r: seq<Change>, na: nat, nb: nat) {
    && Inserts(r) + Updates(r) == nb
    && Deletes(r) + Updates(r) == na
    && |r| == na + nb - Updates(r)
    && NoMoves(r)
    && TargetIndices(r) == Countdown(nb)
    && StrictlyDecreasing(DeleteIndices(r))
    && (forall k :: 0 <= k < |DeleteIndices(r)| ==> DeleteIndices(r)[k] < na)
  }

  lemma PrependUpdate(rest: seq<Change>, na: nat, nb: nat)
    requires na > 0 && nb > 0 && Accounts(rest, na - 1, nb - 1)
    ensures Accounts([Update(nb - 1)] + rest, na, nb)
  {
    assert ([Update(nb - 1)] + rest)[1..] == rest;
  }

  lemma PrependInsert(rest: seq<Change>, na: nat, nb: nat)
    requires nb > 0 && Accounts(rest, na, nb - 1)
    ensures Accounts([Insert(nb - 1)] + rest, na, nb)
  {
    assert ([Insert(nb - 1)] + rest)[1..] == rest;
  }

  lemma PrependDelete(rest: seq<Change>, na: nat, nb: nat)
    requires na > 0 && Accounts(rest, na - 1, nb)
    ensures Accounts([Delete(na - 1)] + rest, na, nb)
  {
    var r := [Delete(na - 1)] + rest;
    assert r[1..] == rest;
    assert DeleteIndices(r) == [na - 1] + DeleteIndices(rest);
  }

  /**
   * `diff(from:to:comparator:)`. A matching pair of last rows becomes an
   * `Update`; otherwise the shorter of "insert the last target row" and
   * "delete the last source row" is taken, deletion on a tie. The script has
   * at least one change per row of the longer side and at most one per row
   * of both.
   */
  function Diff<R>(a: seq<R>, b: seq<R>, same: (R, R) -> bool): (r: seq<Change>)
    ensures |a| <= |r| && |b| <= |r| && |r| <= |a| + |b|
    decreases |a| + |b|
  {
    if |a| > 0 && |b| > 0 then
      if same(a[|a| - 1], b[|b| - 1]) then
        [Update(|b| - 1)] + Diff(a[..|a| - 1], b[..|b| - 1], same)
      else
        var withInsertion := [Insert(|b| - 1)] + Diff(a, b[..|b| - 1], same);
        var withDeletion := [Delete(|a| - 1)] + Diff(a[..|a| - 1], b, same);
        if |withInsertion| < |withDeletion| then withInsertion else withDeletion
    else if |a| > 0 then
      [Delete(|a| - 1)] + Diff(a[..|a| - 1], b, same)
    else if |b| > 0 then
      [Insert(|b| - 1)] + Diff(a, b[..|b| - 1], same)
    else
      []
  }

  /**
   * Every target row is inserted or updated exactly once and every source row
   * is deleted or updated exactly once; target indices run from the last row
   * down to row 0, deleted source indices strictly decrease, and no `Move` is
   * ever produced.
   */
  lemma {:induction false} DiffAccounts<R>(a: seq<R>, b: seq<R>, same: (R, R) -> bool)
    ensures var r := Diff(a, b, same);
      && Inserts(r) + Updates(r) == |b|
      && Deletes(r) + Updates(r) == |a|
      && |r| == |a| + |b| - Updates(r)
      && NoMoves(r)
      && TargetIndices(r) == Countdown(|b|)
      && StrictlyDecreasing(DeleteIndices(r))
      && (forall k :: 0 <= k < |DeleteIndices(r)| ==> DeleteIndices(r)[k] < |a|)
    decreases |a| + |b|
  {
    DiffAccountsStep(a, b, same);
  }

  lemma {:induction false} DiffAccountsStep<R>(a: seq<R>, b: seq<R>, same: (R, R) -> bool)
    ensures Accounts(Diff(a, b, same), |a|, |b|)
    decreases |a| + |b|
  {
    if |a| > 0 && |b| > 0 {
      var a', b' := a[..|a| - 1], b[..|b| - 1];
      if same(a[|a| - 1], b[|b| - 1]) {
        DiffAccountsStep(a', b', same);
        PrependUpdate(Diff(a', b', same), |a|, |b|);
      } else {
        DiffAccountsStep(a, b', same);
        DiffAccountsStep(a', b, same);
        PrependInsert(Diff(a, b', same), |a|, |b|);
        PrependDelete(Diff(a', b, same), |a|, |b|);
      }
    } else if |a| > 0 {
      DiffAccountsStep(a[..|a| - 1], b, same);
      PrependDelete(Diff(a[..|a| - 1], b, same), |a|, |b|);
    } else if |b| > 0 {
      DiffAccountsStep(a, b[..|b| - 1], same);
      PrependInsert(Diff(a, b[..|b| - 1], same), |a|, |b|);
    }
  }

  // ---------------------------------------------------------------------
  // Valid edit scripts, read from the end of both row sequences
  // ---------------------------------------------------------------------

  /**
   * `s` turns `a` into `b`: each change removes the last row of the source
   * (`Delete`), produces the last row of the target (`Insert`), or pairs the
   * two last rows when the comparator accepts them (`Update`), always naming
   * the index of the row it acts on.
   */
  ghost predicate EditScript<R>(a: seq<R>, b: seq<R>, s: seq<Change>, same: (R, R) -> bool)
    decreases |s|
  {
    if |s| == 0 then |a| == 0 && |b| == 0
    else match s[0]
      case Update(i) =>
        && |a| > 0 && |b| > 0 && i == |b| - 1
        && same(a[|a| - 1], b[|b| - 1])
        && EditScript(a[..|a| - 1], b[..|b| - 1], s[1..], same)
      case Insert(i) =>
        |b| > 0 && i == |b| - 1 && EditScript(a, b[..|b| - 1], s[1..], same)
      case Delete(i) =>
        |a| > 0 && i == |a| - 1 && EditScript(a[..|a| - 1], b, s[1..], same)
      case Move(_, _) => false
  }

  /** The diff of two empty row lists is empty. */
  lemma DiffOfEmpty<R>(same: (R, R) -> bool)
    ensures Diff([], [], same) == []
  {
  }

  /** Diffing from no rows inserts every target row, last row first. */
  lemma {:induction false} DiffFromEmpty<R>(b: seq<R>, same: (R, R) -> bool)
    ensures |Diff([], b, same)| == |b|
    ensures forall k :: 0 <= k < |b| ==> Diff([], b, same)[k] == Insert(|b| - 1 - k)
    decreases |b|
  {
    if |b| > 0 {
      DiffFromEmpty(b[..|b| - 1], same);
    }
  }

  /** Diffing to no rows deletes every source row, last row first. */
  lemma {:induction false} DiffToEmpty<R>(a: seq<R>, same: (R, R) -> bool)
    ensures |Diff(a, [], same)| == |a|
    ensures forall k :: 0 <= k < |a| ==> Diff(a, [], same)[k] == Delete(|a| - 1 - k)
    decreases |a|
  {
    if |a| > 0 {
      DiffToEmpty(a[..|a| - 1], same);
    }
  }

  /** The diff is a valid edit script from `a` to `b`. */
  lemma {:induction false} DiffIsEditScript<R>(a: seq<R>, b: seq<R>, same: (R, R) -> bool)
    ensures EditScript(a, b, Diff(a, b, same), same)
    decreases |a| + |b|
  {
    var r := Diff(a, b, same);
    if |a| > 0 && |b| > 0 {
      if same(a[|a| - 1], b[|b| - 1]) {
        DiffIsEditScript(a[..|a| - 1], b[..|b| - 1], same);
        assert r[1..] == Diff(a[..|a| - 1], b[..|b| - 1], same);
      } else {
        DiffIsEditScript(a, b[..|b| - 1], same);
        DiffIsEditScript(a[..|a| - 1], b, same);
        if r[0].Insert? {
          assert r[1..] == Diff(a, b[..|b| - 1], same);
        } else {
          assert r[1..] == Diff(a[..|a| - 1], b, same);
        }
      }
    } else if |a| > 0 {
      DiffIsEditScript(a[..|a| - 1], b, same);
      assert r[1..] == Diff(a[..|a| - 1], b, same);
    } else if |b| > 0 {
      DiffIsEditScript(a, b[..|b| - 1], same);
      assert r[1..] == Diff(a, b[..|b| - 1], same);
    }
  }

  /** Dropping the last source row shortens the diff by at most one change, and never lengthens it. */
  lemma {:induction false} DiffDropSource<R>(a: seq<R>, b: seq<R>, same: (R, R) -> bool)
    requires |a| > 0
    ensures |Diff(a[..|a| - 1], b, same)| <= |Diff(a, b, same)| <= |Diff(a[..|a| - 1], b, same)| + 1
    decreases |a| + |b|
  {
    if |b| > 0 {
      var a', b' := a[..|a| - 1], b[..|b| - 1];
      DiffDropTarget(a', b, same);
      if !same(a[|a| - 1], b[|b| - 1]) {
        DiffDropSource(a, b', same);
      }
    }
  }

  /** Dropping the last target row shortens the diff by at most one change, and never lengthens it. */
  lemma {:induction false} DiffDropTarget<R>(a: seq<R>, b: seq<R>, same: (R, R) -> bool)
    requires |b| > 0
    ensures |Diff(a, b[..|b| - 1], same)| <= |Diff(a, b, same)| <= |Diff(a, b[..|b| - 1], same)| + 1
    decreases |a| + |b|
  {
    if |a| > 0 {
      var a', b' := a[..|a| - 1], b[..|b| - 1];
      DiffDropSource(a, b', same);
      if !same(a[|a| - 1], b[|b| - 1]) {
        DiffDropTarget(a', b, same);
      }
    }
  }

  /** No valid edit script is shorter than the diff. */
  lemma {:induction false} DiffIsShortest<R>(a: seq<R>, b: seq<R>, s: seq<Change>, same: (R, R) -> bool)
    requires EditScript(a, b, s, same)
    ensures |Diff(a, b, same)| <= |s|
    decreases |s|
  {
    if |s| > 0 {
      match s[0]
      case Update(_) =>
        DiffIsShortest(a[..|a| - 1], b[..|b| - 1], s[1..], same);
      case Insert(_) =>
        DiffIsShortest(a, b[..|b| - 1], s[1..], same);
        DiffDropTarget(a, b, same);
      case Delete(_) =>
        DiffIsShortest(a[..|a| - 1], b, s[1..], same);
        DiffDropSource(a, b, same);
    }
  }
}
