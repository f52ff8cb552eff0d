/**
 * Turning a list of row changes into the table-view calls that animate them:
 * the `UITableView` extension of Authenticator/Source/UITableView+Updates.swift
 * (index paths, scroll to the LAST inserted row) and the section-scoped
 * `UITableViewController` extension of
 * Authenticator/Source/UITableViewController+Updates.swift (row numbers in one
 * section, scroll to the FIRST inserted row).
 *
 * Each table-view call becomes a `TableEvent`, using the vocabulary of the
 * recording table view in AuthenticatorTests/MockTableView.swift; a call of
 * the caller's `updateRow` closure is recorded as `UpdateRow`.
 */
module TableUpdates {
  import opened Wrappers
  import opened Seqs

  /** A change between two versions of a table, with indices of type `I`. */
  datatype Change<I> =
    | Insert(index: I)
    | Update(oldIndex: I, newIndex: I)
    | Delete(index: I)

  datatype IndexPath = IndexPath(section: int, row: int)

  /** `IndexPath`'s `Comparable` order: by section, then by row. */
  predicate PathBefore(p: IndexPath, q: IndexPath) {
    p.section < q.section || (p.section == q.section && p.row < q.row)
  }

  /** Swift's `max(x, y)`: `y` unless `y` comes before `x`. */
  function PathMax(x: IndexPath, y: IndexPath): IndexPath {
    if PathBefore(y, x) then x else y
  }

  /** Swift's `min(x, y)`: `y` if it comes before `x`, else `x`. */
  function RowMin(x: int, y: int): int {
    if y < x then y else x
  }

  datatype TableEvent =
    | BeginUpdates
    | EndUpdates
    | InsertRow(path: IndexPath)
    | RemoveRow(path: IndexPath)
    | ReloadRow(path: IndexPath)
    | MoveRow(fromPath: IndexPath, toPath: IndexPath)
    | ScrollTo(path: IndexPath)
    | UpdateRow(path: IndexPath)

  // ---------------------------------------------------------------------
  // Classifying changes and events
  // ---------------------------------------------------------------------

  /** Inserts and deletes alter the order of the table and need animation. */
  predicate Animated<I>(c: Change<I>) {
    c.Insert? || c.Delete?
  }

  predicate IsUpdate<I>(c: Change<I>) {
    c.Update?
  }

  predicate NeedsAnimations<I>(changes: seq<Change<I>>) {
    exists k :: 0 <= k < |changes| && Animated(changes[k])
  }

  predicate HasInsert<I>(changes: seq<Change<I>>) {
    exists k :: 0 <= k < |changes| && changes[k].Insert?
  }

  /** The table-view call that carries out one change. */
  function EventFor(c: Change<IndexPath>): TableEvent {
    match c
    case Insert(p) => InsertRow(p)
    case Delete(p) => RemoveRow(p)
    case Update(_, p) => UpdateRow(p)
  }

  predicate IsRowOp(e: TableEvent) {
    e.InsertRow? || e.RemoveRow?
  }

  predicate IsUpdateRow(e: TableEvent) {
    e.UpdateRow?
  }

  /** The calls that belong inside a `beginUpdates`/`endUpdates` group. */
  predicate IsGroupEvent(e: TableEvent) {
    e.BeginUpdates? || e.EndUpdates? || e.InsertRow? || e.RemoveRow?
  }

  // ---------------------------------------------------------------------
  // UITableView.applyChanges(_:updateRow:)
  // ---------------------------------------------------------------------

  /** The body of the loop inside the updates group: inserts and deletes, updates skipped. */
  function GroupedRowOps(changes: seq<Change<IndexPath>>): (r: seq<TableEvent>)
    ensures forall k :: 0 <= k < |r| ==> IsRowOp(r[k])
  {
    if |changes| == 0 then []
    else
      (match changes[0]
       case Insert(p) => [InsertRow(p)]
       case Delete(p) => [RemoveRow(p)]
       case Update(_, _) => [])
      + GroupedRowOps(changes[1..])
  }

  function ApplyOrderChanges(changes: seq<Change<IndexPath>>): seq<TableEvent> {
    if NeedsAnimations(changes) then [BeginUpdates] + GroupedRowOps(changes) + [EndUpdates]
    else []
  }

  function ApplyRowUpdates(changes: seq<Change<IndexPath>>): (r: seq<TableEvent>)
    ensures forall k :: 0 <= k < |r| ==> r[k].UpdateRow?
  {
    if |changes| == 0 then []
    else
      (match changes[0]
       case Update(_, p) => [UpdateRow(p)]
       case _ => [])
      + ApplyRowUpdates(changes[1..])
  }

  /** The `reduce` step: keep the larger of the inserted path and the path so far. */
  function LastInsertedStep(acc: Option<IndexPath>, c: Change<IndexPath>): Option<IndexPath> {
    match c
    case Insert(p) => (match acc case None => Some(p) case Some(prev) => Some(PathMax(p, prev)))
    case _ => acc
  }

  /**
   * The left fold of `LastInsertedStep` from `acc`: nothing exactly when
   * there is nothing to start from and nothing is inserted; otherwise a path
   * that is the start or an inserted path and that no inserted path (nor the
   * start) comes after.
   */
  function LastInsertedFrom(acc: Option<IndexPath>, changes: seq<Change<IndexPath>>): (r: Option<IndexPath>)
    ensures r.None? <==> acc.None? && !HasInsert(changes)
    ensures r.Some? ==> acc == r || exists k :: 0 <= k < |changes| && changes[k] == Insert(r.value)
    ensures r.Some? && acc.Some? ==> !PathBefore(r.value, acc.value)
    ensures r.Some? ==> forall k :: 0 <= k < |changes| && changes[k].Insert? ==> !PathBefore(r.value, changes[k].index)
    decreases |changes|
  {
    if |changes| == 0 then acc
    else
      var r := LastInsertedFrom(LastInsertedStep(acc, changes[0]), changes[1..]);
      assert forall k :: 1 <= k < |changes| ==> changes[k] == changes[1..][k - 1];
      r
  }

  /** The table scrolls exactly when something was inserted, to the last inserted index path. */
  function ScrollToLastInsertedRow(changes: seq<Change<IndexPath>>): (r: seq<TableEvent>)
    ensures HasInsert(changes) <==> r != []
    ensures |r| <= 1
    ensures r != [] ==>
      && r[0].ScrollTo?
      && (exists k :: 0 <= k < |changes| && changes[k] == Insert(r[0].path))
      && (forall k :: 0 <= k < |changes| && changes[k].Insert? ==> !PathBefore(r[0].path, changes[k].index))
  {
    match LastInsertedFrom(None, changes)
    case Some(p) => [ScrollTo(p)]
    case None => []
  }

  /**
   * An empty change list touches nothing; otherwise the animated group, then
   * the row updates, then the scroll.
   */
  function ApplyChanges(changes: seq<Change<IndexPath>>): (r: seq<TableEvent>)
    ensures |changes| == 0 ==> r == []
  {
    if |changes| == 0 then []
    else ApplyOrderChanges(changes) + ApplyRowUpdates(changes) + ScrollToLastInsertedRow(changes)
  }

  // ---------------------------------------------------------------------
  // Properties of applyChanges
  // ---------------------------------------------------------------------

  lemma {:induction false} GroupedRowOpsAreTheAnimatedChanges(changes: seq<Change<IndexPath>>)
    ensures GroupedRowOps(changes) == Map(Filter(changes, Animated), EventFor)
    decreases |changes|
  {
    if |changes| > 0 {
      GroupedRowOpsAreTheAnimatedChanges(changes[1..]);
    }
  }

  lemma {:induction false} RowUpdatesAreTheUpdates(changes: seq<Change<IndexPath>>)
    ensures ApplyRowUpdates(changes) == Map(Filter(changes, IsUpdate), EventFor)
    decreases |changes|
  {
    if |changes| > 0 {
      RowUpdatesAreTheUpdates(changes[1..]);
    }
  }

  /** A begin/end updates group is performed exactly when some change is an insert or a delete, and it comes first. */
  lemma ApplyChangesGroupsIffAnimated(changes: seq<Change<IndexPath>>)
    ensures BeginUpdates in ApplyChanges(changes) <==> NeedsAnimations(changes)
    ensures EndUpdates in ApplyChanges(changes) <==> NeedsAnimations(changes)
    ensures NeedsAnimations(changes) ==> ApplyChanges(changes)[0] == BeginUpdates
  {
    var r := ApplyChanges(changes);
    if |changes| > 0 {
      var order, updates, scroll :=
        ApplyOrderChanges(changes), ApplyRowUpdates(changes), ScrollToLastInsertedRow(changes);
      assert r == order + updates + scroll;
      assert BeginUpdates !in updates && EndUpdates !in updates;
      assert BeginUpdates !in scroll && EndUpdates !in scroll;
      if NeedsAnimations(changes) {
        assert r[0] == BeginUpdates;
        assert EndUpdates == order[|order| - 1];
      } else {
        assert order == [];
      }
    } else {
      assert !NeedsAnimations(changes);
    }
  }

  /** The row operations of the updates group are the animated changes, in order. */
  lemma OrderChangesRowOps(changes: seq<Change<IndexPath>>)
    ensures Filter(ApplyOrderChanges(changes), IsRowOp) == Map(Filter(changes, Animated), EventFor)
  {
    GroupedRowOpsAreTheAnimatedChanges(changes);
    if NeedsAnimations(changes) {
      var ops := GroupedRowOps(changes);
      FilterAppend([BeginUpdates] + ops, [EndUpdates], IsRowOp);
      FilterAppend([BeginUpdates], ops, IsRowOp);
      FilterAll(ops, IsRowOp);
    } else {
      FilterNone(changes, Animated);
    }
  }

  /** Inside the group, exactly the inserts and deletes appear, in input order; updates never do. */
  lemma ApplyChangesRowOpsInOrder(changes: seq<Change<IndexPath>>)
    ensures Filter(ApplyChanges(changes), IsRowOp) == Map(Filter(changes, Animated), EventFor)
  {
    if |changes| == 0 {
      assert Filter(changes, Animated) == [];
    } else {
      var order, updates, scroll :=
        ApplyOrderChanges(changes), ApplyRowUpdates(changes), ScrollToLastInsertedRow(changes);
      OrderChangesRowOps(changes);
      FilterAppend(order + updates, scroll, IsRowOp);
      FilterAppend(order, updates, IsRowOp);
      FilterNone(updates, IsRowOp);
      FilterNone(scroll, IsRowOp);
    }
  }

  /** The updates group holds only the group's own calls. */
  lemma OrderChangesAreGroupEvents(changes: seq<Change<IndexPath>>)
    ensures forall k :: 0 <= k < |ApplyOrderChanges(changes)| ==> IsGroupEvent(ApplyOrderChanges(changes)[k])
  {
    if NeedsAnimations(changes) {
      var ops := GroupedRowOps(changes);
      assert ApplyOrderChanges(changes) == [BeginUpdates] + ops + [EndUpdates];
    }
  }

  /** `updateRow` runs once per update, with its new index path, in input order. */
  lemma ApplyChangesUpdatesInOrder(changes: seq<Change<IndexPath>>)
    ensures Filter(ApplyChanges(changes), IsUpdateRow) == Map(Filter(changes, IsUpdate), EventFor)
  {
    RowUpdatesAreTheUpdates(changes);
    if |changes| == 0 {
      assert Filter(changes, IsUpdate) == [];
    } else {
      var order, updates, scroll :=
        ApplyOrderChanges(changes), ApplyRowUpdates(changes), ScrollToLastInsertedRow(changes);
      OrderChangesAreGroupEvents(changes);
      FilterMiddle(order, updates, scroll, IsUpdateRow);
    }
  }

  /** In group calls, then `updateRow` calls, then scrolls, no group call follows an `updateRow` call. */
  lemma NoGroupEventAfterUpdates(order: seq<TableEvent>, updates: seq<TableEvent>, scroll: seq<TableEvent>)
    requires forall k :: 0 <= k < |order| ==> IsGroupEvent(order[k])
    requires forall k :: 0 <= k < |updates| ==> updates[k].UpdateRow?
    requires forall k :: 0 <= k < |scroll| ==> scroll[k].ScrollTo?
    ensures var r := order + updates + scroll;
      forall i, j :: 0 <= i < j < |r| && r[i].UpdateRow? ==> !IsGroupEvent(r[j])
  {
    var r := order + updates + scroll;
    forall i, j | 0 <= i < j < |r| && r[i].UpdateRow?
      ensures !IsGroupEvent(r[j])
    {
      if j < |order| + |updates| {
        assert r[j] == updates[j - |order|];
      } else {
        assert r[j] == scroll[j - |order| - |updates|];
      }
    }
  }

  /** Every `updateRow` call comes after the whole animated group has ended. */
  lemma ApplyChangesUpdatesAfterGroup(changes: seq<Change<IndexPath>>)
    ensures forall i, j ::
      0 <= i < j < |ApplyChanges(changes)| && ApplyChanges(changes)[i].UpdateRow? ==>
        !IsGroupEvent(ApplyChanges(changes)[j])
  {
    if |changes| > 0 {
      OrderChangesAreGroupEvents(changes);
      NoGroupEventAfterUpdates(ApplyOrderChanges(changes), ApplyRowUpdates(changes), ScrollToLastInsertedRow(changes));
    }
  }

  /**
   * The table scrolls exactly when something was inserted, as its last call,
   * to an inserted index path that no other inserted path comes after.
   */
  lemma ApplyChangesScrollsToLastInserted(changes: seq<Change<IndexPath>>)
    ensures var r := ApplyChanges(changes);
      HasInsert(changes) <==> |r| > 0 && r[|r| - 1].ScrollTo?
    ensures var r := ApplyChanges(changes);
      forall k :: 0 <= k < |r| - 1 ==> !r[k].ScrollTo?
    ensures var r := ApplyChanges(changes);
      |r| > 0 && r[|r| - 1].ScrollTo? ==>
        && (exists k :: 0 <= k < |changes| && changes[k] == Insert(r[|r| - 1].path))
        && (forall k :: 0 <= k < |changes| && changes[k].Insert? ==> !PathBefore(r[|r| - 1].path, changes[k].index))
  {
    var r := ApplyChanges(changes);
    if |changes| > 0 {
      var order, updates, scroll :=
        ApplyOrderChanges(changes), ApplyRowUpdates(changes), ScrollToLastInsertedRow(changes);
      assert r == order + updates + scroll;
      assert forall k :: 0 <= k < |order| ==> IsGroupEvent(order[k]);
      assert forall k :: 0 <= k < |order| + |updates| ==> !r[k].ScrollTo? by {
        forall k | 0 <= k < |order| + |updates|
          ensures !r[k].ScrollTo?
        {
          if k < |order| {
            assert r[k] == order[k];
          } else {
            assert r[k] == updates[k - |order|];
          }
        }
      }
    } else {
      assert !HasInsert(changes);
    }
  }

  /** A batch of updates alone performs no group and no scroll: only the `updateRow` calls. */
  lemma {:induction false} ApplyChangesUpdateOnly(changes: seq<Change<IndexPath>>)
    requires forall k :: 0 <= k < |changes| ==> changes[k].Update?
    ensures ApplyChanges(changes) == Map(changes, EventFor)
  {
    RowUpdatesAreTheUpdates(changes);
    FilterAll(changes, IsUpdate);
    assert !NeedsAnimations(changes);
    assert !HasInsert(changes);
  }

  // ---------------------------------------------------------------------
  // The section-scoped UITableViewController extension
  // ---------------------------------------------------------------------

  /** A row change in `section`, as an index-path change. */
  function ChangeInSection(c: Change<int>, section: int): Change<IndexPath> {
    match c
    case Insert(row) => Insert(IndexPath(section, row))
    case Update(oldRow, row) => Update(IndexPath(section, oldRow), IndexPath(section, row))
    case Delete(row) => Delete(IndexPath(section, row))
  }

  function SectionRowOps(changes: seq<Change<int>>, section: int): seq<TableEvent> {
    if |changes| == 0 then []
    else
      (match changes[0]
       case Insert(row) => [InsertRow(IndexPath(section, row))]
       case Delete(row) => [RemoveRow(IndexPath(section, row))]
       case Update(_, _) => [])
      + SectionRowOps(changes[1..], section)
  }

  function ApplyOrderChangesInSection(changes: seq<Change<int>>, section: int): seq<TableEvent> {
    if NeedsAnimations(changes) then
      [BeginUpdates] + SectionRowOps(changes, section) + [EndUpdates]
    else []
  }

  function ApplyRowUpdatesInSection(changes: seq<Change<int>>, section: int): seq<TableEvent> {
    if |changes| == 0 then []
    else
      (match changes[0]
       case Update(_, row) => [UpdateRow(IndexPath(section, row))]
       case _ => [])
      + ApplyRowUpdatesInSection(changes[1..], section)
  }

  /** The `reduce` step: keep the smaller of the inserted row and the row so far. */
  function FirstInsertedStep(acc: Option<int>, c: Change<int>): Option<int> {
    match c
    case Insert(row) => (match acc case None => Some(row) case Some(prev) => Some(RowMin(row, prev)))
    case _ => acc
  }

  /**
   * The left fold of `FirstInsertedStep` from `acc`: nothing exactly when
   * there is nothing to start from and nothing is inserted; otherwise the
   * start or an inserted row, no larger than the start or any inserted row.
   */
  function FirstInsertedFrom(acc: Option<int>, changes: seq<Change<int>>): (r: Option<int>)
    ensures r.None? <==> acc.None? && !HasInsert(changes)
    ensures r.Some? ==> acc == r || exists k :: 0 <= k < |changes| && changes[k] == Insert(r.value)
    ensures r.Some? && acc.Some? ==> r.value <= acc.value
    ensures r.Some? ==> forall k :: 0 <= k < |changes| && changes[k].Insert? ==> r.value <= changes[k].index
    decreases |changes|
  {
    if |changes| == 0 then acc
    else
      var r := FirstInsertedFrom(FirstInsertedStep(acc, changes[0]), changes[1..]);
      assert forall k :: 1 <= k < |changes| ==> changes[k] == changes[1..][k - 1];
      r
  }

  /**
   * The controller scrolls exactly when something was inserted, to the
   * smallest inserted row of the section.
   */
  function ScrollToFirstInsertedRow(changes: seq<Change<int>>, section: int): (r: seq<TableEvent>)
    ensures HasInsert(changes) <==> r != []
    ensures |r| <= 1
    ensures r != [] ==>
      && r[0].ScrollTo? && r[0].path.section == section
      && (exists k :: 0 <= k < |changes| && changes[k] == Insert(r[0].path.row))
      && (forall k :: 0 <= k < |changes| && changes[k].Insert? ==> r[0].path.row <= changes[k].index)
  {
    match FirstInsertedFrom(None, changes)
    case Some(row) => [ScrollTo(IndexPath(section, row))]
    case None => []
  }

  /**
   * The section-scoped order changes are the index-path order changes of the
   * same changes placed in that section.
   */
  lemma {:induction false} OrderChangesInSectionAgree(changes: seq<Change<int>>, section: int)
    ensures ApplyOrderChangesInSection(changes, section)
      == ApplyOrderChanges(Map(changes, c => ChangeInSection(c, section)))
    decreases |changes|
  {
    var placed := Map(changes, c => ChangeInSection(c, section));
    SectionRowOpsAgree(changes, section);
    assert NeedsAnimations(changes) ==> NeedsAnimations(placed) by {
      if NeedsAnimations(changes) {
        var k :| 0 <= k < |changes| && Animated(changes[k]);
        assert Animated(placed[k]);
      }
    }
    assert NeedsAnimations(placed) ==> NeedsAnimations(changes) by {
      if NeedsAnimations(placed) {
        var k :| 0 <= k < |placed| && Animated(placed[k]);
        assert Animated(changes[k]);
      }
    }
  }

  lemma {:induction false} SectionRowOpsAgree(changes: seq<Change<int>>, section: int)
    ensures SectionRowOps(changes, section) == GroupedRowOps(Map(changes, c => ChangeInSection(c, section)))
    decreases |changes|
  {
    if |changes| > 0 {
      SectionRowOpsAgree(changes[1..], section);
      assert Map(changes, c => ChangeInSection(c, section))[1..] == Map(changes[1..], c => ChangeInSection(c, section));
    }
  }

  /** Section-scoped row updates are the index-path row updates of the same changes in that section. */
  lemma {:induction false} RowUpdatesInSectionAgree(changes: seq<Change<int>>, section: int)
    ensures ApplyRowUpdatesInSection(changes, section)
      == ApplyRowUpdates(Map(changes, c => ChangeInSection(c, section)))
    decreases |changes|
  {
    if |changes| > 0 {
      RowUpdatesInSectionAgree(changes[1..], section);
      assert Map(changes, c => ChangeInSection(c, section))[1..] == Map(changes[1..], c => ChangeInSection(c, section));
    }
  }
}
