/**
 * Table view models: a title, optional bar buttons, sections of rows, and
 * the action of the keyboard's Done key, together with the bounds-checked
 * lookups a table view makes (Authenticator/Source/TableViewModel.swift).
 *
 * Section and row indices arrive from UIKit as signed integers, so they are
 * `int` here and every lookup checks both ends.
 */
module TableViewModel {
  import opened Wrappers

  datatype BarButtonStyle = Cancel | Done

  /**
   * A navigation bar button. The button's own declaration is not part of
   * this model; a button built without `enabled` is taken to be enabled.
   */
  datatype BarButton<A> = BarButton(style: BarButtonStyle, action: A, enabled: bool)

  datatype Section<H, R> = Section(header: Option<H>, rows: seq<R>)

  datatype TableViewModel<H, R, A> = TableViewModel(
    title: string,
    leftBarButton: Option<BarButton<A>>,
    rightBarButton: Option<BarButton<A>>,
    sections: seq<Section<H, R>>,
    doneKeyAction: A)

  predicate InRange<T>(s: seq<T>, i: int) {
    0 <= i < |s|
  }

  /** `numberOfRowsInSection`: the section's row count, or 0 for a section that does not exist. */
  function NumberOfRowsInSection<H, R>(sections: seq<Section<H, R>>, section: int): (n: nat)
    ensures InRange(sections, section) ==> n == |sections[section].rows|
    ensures !InRange(sections, section) ==> n == 0
  {
    if InRange(sections, section) then |sections[section].rows| else 0
  }

  /**
   * `modelForRowAtIndexPath`: the row at that position, or nothing when
   * either the section or the row is out of range.
   */
  function ModelForRow<H, R>(sections: seq<Section<H, R>>, section: int, row: int): (r: Option<R>)
    ensures r.Some? <==> InRange(sections, section) && InRange(sections[section].rows, row)
    ensures r.Some? ==> r.value == sections[section].rows[row]
  {
    if !InRange(sections, section) then None
    else
      var rows := sections[section].rows;
      if !InRange(rows, row) then None else Some(rows[row])
  }

  /** `modelForHeaderInSection`: the section's header, or nothing for a section that does not exist. */
  function ModelForHeader<H, R>(sections: seq<Section<H, R>>, section: int): (r: Option<H>)
    ensures !InRange(sections, section) ==> r.None?
    ensures InRange(sections, section) ==> r == sections[section].header
  {
    if InRange(sections, section) then sections[section].header else None
  }

  /**
   * The two lookups agree: a row exists at a position exactly when its index
   * is below the row count the table was told, so a table view that asks only
   * for counted rows always gets one.
   */
  lemma RowLookupMatchesRowCount<H, R>(sections: seq<Section<H, R>>, section: int, row: int)
    ensures ModelForRow(sections, section, row).Some? <==> 0 <= row < NumberOfRowsInSection(sections, section)
  {
  }

  /** Reading every counted row of a section, in order, gives back the section's rows. */
  lemma CountedRowsAreTheRows<H, R>(sections: seq<Section<H, R>>, section: int)
    requires InRange(sections, section)
    ensures var n := NumberOfRowsInSection(sections, section);
      seq(n, row requires 0 <= row < n => ModelForRow(sections, section, row).value) == sections[section].rows
  {
  }
}
