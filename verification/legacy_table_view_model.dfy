/**
 * The older table view models of Authenticator/Classes: `BasicTableViewModel`
 * (Classes/TableViewModel.swift), which holds a grid of ready-made cells and
 * never has headers, and the default lookups every token form inherits
 * (Classes/TokenForm.swift), which read sections with optional header views.
 *
 * Cells and header views are UIKit objects; they are type parameters here.
 */
module LegacyTableViewModel {
  import opened Wrappers
  import TableViewModel

  /** `BasicTableViewModel`: one sequence of cells per section. */
  datatype BasicTableViewModel<C> = BasicTableViewModel(cells: seq<seq<C>>)

  /** `numberOfRowsInSection`: below the first or at or past the last section there are no rows. */
  function BasicNumberOfRowsInSection<C>(m: BasicTableViewModel<C>, section: int): (n: nat)
    ensures 0 <= section < |m.cells| ==> n == |m.cells[section]|
    ensures section < 0 || section >= |m.cells| ==> n == 0
  {
    if section < 0 then 0
    else if section >= |m.cells| then 0
    else |m.cells[section]|
  }

  /** `cellForRowAtIndexPath`: the stored cell, or nothing when either index is out of range. */
  function BasicCellForRow<C>(m: BasicTableViewModel<C>, section: int, row: int): (r: Option<C>)
    ensures r.Some? <==> 0 <= section < |m.cells| && 0 <= row < |m.cells[section]|
    ensures r.Some? ==> r.value == m.cells[section][row]
  {
    if section < 0 then None
    else if section >= |m.cells| then None
    else
      var sectionCells := m.cells[section];
      if row < 0 then None
      else if row >= |sectionCells| then None
      else Some(sectionCells[row])
  }

  /** `viewForHeaderInSection`: a basic table never has a header. */
  function BasicHeader<C, V>(m: BasicTableViewModel<C>, section: int): (r: Option<V>)
    ensures r.None?
  {
    None
  }

  /** The sections a basic table amounts to: the same rows, with no headers. */
  function AsSections<C, V>(m: BasicTableViewModel<C>): (s: seq<TableViewModel.Section<V, C>>)
    ensures |s| == |m.cells|
    ensures forall k :: 0 <= k < |s| ==> s[k].rows == m.cells[k] && s[k].header.None?
  {
    seq(|m.cells|, k requires 0 <= k < |m.cells| => TableViewModel.Section(None, m.cells[k]))
  }

  /**
   * A basic table answers every lookup as the general table view model does
   * for the same rows without headers.
   */
  lemma BasicAgreesWithSections<C, V>(m: BasicTableViewModel<C>, section: int, row: int)
    ensures BasicNumberOfRowsInSection(m, section) == TableViewModel.NumberOfRowsInSection(AsSections<C, V>(m), section)
    ensures BasicCellForRow(m, section, row) == TableViewModel.ModelForRow(AsSections<C, V>(m), section, row)
    ensures BasicHeader<C, V>(m, section) == TableViewModel.ModelForHeader(AsSections<C, V>(m), section)
  {
  }

  // ---------------------------------------------------------------------
  // The default lookups of a token form
  // ---------------------------------------------------------------------

  /** A token form's section: an optional header view and its cells. */
  type FormSection<V, C> = TableViewModel.Section<V, C>

  /** The default `numberOfRowsInSection` of a token form. */
  function FormNumberOfRowsInSection<V, C>(sections: seq<FormSection<V, C>>, section: int): (n: nat)
    ensures 0 <= section < |sections| ==> n == |sections[section].rows|
    ensures !(0 <= section < |sections|) ==> n == 0
  {
    if !(0 <= section < |sections|) then 0 else |sections[section].rows|
  }

  /** The default `cellForRowAtIndexPath` of a token form. */
  function FormCellForRow<V, C>(sections: seq<FormSection<V, C>>, section: int, row: int): (r: Option<C>)
    ensures r.Some? <==> 0 <= section < |sections| && 0 <= row < |sections[section].rows|
    ensures r.Some? ==> r.value == sections[section].rows[row]
  {
    if !(0 <= section < |sections|) then None
    else
      var s := sections[section];
      if !(0 <= row < |s.rows|) then None else Some(s.rows[row])
  }

  /** The default `viewForHeaderInSection` of a token form. */
  function FormHeader<V, C>(sections: seq<FormSection<V, C>>, section: int): (r: Option<V>)
    ensures !(0 <= section < |sections|) ==> r.None?
    ensures 0 <= section < |sections| ==> r == sections[section].header
  {
    if !(0 <= section < |sections|) then None else sections[section].header
  }

  /** The token form defaults and the newer generic table view model give the same answers. */
  lemma FormDefaultsAgree<V, C>(sections: seq<FormSection<V, C>>, section: int, row: int)
    ensures FormNumberOfRowsInSection(sections, section) == TableViewModel.NumberOfRowsInSection(sections, section)
    ensures FormCellForRow(sections, section, row) == TableViewModel.ModelForRow(sections, section, row)
    ensures FormHeader(sections, section) == TableViewModel.ModelForHeader(sections, section)
  {
  }
}
