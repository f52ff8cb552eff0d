/**
 * The display options screen (Authenticator/Source/DisplayOptions.swift): a
 * table with a single segmented-control row choosing how the digits of a
 * password are grouped, and a Done button.
 *
 * The screen's header model is an empty enum, so no header can be built; the
 * header type is left generic and every section has none.
 */
module DisplayOptions {
  import opened Wrappers
  import opened SegmentedControl
  import TableViewModel

  datatype Effect = SetDigitGroupSize(digitGroupSize: int) | Done

  datatype RowModel = SegmentedControlRow(identity: string, viewModel: RowViewModel<Effect>)

  type ViewModel<H> = TableViewModel.TableViewModel<H, RowModel, Effect>

  /** The identity of the one row. */
  const DigitGroupIdentity: string := "password.digitGroupSize"

  const DigitGroupOptions: seq<Choice<int>> := [Choice("•• •• ••", 2), Choice("••• •••", 3)]

  function SetDigitGroupSizeAction(size: int): Effect {
    SetDigitGroupSize(size)
  }

  /** `hasSameIdentity(as:)`: rows are compared by identity string only. */
  predicate HasSameIdentity(a: RowModel, b: RowModel) {
    a.identity == b.identity
  }

  /**
   * `digitGroupRowModel(currentValue:)`: groups of two, then groups of three;
   * each segment sets its size, and only sizes 2 and 3 select a segment.
   */
  function DigitGroupRowModel(currentValue: int): (r: RowModel)
    ensures r.identity == DigitGroupIdentity
    ensures r.viewModel.segments ==
      [Segment("•• •• ••", SetDigitGroupSize(2)), Segment("••• •••", SetDigitGroupSize(3))]
    ensures currentValue == 2 ==> r.viewModel.selectedSegmentIndex == Some(0)
    ensures currentValue == 3 ==> r.viewModel.selectedSegmentIndex == Some(1)
    ensures currentValue != 2 && currentValue != 3 ==> r.viewModel.selectedSegmentIndex.None?
  {
    SegmentedControlRow(DigitGroupIdentity, Init(DigitGroupOptions, currentValue, SetDigitGroupSizeAction))
  }

  /**
   * `viewModel(digitGroupSize:)`: titled "Display Options", one section with
   * the digit-group row, and Done both on the right bar button and on the
   * keyboard.
   */
  function ViewModelOf<H>(digitGroupSize: int): (vm: ViewModel<H>)
    ensures vm.title == "Display Options"
    ensures vm.leftBarButton.None?
    ensures vm.rightBarButton == Some(TableViewModel.BarButton(TableViewModel.Done, Done, true))
    ensures |vm.sections| == 1 && vm.sections[0].header.None?
    ensures vm.sections[0].rows == [DigitGroupRowModel(digitGroupSize)]
    ensures vm.doneKeyAction == Done
  {
    TableViewModel.TableViewModel(
      "Display Options",
      None,
      Some(TableViewModel.BarButton(TableViewModel.Done, Done, true)),
      [TableViewModel.Section(None, [DigitGroupRowModel(digitGroupSize)])],
      Done)
  }

  /**
   * The table shows exactly one row, at section 0 row 0, and tapping its
   * selected segment re-sends the current size.
   */
  lemma OnlyRowIsDigitGroupRow<H>(digitGroupSize: int, section: int, row: int)
    ensures var vm := ViewModelOf<H>(digitGroupSize);
      TableViewModel.ModelForRow(vm.sections, section, row) ==
        if section == 0 && row == 0 then Some(DigitGroupRowModel(digitGroupSize)) else None
    ensures var r := DigitGroupRowModel(digitGroupSize).viewModel;
      r.selectedSegmentIndex.Some? ==> r.segments[r.selectedSegmentIndex.value].action == SetDigitGroupSize(digitGroupSize)
  {
  }
}
