/**
 * The view-model part of Authenticator/Source/DisplayOptionsViewController.swift:
 * a titled digit-grouping row, the row family with its identity, and the
 * table the controller builds from the display options.
 */
module DisplayOptionsViewController {
  import opened Wrappers
  import opened SegmentedControl
  import TableViewModel
  import DisplayOptions

  /** A segmented control with a title over it. */
  datatype DigitGroupingRowViewModel<A> = DigitGroupingRowViewModel(
    title: string,
    segments: seq<Segment<A>>,
    selectedSegmentIndex: Option<nat>)

  /**
   * `DigitGroupingRowViewModel.init`: one segment per option in order, each
   * sending the change action for its value; the first option holding the
   * current value is selected, and none when no option holds it.
   */
  function TitledRow<V(==), A>(title: string, options: seq<Choice<V>>, value: V, changeAction: V -> A)
    : (r: DigitGroupingRowViewModel<A>)
    ensures r.title == title
    ensures |r.segments| == |options|
    ensures forall k :: 0 <= k < |options| ==>
      r.segments[k] == Segment(options[k].title, changeAction(options[k].value))
    ensures r.selectedSegmentIndex.None? <==> forall k :: 0 <= k < |options| ==> options[k].value != value
    ensures r.selectedSegmentIndex.Some? ==>
      && r.selectedSegmentIndex.value < |options|
      && options[r.selectedSegmentIndex.value].value == value
      && forall k :: 0 <= k < r.selectedSegmentIndex.value ==> options[k].value != value
  {
    var control := Init(options, value, changeAction);
    DigitGroupingRowViewModel(title, control.segments, control.selectedSegmentIndex)
  }

  datatype RowModel = DigitGroupingRow(identity: string, viewModel: DigitGroupingRowViewModel<DisplayOptions.Effect>)

  /** `hasSameIdentity(as:)`: rows are compared by identity string only. */
  predicate HasSameIdentity(a: RowModel, b: RowModel) {
    a.identity == b.identity
  }

  /** `digitGroupRowModel(currentValue:)`: the same choices as the display options row, titled "Digit Grouping". */
  function DigitGroupRowModel(currentValue: int): (r: RowModel)
    ensures r.identity == DisplayOptions.DigitGroupIdentity
    ensures r.viewModel.title == "Digit Grouping"
    ensures |r.viewModel.segments| == 2
    ensures r.viewModel.segments[0] == Segment("•• •• ••", DisplayOptions.SetDigitGroupSize(2))
    ensures r.viewModel.segments[1] == Segment("••• •••", DisplayOptions.SetDigitGroupSize(3))
  {
    DigitGroupingRow(DisplayOptions.DigitGroupIdentity,
      TitledRow("Digit Grouping", DisplayOptions.DigitGroupOptions, currentValue,
        DisplayOptions.SetDigitGroupSizeAction))
  }

  /** `internalViewModel(for:)`: the controller's table for the display options' digit group size. */
  function InternalViewModel<H>(digitGroupSize: int): (vm: TableViewModel.TableViewModel<H, RowModel, DisplayOptions.Effect>)
    ensures vm.title == "Display Options"
    ensures vm.leftBarButton.None?
    ensures vm.rightBarButton == Some(TableViewModel.BarButton(TableViewModel.Done, DisplayOptions.Done, true))
    ensures |vm.sections| == 1 && vm.sections[0].header.None?
    ensures vm.sections[0].rows == [DigitGroupRowModel(digitGroupSize)]
    ensures vm.doneKeyAction == DisplayOptions.Done
  {
    TableViewModel.TableViewModel(
      "Display Options",
      None,
      Some(TableViewModel.BarButton(TableViewModel.Done, DisplayOptions.Done, true)),
      [TableViewModel.Section(None, [DigitGroupRowModel(digitGroupSize)])],
      DisplayOptions.Done)
  }

  /**
   * The controller's table and the display options' own view model agree on
   * everything but the row's title: the same screen title, buttons, done
   * action, row identity, segments and selection.
   */
  lemma InternalViewModelMatchesDisplayOptions<H>(digitGroupSize: int)
    ensures var mine, theirs := InternalViewModel<H>(digitGroupSize), DisplayOptions.ViewModelOf<H>(digitGroupSize);
      && mine.title == theirs.title
      && mine.rightBarButton == theirs.rightBarButton
      && mine.doneKeyAction == theirs.doneKeyAction
      && |mine.sections| == |theirs.sections| == 1
      && |mine.sections[0].rows| == |theirs.sections[0].rows| == 1
      && mine.sections[0].rows[0].identity == theirs.sections[0].rows[0].identity
      && mine.sections[0].rows[0].viewModel.segments == theirs.sections[0].rows[0].viewModel.segments
      && mine.sections[0].rows[0].viewModel.selectedSegmentIndex
         == theirs.sections[0].rows[0].viewModel.selectedSegmentIndex
  {
  }
}
