/**
 * The view model of a segmented-control row (Authenticator/Source/SegmentedControlRow.swift):
 * one segment per option, each sending the change action for its option's
 * value, and the segment showing the current value selected.
 */
module SegmentedControl {
  import opened Wrappers

  /** One choice offered by the control: its title and the value it stands for. */
  datatype Choice<V> = Choice(title: string, value: V)

  datatype Segment<A> = Segment(title: string, action: A)

  datatype RowViewModel<A> = RowViewModel(segments: seq<Segment<A>>, selectedSegmentIndex: Option<nat>)

  /** Swift's `indexOf`: the first position holding `v`, or nothing when `v` does not occur. */
  function IndexOf<V(==)>(s: seq<V>, v: V): (r: Option<nat>)
    ensures r.None? <==> v !in s
    ensures r.Some? ==> r.value < |s| && s[r.value] == v
    ensures r.Some? ==> forall k :: 0 <= k < r.value ==> s[k] != v
  {
    if |s| == 0 then None
    else if s[0] == v then Some(0)
    else
      match IndexOf(s[1..], v)
      case None => None
      case Some(i) => Some(i + 1)
  }

  function ChoiceValue<V>(c: Choice<V>): V {
    c.value
  }

  function Values<V>(options: seq<Choice<V>>): (r: seq<V>)
    ensures |r| == |options|
    ensures forall k :: 0 <= k < |options| ==> r[k] == options[k].value
  {
    seq(|options|, k requires 0 <= k < |options| => ChoiceValue(options[k]))
  }

  /**
   * `init(options:value:changeAction:)`: the segments follow the options in
   * order, and the selected segment is the first option whose value is the
   * current one; with no such option nothing is selected.
   */
  function Init<V(==), A>(options: seq<Choice<V>>, value: V, changeAction: V -> A): (r: RowViewModel<A>)
    ensures |r.segments| == |options|
    ensures forall k :: 0 <= k < |options| ==>
      r.segments[k] == Segment(options[k].title, changeAction(options[k].value))
    ensures r.selectedSegmentIndex.None? <==> forall k :: 0 <= k < |options| ==> options[k].value != value
    ensures r.selectedSegmentIndex.Some? ==>
      && r.selectedSegmentIndex.value < |options|
      && options[r.selectedSegmentIndex.value].value == value
      && forall k :: 0 <= k < r.selectedSegmentIndex.value ==> options[k].value != value
  {
    var values := Values(options);
    var index := IndexOf(values, value);
    assert index.None? <==> forall k :: 0 <= k < |options| ==> options[k].value != value by {
      if index.None? {
        assert forall k :: 0 <= k < |options| ==> values[k] in values;
      } else {
        assert options[index.value].value == value;
      }
    }
    RowViewModel(
      seq(|options|, k requires 0 <= k < |options| => Segment(options[k].title, changeAction(options[k].value))),
      index)
  }

  /** Tapping the selected segment sends the change action for the current value. */
  lemma SelectedSegmentSendsCurrentValue<V, A>(options: seq<Choice<V>>, value: V, changeAction: V -> A)
    requires Init(options, value, changeAction).selectedSegmentIndex.Some?
    ensures var r := Init(options, value, changeAction);
      r.segments[r.selectedSegmentIndex.value].action == changeAction(value)
  {
  }
}
