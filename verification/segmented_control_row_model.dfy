/**
 * The first generation of segmented-control rows
 * (Authenticator/Source/SegmentedControlRowModel.swift). The token-type row
 * computes its segments once; the digit-count and algorithm rows keep the
 * current value and change action and compute segments and selection on
 * demand. The option tables are those of the token form rows.
 */
module SegmentedControlRowModel {
  import opened Wrappers
  import Tokens
  import opened SegmentedControl
  import opened TokenFormRows

  /** `TokenTypeRowModel.init(value:changeAction:)`. */
  function TokenTypeRowModel<A>(value: TokenType, changeAction: TokenType -> A): (r: RowViewModel<A>)
    ensures |r.segments| == 2
    ensures r.segments[0] == Segment("Time Based", changeAction(Timer))
    ensures r.segments[1] == Segment("Counter Based", changeAction(Counter))
    ensures value == Timer ==> r.selectedSegmentIndex == Some(0)
    ensures value == Counter ==> r.selectedSegmentIndex == Some(1)
  {
    assert TokenTypeOptions[0].value == Timer && TokenTypeOptions[1].value == Counter;
    Init(TokenTypeOptions, value, changeAction)
  }

  datatype DigitCountRowModel<A> = DigitCountRowModel(value: int, changeAction: int -> A)

  /** `DigitCountRowModel.segments`: three segments, each sending its digit count. */
  function DigitCountSegments<A>(m: DigitCountRowModel<A>): (r: seq<Segment<A>>)
    ensures |r| == 3
    ensures forall k :: 0 <= k < 3 ==> r[k].action == m.changeAction(6 + k)
    ensures r[0].title == "6 Digits" && r[1].title == "7 Digits" && r[2].title == "8 Digits"
  {
    Init(DigitCountOptions, m.value, m.changeAction).segments
  }

  /** `DigitCountRowModel.selectedSegmentIndex`: 6, 7, 8 select segments 0, 1, 2; any other count selects none. */
  function DigitCountSelectedIndex<A>(m: DigitCountRowModel<A>): (r: Option<nat>)
    ensures m.value == 6 ==> r == Some(0)
    ensures m.value == 7 ==> r == Some(1)
    ensures m.value == 8 ==> r == Some(2)
    ensures m.value !in {6, 7, 8} ==> r.None?
  {
    Init(DigitCountOptions, m.value, m.changeAction).selectedSegmentIndex
  }

  datatype AlgorithmRowModel<A> = AlgorithmRowModel(value: Tokens.Algorithm, changeAction: Tokens.Algorithm -> A)

  /** `AlgorithmRowModel.segments`: SHA-1, SHA-256, SHA-512, each sending its algorithm. */
  function AlgorithmSegments<A>(m: AlgorithmRowModel<A>): (r: seq<Segment<A>>)
    ensures |r| == 3
    ensures r[0] == Segment("SHA-1", m.changeAction(Tokens.SHA1))
    ensures r[1] == Segment("SHA-256", m.changeAction(Tokens.SHA256))
    ensures r[2] == Segment("SHA-512", m.changeAction(Tokens.SHA512))
  {
    Init(AlgorithmOptions, m.value, m.changeAction).segments
  }

  /** `AlgorithmRowModel.selectedSegmentIndex`: SHA-1, SHA-256, SHA-512 select segments 0, 1, 2. */
  function AlgorithmSelectedIndex<A>(m: AlgorithmRowModel<A>): (r: Option<nat>)
    ensures m.value == Tokens.SHA1 ==> r == Some(0)
    ensures m.value == Tokens.SHA256 ==> r == Some(1)
    ensures m.value == Tokens.SHA512 ==> r == Some(2)
  {
    Init(AlgorithmOptions, m.value, m.changeAction).selectedSegmentIndex
  }

  /**
   * Whatever the current value, the selected segment, when there is one,
   * sends that value again: the control never shows one value while standing
   * for another.
   */
  lemma SelectionMatchesValue<A>(d: DigitCountRowModel<A>, a: AlgorithmRowModel<A>)
    ensures DigitCountSelectedIndex(d).Some? ==>
      DigitCountSegments(d)[DigitCountSelectedIndex(d).value].action == d.changeAction(d.value)
    ensures AlgorithmSegments(a)[AlgorithmSelectedIndex(a).value].action == a.changeAction(a.value)
  {
    if DigitCountSelectedIndex(d).Some? {
      SelectedSegmentSendsCurrentValue(DigitCountOptions, d.value, d.changeAction);
    }
    assert AlgorithmSelectedIndex(a).Some?;
    SelectedSegmentSendsCurrentValue(AlgorithmOptions, a.value, a.changeAction);
  }
}
