/**
 * The rows of the token entry and edit forms
 * (Authenticator/Source/TokenFormRowModels.swift): three text fields (issuer,
 * account name, secret) and three segmented controls (token type, digit
 * count, algorithm) with their fixed option tables.
 *
 * The keyboard settings are UIKit enums; only the values the forms use are
 * named here.
 */
module TokenFormRows {
  import opened Wrappers
  import Tokens
  import opened SegmentedControl

  datatype TokenType = Counter | Timer

  datatype Autocapitalization = Words | NoAutocapitalization
  datatype Autocorrection = DefaultAutocorrection | NoAutocorrection
  datatype Keyboard = DefaultKeyboard | EmailAddressKeyboard
  datatype ReturnKey = Next | Done

  datatype TextFieldRowModel<A> = TextFieldRowModel(
    labelText: string,
    placeholder: string,
    autocapitalization: Autocapitalization,
    autocorrection: Autocorrection,
    keyboard: Keyboard,
    returnKey: ReturnKey,
    value: string,
    changeAction: string -> A)

  /** The issuer field: words capitalised, and the return key moves on to the next field. */
  function IssuerRow<A>(value: string, changeAction: string -> A): (r: TextFieldRowModel<A>)
    ensures r.value == value && r.changeAction == changeAction
    ensures r.labelText == "Issuer" && r.placeholder == "Some Website"
    ensures r.autocapitalization == Words && r.autocorrection == DefaultAutocorrection
    ensures r.keyboard == DefaultKeyboard
    ensures r.returnKey == Next
  {
    TextFieldRowModel("Issuer", "Some Website", Words, DefaultAutocorrection, DefaultKeyboard, Next, value, changeAction)
  }

  /** The account name field: an e-mail keyboard without corrections; the caller picks the return key. */
  function NameRow<A>(value: string, returnKey: ReturnKey, changeAction: string -> A): (r: TextFieldRowModel<A>)
    ensures r.value == value && r.changeAction == changeAction
    ensures r.labelText == "Account Name" && r.placeholder == "user@example.com"
    ensures r.autocapitalization == NoAutocapitalization && r.autocorrection == NoAutocorrection
    ensures r.keyboard == EmailAddressKeyboard
    ensures r.returnKey == returnKey
  {
    TextFieldRowModel("Account Name", "user@example.com", NoAutocapitalization, NoAutocorrection,
      EmailAddressKeyboard, returnKey, value, changeAction)
  }

  /** The secret field: no capitalisation or corrections, and the return key finishes the form. */
  function SecretRow<A>(value: string, changeAction: string -> A): (r: TextFieldRowModel<A>)
    ensures r.value == value && r.changeAction == changeAction
    ensures r.labelText == "Secret Key" && r.placeholder == "•••• •••• •••• ••••"
    ensures r.autocapitalization == NoAutocapitalization && r.autocorrection == NoAutocorrection
    ensures r.keyboard == DefaultKeyboard
    ensures r.returnKey == Done
  {
    TextFieldRowModel("Secret Key", "•••• •••• •••• ••••", NoAutocapitalization, NoAutocorrection,
      DefaultKeyboard, Done, value, changeAction)
  }

  // ---------------------------------------------------------------------
  // Option tables
  // ---------------------------------------------------------------------

  const TokenTypeOptions: seq<Choice<TokenType>> :=
    [Choice("Time Based", Timer), Choice("Counter Based", Counter)]

  const DigitCountOptions: seq<Choice<int>> :=
    [Choice("6 Digits", 6), Choice("7 Digits", 7), Choice("8 Digits", 8)]

  const AlgorithmOptions: seq<Choice<Tokens.Algorithm>> :=
    [Choice("SHA-1", Tokens.SHA1), Choice("SHA-256", Tokens.SHA256), Choice("SHA-512", Tokens.SHA512)]

  /** The token-type control: time based first, counter based second; every type is selectable. */
  function TokenTypeRow<A>(value: TokenType, changeAction: TokenType -> A): (r: RowViewModel<A>)
    ensures r.segments == [Segment("Time Based", changeAction(Timer)), Segment("Counter Based", changeAction(Counter))]
    ensures r.selectedSegmentIndex == Some(if value == Timer then 0 else 1)
  {
    assert TokenTypeOptions[0].value == Timer && TokenTypeOptions[1].value == Counter;
    Init(TokenTypeOptions, value, changeAction)
  }

  /** The digit-count control: 6, 7 and 8 digits in that order; any other count selects nothing. */
  function DigitCountRow<A>(value: int, changeAction: int -> A): (r: RowViewModel<A>)
    ensures r.segments ==
      [Segment("6 Digits", changeAction(6)), Segment("7 Digits", changeAction(7)), Segment("8 Digits", changeAction(8))]
    ensures 6 <= value <= 8 ==> r.selectedSegmentIndex == Some(value - 6)
    ensures !(6 <= value <= 8) ==> r.selectedSegmentIndex.None?
  {
    Init(DigitCountOptions, value, changeAction)
  }

  /** The algorithm control: SHA-1, SHA-256, SHA-512 in that order; every algorithm is selectable. */
  function AlgorithmRow<A>(value: Tokens.Algorithm, changeAction: Tokens.Algorithm -> A): (r: RowViewModel<A>)
    ensures r.segments ==
      [Segment("SHA-1", changeAction(Tokens.SHA1)), Segment("SHA-256", changeAction(Tokens.SHA256)),
       Segment("SHA-512", changeAction(Tokens.SHA512))]
    ensures r.selectedSegmentIndex == Some(match value case SHA1 => 0 case SHA256 => 1 case SHA512 => 2)
  {
    Init(AlgorithmOptions, value, changeAction)
  }
}
