/**
 * The form for adding a token by hand (Authenticator/Source/TokenEntryForm.swift):
 * the values typed so far, whether the advanced options are shown, whether
 * the last submission failed, the table the form shows, and its action
 * handler.
 *
 * Decoding the secret from base32 (`NSData(base32String:)`) and the
 * OneTimePassword library's validation of a generator are outside the model
 * and passed in: `decode` gives the secret's bytes, or nothing when the text
 * is not base32; `accepts` says whether the library builds the generator.
 */
module TokenEntryForm {
  import opened Wrappers
  import Tokens
  import opened TableViewModel
  import opened TokenFormRows
  import SegmentedControlRowModel
  import SegmentedControl
  import Form

  datatype State = State(
    issuer: string,
    name: string,
    secret: string,
    tokenType: TokenType,
    digitCount: int,
    algorithm: Tokens.Algorithm,
    showsAdvancedOptions: bool,
    submitFailed: bool)

  /**
   * What the form asks of its parent. The case names are those of the app
   * action the form returns; the root component receives them as the form's
   * `Cancel` and `SaveNewToken` effects.
   */
  datatype Effect = CancelTokenEntry | SaveNewToken(token: Tokens.Token)

  /** The form's table and the error line shown under it. */
  datatype ViewModel = ViewModel(
    table: TableViewModel<Form.HeaderModel, Form.RowModel, Form.Action>,
    errorMessage: Option<string>)

  /** The factors a new token starts with. */
  const DefaultTimerFactor: Tokens.Factor := Tokens.Timer(30)
  const DefaultCounterFactor: Tokens.Factor := Tokens.Counter(0)

  /** `isValid`: a secret, and an issuer or a name. */
  predicate IsValid(s: State) {
    |s.secret| > 0 && !(|s.issuer| == 0 && |s.name| == 0)
  }

  /** `init()`: everything empty, a 6-digit SHA-1 timer token, advanced options hidden, no failure. */
  function Init(): (s: State)
    ensures s.issuer == "" && s.name == "" && s.secret == ""
    ensures s.tokenType == Timer && s.digitCount == 6 && s.algorithm == Tokens.SHA1
    ensures !s.showsAdvancedOptions && !s.submitFailed
    ensures !IsValid(s)
  {
    State("", "", "", Timer, 6, Tokens.SHA1, false, false)
  }

  // ---------------------------------------------------------------------
  // View model
  // ---------------------------------------------------------------------

  function IssuerChanged(value: string): Form.Action { Form.Issuer(value) }
  function NameChanged(value: string): Form.Action { Form.Name(value) }
  function SecretChanged(value: string): Form.Action { Form.Secret(value) }
  function TokenTypeChanged(value: TokenType): Form.Action { Form.TokenType(value) }
  function DigitCountChanged(value: int): Form.Action { Form.DigitCount(value) }
  function AlgorithmChanged(value: Tokens.Algorithm): Form.Action { Form.Algorithm(value) }

  /**
   * The three rows shown only once the advanced options are open: the token
   * type, digit count and algorithm controls showing the state's choices.
   * They are the rows the shared form-row builders make for those values.
   */
  function AdvancedRows(s: State): (rows: seq<Form.RowModel>)
    ensures rows == [
      Form.TokenTypeRow(TokenFormRows.TokenTypeRow(s.tokenType, TokenTypeChanged)),
      Form.DigitCountRow(TokenFormRows.DigitCountRow(s.digitCount, DigitCountChanged)),
      Form.AlgorithmRow(TokenFormRows.AlgorithmRow(s.algorithm, AlgorithmChanged))]
  {
    var digits := SegmentedControlRowModel.DigitCountRowModel(s.digitCount, DigitCountChanged);
    var algorithm := SegmentedControlRowModel.AlgorithmRowModel(s.algorithm, AlgorithmChanged);
    [
      Form.TokenTypeRow(SegmentedControlRowModel.TokenTypeRowModel(s.tokenType, TokenTypeChanged)),
      Form.DigitCountRow(SegmentedControl.RowViewModel(
        SegmentedControlRowModel.DigitCountSegments(digits), SegmentedControlRowModel.DigitCountSelectedIndex(digits))),
      Form.AlgorithmRow(SegmentedControl.RowViewModel(
        SegmentedControlRowModel.AlgorithmSegments(algorithm), SegmentedControlRowModel.AlgorithmSelectedIndex(algorithm)))
    ]
  }

  /**
   * `viewModel`: "Add Token" with Cancel on the left and Done on the right,
   * Done enabled exactly when the form is valid; the issuer, name and secret
   * fields holding the typed values; an "Advanced Options" section that is
   * empty until opened; and "Invalid Token" under the table after a failed
   * submission.
   */
  function ViewModelOf(s: State): (vm: ViewModel)
    ensures vm.table.title == "Add Token"
    ensures vm.table.leftBarButton == Some(BarButton(Cancel, Form.Cancel, true))
    ensures vm.table.rightBarButton.Some? && vm.table.rightBarButton.value.style == BarButtonStyle.Done
    ensures vm.table.rightBarButton.value.action == Form.Submit
    ensures vm.table.rightBarButton.value.enabled <==> IsValid(s)
    ensures vm.table.doneKeyAction == Form.Submit
    ensures |vm.table.sections| == 2
    ensures |vm.table.sections[0].rows| == 3
    ensures forall k :: 0 <= k < 3 ==> vm.table.sections[0].rows[k].TextFieldRow?
    ensures vm.table.sections[0].rows[0].textField.value == s.issuer
    ensures vm.table.sections[0].rows[1].textField.value == s.name
    ensures vm.table.sections[0].rows[2].textField.value == s.secret
    ensures vm.table.sections[1].header == Some(Form.ButtonHeader("Advanced Options", Form.ShowAdvancedOptions))
    ensures |vm.table.sections[1].rows| == 0 <==> !s.showsAdvancedOptions
    ensures s.showsAdvancedOptions ==> vm.table.sections[1].rows == AdvancedRows(s)
    ensures vm.errorMessage.Some? <==> s.submitFailed
    ensures vm.errorMessage.Some? ==> vm.errorMessage.value == "Invalid Token"
  {
    var textRows := [
      Form.TextFieldRow(IssuerRow(s.issuer, IssuerChanged)),
      Form.TextFieldRow(NameRow(s.name, Next, NameChanged)),
      Form.TextFieldRow(SecretRow(s.secret, SecretChanged))
    ];
    var advanced := Section(
      Some(Form.ButtonHeader("Advanced Options", Form.ShowAdvancedOptions)),
      if !s.showsAdvancedOptions then [] else AdvancedRows(s));
    ViewModel(
      TableViewModel(
        "Add Token",
        Some(BarButton(Cancel, Form.Cancel, true)),
        Some(BarButton(BarButtonStyle.Done, Form.Submit, IsValid(s))),
        [Section(None, textRows), advanced],
        Form.Submit),
      if s.submitFailed then Some("Invalid Token") else None)
  }

  // ---------------------------------------------------------------------
  // Actions
  // ---------------------------------------------------------------------

  /** The factor a new token of the chosen type starts with. */
  function DefaultFactor(tokenType: TokenType): (f: Tokens.Factor)
    ensures tokenType == Counter ==> f == Tokens.Counter(0)
    ensures tokenType == Timer ==> f == Tokens.Timer(30)
  {
    match tokenType
    case Counter => DefaultCounterFactor
    case Timer => DefaultTimerFactor
  }

  /**
   * `submit()`. An invalid form does nothing. A valid form whose secret
   * decodes to at least one byte, and whose generator the library accepts,
   * asks to save the new token, built from the form's values and the default
   * factor of its type. Any other valid submission marks the form as failed.
   */
  function Submit(s: State, decode: string -> Option<Tokens.Bytes>, accepts: Tokens.Generator -> bool)
    : (r: (State, Option<Effect>))
    ensures !IsValid(s) ==> r == (s, None)
    ensures r.1.Some? ==> r.0 == s && r.1.value.SaveNewToken?
    ensures r.1.None? && IsValid(s) ==> r.0 == s.(submitFailed := true)
    ensures r.1.Some? <==>
      && IsValid(s)
      && decode(s.secret).Some? && |decode(s.secret).value| > 0
      && accepts(Tokens.Generator(DefaultFactor(s.tokenType), decode(s.secret).value, s.algorithm, s.digitCount))
    ensures r.1.Some? ==>
      var token := r.1.value.token;
      && token.name == s.name && token.issuer == s.issuer
      && token.generator.factor == (if s.tokenType == Counter then Tokens.Counter(0) else Tokens.Timer(30))
      && token.generator.secret == decode(s.secret).value
      && token.generator.algorithm == s.algorithm
      && token.generator.digits == s.digitCount
  {
    if !IsValid(s) then (s, None)
    else
      match decode(s.secret)
      case Some(secret) =>
        if |secret| > 0 then
          var generator := Tokens.Generator(DefaultFactor(s.tokenType), secret, s.algorithm, s.digitCount);
          if accepts(generator) then
            (s, Some(SaveNewToken(Tokens.Token(s.name, s.issuer, generator))))
          else
            (s.(submitFailed := true), None)
        else
          (s.(submitFailed := true), None)
      case None => (s.(submitFailed := true), None)
  }

  /**
   * `handleAction(_:)`. A field action sets that one field and nothing else,
   * opening the advanced options sets only that flag, and none of these has an
   * effect; Cancel asks the parent to close the form and changes nothing.
   */
  function HandleAction(s: State, action: Form.Action, decode: string -> Option<Tokens.Bytes>,
                        accepts: Tokens.Generator -> bool): (r: (State, Option<Effect>))
    ensures action.Issuer? ==> r == (s.(issuer := action.issuer), None)
    ensures action.Name? ==> r == (s.(name := action.name), None)
    ensures action.Secret? ==> r == (s.(secret := action.secret), None)
    ensures action.TokenType? ==> r == (s.(tokenType := action.tokenType), None)
    ensures action.DigitCount? ==> r == (s.(digitCount := action.digitCount), None)
    ensures action.Algorithm? ==> r == (s.(algorithm := action.algorithm), None)
    ensures action.ShowAdvancedOptions? ==> r == (s.(showsAdvancedOptions := true), None)
    ensures action.Cancel? ==> r == (s, Some(CancelTokenEntry))
    ensures action.Submit? ==> r == Submit(s, decode, accepts)
    ensures r.0.showsAdvancedOptions == (s.showsAdvancedOptions || action.ShowAdvancedOptions?)
  {
    match action
    case Issuer(value) => (s.(issuer := value), None)
    case Name(value) => (s.(name := value), None)
    case Secret(value) => (s.(secret := value), None)
    case TokenType(value) => (s.(tokenType := value), None)
    case DigitCount(value) => (s.(digitCount := value), None)
    case Algorithm(value) => (s.(algorithm := value), None)
    case ShowAdvancedOptions => (s.(showsAdvancedOptions := true), None)
    case Cancel => (s, Some(CancelTokenEntry))
    case Submit => Submit(s, decode, accepts)
  }

  /** Feed a sequence of actions through the form. */
  function Run(s: State, actions: seq<Form.Action>, decode: string -> Option<Tokens.Bytes>,
               accepts: Tokens.Generator -> bool): (r: State)
    decreases |actions|
  {
    if |actions| == 0 then s
    else Run(HandleAction(s, actions[0], decode, accepts).0, actions[1..], decode, accepts)
  }

  /**
   * The advanced options stay open once opened: after any actions they are
   * shown exactly when they were shown before or one of the actions opened
   * them.
   */
  lemma {:induction false} AdvancedOptionsStayOpen(s: State, actions: seq<Form.Action>,
                                                   decode: string -> Option<Tokens.Bytes>,
                                                   accepts: Tokens.Generator -> bool)
    ensures Run(s, actions, decode, accepts).showsAdvancedOptions <==>
      s.showsAdvancedOptions || exists k :: 0 <= k < |actions| && actions[k].ShowAdvancedOptions?
    decreases |actions|
  {
    if |actions| > 0 {
      AdvancedOptionsStayOpen(HandleAction(s, actions[0], decode, accepts).0, actions[1..], decode, accepts);
      if exists k :: 0 <= k < |actions| && actions[k].ShowAdvancedOptions? {
        var k :| 0 <= k < |actions| && actions[k].ShowAdvancedOptions?;
        if k > 0 {
          assert actions[1..][k - 1] == actions[k];
        }
      }
      if exists k :: 0 <= k < |actions[1..]| && actions[1..][k].ShowAdvancedOptions? {
        var k :| 0 <= k < |actions[1..]| && actions[1..][k].ShowAdvancedOptions?;
        assert actions[k + 1] == actions[1..][k];
      }
    }
  }

  /** Typing an issuer or name and a secret makes a fresh form valid, and so enables Done. */
  lemma FilledFormIsValid(issuer: string, secret: string)
    requires |issuer| > 0 && |secret| > 0
    ensures var s := Init().(issuer := issuer, secret := secret);
      ViewModelOf(s).table.rightBarButton.value.enabled
  {
  }
}
