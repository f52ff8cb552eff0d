/**
 * The form for renaming a saved token (Authenticator/Source/TokenEditForm.swift).
 * Only the issuer and the account name can change; the generator is kept.
 *
 * The form's rows and buttons call back into the form through closures; the
 * model names each callback as an action.
 */
module TokenEditForm {
  import opened Wrappers
  import opened Tokens
  import opened TableViewModel
  import opened TokenFormRows
  import Form

  datatype State = State(persistentToken: PersistentToken, issuer: string, name: string)

  /** The callbacks of the rows, the bar buttons and the keyboard's Done key. */
  datatype Action = IssuerChanged(issuer: string) | NameChanged(name: string) | Cancel | Submit

  /**
   * What the form asks of its parent. The case names are those of the app
   * action the form sends; the root component receives them as the form's
   * `Cancel` and `SaveChanges` effects.
   */
  datatype Effect = CancelTokenEdit | SaveChanges(token: Token, persistentToken: PersistentToken)

  /** `isValid`: an issuer or a name. */
  predicate IsValid(s: State) {
    !(|s.issuer| == 0 && |s.name| == 0)
  }

  /** `State.init(persistentToken:)`: the fields start as the token's issuer and name. */
  function Init(p: PersistentToken): (s: State)
    ensures s.persistentToken == p
    ensures s.issuer == p.token.issuer && s.name == p.token.name
    ensures IsValid(s) <==> !(|p.token.issuer| == 0 && |p.token.name| == 0)
  {
    State(p, p.token.issuer, p.token.name)
  }

  function IssuerCallback(value: string): Action { IssuerChanged(value) }
  function NameCallback(value: string): Action { NameChanged(value) }

  /**
   * `viewModel`: "Edit Token" with Cancel and Done, Done enabled exactly when
   * the form is valid, and one section with the issuer and name fields.
   */
  function ViewModelOf(s: State): (vm: TableViewModel<Form.HeaderModel, TextFieldRowModel<Action>, Action>)
    ensures vm.title == "Edit Token"
    ensures vm.leftBarButton == Some(BarButton(BarButtonStyle.Cancel, Action.Cancel, true))
    ensures vm.rightBarButton == Some(BarButton(BarButtonStyle.Done, Submit, IsValid(s)))
    ensures vm.doneKeyAction == Submit
    ensures |vm.sections| == 1 && |vm.sections[0].rows| == 2
    ensures vm.sections[0].rows[0].value == s.issuer && vm.sections[0].rows[1].value == s.name
    ensures vm.sections[0].rows[1].returnKey == ReturnKey.Done
  {
    TableViewModel(
      "Edit Token",
      Some(BarButton(BarButtonStyle.Cancel, Action.Cancel, true)),
      Some(BarButton(BarButtonStyle.Done, Submit, IsValid(s))),
      [Section(None, [IssuerRow(s.issuer, IssuerCallback), NameRow(s.name, ReturnKey.Done, NameCallback)])],
      Submit)
  }

  /**
   * `submit()`: an invalid form sends nothing; a valid one asks to save a
   * token with the form's name and issuer and the original generator, in
   * place of the original persistent token.
   */
  function SubmitForm(s: State): (r: Option<Effect>)
    ensures r.Some? <==> IsValid(s)
    ensures r.Some? ==> r.value.SaveChanges? && r.value.persistentToken == s.persistentToken
    ensures r.Some? ==> r.value.token.name == s.name && r.value.token.issuer == s.issuer
    ensures r.Some? ==> r.value.token.generator == s.persistentToken.token.generator
  {
    if !IsValid(s) then None
    else Some(SaveChanges(Token(s.name, s.issuer, s.persistentToken.token.generator), s.persistentToken))
  }

  /**
   * Handle one callback. A field callback changes only its field and sends
   * nothing; `cancel()` sends `CancelTokenEdit`; neither button changes the
   * state.
   */
  function HandleAction(s: State, action: Action): (r: (State, Option<Effect>))
    ensures action.IssuerChanged? ==> r == (s.(issuer := action.issuer), None)
    ensures action.NameChanged? ==> r == (s.(name := action.name), None)
    ensures action.Cancel? ==> r == (s, Some(CancelTokenEdit))
    ensures action.Submit? ==> r == (s, SubmitForm(s))
    ensures r.0.persistentToken == s.persistentToken
  {
    match action
    case IssuerChanged(value) => (s.(issuer := value), None)
    case NameChanged(value) => (s.(name := value), None)
    case Cancel => (s, Some(CancelTokenEdit))
    case Submit => (s, SubmitForm(s))
  }

  /** Submitting an untouched form asks to save the token it was opened with, unchanged. */
  lemma UntouchedSubmitSavesSameToken(p: PersistentToken)
    requires !(|p.token.issuer| == 0 && |p.token.name| == 0)
    ensures SubmitForm(Init(p)) == Some(SaveChanges(p.token, p))
  {
  }
}
