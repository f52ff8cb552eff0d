/**
 * The older edit form (Authenticator/Classes/TokenEditForm.swift), which
 * edits a keychain token object in place and reports to a delegate.
 *
 * The token object is a value here: a submission returns the token as it is
 * afterwards, whether it was written to the keychain, and the delegate call
 * made. Writing to the keychain is outside the model.
 */
module LegacyTokenEditForm {
  import opened Wrappers
  import opened Tokens

  datatype State = State(issuer: string, name: string)

  datatype Form = Form(token: Token, state: State)

  datatype DelegateCall = DidCancel | DidEditToken(token: Token)

  datatype Submission = Submission(token: Token, savedToKeychain: bool, call: Option<DelegateCall>)

  /** `State.isValid`: an issuer or a name. */
  predicate IsValid(s: State) {
    !(|s.issuer| == 0 && |s.name| == 0)
  }

  /** `init(token:delegate:)`: the fields start as the token's issuer and name. */
  function Init(token: Token): (f: Form)
    ensures f.token == token
    ensures f.state.issuer == token.issuer && f.state.name == token.name
  {
    Form(token, State(token.issuer, token.name))
  }

  /** `cancel()`: tell the delegate. */
  function Cancel(f: Form): (r: DelegateCall)
    ensures r.DidCancel?
  {
    DidCancel
  }

  /**
   * `submit()`. An invalid form does nothing. A valid one writes the name and
   * issuer into the token, and saves it, only when one of them differs from
   * the token's; either way the delegate is told about the token.
   */
  function Submit(f: Form): (r: Submission)
    ensures !IsValid(f.state) ==> r == Submission(f.token, false, None)
    ensures IsValid(f.state) ==> r.call == Some(DidEditToken(r.token))
    ensures IsValid(f.state) ==> r.token == f.token.(name := f.state.name, issuer := f.state.issuer)
    ensures r.savedToKeychain <==>
      IsValid(f.state) && (f.token.name != f.state.name || f.token.issuer != f.state.issuer)
    ensures r.token.generator == f.token.generator
  {
    if !IsValid(f.state) then Submission(f.token, false, None)
    else
      var changed := f.token.name != f.state.name || f.token.issuer != f.state.issuer;
      var token := if changed then f.token.(name := f.state.name, issuer := f.state.issuer) else f.token;
      Submission(token, changed, Some(DidEditToken(token)))
  }

  /** Submitting a form nobody has edited saves nothing, and still reports the token unchanged. */
  lemma UnchangedSubmitOnlyNotifies(token: Token)
    requires !(|token.issuer| == 0 && |token.name| == 0)
    ensures Submit(Init(token)) == Submission(token, false, Some(DidEditToken(token)))
  {
  }
}
