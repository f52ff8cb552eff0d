/**
 * The root component of the app (Authenticator/Source/Root.swift): which
 * modal screen is shown over the token list, how the actions of the list, the
 * forms and the scanner move between those screens, and which changes to the
 * token store the root asks for.
 *
 * `TokenList.handleAction` and the list's effect type are not part of this
 * model: a list action arrives here together with the effect the list
 * produced for it. Whether the device can scan (`QRScanner.deviceCanScan`),
 * base32 decoding and the library's generator check are parameters.
 */
module Root {
  import opened Wrappers
  import opened Tokens
  import TableViewModel
  import TokenFormRows
  import Form
  import TokenEntryForm
  import TokenEditForm

  /** `ModalState`; the source's `None` case is `NoModal` here. */
  datatype ModalState =
    | NoModal
    | EntryScanner
    | EntryForm(entryForm: TokenEntryForm.State)
    | EditForm(editForm: TokenEditForm.State)

  type EditTable =
    TableViewModel.TableViewModel<Form.HeaderModel, TokenFormRows.TextFieldRowModel<TokenEditForm.Action>, TokenEditForm.Action>

  /** `RootViewModel.Modal`: what the presenter shows over the list. */
  datatype Modal =
    | NoModalView
    | Scanner
    | EntryFormView(entryView: TokenEntryForm.ViewModel)
    | EditFormView(editView: EditTable)

  /** The effects of the token list that reach the root. */
  datatype ListEffect =
    | BeginTokenEntry
    | BeginTokenEdit(persistentToken: PersistentToken)
    | UpdateToken(persistentToken: PersistentToken)
    | MoveToken(fromIndex: int, toIndex: int)
    | DeletePersistentToken(persistentToken: PersistentToken)

  /** The scanner's effects. */
  datatype ScannerEffect = CancelScan | BeginManualTokenEntry | ScannedToken(token: Token)

  datatype Action =
    | TokenListAction(listEffect: Option<ListEffect>)
    | TokenEntryFormAction(entryAction: Form.Action)
    | TokenEditFormAction(editAction: TokenEditForm.Action)
    | TokenScannerEffect(scannerEffect: ScannerEffect)

  /** What the root asks of the token store. */
  datatype Effect = AddToken(token: Token) | SaveToken(token: Token, persistentToken: PersistentToken)

  /** The outside facts a transition depends on. */
  datatype Env = Env(
    deviceCanScan: bool,
    decode: string -> Option<Bytes>,
    accepts: Generator -> bool)

  /** `init(store:)`: no modal. */
  function Init(): (m: ModalState)
    ensures m.NoModal?
  {
    NoModal
  }

  /** `viewModel`: each modal state shows its own screen, a form showing its own view model. */
  function ViewModelOf(m: ModalState): (v: Modal)
    ensures v.NoModalView? <==> m.NoModal?
    ensures v.Scanner? <==> m.EntryScanner?
    ensures v.EntryFormView? <==> m.EntryForm?
    ensures v.EditFormView? <==> m.EditForm?
    ensures m.EntryForm? ==> v.entryView == TokenEntryForm.ViewModelOf(m.entryForm)
    ensures m.EditForm? ==> v.editView == TokenEditForm.ViewModelOf(m.editForm)
  {
    match m
    case NoModal => NoModalView
    case EntryScanner => Scanner
    case EntryForm(form) => EntryFormView(TokenEntryForm.ViewModelOf(form))
    case EditForm(form) => EditFormView(TokenEditForm.ViewModelOf(form))
  }

  /** `beginManualTokenEntry()`: a fresh entry form. */
  function BeginManualEntry(): (m: ModalState)
    ensures m.EntryForm? && m.entryForm == TokenEntryForm.Init()
  {
    EntryForm(TokenEntryForm.Init())
  }

  /**
   * `handleTokenListEffect(_:)`, as far as the modal state goes. Beginning
   * entry opens the scanner on a device that can scan and a fresh entry form
   * otherwise; beginning an edit opens an edit form for that token; the store
   * updates leave the modal alone.
   */
  function HandleTokenListEffect(m: ModalState, effect: ListEffect, deviceCanScan: bool): (r: ModalState)
    ensures effect.BeginTokenEntry? ==> r == (if deviceCanScan then EntryScanner else BeginManualEntry())
    ensures effect.BeginTokenEdit? ==> r == EditForm(TokenEditForm.Init(effect.persistentToken))
    ensures !effect.BeginTokenEntry? && !effect.BeginTokenEdit? ==> r == m
  {
    match effect
    case BeginTokenEntry => if deviceCanScan then EntryScanner else BeginManualEntry()
    case BeginTokenEdit(p) => EditForm(TokenEditForm.Init(p))
    case UpdateToken(_) => m
    case MoveToken(_, _) => m
    case DeletePersistentToken(_) => m
  }

  /** `handleTokenEntryEffect(_:)`: either way the form closes; a new token is passed on to be added. */
  function HandleTokenEntryEffect(effect: TokenEntryForm.Effect): (r: (ModalState, Option<Effect>))
    ensures r.0 == NoModal
    ensures r.1.Some? <==> effect.SaveNewToken?
    ensures effect.SaveNewToken? ==> r.1 == Some(AddToken(effect.token))
  {
    match effect
    case CancelTokenEntry => (NoModal, None)
    case SaveNewToken(token) => (NoModal, Some(AddToken(token)))
  }

  /** `handleTokenEditEffect(_:)`: either way the form closes; changes are passed on to be saved. */
  function HandleTokenEditEffect(effect: TokenEditForm.Effect): (r: (ModalState, Option<Effect>))
    ensures r.0 == NoModal
    ensures r.1.Some? <==> effect.SaveChanges?
    ensures effect.SaveChanges? ==> r.1 == Some(SaveToken(effect.token, effect.persistentToken))
  {
    match effect
    case CancelTokenEdit => (NoModal, None)
    case SaveChanges(token, p) => (NoModal, Some(SaveToken(token, p)))
  }

  /**
   * `handleTokenScannerEffect(_:)`: cancelling closes the scanner, manual
   * entry replaces it with a fresh form, and a scanned token closes it and is
   * passed on to be added. None of these looks at the current modal state.
   */
  function HandleTokenScannerEffect(effect: ScannerEffect): (r: (ModalState, Option<Effect>))
    ensures effect.CancelScan? ==> r == (NoModal, None)
    ensures effect.BeginManualTokenEntry? ==> r == (BeginManualEntry(), None)
    ensures effect.ScannedToken? ==> r == (NoModal, Some(AddToken(effect.token)))
  {
    match effect
    case CancelScan => (NoModal, None)
    case BeginManualTokenEntry => (BeginManualEntry(), None)
    case ScannedToken(token) => (NoModal, Some(AddToken(token)))
  }

  /**
   * `handleAction(_:)`. A form's action reaches the form only while that form
   * is open, and is dropped otherwise; a form's effect is handled after the
   * form's new state is kept. The root asks the store for something only when
   * the modal closes with a token.
   */
  function HandleAction(m: ModalState, action: Action, env: Env): (r: (ModalState, Option<Effect>))
    ensures action.TokenListAction? ==> r.1.None?
    ensures action.TokenListAction? && action.listEffect.None? ==> r.0 == m
    ensures action.TokenListAction? && action.listEffect.Some? ==>
      r.0 == HandleTokenListEffect(m, action.listEffect.value, env.deviceCanScan)
    ensures action.TokenEntryFormAction? && m.EntryForm? ==>
      var step := TokenEntryForm.HandleAction(m.entryForm, action.entryAction, env.decode, env.accepts);
      r == (if step.1.None? then (EntryForm(step.0), None) else HandleTokenEntryEffect(step.1.value))
    ensures action.TokenEditFormAction? && m.EditForm? ==>
      var step := TokenEditForm.HandleAction(m.editForm, action.editAction);
      r == (if step.1.None? then (EditForm(step.0), None) else HandleTokenEditEffect(step.1.value))
    ensures action.TokenScannerEffect? ==> r == HandleTokenScannerEffect(action.scannerEffect)
    ensures action.TokenEntryFormAction? && !m.EntryForm? ==> r == (m, None)
    ensures action.TokenEditFormAction? && !m.EditForm? ==> r == (m, None)
    ensures r.1.Some? ==> r.0 == NoModal
    ensures action.TokenEntryFormAction? && m.EntryForm? ==>
      var formEffect := TokenEntryForm.HandleAction(m.entryForm, action.entryAction, env.decode, env.accepts).1;
      (r.1.Some? <==> formEffect.Some? && formEffect.value.SaveNewToken?)
    ensures action.TokenEditFormAction? && m.EditForm? && r.1.Some? ==>
      && TokenEditForm.IsValid(m.editForm)
      && r.1.value == SaveToken(Token(m.editForm.name, m.editForm.issuer, m.editForm.persistentToken.token.generator),
                                m.editForm.persistentToken)
  {
    match action
    case TokenListAction(listEffect) =>
      (match listEffect
       case None => (m, None)
       case Some(effect) => (HandleTokenListEffect(m, effect, env.deviceCanScan), None))
    case TokenEntryFormAction(formAction) =>
      (match m
       case EntryForm(form) =>
         var step := TokenEntryForm.HandleAction(form, formAction, env.decode, env.accepts);
         (match step.1
          case None => (EntryForm(step.0), None)
          case Some(effect) => HandleTokenEntryEffect(effect))
       case _ => (m, None))
    case TokenEditFormAction(formAction) =>
      (match m
       case EditForm(form) =>
         var step := TokenEditForm.HandleAction(form, formAction);
         (match step.1
          case None => (EditForm(step.0), None)
          case Some(effect) => HandleTokenEditEffect(effect))
       case _ => (m, None))
    case TokenScannerEffect(effect) => HandleTokenScannerEffect(effect)
  }

  /** Typing into an open entry form keeps the form open with the new text. */
  lemma TypingKeepsEntryForm(form: TokenEntryForm.State, issuer: string, secret: string, env: Env)
    ensures HandleAction(EntryForm(form), TokenEntryFormAction(Form.Issuer(issuer)), env)
      == (EntryForm(form.(issuer := issuer)), None)
    ensures HandleAction(EntryForm(form), TokenEntryFormAction(Form.Secret(secret)), env)
      == (EntryForm(form.(secret := secret)), None)
  {
  }

  /**
   * Submitting a valid edit form closes it and asks the store to save the
   * token under its new name and issuer, keeping its generator, into the
   * persistent token the form was opened for; an invalid form stays open.
   */
  lemma EditSubmit(form: TokenEditForm.State, env: Env)
    ensures TokenEditForm.IsValid(form) ==>
      HandleAction(EditForm(form), TokenEditFormAction(TokenEditForm.Submit), env)
        == (NoModal, Some(SaveToken(Token(form.name, form.issuer, form.persistentToken.token.generator),
                                    form.persistentToken)))
    ensures !TokenEditForm.IsValid(form) ==>
      HandleAction(EditForm(form), TokenEditFormAction(TokenEditForm.Submit), env) == (EditForm(form), None)
  {
  }

  /**
   * Beginning an edit from the list and cancelling it returns to no modal
   * without asking the store for anything.
   */
  lemma EditThenCancel(m: ModalState, p: PersistentToken, env: Env)
    ensures var begun := HandleAction(m, TokenListAction(Some(BeginTokenEdit(p))), env);
      && begun == (EditForm(TokenEditForm.Init(p)), None)
      && HandleAction(begun.0, TokenEditFormAction(TokenEditForm.Cancel), env) == (NoModal, None)
  {
  }

  /** Feed a sequence of actions through the root: the final modal state and the effect of each action. */
  function Run(m: ModalState, actions: seq<Action>, env: Env): (r: (ModalState, seq<Option<Effect>>))
    ensures |r.1| == |actions|
    decreases |actions|
  {
    if |actions| == 0 then (m, [])
    else
      var step := HandleAction(m, actions[0], env);
      var rest := Run(step.0, actions[1..], env);
      (rest.0, [step.1] + rest.1)
  }

  predicate IsEditFormAction(a: Action) {
    a.TokenEditFormAction?
  }

  /**
   * An edit session saves only into the token it was opened for: while only
   * edit-form actions arrive, every effect is a save to that persistent
   * token, and the modal is that token's form or closed.
   */
  lemma {:induction false} EditSavesOnlyItsToken(m: ModalState, p: PersistentToken, actions: seq<Action>, env: Env)
    requires m.NoModal? || (m.EditForm? && m.editForm.persistentToken == p)
    requires forall k :: 0 <= k < |actions| ==> IsEditFormAction(actions[k])
    ensures var r := Run(m, actions, env);
      && (r.0.NoModal? || (r.0.EditForm? && r.0.editForm.persistentToken == p))
      && forall k :: 0 <= k < |actions| && r.1[k].Some? ==> r.1[k].value.SaveToken? && r.1[k].value.persistentToken == p
    decreases |actions|
  {
    if |actions| > 0 {
      var step := HandleAction(m, actions[0], env);
      forall k | 0 <= k < |actions[1..]| ensures IsEditFormAction(actions[1..][k]) {
        assert actions[1..][k] == actions[k + 1];
      }
      EditSavesOnlyItsToken(step.0, p, actions[1..], env);
      var rest := Run(step.0, actions[1..], env);
      assert Run(m, actions, env).1 == [step.1] + rest.1;
    }
  }

  /** With no modal open, form actions do nothing at all. */
  lemma {:induction false} ClosedFormsIgnoreActions(actions: seq<Action>, env: Env)
    requires forall k :: 0 <= k < |actions| ==>
      actions[k].TokenEntryFormAction? || actions[k].TokenEditFormAction?
    ensures Run(NoModal, actions, env).0 == NoModal
    ensures forall k :: 0 <= k < |actions| ==> Run(NoModal, actions, env).1[k].None?
    decreases |actions|
  {
    if |actions| > 0 {
      forall k | 0 <= k < |actions[1..]|
        ensures actions[1..][k].TokenEntryFormAction? || actions[1..][k].TokenEditFormAction?
      {
        assert actions[1..][k] == actions[k + 1];
      }
      ClosedFormsIgnoreActions(actions[1..], env);
    }
  }
}
