/**
 * The app model (Authenticator/Source/AppModel.swift): the modal screen shown
 * over the token list and the list's tokens, driven by the app's actions.
 *
 * The modal states are those of the root component. The keychain's replies
 * to adding or saving a token arrive as parameters, as they do for the token
 * list.
 */
module AppModel {
  import opened Wrappers
  import opened Tokens
  import TokenEntryForm
  import TokenEditForm
  import TokenList
  import Root

  datatype AppState = AppState(modal: Root.ModalState, storage: TokenStorage)

  /** The app actions the model handles. */
  datatype AppAction =
    | BeginTokenEntry
    | BeginManualTokenEntry
    | SaveNewToken(token: Token)
    | CancelTokenEntry
    | BeginTokenEdit(persistentToken: PersistentToken)
    | SaveChanges(token: Token, persistentToken: PersistentToken)
    | CancelTokenEdit
    | AddTokenFromURL(token: Token)

  /** The keychain's answer to an add and to a save. */
  datatype KeychainReplies = KeychainReplies(added: Result<Bytes, KeychainError>, saved: Option<KeychainError>)

  /** `init()`: no modal, over the token list as loaded. */
  function Init(storage: TokenStorage): (s: AppState)
    ensures s.modal.NoModal? && s.storage == storage
  {
    AppState(Root.NoModal, storage)
  }

  /**
   * `handleAction(_:)`. Beginning entry opens the scanner on a device that
   * can scan and a fresh entry form otherwise; a saved or cancelled form
   * closes; a token from a URL is added without touching the modal. Only the
   * three token-carrying actions reach the token list.
   */
  function HandleAction(s: AppState, action: AppAction, deviceCanScan: bool, replies: KeychainReplies): (r: AppState)
    ensures action.BeginTokenEntry? ==>
      r.modal == (if deviceCanScan then Root.EntryScanner else Root.EntryForm(TokenEntryForm.Init()))
    ensures action.BeginManualTokenEntry? ==> r.modal == Root.EntryForm(TokenEntryForm.Init())
    ensures action.BeginTokenEdit? ==> r.modal == Root.EditForm(TokenEditForm.Init(action.persistentToken))
    ensures action.SaveNewToken? || action.CancelTokenEntry? || action.SaveChanges? || action.CancelTokenEdit? ==>
      r.modal.NoModal?
    ensures action.AddTokenFromURL? ==> r.modal == s.modal
    ensures action.SaveNewToken? || action.AddTokenFromURL? ==>
      r.storage == TokenList.AddToken(s.storage, action.token, replies.added)
    ensures action.SaveChanges? ==>
      r.storage == TokenList.SaveToken(s.storage, action.token, action.persistentToken, replies.saved)
    ensures !(action.SaveNewToken? || action.AddTokenFromURL? || action.SaveChanges?) ==> r.storage == s.storage
  {
    match action
    case BeginTokenEntry =>
      if deviceCanScan then s.(modal := Root.EntryScanner)
      else s.(modal := Root.EntryForm(TokenEntryForm.Init()))
    case BeginManualTokenEntry => s.(modal := Root.EntryForm(TokenEntryForm.Init()))
    case SaveNewToken(token) => AppState(Root.NoModal, TokenList.AddToken(s.storage, token, replies.added))
    case CancelTokenEntry => s.(modal := Root.NoModal)
    case BeginTokenEdit(p) => s.(modal := Root.EditForm(TokenEditForm.Init(p)))
    case SaveChanges(token, p) => AppState(Root.NoModal, TokenList.SaveToken(s.storage, token, p, replies.saved))
    case CancelTokenEdit => s.(modal := Root.NoModal)
    case AddTokenFromURL(token) => s.(storage := TokenList.AddToken(s.storage, token, replies.added))
  }

  /** Every action keeps the token list's saved order in step with its tokens. */
  lemma HandleActionKeepsOrderSaved(s: AppState, action: AppAction, deviceCanScan: bool, replies: KeychainReplies)
    requires OrderSaved(s.storage)
    ensures OrderSaved(HandleAction(s, action, deviceCanScan, replies).storage)
  {
    match action
    case SaveChanges(token, p) =>
      TokenList.OperationsKeepOrderSaved(s.storage, token, p, t => t, replies.added, replies.saved, "", 0, 0);
    case _ =>
  }

  /**
   * The app model moves between modal screens as the root component does:
   * beginning entry or an edit, manual entry, and the forms' effects lead to
   * the same modal state in both.
   */
  lemma ModalTransitionsMatchRoot(s: AppState, deviceCanScan: bool, replies: KeychainReplies,
                                  p: PersistentToken, token: Token)
    ensures HandleAction(s, BeginTokenEntry, deviceCanScan, replies).modal ==
      Root.HandleTokenListEffect(s.modal, Root.BeginTokenEntry, deviceCanScan)
    ensures HandleAction(s, BeginTokenEdit(p), deviceCanScan, replies).modal ==
      Root.HandleTokenListEffect(s.modal, Root.BeginTokenEdit(p), deviceCanScan)
    ensures HandleAction(s, BeginManualTokenEntry, deviceCanScan, replies).modal ==
      Root.HandleTokenScannerEffect(Root.BeginManualTokenEntry).0
    ensures HandleAction(s, SaveNewToken(token), deviceCanScan, replies).modal ==
      Root.HandleTokenEntryEffect(TokenEntryForm.SaveNewToken(token)).0
    ensures HandleAction(s, CancelTokenEntry, deviceCanScan, replies).modal ==
      Root.HandleTokenEntryEffect(TokenEntryForm.CancelTokenEntry).0
    ensures HandleAction(s, SaveChanges(token, p), deviceCanScan, replies).modal ==
      Root.HandleTokenEditEffect(TokenEditForm.SaveChanges(token, p)).0
    ensures HandleAction(s, CancelTokenEdit, deviceCanScan, replies).modal ==
      Root.HandleTokenEditEffect(TokenEditForm.CancelTokenEdit).0
  {
  }

  /** A token added from a URL while a form is open leaves the form open, and is added all the same. */
  lemma URLTokenKeepsOpenForm(s: AppState, token: Token, identifier: Bytes, deviceCanScan: bool)
    requires s.modal.EntryForm? || s.modal.EditForm?
    ensures var r := HandleAction(s, AddTokenFromURL(token), deviceCanScan,
                                  KeychainReplies(Success(identifier), None));
      r.modal == s.modal && r.storage.tokens == s.storage.tokens + [PersistentToken(token, identifier)]
  {
  }
}
