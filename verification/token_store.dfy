/**
 * The error-swallowing token store of Authenticator/Source/TokenStore.swift.
 *
 * The operations are those of the throwing manager, but a keychain error is
 * caught and dropped: the store is then simply left as it was. The keychain's
 * reply is passed in as for the manager. `updatedToken()` of the
 * OneTimePassword library (which advances a counter) is a parameter.
 */
module TokenStore {
  import opened Wrappers
  import opened Seqs
  import opened Tokens
  import TokenManager

  /** `addToken`: append and save the order on success; on failure nothing changes. */
  function AddToken(s: TokenStorage, token: Token, reply: Result<Bytes, KeychainError>): (r: TokenStorage)
    ensures reply.Success? ==> r.tokens == s.tokens + [PersistentToken(token, reply.value)] && OrderSaved(r)
    ensures reply.Failure? ==> r == s
  {
    match reply
    case Success(identifier) => Saved(s.tokens + [PersistentToken(token, identifier)])
    case Failure(_) => s
  }

  /**
   * `saveToken(_:toPersistentToken:)`: on success exactly the tokens with
   * `p`'s identifier are replaced by the updated token; identifiers and saved
   * order stay. On failure nothing changes.
   */
  function SaveToken(s: TokenStorage, token: Token, p: PersistentToken, reply: Option<KeychainError>): (r: TokenStorage)
    ensures reply.None? ==>
      && |r.tokens| == |s.tokens|
      && (forall k :: 0 <= k < |s.tokens| && s.tokens[k].identifier == p.identifier ==>
            r.tokens[k] == PersistentToken(token, p.identifier))
      && (forall k :: 0 <= k < |s.tokens| && s.tokens[k].identifier != p.identifier ==>
            r.tokens[k] == s.tokens[k])
      && Ids(r.tokens) == Ids(s.tokens)
      && r.savedOrder == s.savedOrder
    ensures reply.Some? ==> r == s
  {
    match reply
    case None =>
      var updated := UpdatedInKeychain(p, token);
      ReplaceKeyedKeepsKeys(s.tokens, Identifier, updated);
      TokenStorage(ReplaceKeyed(s.tokens, Identifier, updated), s.savedOrder)
    case Some(_) => s
  }

  /**
   * `updatePersistentToken`: save `p` with its token's successor. On success
   * the tokens sharing `p`'s identifier now hold `updatedToken(p.token)`.
   */
  function UpdatePersistentToken(s: TokenStorage, p: PersistentToken, updatedToken: Token -> Token,
                                 reply: Option<KeychainError>): (r: TokenStorage)
    ensures reply.None? ==>
      && |r.tokens| == |s.tokens|
      && (forall k :: 0 <= k < |s.tokens| && s.tokens[k].identifier == p.identifier ==>
            r.tokens[k] == PersistentToken(updatedToken(p.token), p.identifier))
      && (forall k :: 0 <= k < |s.tokens| && s.tokens[k].identifier != p.identifier ==>
            r.tokens[k] == s.tokens[k])
    ensures reply.Some? ==> r == s
  {
    SaveToken(s, updatedToken(p.token), p, reply)
  }

  /** `moveTokenFromIndex(_:toIndex:)`: remove, insert at the destination, save the order. */
  function MoveToken(s: TokenStorage, origin: nat, destination: nat): (r: TokenStorage)
    requires origin < |s.tokens| && destination < |s.tokens|
    ensures |r.tokens| == |s.tokens|
    ensures r.tokens[destination] == s.tokens[origin]
    ensures RemoveAt(r.tokens, destination) == RemoveAt(s.tokens, origin)
    ensures multiset(r.tokens) == multiset(s.tokens)
    ensures OrderSaved(r)
  {
    Saved(MoveItem(s.tokens, origin, destination))
  }

  /**
   * `deleteTokenAtIndex`: the token leaves the list, and the order is saved,
   * only when the keychain deletes it; otherwise nothing changes.
   */
  function DeleteToken(s: TokenStorage, index: nat, reply: Option<KeychainError>): (r: TokenStorage)
    requires index < |s.tokens|
    ensures reply.None? ==> r.tokens == RemoveAt(s.tokens, index) && OrderSaved(r)
    ensures reply.Some? ==> r == s
  {
    match reply
    case None => Saved(RemoveAt(s.tokens, index))
    case Some(_) => s
  }

  /** Once the order is saved, every store operation keeps it saved. */
  lemma OperationsKeepOrderSaved(
    s: TokenStorage, token: Token, p: PersistentToken, updatedToken: Token -> Token,
    added: Result<Bytes, KeychainError>, reply: Option<KeychainError>, i: nat, j: nat)
    requires OrderSaved(s)
    ensures OrderSaved(AddToken(s, token, added))
    ensures OrderSaved(SaveToken(s, token, p, reply))
    ensures OrderSaved(UpdatePersistentToken(s, p, updatedToken, reply))
    ensures i < |s.tokens| && j < |s.tokens| ==> OrderSaved(MoveToken(s, i, j))
    ensures i < |s.tokens| ==> OrderSaved(DeleteToken(s, i, reply))
  {
  }

  /** Saving the same token twice has the effect of saving it once. */
  lemma SaveTokenIdempotent(s: TokenStorage, token: Token, p: PersistentToken)
    ensures SaveToken(SaveToken(s, token, p, None), token, p, None) == SaveToken(s, token, p, None)
  {
    ReplaceKeyedIdempotent(s.tokens, Identifier, UpdatedInKeychain(p, token));
  }

  /**
   * The store differs from the throwing manager only in dropping the error:
   * each operation leaves the store as the manager leaves its list.
   */
  lemma AgreesWithManager(s: TokenStorage, token: Token, p: PersistentToken,
                          added: Result<Bytes, KeychainError>, reply: Option<KeychainError>, i: nat, j: nat)
    ensures AddToken(s, token, added) == TokenManager.AddToken(s, token, added).storage
    ensures SaveToken(s, token, p, reply) == TokenManager.SaveToken(s, token, p, reply).storage
    ensures i < |s.tokens| && j < |s.tokens| ==> MoveToken(s, i, j) == TokenManager.MoveToken(s, i, j)
    ensures i < |s.tokens| ==> DeleteToken(s, i, reply) == TokenManager.RemoveToken(s, i, reply).storage
  {
  }
}
