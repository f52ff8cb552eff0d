/**
 * The throwing token manager of Authenticator/Source/TokenManager.swift.
 *
 * Every keychain call may throw. The model passes in the keychain's reply:
 * the identifier of a newly added item, or the error thrown; for an update or
 * a deletion, the error thrown, if any. An update keeps the identifier of the
 * item it rewrites. A call that throws leaves the manager as it was and
 * passes the error on to the caller.
 */
module TokenManager {
  import opened Wrappers
  import opened Seqs
  import opened Tokens

  /** The manager after a call, and the error the call threw, if it threw. */
  datatype Outcome = Outcome(storage: TokenStorage, thrown: Option<KeychainError>)

  /**
   * `addToken`: on success the new persistent token is appended and the order
   * saved; a keychain error propagates and nothing changes.
   */
  function AddToken(s: TokenStorage, token: Token, reply: Result<Bytes, KeychainError>): (r: Outcome)
    ensures r.thrown.None? <==> reply.Success?
    ensures reply.Success? ==>
      r.storage.tokens == s.tokens + [PersistentToken(token, reply.value)] && OrderSaved(r.storage)
    ensures reply.Failure? ==> r.storage == s && r.thrown == Some(reply.error)
  {
    match reply
    case Success(identifier) => Outcome(Saved(s.tokens + [PersistentToken(token, identifier)]), None)
    case Failure(e) => Outcome(s, Some(e))
  }

  /**
   * `saveToken(_:toPersistentToken:)`: on success every token with `p`'s
   * identifier becomes the updated token and all others stay; identifiers,
   * and with them the saved order, are untouched. A throw changes nothing.
   */
  function SaveToken(s: TokenStorage, token: Token, p: PersistentToken, reply: Option<KeychainError>): (r: Outcome)
    ensures r.thrown == reply
    ensures reply.None? ==>
      && |r.storage.tokens| == |s.tokens|
      && (forall k :: 0 <= k < |s.tokens| && s.tokens[k].identifier == p.identifier ==>
            r.storage.tokens[k] == PersistentToken(token, p.identifier))
      && (forall k :: 0 <= k < |s.tokens| && s.tokens[k].identifier != p.identifier ==>
            r.storage.tokens[k] == s.tokens[k])
      && Ids(r.storage.tokens) == Ids(s.tokens)
      && r.storage.savedOrder == s.savedOrder
    ensures reply.Some? ==> r.storage == s
  {
    match reply
    case None =>
      var updated := UpdatedInKeychain(p, token);
      ReplaceKeyedKeepsKeys(s.tokens, Identifier, updated);
      Outcome(TokenStorage(ReplaceKeyed(s.tokens, Identifier, updated), s.savedOrder), None)
    case Some(e) => Outcome(s, Some(e))
  }

  /**
   * `moveTokenFromIndex(_:toIndex:)`: remove, then insert at the destination,
   * then save the order. Both indices must be in range (Swift traps otherwise).
   */
  function MoveToken(s: TokenStorage, origin: nat, destination: nat): (r: TokenStorage)
    requires origin < |s.tokens| && destination < |s.tokens|
    ensures |r.tokens| == |s.tokens|
    ensures r.tokens[destination] == s.tokens[origin]
    ensures RemoveAt(r.tokens, destination) == RemoveAt(s.tokens, origin)
    ensures multiset(r.tokens) == multiset(s.tokens)
    ensures OrderSaved(r)
  {
    Saved(MoveItem(s.tokens, origin, destination))
  }

  /**
   * `removeTokenAtIndex`: the keychain deletes the token first; only then
   * does it leave the list and the order get saved. A throw changes nothing.
   * The index must be in range (Swift traps before reaching the keychain).
   */
  function RemoveToken(s: TokenStorage, index: nat, reply: Option<KeychainError>): (r: Outcome)
    requires index < |s.tokens|
    ensures r.thrown == reply
    ensures reply.None? ==> r.storage.tokens == RemoveAt(s.tokens, index) && OrderSaved(r.storage)
    ensures reply.Some? ==> r.storage == s
  {
    match reply
    case None => Outcome(Saved(RemoveAt(s.tokens, index)), None)
    case Some(e) => Outcome(s, Some(e))
  }

  /** `timeBasedTokenPeriods`: the periods of the timer-based tokens, ascending, each once. */
  function TimeBasedTokenPeriods(s: TokenStorage): (r: seq<int>)
    ensures StrictlyIncreasing(r)
    ensures forall p :: p in r <==> exists k :: 0 <= k < |s.tokens| && s.tokens[k].token.generator.factor == Timer(p)
  {
    PersistentTimerPeriods(s.tokens)
  }

  /**
   * The saved order follows the list: once it is saved, every operation,
   * whether it succeeds or throws, leaves it saved.
   */
  lemma OperationsKeepOrderSaved(
    s: TokenStorage, token: Token, p: PersistentToken,
    added: Result<Bytes, KeychainError>, reply: Option<KeychainError>, i: nat, j: nat)
    requires OrderSaved(s)
    ensures OrderSaved(AddToken(s, token, added).storage)
    ensures OrderSaved(SaveToken(s, token, p, reply).storage)
    ensures i < |s.tokens| && j < |s.tokens| ==> OrderSaved(MoveToken(s, i, j))
    ensures i < |s.tokens| ==> OrderSaved(RemoveToken(s, i, reply).storage)
  {
  }

  /** Moving a token and moving it back restores the manager. */
  lemma MoveTokenBack(s: TokenStorage, origin: nat, destination: nat)
    requires OrderSaved(s)
    requires origin < |s.tokens| && destination < |s.tokens|
    ensures MoveToken(MoveToken(s, origin, destination), destination, origin) == s
  {
    MoveItemBack(s.tokens, origin, destination);
  }

  /** Adding a token and then removing the last one, both succeeding, restores the manager. */
  lemma AddThenRemove(s: TokenStorage, token: Token, identifier: Bytes)
    requires OrderSaved(s)
    ensures var added := AddToken(s, token, Success(identifier)).storage;
      RemoveToken(added, |added.tokens| - 1, None).storage == s
  {
    var added := AddToken(s, token, Success(identifier)).storage;
    assert RemoveAt(added.tokens, |added.tokens| - 1) == s.tokens;
  }
}
