/**
 * The token list component of Authenticator/Source/TokenList.swift: the
 * persistent tokens in display order, the view model built from them, and the
 * list operations with their keychain error handling.
 *
 * As for the other stores, the keychain's reply is passed in. Where the list
 * tells its presenter about a transient message, the message is part of the
 * result. The OneTimePassword library's `currentPassword` and
 * `updatedToken()` are parameters.
 */
module TokenList {
  import opened Wrappers
  import opened Seqs
  import opened Tokens
  import TokenRowModel
  import TokenStore

  /** A transient banner over the list. */
  datatype EphemeralMessage = Success(text: string) | Error(text: string)

  datatype ViewModel = ViewModel(rowModels: seq<TokenRowModel.RowModel>, ringPeriod: Option<int>)

  /** The list after an operation, and the message shown with its new view model, if any. */
  datatype Update = Update(storage: TokenStorage, message: Option<EphemeralMessage>)

  /** `timeBasedTokenPeriods`: the timer periods of the list, ascending and each once. */
  function TimeBasedTokenPeriods(s: TokenStorage): (r: seq<int>)
    ensures StrictlyIncreasing(r)
    ensures forall p :: p in r <==> exists k :: 0 <= k < |s.tokens| && s.tokens[k].token.generator.factor == Timer(p)
  {
    PersistentTimerPeriods(s.tokens)
  }

  /**
   * The period the progress ring follows: the first of the sorted periods,
   * that is the shortest timer period, or none without timer-based tokens.
   */
  function RingPeriod(s: TokenStorage): (r: Option<int>)
    ensures r.None? <==> forall k :: 0 <= k < |s.tokens| ==> !s.tokens[k].token.generator.factor.Timer?
    ensures r.Some? ==> exists k :: 0 <= k < |s.tokens| && s.tokens[k].token.generator.factor == Timer(r.value)
    ensures r.Some? ==> forall k :: 0 <= k < |s.tokens| && s.tokens[k].token.generator.factor.Timer? ==>
      r.value <= s.tokens[k].token.generator.factor.period
  {
    var periods := TimeBasedTokenPeriods(s);
    assert forall k :: 0 <= k < |s.tokens| && s.tokens[k].token.generator.factor.Timer? ==>
      s.tokens[k].token.generator.factor.period in periods by {
      forall k | 0 <= k < |s.tokens| && s.tokens[k].token.generator.factor.Timer?
        ensures s.tokens[k].token.generator.factor.period in periods
      {
        assert s.tokens[k].token.generator.factor == Timer(s.tokens[k].token.generator.factor.period);
      }
    }
    if |periods| == 0 then
      None
    else
      assert periods[0] in periods;
      assert forall k :: 0 <= k < |s.tokens| && s.tokens[k].token.generator.factor.Timer? ==>
        periods[0] <= s.tokens[k].token.generator.factor.period by {
        forall k | 0 <= k < |s.tokens| && s.tokens[k].token.generator.factor.Timer?
          ensures periods[0] <= s.tokens[k].token.generator.factor.period
        {
          var j :| 0 <= j < |periods| && periods[j] == s.tokens[k].token.generator.factor.period;
        }
      }
      Some(periods[0])
  }

  /** `viewModel`: one row model per persistent token, in list order, and the ring period. */
  function ViewModelOf(s: TokenStorage, currentPassword: Token -> Option<string>): (vm: ViewModel)
    ensures |vm.rowModels| == |s.tokens|
    ensures forall k :: 0 <= k < |s.tokens| ==>
      vm.rowModels[k] == TokenRowModel.Init(s.tokens[k], currentPassword(s.tokens[k].token))
    ensures vm.ringPeriod == RingPeriod(s)
  {
    ViewModel(
      seq(|s.tokens|, k requires 0 <= k < |s.tokens| =>
        TokenRowModel.Init(s.tokens[k], currentPassword(s.tokens[k].token))),
      RingPeriod(s))
  }

  /** Each row of the view model has the identity of the token at the same position. */
  lemma ViewModelRowsFollowTokens(s: TokenStorage, currentPassword: Token -> Option<string>, i: nat, j: nat)
    requires i < |s.tokens| && j < |s.tokens|
    ensures TokenRowModel.HasSameIdentity(ViewModelOf(s, currentPassword).rowModels[i],
                                          ViewModelOf(s, currentPassword).rowModels[j])
      <==> s.tokens[i].identifier == s.tokens[j].identifier
  {
    TokenRowModel.InitIdentity(s.tokens[i], s.tokens[j],
      currentPassword(s.tokens[i].token), currentPassword(s.tokens[j].token));
  }

  // ---------------------------------------------------------------------
  // Operations
  // ---------------------------------------------------------------------

  /** `addToken`: append and save the order when the keychain adds the token; otherwise nothing changes. */
  function AddToken(s: TokenStorage, token: Token, reply: Result<Bytes, KeychainError>): (r: TokenStorage)
    ensures reply.Success? ==> r.tokens == s.tokens + [PersistentToken(token, reply.value)] && OrderSaved(r)
    ensures reply.Failure? ==> r == s
  {
    match reply
    case Success(identifier) => Saved(s.tokens + [PersistentToken(token, identifier)])
    case Failure(_) => s
  }

  /**
   * `saveToken(_:toPersistentToken:)`: when the keychain accepts the update,
   * exactly the tokens with `p`'s identifier are replaced; otherwise nothing
   * changes.
   */
  function SaveToken(s: TokenStorage, token: Token, p: PersistentToken, reply: Option<KeychainError>): (r: TokenStorage)
    ensures reply.None? ==>
      && |r.tokens| == |s.tokens|
      && (forall k :: 0 <= k < |s.tokens| && s.tokens[k].identifier == p.identifier ==>
            r.tokens[k] == PersistentToken(token, p.identifier))
      && (forall k :: 0 <= k < |s.tokens| && s.tokens[k].identifier != p.identifier ==>
            r.tokens[k] == s.tokens[k])
      && Ids(r.tokens) == Ids(s.tokens)
      && r.savedOrder == s.savedOrder
    ensures reply.Some? ==> r == s
  {
    match reply
    case None =>
      var updated := UpdatedInKeychain(p, token);
      ReplaceKeyedKeepsKeys(s.tokens, Identifier, updated);
      TokenStorage(ReplaceKeyed(s.tokens, Identifier, updated), s.savedOrder)
    case Some(_) => s
  }

  /** `updatePersistentToken`: save `p` with the successor of its token. */
  function UpdatePersistentToken(s: TokenStorage, p: PersistentToken, updatedToken: Token -> Token,
                                 reply: Option<KeychainError>): (r: TokenStorage)
    ensures reply.None? ==>
      && |r.tokens| == |s.tokens|
      && (forall k :: 0 <= k < |s.tokens| && s.tokens[k].identifier == p.identifier ==>
            r.tokens[k] == PersistentToken(updatedToken(p.token), p.identifier))
      && (forall k :: 0 <= k < |s.tokens| && s.tokens[k].identifier != p.identifier ==>
            r.tokens[k] == s.tokens[k])
    ensures reply.Some? ==> r == s
  {
    SaveToken(s, updatedToken(p.token), p, reply)
  }

  /**
   * `copyPassword`: the password goes to the pasteboard, the list stays as
   * it is, and the view shows "Copied".
   */
  function CopyPassword(s: TokenStorage, password: string): (r: (Update, string))
    ensures r.0.storage == s
    ensures r.0.message == Some(EphemeralMessage.Success("Copied"))
    ensures r.1 == password
  {
    (Update(s, Some(EphemeralMessage.Success("Copied"))), password)
  }

  /** `moveTokenFromIndex(_:toIndex:)`: remove, insert at the destination, save the order. */
  function MoveToken(s: TokenStorage, origin: nat, destination: nat): (r: TokenStorage)
    requires origin < |s.tokens| && destination < |s.tokens|
    ensures |r.tokens| == |s.tokens|
    ensures r.tokens[destination] == s.tokens[origin]
    ensures RemoveAt(r.tokens, destination) == RemoveAt(s.tokens, origin)
    ensures multiset(r.tokens) == multiset(s.tokens)
    ensures OrderSaved(r)
  {
    Saved(MoveItem(s.tokens, origin, destination))
  }

  /** The text of the failure banner for a keychain error. */
  function DeletionFailedMessage(e: KeychainError): (m: EphemeralMessage)
    ensures m.Error? && m.text == "Deletion Failed:\n" + e.description
  {
    Error("Deletion Failed:\n" + e.description)
  }

  /**
   * `deleteTokenAtIndex`: on keychain success the token leaves the list, the
   * order is saved and there is no message; on failure the list is unchanged
   * and the view shows an error banner naming the error.
   */
  function DeleteToken(s: TokenStorage, index: nat, reply: Option<KeychainError>): (r: Update)
    requires index < |s.tokens|
    ensures reply.None? ==> r.storage.tokens == RemoveAt(s.tokens, index) && OrderSaved(r.storage) && r.message.None?
    ensures reply.Some? ==> r.storage == s && r.message == Some(DeletionFailedMessage(reply.value))
    ensures r.message.Some? ==> r.message.value.Error?
  {
    match reply
    case None => Update(Saved(RemoveAt(s.tokens, index)), None)
    case Some(e) => Update(s, Some(DeletionFailedMessage(e)))
  }

  /** Once the order is saved, every list operation keeps it saved. */
  lemma OperationsKeepOrderSaved(
    s: TokenStorage, token: Token, p: PersistentToken, updatedToken: Token -> Token,
    added: Result<Bytes, KeychainError>, reply: Option<KeychainError>, password: string, i: nat, j: nat)
    requires OrderSaved(s)
    ensures OrderSaved(AddToken(s, token, added))
    ensures OrderSaved(SaveToken(s, token, p, reply))
    ensures OrderSaved(UpdatePersistentToken(s, p, updatedToken, reply))
    ensures OrderSaved(CopyPassword(s, password).0.storage)
    ensures i < |s.tokens| && j < |s.tokens| ==> OrderSaved(MoveToken(s, i, j))
    ensures i < |s.tokens| ==> OrderSaved(DeleteToken(s, i, reply).storage)
  {
  }

  /** Moving a token changes neither the ring period nor the timer periods. */
  lemma MoveKeepsPeriods(s: TokenStorage, origin: nat, destination: nat)
    requires origin < |s.tokens| && destination < |s.tokens|
    ensures TimeBasedTokenPeriods(MoveToken(s, origin, destination)) == TimeBasedTokenPeriods(s)
    ensures RingPeriod(MoveToken(s, origin, destination)) == RingPeriod(s)
  {
    var moved := MoveToken(s, origin, destination);
    MapMoveItem(s.tokens, origin, destination, (p: PersistentToken) => p.token);
    assert TokensOf(moved.tokens) == MoveItem(TokensOf(s.tokens), origin, destination);
    TimeBasedTokenPeriodsOrderFree(TokensOf(moved.tokens), TokensOf(s.tokens));
  }

  /**
   * The list component keeps its tokens exactly as the token store does:
   * every operation, including a deletion and its banner, leaves the same list.
   */
  lemma AgreesWithStore(s: TokenStorage, token: Token, p: PersistentToken, updatedToken: Token -> Token,
                        added: Result<Bytes, KeychainError>, reply: Option<KeychainError>, i: nat, j: nat)
    ensures AddToken(s, token, added) == TokenStore.AddToken(s, token, added)
    ensures SaveToken(s, token, p, reply) == TokenStore.SaveToken(s, token, p, reply)
    ensures UpdatePersistentToken(s, p, updatedToken, reply) == TokenStore.UpdatePersistentToken(s, p, updatedToken, reply)
    ensures i < |s.tokens| && j < |s.tokens| ==> MoveToken(s, i, j) == TokenStore.MoveToken(s, i, j)
    ensures i < |s.tokens| ==> DeleteToken(s, i, reply).storage == TokenStore.DeleteToken(s, i, reply)
  {
  }
}
