/**
 * The in-memory token store the tests use, AuthenticatorTests/MemoryTokenStore.swift.
 *
 * It keeps the list and nothing else: there is no keychain and no saved
 * order. A new persistent token takes as identifier the UTF-8 bytes of its
 * token's URL. Turning a token into a URL belongs to the OneTimePassword
 * library, so its outcome is passed in: the error `toURL()` throws, or the
 * bytes of the URL string when there are any.
 */
module MemoryTokenStore {
  import opened Wrappers
  import opened Seqs
  import opened Tokens

  /** What building a persistent token can throw. */
  datatype IdentifierError =
    | UrlError(description: string)   // thrown by `toURL()`
    | IdentifierMissing               // the URL string had no UTF-8 data

  /** `PersistentToken(token:)`: the token with its URL bytes as identifier. */
  function MakePersistentToken(token: Token, url: Result<Option<Bytes>, string>): (r: Result<PersistentToken, IdentifierError>)
    ensures r.Success? <==> url.Success? && url.value.Some?
    ensures r.Success? ==> r.value.token == token && r.value.identifier == url.value.value
    ensures url.Failure? ==> r == Failure(UrlError(url.error))
    ensures url.Success? && url.value.None? ==> r == Failure(IdentifierMissing)
  {
    match url
    case Failure(e) => Failure(UrlError(e))
    case Success(None) => Failure(IdentifierMissing)
    case Success(Some(data)) => Success(PersistentToken(token, data))
  }

  /** The list after a call, and the error the call threw, if it threw. */
  datatype Outcome = Outcome(tokens: seq<PersistentToken>, thrown: Option<IdentifierError>)

  /** `addToken`: exactly one token is appended when its identifier can be built; otherwise the error propagates. */
  function AddToken(tokens: seq<PersistentToken>, token: Token, url: Result<Option<Bytes>, string>): (r: Outcome)
    ensures r.thrown.None? <==> MakePersistentToken(token, url).Success?
    ensures r.thrown.None? ==> r.tokens == tokens + [MakePersistentToken(token, url).value]
    ensures r.thrown.Some? ==> r.tokens == tokens && r.thrown.value == MakePersistentToken(token, url).error
  {
    match MakePersistentToken(token, url)
    case Success(p) => Outcome(tokens + [p], None)
    case Failure(e) => Outcome(tokens, Some(e))
  }

  /** `saveToken(_:toPersistentToken:)`: a no-op, the tokens are already in memory. */
  function SaveToken(tokens: seq<PersistentToken>, token: Token, p: PersistentToken): (r: seq<PersistentToken>)
    ensures r == tokens
  {
    tokens
  }

  /** `updatePersistentToken`: a no-op as well. */
  function UpdatePersistentToken(tokens: seq<PersistentToken>, p: PersistentToken): (r: seq<PersistentToken>)
    ensures r == tokens
  {
    tokens
  }

  /**
   * `deletePersistentToken`: every token equal to `p` goes, every other
   * token stays, as often as it was there and in its relative order.
   */
  function DeletePersistentToken(tokens: seq<PersistentToken>, p: PersistentToken): (r: seq<PersistentToken>)
    ensures p !in r
    ensures forall x :: x != p ==> multiset(r)[x] == multiset(tokens)[x]
    ensures Subsequence(r, tokens)
  {
    var r := Filter(tokens, (x: PersistentToken) => x != p);
    FilterCounts(tokens, (x: PersistentToken) => x != p);
    FilterIsSubsequence(tokens, (x: PersistentToken) => x != p);
    assert multiset(r)[p] == 0;
    r
  }

  /** `moveTokenFromIndex(_:toIndex:)`: `removeAtIndex` then `insert`. */
  function MoveToken(tokens: seq<PersistentToken>, index: nat, newIndex: nat): (r: seq<PersistentToken>)
    requires index < |tokens| && newIndex < |tokens|
    ensures |r| == |tokens|
    ensures r[newIndex] == tokens[index]
    ensures RemoveAt(r, newIndex) == RemoveAt(tokens, index)
    ensures multiset(r) == multiset(tokens)
  {
    MoveItem(tokens, index, newIndex)
  }

  /** Deleting a token that was just added, and is otherwise absent, restores the list. */
  lemma DeleteAfterAdd(tokens: seq<PersistentToken>, token: Token, url: Result<Option<Bytes>, string>)
    requires MakePersistentToken(token, url).Success?
    requires MakePersistentToken(token, url).value !in tokens
    ensures DeletePersistentToken(AddToken(tokens, token, url).tokens, MakePersistentToken(token, url).value) == tokens
  {
    var p := MakePersistentToken(token, url).value;
    var keep := (x: PersistentToken) => x != p;
    FilterAll(tokens, keep);
    FilterAppend(tokens, [p], keep);
  }
}
