/**
 * The token values the app keeps in its list, as the OneTimePassword library
 * exposes them (that library itself is not part of this model), and the list
 * operations shared by every version of the token store: identifiers in list
 * order and the sorted, duplicate-free timer periods.
 */
module Tokens {
  import opened Wrappers
  import opened Seqs

  /** `NSData`: an identifier or a secret, as bytes. */
  type Bytes = seq<bv8>

  /**
   * A generator's moving factor. Timer periods are `NSTimeInterval`s; the app
   * only compares them, so whole numbers stand in for them here.
   */
  datatype Factor = Counter(count: nat) | Timer(period: int)

  datatype Algorithm = SHA1 | SHA256 | SHA512

  datatype Generator = Generator(factor: Factor, secret: Bytes, algorithm: Algorithm, digits: int)

  datatype Token = Token(name: string, issuer: string, generator: Generator)

  /** A token together with the keychain identifier it is stored under. */
  datatype PersistentToken = PersistentToken(token: Token, identifier: Bytes)

  /** A keychain failure, known to the app only through its description. */
  datatype KeychainError = KeychainError(description: string)

  function Identifier(p: PersistentToken): Bytes {
    p.identifier
  }

  /** The identifiers of `tokens`, in list order: what the app saves as the token order. */
  function Ids(tokens: seq<PersistentToken>): (r: seq<Bytes>)
    ensures |r| == |tokens|
    ensures forall k :: 0 <= k < |tokens| ==> r[k] == tokens[k].identifier
  {
    Map(tokens, Identifier)
  }

  lemma IdsAppend(tokens: seq<PersistentToken>, p: PersistentToken)
    ensures Ids(tokens + [p]) == Ids(tokens) + [p.identifier]
  {
  }

  lemma IdsRemoveAt(tokens: seq<PersistentToken>, i: nat)
    requires i < |tokens|
    ensures Ids(RemoveAt(tokens, i)) == RemoveAt(Ids(tokens), i)
  {
  }

  // ---------------------------------------------------------------------
  // Timer periods
  // ---------------------------------------------------------------------

  predicate StrictlyIncreasing(s: seq<int>) {
    forall i, j :: 0 <= i < j < |s| ==> s[i] < s[j]
  }

  /** `p` is the period of some timer-based token of `tokens`. */
  predicate HasTimerPeriod(tokens: seq<Token>, p: int) {
    exists k :: 0 <= k < |tokens| && tokens[k].generator.factor == Timer(p)
  }

  /** Adding `p` to a sorted, duplicate-free list of periods (the `Set.insert` of the fold, kept sorted). */
  function InsertPeriod(s: seq<int>, p: int): (r: seq<int>)
    requires StrictlyIncreasing(s)
    ensures StrictlyIncreasing(r)
    ensures forall x :: x in r <==> x in s || x == p
  {
    if |s| == 0 then [p]
    else if p < s[0] then [p] + s
    else if p == s[0] then s
    else
      var rest := InsertPeriod(s[1..], p);
      assert forall j :: 0 <= j < |rest| ==> s[0] < rest[j] by {
        forall j | 0 <= j < |rest|
          ensures s[0] < rest[j]
        {
          assert rest[j] in rest;
          if rest[j] in s[1..] {
            var i :| 0 <= i < |s[1..]| && s[1..][i] == rest[j];
            assert s[i + 1] == rest[j];
          }
        }
      }
      [s[0]] + rest
  }

  /**
   * The periods of the timer-based tokens, each once, in ascending order:
   * the set-building `reduce` followed by `sort()`.
   */
  function TimeBasedTokenPeriods(tokens: seq<Token>): (r: seq<int>)
    ensures StrictlyIncreasing(r)
    ensures forall p :: p in r <==> HasTimerPeriod(tokens, p)
    decreases |tokens|
  {
    if |tokens| == 0 then []
    else
      var init := tokens[..|tokens| - 1];
      var earlier := TimeBasedTokenPeriods(init);
      assert forall k :: 0 <= k < |init| ==> init[k] == tokens[k];
      match tokens[|tokens| - 1].generator.factor
      case Timer(p) => InsertPeriod(earlier, p)
      case Counter(_) => earlier
  }

  /**
   * Two ascending, duplicate-free lists with the same elements are equal, so
   * the contract of `TimeBasedTokenPeriods` determines its result.
   */
  lemma {:induction false} StrictlyIncreasingUnique(a: seq<int>, b: seq<int>)
    requires StrictlyIncreasing(a) && StrictlyIncreasing(b)
    requires forall x :: x in a <==> x in b
    ensures a == b
    decreases |a|
  {
    assert |a| > 0 ==> a[0] in b by {
      if |a| > 0 {
        assert a[0] in a;
      }
    }
    assert |b| > 0 ==> b[0] in a by {
      if |b| > 0 {
        assert b[0] in b;
      }
    }
    if |a| > 0 {
      assert a[0] == b[0] by {
        var i :| 0 <= i < |a| && a[i] == b[0];
        var j :| 0 <= j < |b| && b[j] == a[0];
        assert a[0] <= a[i] && b[0] <= b[j];
      }
      forall x
        ensures x in a[1..] <==> x in b[1..]
      {
        if x in a[1..] {
          assert x in b && x != b[0];
        }
        if x in b[1..] {
          assert x in a && x != a[0];
        }
      }
      StrictlyIncreasingUnique(a[1..], b[1..]);
      assert a == [a[0]] + a[1..] && b == [b[0]] + b[1..];
    }
  }

  /** The list order does not matter to the collected periods. */
  lemma TimeBasedTokenPeriodsOrderFree(a: seq<Token>, b: seq<Token>)
    requires multiset(a) == multiset(b)
    ensures TimeBasedTokenPeriods(a) == TimeBasedTokenPeriods(b)
  {
    forall p
      ensures p in TimeBasedTokenPeriods(a) <==> p in TimeBasedTokenPeriods(b)
    {
      if HasTimerPeriod(a, p) {
        var k :| 0 <= k < |a| && a[k].generator.factor == Timer(p);
        assert a[k] in multiset(b);
        var j :| 0 <= j < |b| && b[j] == a[k];
      }
      if HasTimerPeriod(b, p) {
        var k :| 0 <= k < |b| && b[k].generator.factor == Timer(p);
        assert b[k] in multiset(a);
        var j :| 0 <= j < |a| && a[j] == b[k];
      }
    }
    StrictlyIncreasingUnique(TimeBasedTokenPeriods(a), TimeBasedTokenPeriods(b));
  }

  /** The tokens of a list of persistent tokens, in order. */
  function TokensOf(tokens: seq<PersistentToken>): (r: seq<Token>)
    ensures |r| == |tokens|
    ensures forall k :: 0 <= k < |tokens| ==> r[k] == tokens[k].token
  {
    Map(tokens, (p: PersistentToken) => p.token)
  }

  /** The timer periods of a list of persistent tokens, ascending and each once. */
  function PersistentTimerPeriods(tokens: seq<PersistentToken>): (r: seq<int>)
    ensures StrictlyIncreasing(r)
    ensures forall p :: p in r <==> exists k :: 0 <= k < |tokens| && tokens[k].token.generator.factor == Timer(p)
  {
    var plain := TokensOf(tokens);
    assert forall p :: HasTimerPeriod(plain, p) ==>
      exists k :: 0 <= k < |tokens| && tokens[k].token.generator.factor == Timer(p) by {
      forall p | HasTimerPeriod(plain, p)
        ensures exists k :: 0 <= k < |tokens| && tokens[k].token.generator.factor == Timer(p)
      {
        var k :| 0 <= k < |plain| && plain[k].generator.factor == Timer(p);
        assert tokens[k].token == plain[k];
      }
    }
    TimeBasedTokenPeriods(plain)
  }

  // ---------------------------------------------------------------------
  // The stored list
  // ---------------------------------------------------------------------

  /**
   * The in-memory token list of a token store, and the identifier order last
   * written to the user defaults.
   */
  datatype TokenStorage = TokenStorage(tokens: seq<PersistentToken>, savedOrder: seq<Bytes>)

  /** The saved order is the order of the list. */
  predicate OrderSaved(s: TokenStorage) {
    s.savedOrder == Ids(s.tokens)
  }

  /** The list after an assignment followed by `saveTokenOrder()`. */
  function Saved(tokens: seq<PersistentToken>): (s: TokenStorage)
    ensures s.tokens == tokens && OrderSaved(s)
  {
    TokenStorage(tokens, Ids(tokens))
  }

  /** The token the keychain hands back after updating `p` with `token`: same identifier, new token. */
  function UpdatedInKeychain(p: PersistentToken, token: Token): PersistentToken {
    PersistentToken(token, p.identifier)
  }
}
