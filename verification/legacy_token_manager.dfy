/**
 * The keychain-item list of Authenticator/Classes/TokenManager.swift.
 *
 * The manager keeps the tokens as keychain items in display order and saves
 * that order as the list of the items' persistent references. On launch the
 * items the keychain returns (in no particular order) are put back into the
 * saved order; items the saved order does not mention follow at the end.
 *
 * The keychain is represented by its replies: the reference it assigns to a
 * new item, or nothing when adding fails; whether an update or a deletion
 * succeeded. An updated item keeps its persistent reference.
 */
module LegacyTokenManager {
  import opened Wrappers
  import opened Seqs
  import opened Tokens

  datatype KeychainItem = KeychainItem(token: Token, persistentRef: Bytes)

  function PersistentRef(item: KeychainItem): Bytes {
    item.persistentRef
  }

  function ItemToken(item: KeychainItem): Token {
    item.token
  }

  /** The persistent references of `items`, in list order. */
  function Refs(items: seq<KeychainItem>): (r: seq<Bytes>)
    ensures |r| == |items|
    ensures forall k :: 0 <= k < |items| ==> r[k] == items[k].persistentRef
  {
    Map(items, PersistentRef)
  }

  predicate DistinctRefs(items: seq<KeychainItem>) {
    forall i, j :: 0 <= i < j < |items| ==> items[i].persistentRef != items[j].persistentRef
  }

  // ---------------------------------------------------------------------
  // keychainItems(_:sortedByPersistentRefs:)
  // ---------------------------------------------------------------------

  /** The first index of an item with reference `ref` (`indexOf` with a predicate). */
  function IndexOfRef(items: seq<KeychainItem>, ref: Bytes): (r: Option<nat>)
    ensures r.None? <==> forall k :: 0 <= k < |items| ==> items[k].persistentRef != ref
    ensures r.Some? ==>
      && r.value < |items| && items[r.value].persistentRef == ref
      && forall k :: 0 <= k < r.value ==> items[k].persistentRef != ref
  {
    if |items| == 0 then None
    else if items[0].persistentRef == ref then Some(0)
    else match IndexOfRef(items[1..], ref)
      case None => None
      case Some(i) => Some(i + 1)
  }

  function Min(x: nat, y: nat): nat {
    if x <= y then x else y
  }

  lemma RefsRemoveAt(items: seq<KeychainItem>, i: nat)
    requires i < |items|
    ensures multiset(Refs(RemoveAt(items, i))) == multiset(Refs(items)) - multiset{items[i].persistentRef}
  {
    assert Refs(RemoveAt(items, i)) == RemoveAt(Refs(items), i);
  }

  /**
   * The loop over the saved references, from `remaining` onwards: each
   * reference takes the first remaining item that carries it, and references
   * no item carries are skipped. Returns the taken items in reference order
   * and the items left over in their original order.
   *
   * Every item ends up in exactly one of the two lists, and each reference
   * value is taken as often as both the saved order and the items allow.
   * `MatchRefsOrder` states which occurrences take an item and which items
   * they take.
   */
  function MatchRefs(remaining: seq<KeychainItem>, refs: seq<Bytes>): (r: (seq<KeychainItem>, seq<KeychainItem>))
    ensures multiset(r.0) + multiset(r.1) == multiset(remaining)
    ensures Subsequence(r.1, remaining)
    ensures Subsequence(Refs(r.0), refs)
    ensures forall v :: multiset(Refs(r.0))[v] == Min(multiset(refs)[v], multiset(Refs(remaining))[v])
    decreases |refs|
  {
    if |refs| == 0 then
      SubsequenceOfSelf(remaining);
      ([], remaining)
    else
      match IndexOfRef(remaining, refs[0])
      case Some(i) =>
        var rest := MatchRefs(RemoveAt(remaining, i), refs[1..]);
        var r := ([remaining[i]] + rest.0, rest.1);
        MatchRefsStep(remaining, refs, i, rest, r);
        r
      case None =>
        var rest := MatchRefs(remaining, refs[1..]);
        MatchRefsSkip(remaining, refs, rest);
        rest
  }

  /** The items carrying reference `v`, in list order. */
  function WithRef(items: seq<KeychainItem>, v: Bytes): seq<KeychainItem>
    decreases |items|
  {
    if |items| == 0 then []
    else (if items[0].persistentRef == v then [items[0]] else []) + WithRef(items[1..], v)
  }

  /**
   * The saved references that find an item, given the multiset `available`
   * of references the unclaimed items carry: a reference is kept exactly
   * when an item with it is still unclaimed, and claims one.
   */
  function Kept(refs: seq<Bytes>, available: multiset<Bytes>): seq<Bytes>
    decreases |refs|
  {
    if |refs| == 0 then []
    else if available[refs[0]] > 0 then [refs[0]] + Kept(refs[1..], available - multiset{refs[0]})
    else Kept(refs[1..], available)
  }

  lemma {:induction false} WithRefAppend(a: seq<KeychainItem>, b: seq<KeychainItem>, v: Bytes)
    ensures WithRef(a + b, v) == WithRef(a, v) + WithRef(b, v)
    decreases |a|
  {
    if |a| == 0 {
      assert a + b == b;
    } else {
      assert (a + b)[0] == a[0] && (a + b)[1..] == a[1..] + b;
      WithRefAppend(a[1..], b, v);
    }
  }

  lemma {:induction false} WithRefNone(a: seq<KeychainItem>, v: Bytes)
    requires forall k :: 0 <= k < |a| ==> a[k].persistentRef != v
    ensures WithRef(a, v) == []
    decreases |a|
  {
    if |a| > 0 {
      WithRefNone(a[1..], v);
    }
  }

  /** `items` around position `i`, and the same with that item removed. */
  lemma WithRefSplit(items: seq<KeychainItem>, i: nat, v: Bytes)
    requires i < |items|
    ensures WithRef(items, v) ==
      WithRef(items[..i], v) + (if items[i].persistentRef == v then [items[i]] else []) + WithRef(items[i + 1..], v)
    ensures WithRef(RemoveAt(items, i), v) == WithRef(items[..i], v) + WithRef(items[i + 1..], v)
  {
    assert items == items[..i] + ([items[i]] + items[i + 1..]);
    assert RemoveAt(items, i) == items[..i] + items[i + 1..];
    WithRefAppend(items[..i], [items[i]] + items[i + 1..], v);
    WithRefAppend([items[i]], items[i + 1..], v);
    WithRefAppend(items[..i], items[i + 1..], v);
    assert WithRef([items[i]], v) == (if items[i].persistentRef == v then [items[i]] else []) by {
      assert [items[i]][1..] == [];
    }
  }

  /** Removing an item with another reference leaves the items with reference `v` alone. */
  lemma WithRefRemoveOther(items: seq<KeychainItem>, i: nat, v: Bytes)
    requires i < |items| && items[i].persistentRef != v
    ensures WithRef(RemoveAt(items, i), v) == WithRef(items, v)
  {
    WithRefSplit(items, i, v);
  }

  /** The first item with reference `v` heads the items with that reference. */
  lemma WithRefRemoveFirst(items: seq<KeychainItem>, i: nat, v: Bytes)
    requires i < |items| && items[i].persistentRef == v
    requires forall k :: 0 <= k < i ==> items[k].persistentRef != v
    ensures WithRef(items, v) == [items[i]] + WithRef(RemoveAt(items, i), v)
  {
    WithRefSplit(items, i, v);
    WithRefNone(items[..i], v);
  }

  /**
   * Which reference takes which item. The references that find an item are
   * `Kept` of the references the items carry, so an earlier occurrence of a
   * repeated reference is served first. Among the items sharing a
   * reference, the taken ones are the first in list order, taken in that
   * order, and the others are left over.
   */
  lemma {:induction false} MatchRefsOrder(remaining: seq<KeychainItem>, refs: seq<Bytes>)
    ensures Refs(MatchRefs(remaining, refs).0) == Kept(refs, multiset(Refs(remaining)))
    ensures forall v :: WithRef(remaining, v) == WithRef(MatchRefs(remaining, refs).0, v) + WithRef(MatchRefs(remaining, refs).1, v)
    decreases |refs|
  {
    var r := MatchRefs(remaining, refs);
    if |refs| == 0 {
      assert r == ([], remaining);
      assert Refs(r.0) == [];
    } else {
      match IndexOfRef(remaining, refs[0])
      case Some(i) =>
        var rest := MatchRefs(RemoveAt(remaining, i), refs[1..]);
        MatchRefsOrder(RemoveAt(remaining, i), refs[1..]);
        assert r == ([remaining[i]] + rest.0, rest.1);
        KeptStep(remaining, refs, i, rest.0);
        forall v
          ensures WithRef(remaining, v) == WithRef(r.0, v) + WithRef(r.1, v)
        {
          TakenWithRef(remaining, i, rest.0, rest.1, v);
        }
      case None =>
        MatchRefsOrder(remaining, refs[1..]);
        assert r == MatchRefs(remaining, refs[1..]);
        assert multiset(Refs(remaining))[refs[0]] == 0 by {
          assert refs[0] !in Refs(remaining);
        }
    }
  }

  lemma KeptStep(remaining: seq<KeychainItem>, refs: seq<Bytes>, i: nat, taken: seq<KeychainItem>)
    requires |refs| > 0 && i < |remaining| && remaining[i].persistentRef == refs[0]
    requires Refs(taken) == Kept(refs[1..], multiset(Refs(RemoveAt(remaining, i))))
    ensures Refs([remaining[i]] + taken) == Kept(refs, multiset(Refs(remaining)))
  {
    RefsRemoveAt(remaining, i);
    KeptTakes(refs, multiset(Refs(remaining)), Refs(remaining), i);
    RefsCons(remaining[i], taken);
  }

  /** A reference some unclaimed item carries is kept, and claims one of them. */
  lemma KeptTakes(refs: seq<Bytes>, available: multiset<Bytes>, present: seq<Bytes>, i: nat)
    requires |refs| > 0 && i < |present| && present[i] == refs[0] && available == multiset(present)
    ensures Kept(refs, available) == [refs[0]] + Kept(refs[1..], available - multiset{refs[0]})
  {
    assert present[i] in available;
  }

  lemma RefsCons(item: KeychainItem, items: seq<KeychainItem>)
    ensures Refs([item] + items) == [item.persistentRef] + Refs(items)
  {
  }

  lemma WithRefCons(item: KeychainItem, items: seq<KeychainItem>, v: Bytes)
    ensures WithRef([item] + items, v) == (if item.persistentRef == v then [item] else []) + WithRef(items, v)
  {
    var s := [item] + items;
    assert s[0] == item && s[1..] == items;
  }

  /** Taking the first item of its reference keeps the items of each reference split between taken and left. */
  lemma TakenWithRef(remaining: seq<KeychainItem>, i: nat, taken: seq<KeychainItem>, left: seq<KeychainItem>, v: Bytes)
    requires i < |remaining|
    requires forall k :: 0 <= k < i ==> remaining[k].persistentRef != remaining[i].persistentRef
    requires WithRef(RemoveAt(remaining, i), v) == WithRef(taken, v) + WithRef(left, v)
    ensures WithRef(remaining, v) == WithRef([remaining[i]] + taken, v) + WithRef(left, v)
  {
    WithRefCons(remaining[i], taken, v);
    if remaining[i].persistentRef == v {
      WithRefRemoveFirst(remaining, i, v);
      SeqAssociative([remaining[i]], WithRef(taken, v), WithRef(left, v));
    } else {
      WithRefRemoveOther(remaining, i, v);
    }
  }

  lemma SeqAssociative<T>(a: seq<T>, b: seq<T>, c: seq<T>)
    ensures a + (b + c) == (a + b) + c
  {
  }

  /** The step of `MatchRefs` that takes the item at `i` for the first reference. */
  lemma MatchRefsStep(
    remaining: seq<KeychainItem>, refs: seq<Bytes>, i: nat,
    rest: (seq<KeychainItem>, seq<KeychainItem>), r: (seq<KeychainItem>, seq<KeychainItem>))
    requires |refs| > 0 && i < |remaining| && remaining[i].persistentRef == refs[0]
    requires multiset(rest.0) + multiset(rest.1) == multiset(RemoveAt(remaining, i))
    requires Subsequence(rest.1, RemoveAt(remaining, i))
    requires Subsequence(Refs(rest.0), refs[1..])
    requires forall v :: multiset(Refs(rest.0))[v] == Min(multiset(refs[1..])[v], multiset(Refs(RemoveAt(remaining, i)))[v])
    requires r == ([remaining[i]] + rest.0, rest.1)
    ensures multiset(r.0) + multiset(r.1) == multiset(remaining)
    ensures Subsequence(r.1, remaining)
    ensures Subsequence(Refs(r.0), refs)
    ensures forall v :: multiset(Refs(r.0))[v] == Min(multiset(refs)[v], multiset(Refs(remaining))[v])
  {
    RemoveAtIsSubsequence(remaining, i);
    SubsequenceTransitive(rest.1, RemoveAt(remaining, i), remaining);
    var x := refs[0];
    assert Refs(r.0) == [x] + Refs(rest.0);
    assert Refs(r.0)[1..] == Refs(rest.0);
    TakenRefCounts(remaining, refs, i, rest.0, r.0);
  }

  lemma TakenRefCounts(remaining: seq<KeychainItem>, refs: seq<Bytes>, i: nat,
                       taken: seq<KeychainItem>, r: seq<KeychainItem>)
    requires |refs| > 0 && i < |remaining| && remaining[i].persistentRef == refs[0]
    requires forall v :: multiset(Refs(taken))[v] == Min(multiset(refs[1..])[v], multiset(Refs(RemoveAt(remaining, i)))[v])
    requires Refs(r) == [refs[0]] + Refs(taken)
    ensures forall v :: multiset(Refs(r))[v] == Min(multiset(refs)[v], multiset(Refs(remaining))[v])
  {
    var x := refs[0];
    assert refs == [x] + refs[1..];
    RefsRemoveAt(remaining, i);
    assert multiset(Refs(remaining))[x] >= 1 by {
      assert Refs(remaining)[i] == x;
    }
    forall v
      ensures multiset(Refs(r))[v] == Min(multiset(refs)[v], multiset(Refs(remaining))[v])
    {
      assert multiset(Refs(r))[v] == multiset{x}[v] + multiset(Refs(taken))[v];
      assert multiset(refs)[v] == multiset{x}[v] + multiset(refs[1..])[v];
      assert multiset(Refs(RemoveAt(remaining, i)))[v] == multiset(Refs(remaining))[v] - multiset{x}[v];
    }
  }

  /** The step of `MatchRefs` that skips a reference no remaining item carries. */
  lemma MatchRefsSkip(remaining: seq<KeychainItem>, refs: seq<Bytes>, rest: (seq<KeychainItem>, seq<KeychainItem>))
    requires |refs| > 0
    requires forall k :: 0 <= k < |remaining| ==> remaining[k].persistentRef != refs[0]
    requires Subsequence(Refs(rest.0), refs[1..])
    requires forall v :: multiset(Refs(rest.0))[v] == Min(multiset(refs[1..])[v], multiset(Refs(remaining))[v])
    ensures Subsequence(Refs(rest.0), refs)
    ensures forall v :: multiset(Refs(rest.0))[v] == Min(multiset(refs)[v], multiset(Refs(remaining))[v])
  {
    SubsequenceDropFront(Refs(rest.0), refs);
    assert refs[0] !in Refs(remaining);
    SkippedRefCounts(Refs(remaining), refs, Refs(rest.0));
  }

  lemma SkippedRefCounts(present: seq<Bytes>, refs: seq<Bytes>, taken: seq<Bytes>)
    requires |refs| > 0 && refs[0] !in present
    requires forall v :: multiset(taken)[v] == Min(multiset(refs[1..])[v], multiset(present)[v])
    ensures forall v :: multiset(taken)[v] == Min(multiset(refs)[v], multiset(present)[v])
  {
    var x := refs[0];
    assert refs == [x] + refs[1..];
    forall v
      ensures multiset(taken)[v] == Min(multiset(refs)[v], multiset(present)[v])
    {
      assert multiset(refs)[v] == multiset{x}[v] + multiset(refs[1..])[v];
    }
  }

  /**
   * The stored items in saved order: the items the references pick, in
   * reference order, then the others in their original order. The result is
   * a permutation of the items.
   */
  function SortedByPersistentRefs(items: seq<KeychainItem>, refs: seq<Bytes>): (r: seq<KeychainItem>)
    ensures multiset(r) == multiset(items)
  {
    var m := MatchRefs(items, refs);
    m.0 + m.1
  }

  /**
   * Sorting any arrangement of a list of items with distinct references by
   * that list's own references restores the list: saving the order and
   * reading it back round-trips.
   */
  lemma {:induction false} SortByOwnRefs(all: seq<KeychainItem>, items: seq<KeychainItem>)
    requires multiset(all) == multiset(items)
    requires DistinctRefs(items)
    ensures MatchRefs(all, Refs(items)) == (items, [])
    ensures SortedByPersistentRefs(all, Refs(items)) == items
    decreases |items|
  {
    if |items| == 0 {
      assert |all| == |multiset(all)| == 0;
    } else {
      var i := FirstOfOwnRefs(all, items);
      var refs := Refs(items);
      assert refs[0] == items[0].persistentRef;
      assert refs[1..] == Refs(items[1..]);
      SortByOwnRefs(RemoveAt(all, i), items[1..]);
      var rest := MatchRefs(RemoveAt(all, i), refs[1..]);
      assert rest == (items[1..], []);
      assert MatchRefs(all, refs) == ([all[i]] + rest.0, rest.1);
      assert items == [items[0]] + items[1..];
    }
  }

  /**
   * When `all` is an arrangement of `items` with distinct references, the
   * first item of `all` carrying the reference of `items[0]` is `items[0]`.
   */
  lemma FirstOfOwnRefs(all: seq<KeychainItem>, items: seq<KeychainItem>) returns (i: nat)
    requires multiset(all) == multiset(items)
    requires DistinctRefs(items) && |items| > 0
    ensures IndexOfRef(all, items[0].persistentRef) == Some(i)
    ensures i < |all| && all[i] == items[0]
    ensures multiset(RemoveAt(all, i)) == multiset(items[1..])
  {
    assert items[0] in multiset(all);
    var j :| 0 <= j < |all| && all[j] == items[0];
    i := IndexOfRef(all, items[0].persistentRef).value;
    assert all[i] in multiset(items);
    var m :| 0 <= m < |items| && items[m] == all[i];
    assert m == 0;
    assert items == [items[0]] + items[1..];
    assert multiset(items[1..]) == multiset(items) - multiset{items[0]};
    assert multiset(RemoveAt(all, i)) == multiset(all) - multiset{all[i]};
  }

  // ---------------------------------------------------------------------
  // The manager
  // ---------------------------------------------------------------------

  /** The items in display order, and the references saved as that order. */
  datatype Manager = Manager(items: seq<KeychainItem>, savedRefs: seq<Bytes>)

  /** The saved order is the order of the list. */
  predicate OrderSaved(m: Manager) {
    m.savedRefs == Refs(m.items)
  }

  /** A list operation's new state and the `Bool` it returns. */
  datatype Reply = Reply(manager: Manager, succeeded: bool)

  /**
   * `fetchTokensFromKeychain`: the keychain's items in saved order. The order
   * is saved again exactly when the keychain holds more items than the saved
   * order names.
   */
  function Fetch(keychainItems: seq<KeychainItem>, savedRefs: seq<Bytes>): (m: Manager)
    ensures multiset(m.items) == multiset(keychainItems)
    ensures |keychainItems| > |savedRefs| ==> OrderSaved(m)
    ensures |keychainItems| <= |savedRefs| ==> m.savedRefs == savedRefs
  {
    var sorted := SortedByPersistentRefs(keychainItems, savedRefs);
    assert |sorted| == |keychainItems| by {
      assert |multiset(sorted)| == |multiset(keychainItems)|;
    }
    if |sorted| > |savedRefs| then Manager(sorted, Refs(sorted)) else Manager(sorted, savedRefs)
  }

  /** After the order is saved, reading the keychain back in any order gives the same list. */
  lemma FetchAfterSave(m: Manager, keychainItems: seq<KeychainItem>)
    requires OrderSaved(m) && DistinctRefs(m.items)
    requires multiset(keychainItems) == multiset(m.items)
    ensures Fetch(keychainItems, m.savedRefs) == m
  {
    SortByOwnRefs(keychainItems, m.items);
  }

  /**
   * `addToken`: given the reference the keychain assigned, the new item is
   * appended and the order saved; when the keychain refuses, nothing changes
   * and the result is false.
   */
  function AddToken(m: Manager, token: Token, newRef: Option<Bytes>): (r: Reply)
    ensures r.succeeded <==> newRef.Some?
    ensures r.succeeded ==>
      r.manager.items == m.items + [KeychainItem(token, newRef.value)] && OrderSaved(r.manager)
    ensures !r.succeeded ==> r.manager == m
  {
    match newRef
    case None => Reply(m, false)
    case Some(ref) =>
      var items := m.items + [KeychainItem(token, ref)];
      Reply(Manager(items, Refs(items)), true)
  }

  /**
   * `saveToken(_:toKeychainItem:)`: when the keychain accepts the update,
   * every item with the same reference is replaced by the updated item; the
   * references, and so the saved order, stay as they are. A refused update
   * changes nothing.
   */
  function SaveToken(m: Manager, token: Token, item: KeychainItem, updated: bool): (r: Reply)
    ensures r.succeeded == updated
    ensures r.succeeded ==>
      && |r.manager.items| == |m.items|
      && (forall k :: 0 <= k < |m.items| && m.items[k].persistentRef == item.persistentRef ==>
            r.manager.items[k] == KeychainItem(token, item.persistentRef))
      && (forall k :: 0 <= k < |m.items| && m.items[k].persistentRef != item.persistentRef ==>
            r.manager.items[k] == m.items[k])
      && Refs(r.manager.items) == Refs(m.items)
      && r.manager.savedRefs == m.savedRefs
    ensures !r.succeeded ==> r.manager == m
  {
    if updated then
      var items := ReplaceKeyed(m.items, PersistentRef, KeychainItem(token, item.persistentRef));
      ReplaceKeyedKeepsKeys(m.items, PersistentRef, KeychainItem(token, item.persistentRef));
      Reply(Manager(items, m.savedRefs), true)
    else
      Reply(m, false)
  }

  /**
   * `moveTokenFromIndex(_:toIndex:)`: the item at `origin` moves to
   * `destination`, the others keep their order, and the order is saved. The
   * indices must be valid, since Swift traps on an out-of-range index.
   */
  function MoveToken(m: Manager, origin: nat, destination: nat): (r: Reply)
    requires origin < |m.items| && destination < |m.items|
    ensures r.succeeded
    ensures |r.manager.items| == |m.items|
    ensures r.manager.items[destination] == m.items[origin]
    ensures RemoveAt(r.manager.items, destination) == RemoveAt(m.items, origin)
    ensures multiset(r.manager.items) == multiset(m.items)
    ensures OrderSaved(r.manager)
  {
    var items := MoveItem(m.items, origin, destination);
    Reply(Manager(items, Refs(items)), true)
  }

  /**
   * `removeTokenAtIndex`: when the keychain deletes the item, it leaves the
   * list and the order is saved; otherwise nothing changes and the result is
   * false.
   */
  function RemoveToken(m: Manager, index: nat, deleted: bool): (r: Reply)
    requires index < |m.items|
    ensures r.succeeded == deleted
    ensures r.succeeded ==> r.manager.items == RemoveAt(m.items, index) && OrderSaved(r.manager)
    ensures !r.succeeded ==> r.manager == m
  {
    if deleted then
      var items := RemoveAt(m.items, index);
      Reply(Manager(items, Refs(items)), true)
    else
      Reply(m, false)
  }

  /** `timeBasedTokenPeriods`: the timer periods of the items, ascending and each once. */
  function TimePeriods(m: Manager): (r: seq<int>)
    ensures StrictlyIncreasing(r)
    ensures forall p :: p in r <==> exists k :: 0 <= k < |m.items| && m.items[k].token.generator.factor == Timer(p)
  {
    var tokens := Map(m.items, ItemToken);
    assert forall p :: HasTimerPeriod(tokens, p) <==>
      exists k :: 0 <= k < |m.items| && m.items[k].token.generator.factor == Timer(p) by {
      forall p | HasTimerPeriod(tokens, p)
        ensures exists k :: 0 <= k < |m.items| && m.items[k].token.generator.factor == Timer(p)
      {
        var k :| 0 <= k < |tokens| && tokens[k].generator.factor == Timer(p);
        assert m.items[k].token == tokens[k];
      }
    }
    TimeBasedTokenPeriods(tokens)
  }

  /** Once the order is saved, every list operation keeps it saved. */
  lemma OperationsKeepOrderSaved(m: Manager, token: Token, newRef: Option<Bytes>, item: KeychainItem,
                                 flag: bool, i: nat, j: nat)
    requires OrderSaved(m)
    ensures OrderSaved(AddToken(m, token, newRef).manager)
    ensures OrderSaved(SaveToken(m, token, item, flag).manager)
    ensures i < |m.items| && j < |m.items| ==> OrderSaved(MoveToken(m, i, j).manager)
    ensures i < |m.items| ==> OrderSaved(RemoveToken(m, i, flag).manager)
  {
  }
}
