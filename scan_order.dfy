/** WaitAny breaks ties by the caller's list order, never by arrival order.
    This module states that for one scan and for the coroutine loop of the
    WaitAny test, which waits for any of its keys, records the key it got and
    removes that key from its list until the list is empty. */
module ScanOrder {
  import opened YieldPoints

  /** No key occurs twice. */
  predicate Distinct<K(==)>(s: seq<K>)
  {
    forall i, j :: 0 <= i < j < |s| ==> s[i] != s[j]
  }

  /** list.remove: drops the first occurrence of a key the list holds. */
  function RemoveFirst<K(==)>(s: seq<K>, x: K): (r: seq<K>)
    requires x in s
    ensures |r| == |s| - 1
    ensures multiset(r) == multiset(s) - multiset{x}
  {
    if s[0] == x then
      assert s == [s[0]] + s[1..];
      s[1..]
    else
      assert s == [s[0]] + s[1..];
      [s[0]] + RemoveFirst(s[1..], x)
  }

  /** The keys of the list that have a result, in list order. */
  function ReadyKeys<K(==), V>(keys: seq<K>, results: map<K, V>): (r: seq<K>)
    ensures |r| <= |keys|
    ensures forall k :: k in r ==> k in keys && k in results
    ensures forall k :: k in keys && k in results ==> k in r
  {
    if |keys| == 0 then []
    else (if keys[0] in results then [keys[0]] else []) + ReadyKeys(keys[1..], results)
  }

  /** The keys the WaitAny loop collects, in collection order, while results
      are already there; it stops where the coroutine would suspend, because
      none of the remaining keys is ready. */
  function DrainHistory<K(==), V>(keys: seq<K>, results: map<K, V>): (r: seq<K>)
    decreases |keys|
  {
    match FirstReady(keys, results)
    case None => []
    case Some(i) =>
      [keys[i]] + DrainHistory(RemoveFirst(keys, keys[i]), results - {keys[i]})
  }

  lemma {:induction false} ReadyKeysAppend<K, V>(a: seq<K>, b: seq<K>, results: map<K, V>)
    ensures ReadyKeys(a + b, results) == ReadyKeys(a, results) + ReadyKeys(b, results)
  {
    if |a| > 0 {
      assert (a + b)[1..] == a[1..] + b;
      ReadyKeysAppend(a[1..], b, results);
    } else {
      assert a + b == b;
    }
  }

  lemma {:induction false} ReadyKeysOfUnready<K, V>(keys: seq<K>, results: map<K, V>)
    requires forall j :: 0 <= j < |keys| ==> keys[j] !in results
    ensures ReadyKeys(keys, results) == []
  {
    if |keys| > 0 {
      ReadyKeysOfUnready(keys[1..], results);
    }
  }

  /** Forgetting the result of a key outside the list changes nothing. */
  lemma {:induction false} ReadyKeysIgnoresOthers<K, V>(keys: seq<K>, results: map<K, V>, x: K)
    requires x !in keys
    ensures ReadyKeys(keys, results - {x}) == ReadyKeys(keys, results)
  {
    if |keys| > 0 {
      assert keys[0] != x;
      ReadyKeysIgnoresOthers(keys[1..], results, x);
    }
  }

  lemma {:induction false} RemoveFirstAt<K>(s: seq<K>, i: nat)
    requires i < |s| && forall j :: 0 <= j < i ==> s[j] != s[i]
    ensures RemoveFirst(s, s[i]) == s[..i] + s[i + 1..]
  {
    if i > 0 {
      assert s[1..][i - 1] == s[i];
      RemoveFirstAt(s[1..], i - 1);
      assert s[..i] == [s[0]] + s[1..][..i - 1];
      assert s[i + 1..] == s[1..][i..];
    }
  }

  lemma DistinctWithout<K>(s: seq<K>, i: nat)
    requires Distinct(s) && i < |s|
    ensures Distinct(s[..i] + s[i + 1..])
  {
    var t := s[..i] + s[i + 1..];
    forall p | 0 <= p < |t|
      ensures t[p] == s[if p < i then p else p + 1]
    {
    }
  }

  /** The ready keys of a list start with the one WaitAny collects. */
  lemma ReadyKeysFromFirst<K, V>(keys: seq<K>, results: map<K, V>, i: nat)
    requires IsFirstReady(keys, results, i)
    ensures ReadyKeys(keys, results) == [keys[i]] + ReadyKeys(keys[i + 1..], results)
  {
    assert keys == keys[..i] + ([keys[i]] + keys[i + 1..]);
    ReadyKeysAppend(keys[..i], [keys[i]] + keys[i + 1..], results);
    ReadyKeysOfUnready(keys[..i], results);
    assert ([keys[i]] + keys[i + 1..])[1..] == keys[i + 1..];
  }

  /** Once the collected key is consumed and removed from a distinct list,
      the ready keys left are those after it. */
  lemma ReadyKeysAfterCollect<K, V>(keys: seq<K>, results: map<K, V>, i: nat)
    requires Distinct(keys) && IsFirstReady(keys, results, i)
    ensures ReadyKeys(keys[..i] + keys[i + 1..], results - {keys[i]}) == ReadyKeys(keys[i + 1..], results)
  {
    var x := keys[i];
    ReadyKeysAppend(keys[..i], keys[i + 1..], results - {x});
    ReadyKeysOfUnready(keys[..i], results - {x});
    assert x !in keys[i + 1..] by {
      assert forall j :: i < j < |keys| ==> keys[j] != x;
    }
    ReadyKeysIgnoresOthers(keys[i + 1..], results, x);
  }

  /** The WaitAny loop collects exactly the ready keys, each once, in the
      caller's list order, whatever order their results arrived in. */
  lemma {:induction false} DrainFollowsScanOrder<K, V>(keys: seq<K>, results: map<K, V>)
    requires Distinct(keys)
    ensures DrainHistory(keys, results) == ReadyKeys(keys, results)
    decreases |keys|
  {
    match FirstReady(keys, results)
    case None =>
      ReadyKeysOfUnready(keys, results);
    case Some(i) =>
      var x := keys[i];
      var rest := keys[..i] + keys[i + 1..];
      RemoveFirstAt(keys, i);
      DistinctWithout(keys, i);
      DrainFollowsScanOrder(rest, results - {x});
      ReadyKeysFromFirst(keys, results, i);
      ReadyKeysAfterCollect(keys, results, i);
  }

  /** With every result already there, the loop collects the keys in list
      order (the keys 0, 1, 2 of the WaitAny test). */
  lemma {:induction false} DrainAllReady<K, V>(keys: seq<K>, results: map<K, V>)
    requires Distinct(keys)
    requires forall j :: 0 <= j < |keys| ==> keys[j] in results
    ensures DrainHistory(keys, results) == keys
  {
    DrainFollowsScanOrder(keys, results);
    ReadyKeysOfReady(keys, results);
  }

  lemma {:induction false} ReadyKeysOfReady<K, V>(keys: seq<K>, results: map<K, V>)
    requires forall j :: 0 <= j < |keys| ==> keys[j] in results
    ensures ReadyKeys(keys, results) == keys
  {
    if |keys| > 0 {
      ReadyKeysOfReady(keys[1..], results);
    }
  }

  /** A result arriving for key x moves WaitAny's choice only to an earlier
      position of the list, and only to x: a key scanned later never wins over
      a ready key scanned earlier, however early its result came. */
  lemma ArrivalKeepsScanOrder<K, V>(keys: seq<K>, results: map<K, V>, x: K, v: V, i: nat)
    requires FirstReady(keys, results) == Some(i)
    ensures FirstReady(keys, results[x := v]).Some?
    ensures var j := FirstReady(keys, results[x := v]).value;
      j <= i && (j < i ==> keys[j] == x) && (x !in keys[..i] ==> j == i)
  {
    var j := FirstReady(keys, results[x := v]).value;
    if j < i {
      assert keys[j] in keys[..i];
    }
  }
}
