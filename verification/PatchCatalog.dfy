/** The order of the patch inventory, and the sort that makes it.
    Source: firmware/src/config.c, lines 524 to 552. */
module PatchCatalog {
  import opened ConfigFiles

  /** The comparison of sort_keys: bank, then slot, as long as slots stay below 16. */
  function Rank(k: Key): nat { k.bank * 16 + k.slot }

  predicate Less(a: Key, b: Key) { a.bank < b.bank || (a.bank == b.bank && a.slot < b.slot) }

  lemma RankOrders(a: Key, b: Key)
    requires Legal(a) && Legal(b)
    ensures Rank(a) < Rank(b) <==> Less(a, b)
    ensures Rank(a) == Rank(b) <==> a == b
  {
  }

  predicate SortedBy(keys: seq<Key>) {
    forall i, j | 0 <= i < j < |keys| :: Rank(keys[i]) <= Rank(keys[j])
  }

  predicate StrictlySorted(keys: seq<Key>) {
    forall i, j | 0 <= i < j < |keys| :: Less(keys[i], keys[j])
  }

  ghost predicate Permutes(a: seq<Key>, b: seq<Key>) { multiset(a) == multiset(b) }

  /** keys with the one at i put before the first one that ranks higher. */
  function Shifted(keys: seq<Key>, at: nat, i: nat): (s: seq<Key>)
    requires at <= i < |keys|
    ensures |s| == |keys|
  {
    keys[..at] + [keys[i]] + keys[at..i] + keys[i + 1..]
  }

  lemma ShiftedPermutes(keys: seq<Key>, at: nat, i: nat)
    requires at <= i < |keys|
    ensures Permutes(Shifted(keys, at, i), keys)
  {
    assert keys == keys[..at] + keys[at..i] + [keys[i]] + keys[i + 1..];
  }

  lemma ShiftedSorted(keys: seq<Key>, at: nat, i: nat)
    requires at <= i < |keys| && SortedBy(keys[..i])
    requires forall j | 0 <= j < at :: Rank(keys[j]) <= Rank(keys[i])
    requires forall j | at <= j < i :: Rank(keys[j]) > Rank(keys[i])
    ensures SortedBy(Shifted(keys, at, i)[..i + 1])
  {
    var s := Shifted(keys, at, i);
    forall a, b | 0 <= a < b < i + 1 ensures Rank(s[a]) <= Rank(s[b]) {
      var p := if a < at then a else if a == at then i else a - 1;
      var q := if b < at then b else if b == at then i else b - 1;
      assert s[a] == keys[p] && s[b] == keys[q];
      if p < i && q < i { assert keys[..i][p] == keys[p] && keys[..i][q] == keys[q]; }
    }
  }

  /** The inner loop of sort_keys: move keys[i] down to its place. */
  method Sink(keys: array<Key>, i: nat)
    requires i < keys.Length && SortedBy(keys[..i])
    modifies keys
    ensures SortedBy(keys[..i + 1]) && Permutes(keys[..], old(keys[..]))
    ensures keys[i + 1..] == old(keys[i + 1..])
  {
    hide SortedBy, Permutes, Shifted;
    var key, k := keys[i], i;
    ghost var was := keys[..];
    while k > 0 && Rank(keys[k - 1]) > Rank(key)
      invariant k <= i
      invariant forall j | 0 <= j < k :: keys[j] == was[j]
      invariant forall j | k < j <= i :: keys[j] == was[j - 1]
      invariant forall j | i < j < keys.Length :: keys[j] == was[j]
      invariant forall j | k <= j < i :: Rank(was[j]) > Rank(key)
    {
      keys[k] := keys[k - 1];
      k := k - 1;
    }
    keys[k] := key;
    assert was[..i] == old(keys[..i]);
    Below(was, k, i, key);
    Placed(keys[..], was, k, i);
    ShiftedPermutes(was, k, i);
    ShiftedSorted(was, k, i);
    assert keys[..][..i + 1] == keys[..i + 1];
  }

  lemma Placed(now: seq<Key>, was: seq<Key>, k: nat, i: nat)
    requires k <= i < |was| && |now| == |was|
    requires forall j | 0 <= j < k :: now[j] == was[j]
    requires now[k] == was[i]
    requires forall j | k < j <= i :: now[j] == was[j - 1]
    requires forall j | i < j < |was| :: now[j] == was[j]
    ensures now == Shifted(was, k, i)
  {
  }

  lemma Below(was: seq<Key>, k: nat, i: nat, key: Key)
    requires k <= i < |was| && SortedBy(was[..i]) && (k > 0 ==> Rank(was[k - 1]) <= Rank(key))
    ensures forall j | 0 <= j < k :: Rank(was[j]) <= Rank(key)
  {
    forall j | 0 <= j < k ensures Rank(was[j]) <= Rank(key) {
      assert was[..i][j] == was[j] && was[..i][k - 1] == was[k - 1];
    }
  }

  /** sort_keys: insertion sort of the first count keys. */
  method SortKeys(keys: array<Key>, count: nat)
    requires count <= keys.Length
    modifies keys
    ensures SortedBy(keys[..count]) && Permutes(keys[..count], old(keys[..count]))
    ensures keys[count..] == old(keys[count..])
  {
    ghost var was := keys[..];
    var i := 1;
    while i < count
      invariant 1 <= i && (i <= count || count == 0) && SortedBy(keys[..if i <= count then i else count])
      invariant Permutes(keys[..], was) && keys[count..] == was[count..]
    {
      Sink(keys, i);
      assert keys[count..] == keys[i + 1..][count - i - 1..];
      i := i + 1;
    }
    Split(keys[..], was, count);
    assert keys[..][..count] == keys[..count] && was[..count] == old(keys[..count]);
  }

  lemma Split(a: seq<Key>, b: seq<Key>, n: nat)
    requires Permutes(a, b) && n <= |a| && |a| == |b| && a[n..] == b[n..]
    ensures Permutes(a[..n], b[..n])
  {
    assert a == a[..n] + a[n..] && b == b[..n] + b[n..];
    assert multiset(a) == multiset(a[..n]) + multiset(a[n..]);
    assert multiset(b) == multiset(b[..n]) + multiset(b[n..]);
    forall k: Key ensures multiset(a[..n])[k] == multiset(b[..n])[k] {
      assert multiset(a)[k] == multiset(a[..n])[k] + multiset(a[n..])[k];
      assert multiset(b)[k] == multiset(b[..n])[k] + multiset(b[n..])[k];
    }
    assert multiset(a[..n]) == multiset(b[..n]);
  }

  /** Distinct legal keys in rank order are in strict order. */
  lemma SortedStrictly(keys: seq<Key>)
    requires SortedBy(keys) && forall i | 0 <= i < |keys| :: Legal(keys[i])
    requires forall i, j | 0 <= i < j < |keys| :: keys[i] != keys[j]
    ensures StrictlySorted(keys)
  {
    forall i, j | 0 <= i < j < |keys| ensures Less(keys[i], keys[j]) {
      RankOrders(keys[i], keys[j]);
    }
  }

  lemma DistinctPermutes(a: seq<Key>, b: seq<Key>)
    requires Permutes(a, b) && forall i, j | 0 <= i < j < |b| :: b[i] != b[j]
    ensures forall i, j | 0 <= i < j < |a| :: a[i] != a[j]
    ensures forall k: Key :: k in a <==> k in b
  {
    forall k: Key ensures k in a <==> k in b {
      assert k in multiset(a) <==> k in multiset(b);
    }
    forall i, j | 0 <= i < j < |a| ensures a[i] != a[j] {
      if a[i] == a[j] {
        Twice(a, i, j);
        assert multiset(b)[a[i]] >= 2;
        Once(b, a[i]);
      }
    }
  }

  lemma Twice(a: seq<Key>, i: nat, j: nat)
    requires i < j < |a| && a[i] == a[j]
    ensures multiset(a)[a[i]] >= 2
  {
    assert a == a[..i] + [a[i]] + a[i + 1..j] + [a[j]] + a[j + 1..];
  }

  lemma {:induction false} Once(b: seq<Key>, k: Key)
    requires forall i, j | 0 <= i < j < |b| :: b[i] != b[j]
    ensures multiset(b)[k] <= 1
  {
    if b != [] {
      assert b == [b[0]] + b[1..];
      Once(b[1..], k);
      if b[0] == k {
        assert k !in b[1..];
        assert k !in multiset(b[1..]);
      }
    }
  }

  /** A strictly ordered listing of given coordinates is the only one. */
  lemma {:induction false} OneListing(a: seq<Key>, b: seq<Key>)
    requires StrictlySorted(a) && StrictlySorted(b) && forall k: Key :: k in a <==> k in b
    ensures a == b
    decreases |a|
  {
    assert |b| > 0 ==> b[0] in a;
    if a != [] {
      assert a[0] in a && a[0] in b;
      assert b[0] in a;
      assert a[0] == b[0];
      forall k: Key ensures k in a[1..] <==> k in b[1..] {
        assert k in a <==> k in b;
        assert k == a[0] ==> k !in a[1..] && k !in b[1..];
      }
      OneListing(a[1..], b[1..]);
      assert a == [a[0]] + a[1..] && b == [b[0]] + b[1..];
    }
  }
}
