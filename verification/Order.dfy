/** Total orders on text and on keys, and ordered maps as strictly sorted association lists:
    the shape in which an ordered map is iterated. */
module Order {
  import opened Prelude

  predicate LexLess(s: string, t: string) {
    if t == [] then false
    else if s == [] then true
    else s[0] < t[0] || (s[0] == t[0] && LexLess(s[1..], t[1..]))
  }

  /** The first difference decides: a smaller character, or the end of the shorter text. */
  ghost predicate DiffersAt(s: string, t: string, k: nat) {
    k <= |s| && k < |t| && s[..k] == t[..k] && (k == |s| || s[k] < t[k])
  }

  lemma StartsDiffer<T>(s: seq<T>, t: seq<T>, k: nat)
    requires s != [] && t != [] && s[0] != t[0] && k <= |s| && k <= |t|
    ensures s[..k] == t[..k] <==> k == 0
  {
    assert k > 0 ==> s[..k][0] == s[0] && t[..k][0] == t[0];
  }

  lemma {:induction false} LexLessMeans(s: string, t: string)
    ensures LexLess(s, t) <==> exists k: nat :: DiffersAt(s, t, k)
  {
    if s != [] && t != [] && s[0] == t[0] {
      LexLessMeans(s[1..], t[1..]);
      if k: nat :| DiffersAt(s[1..], t[1..], k) {
        assert s[..k + 1] == [s[0]] + s[1..][..k] && t[..k + 1] == [t[0]] + t[1..][..k];
        assert DiffersAt(s, t, k + 1);
      }
      if k: nat :| DiffersAt(s, t, k) {
        assert k > 0;
        assert s[1..][..k - 1] == s[..k][1..] && t[1..][..k - 1] == t[..k][1..];
        assert DiffersAt(s[1..], t[1..], k - 1);
      }
    } else if s != [] && t != [] {
      if s[0] < t[0] { assert DiffersAt(s, t, 0); }
      forall k: nat | k <= |s| && k <= |t| ensures s[..k] == t[..k] <==> k == 0 { StartsDiffer(s, t, k); }
    } else if s == [] && t != [] {
      assert DiffersAt(s, t, 0);
    }
  }

  lemma {:induction false} LexTransitive(s: string, t: string, u: string)
    requires LexLess(s, t) && LexLess(t, u)
    ensures LexLess(s, u)
  {
    if s != [] && s[0] == t[0] && t[0] == u[0] { LexTransitive(s[1..], t[1..], u[1..]); }
  }

  lemma {:induction false} LexIrreflexive(s: string)
    ensures !LexLess(s, s)
  {
    if s != [] { LexIrreflexive(s[1..]); }
  }

  lemma {:induction false} LexTotal(s: string, t: string)
    ensures s == t || LexLess(s, t) || LexLess(t, s)
  {
    if s != [] && t != [] && s[0] == t[0] {
      LexTotal(s[1..], t[1..]);
      assert s == [s[0]] + s[1..] && t == [t[0]] + t[1..];
    }
  }

  ghost predicate StrictOrder<K(!new)>(less: (K, K) -> bool) {
    && (forall a :: !less(a, a))
    && (forall a, b, c :: less(a, b) && less(b, c) ==> less(a, c))
    && (forall a, b :: a == b || less(a, b) || less(b, a))
  }

  lemma LexIsStrictOrder()
    ensures StrictOrder(LexLess)
  {
    forall a ensures !LexLess(a, a) { LexIrreflexive(a); }
    forall a, b, c | LexLess(a, b) && LexLess(b, c) ensures LexLess(a, c) { LexTransitive(a, b, c); }
    forall a, b ensures a == b || LexLess(a, b) || LexLess(b, a) { LexTotal(a, b); }
  }

  /** Strictly increasing keys: the order in which an ordered map yields its entries. */
  ghost predicate Sorted<K, V>(less: (K, K) -> bool, entries: seq<(K, V)>) {
    forall i, j | 0 <= i < j < |entries| :: less(entries[i].0, entries[j].0)
  }

  /** The sorted list of entries of a map: the list an ordered map yields when iterated. */
  ghost predicate Lists<K, V>(less: (K, K) -> bool, entries: seq<(K, V)>, m: map<K, V>) {
    && Sorted(less, entries)
    && (forall i | 0 <= i < |entries| :: entries[i].0 in m && m[entries[i].0] == entries[i].1)
    && (forall k | k in m :: Listed(entries, k))
  }

  ghost predicate Listed<K, V>(entries: seq<(K, V)>, key: K) {
    exists i :: 0 <= i < |entries| && entries[i].0 == key
  }

  /** Where a key is, or where it would be inserted. */
  function Place<K, V>(less: (K, K) -> bool, entries: seq<(K, V)>, key: K): (i: nat)
    ensures i <= |entries|
    ensures forall j | 0 <= j < i :: less(entries[j].0, key)
    ensures i < |entries| ==> !less(entries[i].0, key)
  {
    if entries == [] || !less(entries[0].0, key) then 0 else 1 + Place(less, entries[1..], key)
  }

  predicate At<K(==), V>(entries: seq<(K, V)>, i: nat, key: K) {
    i < |entries| && entries[i].0 == key
  }

  predicate Has<K(==), V>(less: (K, K) -> bool, entries: seq<(K, V)>, key: K) {
    At(entries, Place(less, entries, key), key)
  }

  function Get<K(==), V>(less: (K, K) -> bool, entries: seq<(K, V)>, key: K): V
    requires Has(less, entries, key)
  {
    entries[Place(less, entries, key)].1
  }

  function Put<K(==), V>(less: (K, K) -> bool, entries: seq<(K, V)>, key: K, value: V): seq<(K, V)> {
    var i := Place(less, entries, key);
    entries[..i] + [(key, value)] + entries[if At(entries, i, key) then i + 1 else i..]
  }

  function Without<K(==), V>(less: (K, K) -> bool, entries: seq<(K, V)>, key: K): seq<(K, V)> {
    var i := Place(less, entries, key);
    if At(entries, i, key) then entries[..i] + entries[i + 1..] else entries
  }

  /** Keys before the place are smaller; keys after it are larger. */
  lemma PlaceSplits<K(!new), V>(less: (K, K) -> bool, entries: seq<(K, V)>, key: K, j: nat)
    requires StrictOrder(less) && Sorted(less, entries) && j < |entries|
    ensures var i := Place(less, entries, key);
            && (j < i ==> less(entries[j].0, key) && entries[j].0 != key)
            && (j > i ==> less(key, entries[j].0) && entries[j].0 != key)
            && (j == i ==> entries[j].0 == key || less(key, entries[j].0))
  {
    var i := Place(less, entries, key);
    if j > i {
      assert entries[i].0 == key || less(key, entries[i].0);
      assert less(entries[i].0, entries[j].0);
    }
  }

  lemma HasIsMembership<K(!new), V>(less: (K, K) -> bool, entries: seq<(K, V)>, m: map<K, V>, key: K)
    requires StrictOrder(less) && Lists(less, entries, m)
    ensures Has(less, entries, key) <==> key in m
    ensures key in m ==> Get(less, entries, key) == m[key]
  {
    if key in m {
      assert Listed(entries, key);
      var j :| 0 <= j < |entries| && entries[j].0 == key;
      PlaceSplits(less, entries, key, j);
    }
  }

  lemma Asymmetric<K(!new)>(less: (K, K) -> bool, a: K, b: K)
    requires StrictOrder(less)
    ensures !(less(a, b) && less(b, a)) && !less(a, a)
  {}

  lemma PutAt<K, V>(less: (K, K) -> bool, entries: seq<(K, V)>, key: K, value: V, j: nat)
    requires j < |Put(less, entries, key, value)|
    ensures var i := Place(less, entries, key);
            var shift := if At(entries, i, key) then 0 else 1;
            && |Put(less, entries, key, value)| == |entries| + shift
            && Put(less, entries, key, value)[j] == if j < i then entries[j] else if j == i then (key, value)
              else entries[j - shift]
  {}

  lemma PutSorted<K(!new), V>(less: (K, K) -> bool, entries: seq<(K, V)>, key: K, value: V)
    requires StrictOrder(less) && Sorted(less, entries)
    ensures Sorted(less, Put(less, entries, key, value))
  {
    hide StrictOrder, Put;
    var after, i := Put(less, entries, key, value), Place(less, entries, key);
    var shift := if At(entries, i, key) then 0 else 1;
    forall x: nat, y: nat | x < y < |after| ensures less(after[x].0, after[y].0) {
      PutAt(less, entries, key, value, x);
      PutAt(less, entries, key, value, y);
      if x < i { PlaceSplits(less, entries, key, x); }
      if y > i { PlaceSplits(less, entries, key, y - shift); }
    }
  }

  lemma PutLists<K(!new), V>(less: (K, K) -> bool, entries: seq<(K, V)>, m: map<K, V>, key: K, value: V)
    requires StrictOrder(less) && Lists(less, entries, m)
    ensures Lists(less, Put(less, entries, key, value), m[key := value])
  {
    hide StrictOrder, Put, Sorted;
    var after, i := Put(less, entries, key, value), Place(less, entries, key);
    var shift := if At(entries, i, key) then 0 else 1;
    PutSorted(less, entries, key, value);
    assert |after| == |entries| + shift by { PutLength(less, entries, key, value); }
    forall x: nat | x < |after| ensures after[x].0 in m[key := value] && m[key := value][after[x].0] == after[x].1 {
      PutAt(less, entries, key, value, x);
      if x < i { PlaceSplits(less, entries, key, x); }
      if x > i { PlaceSplits(less, entries, key, x - shift); }
    }
    forall k | k in m[key := value] ensures Listed(after, k) {
      if k == key {
        PutAt(less, entries, key, value, i);
      } else {
        assert Listed(entries, k);
        var j :| 0 <= j < |entries| && entries[j].0 == k;
        PutAt(less, entries, key, value, if j < i then j else j + shift);
      }
    }
  }

  lemma PutLength<K, V>(less: (K, K) -> bool, entries: seq<(K, V)>, key: K, value: V)
    ensures |Put(less, entries, key, value)| == |entries| + if At(entries, Place(less, entries, key), key) then 0 else 1
  {}

  lemma WithoutAt<K, V>(less: (K, K) -> bool, entries: seq<(K, V)>, key: K, j: nat)
    requires At(entries, Place(less, entries, key), key) && j < |Without(less, entries, key)|
    ensures |Without(less, entries, key)| == |entries| - 1
    ensures Without(less, entries, key)[j] == if j < Place(less, entries, key) then entries[j] else entries[j + 1]
  {}

  lemma WithoutSorted<K(!new), V>(less: (K, K) -> bool, entries: seq<(K, V)>, key: K)
    requires StrictOrder(less) && Sorted(less, entries)
    ensures Sorted(less, Without(less, entries, key))
  {
    hide StrictOrder;
  }

  lemma WithoutLists<K(!new), V>(less: (K, K) -> bool, entries: seq<(K, V)>, m: map<K, V>, key: K)
    requires StrictOrder(less) && Lists(less, entries, m)
    ensures Lists(less, Without(less, entries, key), m - {key})
  {
    HasIsMembership(less, entries, m, key);
    WithoutSorted(less, entries, key);
    if Has(less, entries, key) {
      WithoutPresent(less, entries, m, key);
    } else {
      assert m - {key} == m;
    }
  }

  lemma WithoutPresent<K(!new), V>(less: (K, K) -> bool, entries: seq<(K, V)>, m: map<K, V>, key: K)
    requires StrictOrder(less) && Lists(less, entries, m) && Has(less, entries, key)
    ensures var after := Without(less, entries, key);
            && (forall x | 0 <= x < |after| :: after[x].0 in m - {key} && (m - {key})[after[x].0] == after[x].1)
            && (forall k | k in m - {key} :: Listed(after, k))
  {
    var after, i := Without(less, entries, key), Place(less, entries, key);
    assert |after| == |entries| - 1;
    hide StrictOrder, Without, Sorted;
    forall x: nat | x < |after| ensures after[x].0 in m - {key} && (m - {key})[after[x].0] == after[x].1 {
      WithoutAt(less, entries, key, x);
      PlaceSplits(less, entries, key, if x < i then x else x + 1);
    }
    forall k | k in m - {key} ensures Listed(after, k) {
      assert Listed(entries, k);
      var j :| 0 <= j < |entries| && entries[j].0 == k;
      WithoutAt(less, entries, key, if j < i then j else j - 1);
    }
  }

  /** A map has one sorted list of entries. */
  lemma {:induction false} ListsUnique<K(!new), V>(less: (K, K) -> bool, a: seq<(K, V)>, b: seq<(K, V)>, m: map<K, V>)
    requires StrictOrder(less) && Lists(less, a, m) && Lists(less, b, m)
    ensures a == b
    decreases |a|
  {
    ListsSize(less, a, m);
    ListsSize(less, b, m);
    if a != [] {
      hide *;
      var x, y := |a| - 1, |b| - 1;
      LastEntry(less, a, m);
      LastEntry(less, b, m);
      LastIsGreatest(less, a, m, b[y].0);
      LastIsGreatest(less, b, m, a[x].0);
      Asymmetric(less, a[x].0, b[y].0);
      DropLast(less, a, m);
      DropLast(less, b, m);
      ListsUnique(less, a[..x], b[..y], m - {a[x].0});
      assert a == a[..x] + [a[x]] && b == b[..y] + [b[y]];
    }
  }

  lemma LastEntry<K, V>(less: (K, K) -> bool, a: seq<(K, V)>, m: map<K, V>)
    requires Lists(less, a, m) && a != []
    ensures a[|a| - 1].0 in m && m[a[|a| - 1].0] == a[|a| - 1].1
  {}

  lemma LastIsGreatest<K(!new), V>(less: (K, K) -> bool, a: seq<(K, V)>, m: map<K, V>, key: K)
    requires StrictOrder(less) && Lists(less, a, m) && a != [] && key in m
    ensures key == a[|a| - 1].0 || less(key, a[|a| - 1].0)
  {
    assert Listed(a, key);
  }

  lemma DropLast<K(!new), V>(less: (K, K) -> bool, a: seq<(K, V)>, m: map<K, V>)
    requires StrictOrder(less) && Lists(less, a, m) && a != []
    ensures Lists(less, a[..|a| - 1], m - {a[|a| - 1].0})
  {
    var last := |a| - 1;
    forall k | k in m - {a[last].0} ensures Listed(a[..last], k) {
      assert Listed(a, k);
      var i :| 0 <= i < |a| && a[i].0 == k;
      assert a[..last][i].0 == k;
    }
    forall i | 0 <= i < last ensures a[i].0 != a[last].0 {
      assert less(a[i].0, a[last].0);
    }
  }

  lemma {:induction false} ListsSize<K(!new), V>(less: (K, K) -> bool, a: seq<(K, V)>, m: map<K, V>)
    requires StrictOrder(less) && Lists(less, a, m)
    ensures |m| == |a|
    decreases |a|
  {
    if a == [] {
      assert forall k | k in m :: Listed(a, k);
      assert m == map[];
    } else {
      DropLast(less, a, m);
      ListsSize(less, a[..|a| - 1], m - {a[|a| - 1].0});
      assert m.Keys == (m - {a[|a| - 1].0}).Keys + {a[|a| - 1].0};
    }
  }

  /** Strictly sorted sequences with the same elements are equal. */
  lemma {:induction false} SortedSameElements<T(!new)>(less: (T, T) -> bool, a: seq<T>, b: seq<T>)
    requires forall x :: !less(x, x)
    requires forall x, y :: less(x, y) ==> !less(y, x)
    requires forall i, j | 0 <= i < j < |a| :: less(a[i], a[j])
    requires forall i, j | 0 <= i < j < |b| :: less(b[i], b[j])
    requires forall x :: x in a <==> x in b
    ensures a == b
    decreases |a|
  {
    assert b == [] || b[0] in b;
    if a != [] {
      assert a[0] in b;
      var m, n := |a| - 1, |b| - 1;
      assert a[m] == b[n] by {
        assert a[m] in b && b[n] in a;
        var j :| 0 <= j <= n && b[j] == a[m];
        var i :| 0 <= i <= m && a[i] == b[n];
      }
      forall x ensures x in a[..m] <==> x in b[..n] {
        if x in a[..m] {
          var i :| 0 <= i < m && a[i] == x;
          assert x in b && x != b[n];
        }
        if x in b[..n] {
          var j :| 0 <= j < n && b[j] == x;
          assert x in a && x != a[m];
        }
      }
      SortedSameElements(less, a[..m], b[..n]);
      assert a == a[..m] + [a[m]] && b == b[..n] + [b[n]];
    }
  }

  /** `ensure_strictly_sorted`: the check on neighbouring keys. */
  predicate Ascending<K>(less: (K, K) -> bool, keys: seq<K>) {
    forall i | 0 < i < |keys| :: less(keys[i - 1], keys[i])
  }

  /** The check on neighbours decides the order of every pair, so accepted keys are distinct. */
  lemma {:induction false} AscendingIsSorted<K(!new)>(less: (K, K) -> bool, keys: seq<K>, i: nat, j: nat)
    requires StrictOrder(less) && Ascending(less, keys) && i < j < |keys|
    ensures less(keys[i], keys[j]) && keys[i] != keys[j]
    decreases j
  {
    if i + 1 < j { AscendingIsSorted(less, keys, i, j - 1); }
    assert less(keys[j - 1], keys[j]);
  }
}
