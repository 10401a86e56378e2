/** Folding duplicate contact manifolds: one record per ordered collider pair, chosen by a total
    preference. Floating-point values are modelled as integers, ordered as `total_cmp` orders
    them. */
module ContactAggregation {
  import opened Prelude
  import opened Order

  datatype Phase = Began | Persisted

  datatype Source = JoltEstimatedResponse

  datatype Contact = Contact(
    bodyA: string, colliderA: string, bodyB: string, colliderB: string,
    normal: Axes<int>, point: Axes<int>, penetration: int, impactSpeed: int, impulse: int,
    phase: Phase, source: Source)

  type Key = (string, string, string, string)

  function KeyOf(c: Contact): Key { (c.bodyA, c.colliderA, c.bodyB, c.colliderB) }

  /** The order of tuples: the first differing part decides. */
  predicate KeyLess(a: Key, b: Key) {
    || LexLess(a.0, b.0)
    || (a.0 == b.0 && LexLess(a.1, b.1))
    || (a.0 == b.0 && a.1 == b.1 && LexLess(a.2, b.2))
    || (a.0 == b.0 && a.1 == b.1 && a.2 == b.2 && LexLess(a.3, b.3))
  }

  lemma KeysAreOrdered()
    ensures StrictOrder(KeyLess)
  {
    hide LexLess;
    LexIsStrictOrder();
    forall a: Key, b: Key ensures a == b || KeyLess(a, b) || KeyLess(b, a) {
      assert a.0 == b.0 || LexLess(a.0, b.0) || LexLess(b.0, a.0);
      assert a.1 == b.1 || LexLess(a.1, b.1) || LexLess(b.1, a.1);
      assert a.2 == b.2 || LexLess(a.2, b.2) || LexLess(b.2, a.2);
      assert a.3 == b.3 || LexLess(a.3, b.3) || LexLess(b.3, a.3);
    }
  }

  datatype Ordering = Less | Equal | Greater {
    function ThenWith(next: Ordering): Ordering { if Equal? then next else this }
  }

  function Compare(a: int, b: int): Ordering {
    if a < b then Less else if a > b then Greater else Equal
  }

  function PhaseRank(p: Phase): int {
    match p
    case Persisted => 0
    case Began => 1
  }

  function ContactPreference(left: Contact, right: Contact): Ordering {
    Compare(left.impulse, right.impulse)
      .ThenWith(Compare(left.impactSpeed, right.impactSpeed))
      .ThenWith(Compare(left.penetration, right.penetration))
      .ThenWith(Compare(PhaseRank(left.phase), PhaseRank(right.phase)))
      .ThenWith(Compare(left.point.x, right.point.x))
      .ThenWith(Compare(left.point.y, right.point.y))
      .ThenWith(Compare(left.point.z, right.point.z))
      .ThenWith(Compare(left.normal.x, right.normal.x))
      .ThenWith(Compare(left.normal.y, right.normal.y))
      .ThenWith(Compare(left.normal.z, right.normal.z))
  }

  predicate Preferred(left: Contact, right: Contact) { ContactPreference(left, right).Greater? }

  // ---- the preference is a lexicographic total order -------------------------------------

  /** The compared quantities, most significant first. */
  function Weights(c: Contact): seq<int> {
    [c.impulse, c.impactSpeed, c.penetration, PhaseRank(c.phase),
     c.point.x, c.point.y, c.point.z, c.normal.x, c.normal.y, c.normal.z]
  }

  function CompareAll(a: seq<int>, b: seq<int>): Ordering
    requires |a| == |b|
  {
    if a == [] then Equal else Compare(a[0], b[0]).ThenWith(CompareAll(a[1..], b[1..]))
  }

  lemma CompareDrop(a: seq<int>, b: seq<int>, k: nat)
    requires |a| == |b| && k < |a|
    ensures CompareAll(a[k..], b[k..]) == Compare(a[k], b[k]).ThenWith(CompareAll(a[k + 1..], b[k + 1..]))
  {
    assert a[k..][1..] == a[k + 1..] && b[k..][1..] == b[k + 1..];
  }

  /** The first k comparisons, chained from the left as the preference chains them. */
  function Chained(a: seq<int>, b: seq<int>, k: nat): Ordering
    requires k <= |a| == |b|
  {
    if k == 0 then Equal else Chained(a, b, k - 1).ThenWith(Compare(a[k - 1], b[k - 1]))
  }

  lemma {:induction false} ChainedThenRest(a: seq<int>, b: seq<int>, k: nat)
    requires k <= |a| == |b|
    ensures Chained(a, b, k).ThenWith(CompareAll(a[k..], b[k..])) == CompareAll(a, b)
  {
    hide CompareAll;
    if k == 0 {
      assert a[0..] == a && b[0..] == b;
    } else {
      ChainedThenRest(a, b, k - 1);
      CompareDrop(a, b, k - 1);
    }
  }

  lemma PreferenceIsLexicographic(l: Contact, r: Contact)
    ensures ContactPreference(l, r) == CompareAll(Weights(l), Weights(r))
  {
    var a, b := Weights(l), Weights(r);
    ChainedThenRest(a, b, 10);
    assert CompareAll(a[10..], b[10..]) == Equal;
    hide CompareAll, Compare;
    assert Chained(a, b, 1) == Compare(l.impulse, r.impulse);
    assert Chained(a, b, 2) == Compare(l.impulse, r.impulse).ThenWith(Compare(l.impactSpeed, r.impactSpeed));
    assert Chained(a, b, 4)
        == Chained(a, b, 2).ThenWith(Compare(l.penetration, r.penetration)).ThenWith(Compare(PhaseRank(l.phase),
        PhaseRank(r.phase)));
    assert Chained(a, b, 6)
        == Chained(a, b, 4).ThenWith(Compare(l.point.x, r.point.x)).ThenWith(Compare(l.point.y, r.point.y));
    assert Chained(a, b, 8)
        == Chained(a, b, 6).ThenWith(Compare(l.point.z, r.point.z)).ThenWith(Compare(l.normal.x, r.normal.x));
    assert Chained(a, b, 10)
        == Chained(a, b, 8).ThenWith(Compare(l.normal.y, r.normal.y)).ThenWith(Compare(l.normal.z, r.normal.z));
  }

  lemma {:induction false} CompareAllTotal(a: seq<int>, b: seq<int>)
    requires |a| == |b|
    ensures CompareAll(a, b).Equal? <==> a == b
    ensures CompareAll(a, b).Greater? <==> CompareAll(b, a).Less?
  {
    if a != [] {
      CompareAllTotal(a[1..], b[1..]);
      assert a == [a[0]] + a[1..] && b == [b[0]] + b[1..];
    }
  }

  lemma {:induction false} CompareAllTransitive(a: seq<int>, b: seq<int>, c: seq<int>)
    requires |a| == |b| == |c|
    ensures !CompareAll(a, b).Greater? && !CompareAll(b, c).Greater? ==> !CompareAll(a, c).Greater?
  {
    if a != [] { CompareAllTransitive(a[1..], b[1..], c[1..]); }
  }

  /** A tie under one key is the same record. */
  lemma TiesAreIdentical(l: Contact, r: Contact)
    requires KeyOf(l) == KeyOf(r) && ContactPreference(l, r).Equal?
    ensures l == r
  {
    hide ContactPreference;
    PreferenceIsLexicographic(l, r);
    CompareAllTotal(Weights(l), Weights(r));
    var a, b := Weights(l), Weights(r);
    assert forall i | 0 <= i < 10 :: a[i] == b[i];
    assert a[0] == b[0] && a[1] == b[1] && a[2] == b[2] && a[3] == b[3] && a[4] == b[4];
    assert a[5] == b[5] && a[6] == b[6] && a[7] == b[7] && a[8] == b[8] && a[9] == b[9];
  }

  lemma PreferenceFlips(l: Contact, r: Contact)
    ensures Preferred(l, r) <==> ContactPreference(r, l).Less?
    ensures !(Preferred(l, r) && Preferred(r, l))
  {
    hide ContactPreference;
    PreferenceIsLexicographic(l, r);
    PreferenceIsLexicographic(r, l);
    CompareAllTotal(Weights(l), Weights(r));
    CompareAllTotal(Weights(r), Weights(l));
  }

  lemma NotPreferredTransitive(a: Contact, b: Contact, c: Contact)
    requires !Preferred(a, b) && !Preferred(b, c)
    ensures !Preferred(a, c)
  {
    hide ContactPreference;
    PreferenceIsLexicographic(a, b);
    PreferenceIsLexicographic(b, c);
    PreferenceIsLexicographic(a, c);
    CompareAllTransitive(Weights(a), Weights(b), Weights(c));
  }

  /** The two lists differ first at `k`, and there the left one is larger. */
  predicate LargerFirstAt(a: seq<int>, b: seq<int>, k: nat) {
    k < |a| == |b| && a[..k] == b[..k] && a[k] > b[k]
  }

  lemma {:induction false} GreaterMeans(a: seq<int>, b: seq<int>)
    requires |a| == |b|
    ensures CompareAll(a, b).Greater? <==> exists k: nat :: LargerFirstAt(a, b, k)
  {
    if a != [] {
      GreaterMeans(a[1..], b[1..]);
      if a[0] == b[0] {
        if k: nat :| LargerFirstAt(a[1..], b[1..], k) {
          assert a[..k + 1] == [a[0]] + a[1..][..k] && b[..k + 1] == [b[0]] + b[1..][..k];
          assert LargerFirstAt(a, b, k + 1);
        }
        if k: nat :| LargerFirstAt(a, b, k) {
          assert k > 0;
          assert a[1..][..k - 1] == a[..k][1..] && b[1..][..k - 1] == b[..k][1..];
          assert LargerFirstAt(a[1..], b[1..], k - 1);
        }
      } else {
        if a[0] > b[0] { assert LargerFirstAt(a, b, 0); }
        forall k: nat | k <= |a| ensures a[..k] == b[..k] <==> k == 0 { StartsDiffer(a, b, k); }
      }
    }
  }

  /** A contact is preferred exactly when, at the first of the ten quantities on which the two
      differ, it has the larger one; a contact that began counts more than one that persisted. */
  lemma PreferredMeans(l: Contact, r: Contact)
    ensures var began, other := if l.phase.Began? then 1 else 0, if r.phase.Began? then 1 else 0;
            Preferred(l, r) <==> exists k: nat :: LargerFirstAt(
              [l.impulse, l.impactSpeed, l.penetration, began,
               l.point.x, l.point.y, l.point.z, l.normal.x, l.normal.y, l.normal.z],
              [r.impulse, r.impactSpeed, r.penetration, other,
               r.point.x, r.point.y, r.point.z, r.normal.x, r.normal.y, r.normal.z], k)
  {
    hide ContactPreference, LargerFirstAt, CompareAll;
    PreferenceIsLexicographic(l, r);
    GreaterMeans(Weights(l), Weights(r));
    assert Weights(l) == [l.impulse, l.impactSpeed, l.penetration, if l.phase.Began? then 1 else 0,
      l.point.x, l.point.y, l.point.z, l.normal.x, l.normal.y, l.normal.z];
    assert Weights(r) == [r.impulse, r.impactSpeed, r.penetration, if r.phase.Began? then 1 else 0,
      r.point.x, r.point.y, r.point.z, r.normal.x, r.normal.y, r.normal.z];
    hide Weights;
  }

  /** The parts of a key agree up to `k`, where the left one comes first in the order of texts. */
  ghost predicate PartFirstAt(a: seq<string>, b: seq<string>, k: nat) {
    k < |a| == |b| && a[..k] == b[..k] && exists n: nat :: DiffersAt(a[k], b[k], n)
  }

  /** Records are ordered by body, collider, other body, other collider, each as text. */
  lemma KeyOrderMeans(l: Contact, r: Contact)
    ensures KeyLess(KeyOf(l), KeyOf(r)) <==> exists k: nat :: PartFirstAt(
              [l.bodyA, l.colliderA, l.bodyB, l.colliderB], [r.bodyA, r.colliderA, r.bodyB, r.colliderB], k)
  {
    hide LexLess, DiffersAt;
    var a, b := [l.bodyA, l.colliderA, l.bodyB, l.colliderB], [r.bodyA, r.colliderA, r.bodyB, r.colliderB];
    forall k: nat | k < 4 ensures LexLess(a[k], b[k]) <==> exists n: nat :: DiffersAt(a[k], b[k], n) {
      LexLessMeans(a[k], b[k]);
    }
    forall k: nat | k < 4 ensures PartFirstAt(a, b, k) <==> a[..k] == b[..k] && LexLess(a[k], b[k]) {}
    hide PartFirstAt;
    assert a[..0] == b[..0];
    assert a[..1] == b[..1] <==> a[0] == b[0];
    assert a[..2] == b[..2] <==> a[0] == b[0] && a[1] == b[1];
    assert a[..3] == b[..3] <==> a[0] == b[0] && a[1] == b[1] && a[2] == b[2];
    assert PartFirstAt(a, b, 0) <==> LexLess(a[0], b[0]);
    assert PartFirstAt(a, b, 1) <==> a[..1] == b[..1] && LexLess(a[1], b[1]);
    assert PartFirstAt(a, b, 2) <==> a[..2] == b[..2] && LexLess(a[2], b[2]);
    assert PartFirstAt(a, b, 3) <==> a[..3] == b[..3] && LexLess(a[3], b[3]);
    forall k: nat | PartFirstAt(a, b, k) ensures k < 4 { OnlyParts(a, b, k); }
  }

  lemma OnlyParts(a: seq<string>, b: seq<string>, k: nat)
    requires PartFirstAt(a, b, k)
    ensures k < |a|
  {}

  // ---- aggregation -----------------------------------------------------------------------

  /** The entry kept for a key is one of the contacts of that key, and none of them beats it. */
  ghost predicate Champion(contacts: seq<Contact>, key: Key, best: Contact) {
    && best in contacts && KeyOf(best) == key
    && forall c | c in contacts && KeyOf(c) == key :: !Preferred(c, best)
  }

  /** One champion per key, in strict key order. */
  ghost predicate Aggregates(contacts: seq<Contact>, result: seq<Contact>) {
    && (forall i, j | 0 <= i < j < |result| :: KeyLess(KeyOf(result[i]), KeyOf(result[j])))
    && (forall i | 0 <= i < |result| :: Champion(contacts, KeyOf(result[i]), result[i]))
    && (forall c | c in contacts :: HasKey(result, KeyOf(c)))
  }

  ghost predicate HasKey(result: seq<Contact>, key: Key) {
    exists i :: 0 <= i < |result| && KeyOf(result[i]) == key
  }

  /** The state of the fold: an ordered map from key to the best record so far. */
  ghost predicate Folded(contacts: seq<Contact>, entries: seq<(Key, Contact)>, m: map<Key, Contact>) {
    && Lists(KeyLess, entries, m)
    && (forall k | k in m :: Champion(contacts, k, m[k]))
    && (forall c | c in contacts :: KeyOf(c) in m)
  }

  lemma FoldStep(contacts: seq<Contact>, m: map<Key, Contact>, c: Contact, best: Contact)
    requires forall k | k in m :: Champion(contacts, k, m[k])
    requires forall x | x in contacts :: KeyOf(x) in m
    requires best == if KeyOf(c) in m && !Preferred(c, m[KeyOf(c)]) then m[KeyOf(c)] else c
    ensures var n := m[KeyOf(c) := best];
            (forall k | k in n :: Champion(contacts + [c], k, n[k]))
              && (forall x | x in contacts + [c] :: KeyOf(x) in n)
  {
    hide Preferred, KeyOf;
    var n := m[KeyOf(c) := best];
    forall k | k in n ensures Champion(contacts + [c], k, n[k]) {
      if k != KeyOf(c) {
        assert Champion(contacts, k, m[k]);
      } else {
        PreferenceFlips(c, c);
        forall x | x in contacts + [c] && KeyOf(x) == k ensures !Preferred(x, best) {
          if x in contacts {
            assert Champion(contacts, k, m[k]);
            if best == c {
              PreferenceFlips(c, m[k]);
              NotPreferredTransitive(x, m[k], c);
            }
          }
        }
      }
    }
  }

  method AggregateContacts(contacts: seq<Contact>) returns (result: seq<Contact>)
    ensures Aggregates(contacts, result)
  {
    hide KeyLess, Preferred, KeyOf, Champion, Lists;
    KeysAreOrdered();
    hide StrictOrder;
    var aggregate: seq<(Key, Contact)> := [];
    ghost var m: map<Key, Contact> := map[];
    EmptyLists();
    for i := 0 to |contacts|
      invariant Folded(contacts[..i], aggregate, m)
    {
      var contact := contacts[i];
      var key := KeyOf(contact);
      assert contacts[..i + 1] == contacts[..i] + [contact];
      HasIsMembership(KeyLess, aggregate, m, key);
      if !Has(KeyLess, aggregate, key) {
        FoldStep(contacts[..i], m, contact, contact);
        PutLists(KeyLess, aggregate, m, key, contact);
        aggregate, m := Put(KeyLess, aggregate, key, contact), m[key := contact];
      } else if Preferred(contact, Get(KeyLess, aggregate, key)) {
        FoldStep(contacts[..i], m, contact, contact);
        PutLists(KeyLess, aggregate, m, key, contact);
        aggregate, m := Put(KeyLess, aggregate, key, contact), m[key := contact];
      } else {
        FoldStep(contacts[..i], m, contact, m[key]);
        assert m[key := m[key]] == m;
      }
    }
    assert contacts[..|contacts|] == contacts;
    result := seq(|aggregate|, i requires 0 <= i < |aggregate| => aggregate[i].1);
    FoldedAggregates(contacts, aggregate, m, result);
  }

  lemma EmptyLists()
    ensures Folded([], [], map[])
  {}

  lemma FoldedAggregates(contacts: seq<Contact>, entries: seq<(Key, Contact)>, m: map<Key, Contact>,
      result: seq<Contact>)
    requires Folded(contacts, entries, m)
    requires |result| == |entries| && forall i | 0 <= i < |entries| :: result[i] == entries[i].1
    ensures Aggregates(contacts, result)
  {
    hide KeyLess, Preferred;
    forall i | 0 <= i < |entries|
      ensures KeyOf(result[i]) == entries[i].0 && Champion(contacts, KeyOf(result[i]), result[i])
    {
      assert Champion(contacts, entries[i].0, m[entries[i].0]);
    }
    forall c | c in contacts ensures HasKey(result, KeyOf(c)) {
      assert Listed(entries, KeyOf(c));
      var i :| 0 <= i < |entries| && entries[i].0 == KeyOf(c);
      assert KeyOf(result[i]) == KeyOf(c);
    }
  }

  /** The output depends only on which contacts there are: neither their order nor repetitions
      matter. In particular it is the same for every permutation of the input. */
  lemma AggregationIgnoresOrder(a: seq<Contact>, b: seq<Contact>, resultA: seq<Contact>, resultB: seq<Contact>)
    requires forall c :: c in a <==> c in b
    requires Aggregates(a, resultA) && Aggregates(b, resultB)
    ensures resultA == resultB
  {
    hide KeyLess, Preferred;
    KeysAreOrdered();
    forall c ensures c in resultA <==> c in resultB {
      if c in resultA { ChampionShared(a, b, resultA, resultB, c); }
      if c in resultB { ChampionShared(b, a, resultB, resultA, c); }
    }
    var less := (x, y) => KeyLess(KeyOf(x), KeyOf(y));
    hide StrictOrder;
    forall x ensures !less(x, x) { Asymmetric(KeyLess, KeyOf(x), KeyOf(x)); }
    forall x, y | less(x, y) ensures !less(y, x) { Asymmetric(KeyLess, KeyOf(x), KeyOf(y)); }
    SortedSameElements(less, resultA, resultB);
  }

  lemma ChampionShared(a: seq<Contact>, b: seq<Contact>, resultA: seq<Contact>, resultB: seq<Contact>, c: Contact)
    requires forall x :: x in a <==> x in b
    requires Aggregates(a, resultA) && Aggregates(b, resultB) && c in resultA
    ensures c in resultB
  {
    hide KeyLess, ContactPreference;
    var i :| 0 <= i < |resultA| && resultA[i] == c;
    assert Champion(a, KeyOf(c), c);
    assert HasKey(resultB, KeyOf(c));
    var j :| 0 <= j < |resultB| && KeyOf(resultB[j]) == KeyOf(c);
    var d := resultB[j];
    assert Champion(b, KeyOf(d), d);
    assert !Preferred(c, d) && !Preferred(d, c);
    PreferenceFlips(c, d);
    PreferenceFlips(d, c);
    TiesAreIdentical(c, d);
  }
}
